/** The form builder's save: the name and slug checks, the slug ownership
    check, and the rows written for the form and its questions; also the
    slug input's sanitiser and the import metadata callback. */
module FormBuilder {
  import opened Wrappers
  import opened Strings
  import opened JsValues
  import opened Types

  const NAME_REQUIRED := "Form name is required"
  const SLUG_CHARACTERS := "Custom slug can only contain letters, numbers, hyphens, and underscores"
  const SLUG_TAKEN := "This custom slug is already taken. Please choose a different one."
  const SAVE_FAILED := "An error occurred while saving the form"

  /** A character of `[a-zA-Z0-9_-]`. */
  predicate UrlSlugChar(c: char) {
    IsUpper(c) || IsLower(c) || IsDigit(c) || c == '_' || c == '-'
  }

  /** `/^[a-zA-Z0-9_-]+$/.test(s)`. */
  predicate IsUrlSlug(s: string) {
    |s| > 0 && forall i :: 0 <= i < |s| ==> UrlSlugChar(s[i])
  }

  /** The slug input's `replace(/[^a-zA-Z0-9_-]/g, '')`. */
  function SanitizeSlug(s: string): (r: string)
    ensures forall i :: 0 <= i < |r| ==> UrlSlugChar(r[i])
    ensures |r| <= |s|
  {
    if s == [] then []
    else (if UrlSlugChar(s[0]) then [s[0]] else []) + SanitizeSlug(s[1..])
  }

  /** Whatever is typed, the slug field holds either nothing or a slug the
      save check accepts, and sanitising it again changes nothing. */
  lemma {:induction false} SanitizedSlugPasses(s: string)
    ensures SanitizeSlug(s) == "" || IsUrlSlug(SanitizeSlug(s))
    ensures SanitizeSlug(SanitizeSlug(s)) == SanitizeSlug(s)
  {
    SanitizeKeepsSlug(SanitizeSlug(s));
  }

  /** A string of slug characters is left as it is. */
  lemma {:induction false} SanitizeKeepsSlug(s: string)
    requires forall i :: 0 <= i < |s| ==> UrlSlugChar(s[i])
    ensures SanitizeSlug(s) == s
  {
    if s != [] {
      SanitizeKeepsSlug(s[1..]);
    }
  }

  /** A slug has no surrounding whitespace, so the `trim()` applied before
      it is stored changes nothing. */
  lemma SlugIsTrimmed(s: string)
    requires IsUrlSlug(s)
    ensures Trim(s) == s
  {
    assert !IsSpace(s[0]) && !IsSpace(s[|s| - 1]);
    assert TrimStart(s) == s;
  }

  /** The checks made before the save starts: a blank name or a slug with
      other characters. The lookup of the slug's owner comes after. */
  predicate RejectedBeforeSaving(name: string, customSlug: string) {
    Trim(name) == "" || (customSlug != "" && !IsUrlSlug(customSlug))
  }

  /** The checks before anything is written, in the order the save makes
      them: an empty name, a slug with other characters, and a slug that a
      different form already uses. `slugOwner` is the id of the form the
      lookup found with this slug, if any; `formId` the id of the form being
      edited, `None` for a new one. */
  function SaveCheck(name: string, customSlug: string, slugOwner: Option<string>,
                     formId: Option<string>): (r: Option<string>)
  {
    if Trim(name) == "" then Some(NAME_REQUIRED)
    else if customSlug != "" && !IsUrlSlug(customSlug) then Some(SLUG_CHARACTERS)
    else if customSlug != "" && slugOwner.Some? &&
            (formId.None? || slugOwner.value != formId.value) then Some(SLUG_TAKEN)
    else None
  }

  /** The checks pass exactly when the name is not blank, and the slug is
      empty, or a valid slug that is free or belongs to the form itself. */
  lemma SaveCheckSpec(name: string, customSlug: string, slugOwner: Option<string>,
                      formId: Option<string>)
    ensures SaveCheck(name, customSlug, slugOwner, formId).None? <==>
              (exists i :: 0 <= i < |name| && !IsSpace(name[i])) &&
              (customSlug == "" ||
               (IsUrlSlug(customSlug) && (slugOwner.None? || slugOwner == formId)))
    ensures formId.Some? && slugOwner == formId && Trim(name) != "" &&
            (customSlug == "" || IsUrlSlug(customSlug)) ==>
              SaveCheck(name, customSlug, slugOwner, formId).None?
    ensures RejectedBeforeSaving(name, customSlug) ==>
              SaveCheck(name, customSlug, slugOwner, formId) ==
                Some(if Trim(name) == "" then NAME_REQUIRED else SLUG_CHARACTERS)
    ensures !RejectedBeforeSaving(name, customSlug) && SaveCheck(name, customSlug, slugOwner, formId).Some? ==>
              SaveCheck(name, customSlug, slugOwner, formId) == Some(SLUG_TAKEN)
  {
    TrimSpec(name);
  }

  /** The form row sent to insert or update. */
  datatype FormRow = FormRow(name: string, description: string, isActive: bool,
                             customSlug: Option<string>)

  function FormRowOf(name: string, description: string, isActive: bool,
                     customSlug: string): (r: FormRow)
    ensures r.customSlug.Some? <==> customSlug != ""
  {
    FormRow(Trim(name), Trim(description), isActive,
            if customSlug != "" then Some(Trim(customSlug)) else None)
  }

  /** A slug that passed the check is stored exactly as typed. */
  lemma StoredSlug(name: string, description: string, isActive: bool, customSlug: string)
    requires IsUrlSlug(customSlug)
    ensures FormRowOf(name, description, isActive, customSlug).customSlug == Some(customSlug)
  {
    SlugIsTrimmed(customSlug);
  }

  /** A question row sent to the insert. */
  datatype QuestionRow = QuestionRow(
    formId: string,
    questionText: string,
    questionId: string,
    questionType: string,
    options: Option<seq<QuestionOption>>,
    isRequired: bool,
    orderNumber: nat,
    placeholder: Option<string>)

  function RowOf(formId: string, q: Question, index: nat): QuestionRow {
    QuestionRow(formId, q.questionText,
                if q.questionId != "" then q.questionId else DefaultQuestionId(index),
                q.questionType, q.options, q.isRequired, index + 1, q.placeholder)
  }

  /** `questionsToInsert`. */
  function QuestionsToInsert(formId: string, questions: seq<Question>): (r: seq<QuestionRow>)
    ensures |r| == |questions|
    ensures forall i :: 0 <= i < |questions| ==> r[i] == RowOf(formId, questions[i], i)
  {
    seq(|questions|, i requires 0 <= i < |questions| => RowOf(formId, questions[i], i))
  }

  /** The stored questions are numbered 1..n in list order, keep their
      content, and those without an id get `q_{i+1}`, which no other
      question without an id gets. */
  lemma QuestionsToInsertSpec(formId: string, questions: seq<Question>, i: nat, j: nat)
    requires i < |questions| && j < |questions|
    ensures var r := QuestionsToInsert(formId, questions);
            r[i].orderNumber == i + 1 && r[i].formId == formId &&
            r[i].questionText == questions[i].questionText &&
            r[i].questionType == questions[i].questionType &&
            r[i].options == questions[i].options &&
            r[i].isRequired == questions[i].isRequired &&
            r[i].placeholder == questions[i].placeholder &&
            (questions[i].questionId != "" ==> r[i].questionId == questions[i].questionId)
    ensures var r := QuestionsToInsert(formId, questions);
            i != j && questions[i].questionId == "" && questions[j].questionId == "" ==>
              r[i].questionId != r[j].questionId
  {
    if i != j {
      DefaultQuestionIdInjective(i, j);
    }
  }

  /** The error a failed write leaves: the message of a thrown `Error`,
      or the fallback for any other thrown value. */
  function WriteError(writeFailure: Option<Option<string>>): (r: Option<string>)
    ensures r.None? <==> writeFailure.None?
    ensures writeFailure == Some(None) ==> r == Some(SAVE_FAILED)
  {
    match writeFailure
    case None => None
    case Some(thrown) => Some(if thrown.Some? then thrown.value else SAVE_FAILED)
  }

  /** What a save writes: the form row and the question rows. */
  datatype SaveRequest = SaveRequest(form: FormRow, questions: seq<QuestionRow>)

  function SaveRequestOf(id: string, name: string, description: string, isActive: bool,
                         customSlug: string, questions: seq<Question>): (r: SaveRequest)
    ensures r.form.customSlug.Some? <==> customSlug != ""
    ensures |r.questions| == |questions|
  {
    SaveRequest(FormRowOf(name, description, isActive, customSlug), QuestionsToInsert(id, questions))
  }

  class Builder {
    const formId: Option<string>
    var name: string
    var description: string
    var customSlug: string
    var isActive: bool
    var questions: seq<Question>
    var isSaving: bool
    var error: Option<string>

    constructor(formId: Option<string>, name: string, description: string, customSlug: string,
                isActive: bool, questions: seq<Question>)
      ensures this.formId == formId && this.name == name && this.description == description
      ensures this.customSlug == customSlug && this.isActive == isActive
      ensures this.questions == questions && !isSaving && error.None?
    {
      this.formId := formId;
      this.name := name;
      this.description := description;
      this.customSlug := customSlug;
      this.isActive := isActive;
      this.questions := questions;
      isSaving := false;
      error := None;
    }

    /** Typing in the slug field keeps only slug characters. */
    method SetCustomSlug(input: string)
      modifies this
      ensures customSlug == SanitizeSlug(input)
      ensures customSlug == "" || IsUrlSlug(customSlug)
      ensures name == old(name) && description == old(description) && error == old(error)
      ensures questions == old(questions) && isActive == old(isActive) && isSaving == old(isSaving)
    {
      customSlug := SanitizeSlug(input);
      SanitizedSlugPasses(input);
    }

    /** The import metadata callback: a non-empty title replaces the name,
        a non-empty description the description. */
    method OnFormMetadata(title: string, desc: string)
      modifies this
      ensures name == (if title != "" then title else old(name))
      ensures description == (if desc != "" then desc else old(description))
      ensures customSlug == old(customSlug) && error == old(error) && questions == old(questions)
      ensures isActive == old(isActive) && isSaving == old(isSaving)
    {
      if title != "" {
        name := title;
      }
      if desc != "" {
        description := desc;
      }
    }

    /** The save. `slugOwner` is what the slug lookup found (`None` also
        when the lookup threw, which skips the check); `newId` the id the
        database gives a new form; `writeFailure` what the first failing
        write threw, if any. Returns what the save sends, once the checks
        have passed. */
    method HandleSave(slugOwner: Option<string>, newId: string,
                      writeFailure: Option<Option<string>>)
      returns (request: Option<SaveRequest>)
      modifies this`isSaving, this`error
      ensures request.Some? <==> SaveCheck(name, customSlug, slugOwner, formId).None?
      ensures SaveCheck(name, customSlug, slugOwner, formId).Some? ==>
                error == SaveCheck(name, customSlug, slugOwner, formId)
      ensures RejectedBeforeSaving(name, customSlug) ==> isSaving == old(isSaving)
      ensures !RejectedBeforeSaving(name, customSlug) ==> !isSaving
      ensures request.Some? ==>
                request.value == SaveRequestOf(if formId.Some? then formId.value else newId, name,
                                               description, isActive, customSlug, questions)
      ensures request.Some? ==> error == WriteError(writeFailure)
    {
      var check := SaveCheck(name, customSlug, slugOwner, formId);
      if RejectedBeforeSaving(name, customSlug) {
        error := check;
        request := None;
      } else if check.Some? {
        error := check;
        isSaving := false;
        request := None;
      } else {
        var id := if formId.Some? then formId.value else newId;
        request := Some(SaveRequestOf(id, name, description, isActive, customSlug, questions));
        error := WriteError(writeFailure);
        isSaving := false;
      }
    }
  }
}
