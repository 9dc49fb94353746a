/** The single-page form: every question on one page, whole-form validation
    on submit, and a submission that is refused when the email has already
    been used. */
module PublicFormRenderer {
  import opened Wrappers
  import opened Strings
  import opened JsValues
  import opened Types
  import opened FormAnswers

  const ONE_SUBMISSION := "You have already submitted this form. Only one submission per user is allowed."
  const SUBMIT_FAILED := "An error occurred while submitting the form"
  const MISSING_PREFIX := "Please answer all required questions: "
  /** The database's unique-violation error code. */
  const UNIQUE_VIOLATION := "23505"

  /** The list a checkbox change starts from: the answer, or `[]` when it is
      falsy. */
  function Current(v: JsVal): JsVal {
    if Truthy(v) then v else Arr([])
  }

  /** Spreading a string gives its characters. */
  function Chars(s: string): (r: seq<JsVal>)
    ensures |r| == |s| && forall i :: 0 <= i < |s| ==> r[i] == Str([s[i]])
  {
    seq(|s|, i requires 0 <= i < |s| => Str([s[i]]))
  }

  /** The answer after a checkbox change. Checking appends the value, even
      when it is already there; unchecking removes every copy of it. `None`
      stands for the TypeError raised when the current answer cannot be
      spread (checking) or has no `filter` (unchecking): anything but an
      array, and for checking also anything but a string. */
  function CheckboxChange(current: JsVal, value: string, checked: bool): (r: Option<JsVal>)
    ensures r.Some? ==> r.value.Arr?
    ensures Current(current).Arr? ==> r.Some?
  {
    var cur := Current(current);
    if checked then
      match cur
      case Arr(xs) => Some(Arr(xs + [Str(value)]))
      case Str(s) => Some(Arr(Chars(s) + [Str(value)]))
      case _ => None
    else if cur.Arr? then Some(Arr(RemoveStr(cur.elems, value)))
    else None
  }

  /** Checking adds exactly one more copy of the value and keeps the rest in
      order; unchecking leaves no copy and keeps the order of what remains. */
  lemma CheckboxChangeSpec(xs: seq<JsVal>, value: string)
    ensures CheckboxChange(Arr(xs), value, true) == Some(Arr(xs + [Str(value)]))
    ensures multiset(CheckboxChange(Arr(xs), value, true).value.elems) ==
              multiset(xs) + multiset{Str(value)}
    ensures Str(value) !in CheckboxChange(Arr(xs), value, false).value.elems
    ensures forall v :: v != Str(value) ==>
              (v in CheckboxChange(Arr(xs), value, false).value.elems <==> v in xs)
  {
  }

  /** Unchecking after checking removes every copy, including those that
      were there before. */
  lemma {:induction false} CheckThenUncheck(xs: seq<JsVal>, value: string)
    ensures CheckboxChange(Arr(xs + [Str(value)]), value, false) == Some(Arr(RemoveStr(xs, value)))
  {
    RemoveStrConcat(xs, [Str(value)], value);
    assert [Str(value)][1..] == [];
    assert RemoveStr([Str(value)], value) == [];
    assert Current(Arr(xs + [Str(value)])) == Arr(xs + [Str(value)]);
    assert RemoveStr(xs + [Str(value)], value) == RemoveStr(xs, value);
    assert CheckboxChange(Arr(xs + [Str(value)]), value, false) == Some(Arr(RemoveStr(xs + [Str(value)], value)));
  }

  /** The required questions whose answer is missing, in form order. */
  function MissingQuestions(questions: seq<Question>, answers: map<string, JsVal>): (r: seq<Question>)
    ensures forall q :: q in r <==>
              q in questions && q.isRequired && Missing(At(answers, q.questionId))
    ensures |r| <= |questions|
  {
    if questions == [] then []
    else
      var rest := MissingQuestions(questions[1..], answers);
      var q := questions[0];
      assert forall x :: x in questions <==> x == q || x in questions[1..];
      if q.isRequired && Missing(At(answers, q.questionId)) then [q] + rest else rest
  }

  /** The filter keeps form order: it distributes over concatenation. */
  lemma {:induction false} MissingQuestionsConcat(a: seq<Question>, b: seq<Question>,
                                                  answers: map<string, JsVal>)
    ensures MissingQuestions(a + b, answers) ==
              MissingQuestions(a, answers) + MissingQuestions(b, answers)
  {
    if a == [] {
      assert a + b == b;
    } else {
      assert (a + b)[1..] == a[1..] + b;
      MissingQuestionsConcat(a[1..], b, answers);
    }
  }

  function Texts(qs: seq<Question>): (r: seq<string>)
    ensures |r| == |qs| && forall i :: 0 <= i < |qs| ==> r[i] == qs[i].questionText
  {
    seq(|qs|, i requires 0 <= i < |qs| => qs[i].questionText)
  }

  /** The error of whole-form validation, or `None` when the form may be
      submitted. */
  function ValidateForm(questions: seq<Question>, answers: map<string, JsVal>): (r: Option<string>)
  {
    var missing := MissingQuestions(questions, answers);
    if |missing| > 0 then Some(MISSING_PREFIX + Join(Texts(missing), ", ")) else None
  }

  /** The form validates exactly when every required question has an
      answer that is truthy and not an empty list; otherwise the message
      names the missing questions. */
  lemma ValidateFormSpec(questions: seq<Question>, answers: map<string, JsVal>)
    ensures ValidateForm(questions, answers).None? <==>
              forall i :: 0 <= i < |questions| && questions[i].isRequired ==>
                !Missing(At(answers, questions[i].questionId))
    ensures ValidateForm(questions, answers).Some? ==>
              ValidateForm(questions, answers).value ==
                MISSING_PREFIX + Join(Texts(MissingQuestions(questions, answers)), ", ")
  {
    var missing := MissingQuestions(questions, answers);
    if |missing| > 0 {
      assert missing[0] in missing;
    } else {
      forall i | 0 <= i < |questions| && questions[i].isRequired
        ensures !Missing(At(answers, questions[i].questionId))
      {
        assert questions[i] in questions;
        assert questions[i] !in missing;
      }
    }
  }

  /** What the insert reported: its error code, whether the thrown value is
      an `Error`, and its message. */
  datatype InsertFailure = InsertFailure(code: string, isError: bool, message: string)

  /** The error a submission of a valid form ends with, or `None` when it
      is stored. */
  function SubmitOutcome(answers: map<string, JsVal>, existing: bool,
                         failure: Option<InsertFailure>): (r: Option<string>)
  {
    if Truthy(UserEmail(answers)) && existing then Some(ONE_SUBMISSION)
    else match failure
      case None => None
      case Some(f) =>
        if f.code == UNIQUE_VIOLATION then Some(ONE_SUBMISSION)
        else if f.isError then Some(f.message)
        else Some(SUBMIT_FAILED)
  }

  /** A duplicate is reported the same way whether the lookup finds the
      earlier submission or the database refuses the insert; a submission is
      stored exactly when neither happens and the insert succeeds. */
  lemma SubmitOutcomeSpec(answers: map<string, JsVal>, existing: bool,
                          failure: Option<InsertFailure>)
    ensures SubmitOutcome(answers, existing, failure).None? <==>
              !(Truthy(At(answers, "email")) && existing) && failure.None?
    ensures (Truthy(At(answers, "email")) && existing) ||
            (failure.Some? && failure.value.code == UNIQUE_VIOLATION) ==>
              SubmitOutcome(answers, existing, failure) == Some(ONE_SUBMISSION)
    ensures !Truthy(At(answers, "email")) ==>
              SubmitOutcome(answers, existing, failure) == SubmitOutcome(answers, !existing, failure)
  {
  }

  class PublicForm {
    const formId: string
    const questions: seq<Question>
    var answers: map<string, JsVal>
    var isSubmitting: bool
    var isSubmitted: bool
    var error: Option<string>

    constructor(formId: string, questions: seq<Question>)
      ensures this.formId == formId && this.questions == questions
      ensures answers == map[] && !isSubmitting && !isSubmitted && error.None?
    {
      this.formId := formId;
      this.questions := questions;
      answers := map[];
      isSubmitting := false;
      isSubmitted := false;
      error := None;
    }

    /** Sets the one answer and leaves every other answer as it was. */
    method HandleAnswerChange(questionId: string, value: JsVal)
      modifies this
      ensures answers == old(answers)[questionId := value]
      ensures forall k :: k in old(answers) && k != questionId ==> k in answers && answers[k] == old(answers)[k]
      ensures isSubmitting == old(isSubmitting) && isSubmitted == old(isSubmitted)
      ensures error == old(error)
    {
      answers := answers[questionId := value];
    }

    /** A checkbox change. The throwing case cannot arise in the form:
        only this handler writes a checkbox question's answer, and it always
        writes an array. In React a throwing state updater would abort the
        render rather than keep the old answers; the model keeps them so that
        the method is total. */
    method HandleMultipleChoiceChange(questionId: string, value: string, checked: bool)
      modifies this
      ensures var r := CheckboxChange(At(old(answers), questionId), value, checked);
              answers == if r.Some? then old(answers)[questionId := r.value] else old(answers)
      ensures isSubmitting == old(isSubmitting) && isSubmitted == old(isSubmitted)
      ensures error == old(error)
    {
      var r := CheckboxChange(At(answers, questionId), value, checked);
      if r.Some? {
        answers := answers[questionId := r.value];
      }
    }

    /** Submit: an incomplete form only sets the validation error; a
        complete one is sent, unless the lookup finds an earlier submission
        with the same email. `existing` and `failure` are what the database
        answered. Returns the row sent to the insert. */
    method HandleSubmit(existing: bool, failure: Option<InsertFailure>)
      returns (row: Option<Insertion>)
      modifies this
      ensures answers == old(answers)
      ensures var invalid := ValidateForm(questions, old(answers));
              if invalid.Some? then
                error == invalid && row.None? && isSubmitted == old(isSubmitted) &&
                isSubmitting == old(isSubmitting)
              else
                !isSubmitting &&
                var e := SubmitOutcome(old(answers), existing, failure);
                error == e && isSubmitted == (old(isSubmitted) || e.None?) &&
                row == (if Truthy(UserEmail(old(answers))) && existing then None
                        else Some(Insertion(formId, UserEmail(old(answers)), None, old(answers))))
    {
      var invalid := ValidateForm(questions, answers);
      if invalid.Some? {
        error := invalid;
        row := None;
        return;
      }
      isSubmitting := true;
      error := None;
      var userEmail := UserEmail(answers);
      if Truthy(userEmail) && existing {
        error := Some(ONE_SUBMISSION);
        isSubmitting := false;
        row := None;
        return;
      }
      row := Some(Insertion(formId, userEmail, None, answers));
      error := SubmitOutcome(answers, existing, failure);
      if error.None? {
        isSubmitted := true;
      }
      isSubmitting := false;
    }
  }
}
