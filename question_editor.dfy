/** The question list editor of components/admin/question-editor.tsx. The
    list the form builder owns and the index of the question being edited
    are the fields of a `QuestionEditor`; each handler is a method that
    replaces the list (the source copies the array and assigns one slot).
    Identifiers and timestamps that the source draws from
    `crypto.randomUUID()` and `new Date()` are parameters. */
module QuestionEditor {
  import opened Wrappers
  import opened Strings
  import opened Types

  // ---------------------------------------------------------------------
  // Values

  /** A `Partial<EcellQuestion>`: the fields an update sets. `options` and
      `placeholder` are themselves nullable, hence the nested `Option`. */
  datatype QuestionPatch = QuestionPatch(
    questionText: Option<string>,
    questionId: Option<string>,
    questionType: Option<string>,
    options: Option<Option<seq<QuestionOption>>>,
    isRequired: Option<bool>,
    placeholder: Option<Option<string>>)

  const NoChange := QuestionPatch(None, None, None, None, None, None)

  /** `{ ...q, ...patch }`. */
  function Merge(q: Question, p: QuestionPatch): (r: Question)
    ensures r.id == q.id && r.formId == q.formId && r.orderNumber == q.orderNumber && r.createdAt == q.createdAt
    ensures r.questionText == (if p.questionText.Some? then p.questionText.value else q.questionText)
    ensures r.questionId == (if p.questionId.Some? then p.questionId.value else q.questionId)
    ensures r.questionType == (if p.questionType.Some? then p.questionType.value else q.questionType)
    ensures r.options == (if p.options.Some? then p.options.value else q.options)
    ensures r.isRequired == (if p.isRequired.Some? then p.isRequired.value else q.isRequired)
    ensures r.placeholder == (if p.placeholder.Some? then p.placeholder.value else q.placeholder)
  {
    q.(questionText := if p.questionText.Some? then p.questionText.value else q.questionText,
       questionId := if p.questionId.Some? then p.questionId.value else q.questionId,
       questionType := if p.questionType.Some? then p.questionType.value else q.questionType,
       options := if p.options.Some? then p.options.value else q.options,
       isRequired := if p.isRequired.Some? then p.isRequired.value else q.isRequired,
       placeholder := if p.placeholder.Some? then p.placeholder.value else q.placeholder)
  }

  lemma MergeNoChange(q: Question)
    ensures Merge(q, NoChange) == q
  {
  }

  /** The question `addQuestion` appends to a list of `n` questions. */
  function NewQuestion(n: nat, id: string, createdAt: string): (r: Question)
    ensures r.questionId == DefaultQuestionId(n) && r.orderNumber == n + 1
    ensures r.questionType == "text" && r.isRequired && r.options.None?
    ensures r.questionText == "" && r.placeholder.None?
  {
    Question(id, "", "", DefaultQuestionId(n), "text", None, true, n + 1, None, createdAt)
  }

  /** `list.filter((_, i) => i !== index)`. */
  function RemoveAt<T>(s: seq<T>, index: nat): (r: seq<T>)
    ensures index < |s| ==> |r| == |s| - 1
    ensures index >= |s| ==> r == s
    ensures forall i :: 0 <= i < |r| ==> r[i] == if i < index then s[i] else s[i + 1]
  {
    if index < |s| then s[..index] + s[index + 1..] else s
  }

  /** Removing one element removes one occurrence from the multiset. */
  lemma RemoveAtMultiset<T>(s: seq<T>, index: nat)
    requires index < |s|
    ensures multiset(RemoveAt(s, index)) + multiset{s[index]} == multiset(s)
  {
    assert s == s[..index] + [s[index]] + s[index + 1..];
  }

  /** The destructuring swap `[u[i], u[j]] = [u[j], u[i]]`. */
  function Swap<T>(s: seq<T>, i: nat, j: nat): (r: seq<T>)
    requires i < |s| && j < |s|
    ensures |r| == |s|
  {
    s[i := s[j]][j := s[i]]
  }

  /** A swap moves exactly the two elements, keeps the multiset and is its
      own inverse. */
  lemma SwapSpec<T>(s: seq<T>, i: nat, j: nat)
    requires i < |s| && j < |s|
    ensures Swap(s, i, j)[i] == s[j] && Swap(s, i, j)[j] == s[i]
    ensures forall k :: 0 <= k < |s| && k != i && k != j ==> Swap(s, i, j)[k] == s[k]
    ensures multiset(Swap(s, i, j)) == multiset(s)
    ensures Swap(Swap(s, i, j), i, j) == s
  {
    if i != j {
      var t := s[i := s[j]];
      assert multiset(t) == multiset(s) - multiset{s[i]} + multiset{s[j]};
      assert multiset(t[j := s[i]]) == multiset(t) - multiset{t[j]} + multiset{s[i]};
    }
  }

  // ---------------------------------------------------------------------
  // The option value slug

  predicate SlugChar(c: char) {
    IsLower(c) || IsDigit(c) || c == '_'
  }

  predicate NoDoubleUnderscore(s: string) {
    forall i :: 0 <= i < |s| - 1 ==> !(s[i] == '_' && s[i + 1] == '_')
  }

  /** What the slug rule promises: lower-case letters, digits and single
      underscores, with no underscore at either end. */
  predicate IsSlug(s: string) {
    && (forall i :: 0 <= i < |s| ==> SlugChar(s[i]))
    && NoDoubleUnderscore(s)
    && (s != [] ==> s[0] != '_' && s[|s| - 1] != '_')
  }

  /** `.replace(/[^a-z0-9]/g, '_')`. */
  function Underscore(s: string): (r: string)
    ensures |r| == |s|
    ensures forall i :: 0 <= i < |s| ==> r[i] == if IsLower(s[i]) || IsDigit(s[i]) then s[i] else '_'
  {
    seq(|s|, i requires 0 <= i < |s| => if IsLower(s[i]) || IsDigit(s[i]) then s[i] else '_')
  }

  /** `.replace(/_+/g, '_')`. */
  function CollapseUnderscores(s: string): (r: string)
    ensures |r| <= |s|
    ensures s != [] ==> r != [] && r[0] == s[0]
    decreases |s|
  {
    if |s| <= 1 then s
    else if s[0] == '_' && s[1] == '_' then CollapseUnderscores(s[1..])
    else [s[0]] + CollapseUnderscores(s[1..])
  }

  /** `.replace(/^_|_$/g, '')`: one underscore off each end. */
  function StripUnderscores(s: string): string {
    var t := if s != [] && s[0] == '_' then s[1..] else s;
    if t != [] && t[|t| - 1] == '_' then t[..|t| - 1] else t
  }

  /** The value `updateOption` derives from a new label. */
  function AutoValue(caption: string): string {
    StripUnderscores(CollapseUnderscores(Underscore(Lower(caption))))
  }

  lemma {:induction false} CollapseSpec(s: string)
    ensures var r := CollapseUnderscores(s);
            && ((forall i :: 0 <= i < |s| ==> SlugChar(s[i])) ==> forall i :: 0 <= i < |r| ==> SlugChar(r[i]))
            && NoDoubleUnderscore(r)
            && (s != [] ==> r[|r| - 1] == s[|s| - 1])
    decreases |s|
  {
    if |s| > 1 {
      CollapseSpec(s[1..]);
      var t := CollapseUnderscores(s[1..]);
      assert t[0] == s[1];
    }
  }

  lemma {:induction false} CollapseIdentity(s: string)
    requires NoDoubleUnderscore(s)
    ensures CollapseUnderscores(s) == s
    decreases |s|
  {
    if |s| > 1 {
      CollapseIdentity(s[1..]);
      assert [s[0]] + s[1..] == s;
    }
  }

  /** Every label yields a slug. */
  lemma AutoValueIsSlug(caption: string)
    ensures IsSlug(AutoValue(caption))
  {
    var u := Underscore(Lower(caption));
    assert forall i :: 0 <= i < |u| ==> SlugChar(u[i]);
    CollapseSpec(u);
    StripSpec(CollapseUnderscores(u));
  }

  /** Taking one underscore off each end of slug characters without a
      double underscore leaves a slug. */
  lemma StripSpec(c: string)
    requires forall i :: 0 <= i < |c| ==> SlugChar(c[i])
    requires NoDoubleUnderscore(c)
    ensures IsSlug(StripUnderscores(c))
  {
    var t := if c != [] && c[0] == '_' then c[1..] else c;
    assert NoDoubleUnderscore(t);
    if c != [] && c[0] == '_' && |c| > 1 {
      assert c[1] != '_';
    }
  }

  /** A slug is its own value, so deriving a value twice changes nothing. */
  lemma AutoValueIdempotent(caption: string)
    ensures AutoValue(AutoValue(caption)) == AutoValue(caption)
  {
    var v := AutoValue(caption);
    AutoValueIsSlug(caption);
    assert Lower(v) == v by {
      forall i | 0 <= i < |v| ensures Lower(v)[i] == v[i] { }
    }
    assert Underscore(v) == v;
    CollapseIdentity(v);
  }

  /** The option list a type change leaves: choice types keep their
      options (an empty list included) or get one default option; other
      types lose them. */
  function OptionsForType(t: string, current: Option<seq<QuestionOption>>): (r: Option<seq<QuestionOption>>)
    ensures IsChoiceType(t) && current.Some? ==> r == current
    ensures IsChoiceType(t) && current.None? ==> r == Some([QuestionOption("Option 1", "opt1")])
    ensures !IsChoiceType(t) ==> r.None?
  {
    if IsChoiceType(t) then (if current.Some? then current else Some([QuestionOption("Option 1", "opt1")]))
    else None
  }

  /** What the JSON import callback hands to `onFormMetadata`, if anything:
      both texts (missing ones as ""), but only when one is non-empty. */
  function ImportedMetadata(formTitle: Option<string>, formDescription: Option<string>): (r: Option<(string, string)>)
    ensures r.Some? <==> (formTitle.Some? && formTitle.value != "") || (formDescription.Some? && formDescription.value != "")
    ensures r.Some? ==> r.value.0 == (if formTitle.Some? then formTitle.value else "")
                        && r.value.1 == (if formDescription.Some? then formDescription.value else "")
  {
    var title := if formTitle.Some? then formTitle.value else "";
    var desc := if formDescription.Some? then formDescription.value else "";
    if title != "" || desc != "" then Some((title, desc)) else None
  }

  // ---------------------------------------------------------------------
  // The editor

  class QuestionEditor {
    var questions: seq<Question>
    var editingIndex: Option<nat>

    constructor(questions: seq<Question>)
      ensures this.questions == questions && editingIndex.None?
    {
      this.questions := questions;
      editingIndex := None;
    }

    /** `setQuestions` from a template or an import: the list is replaced. */
    method SetQuestions(qs: seq<Question>)
      modifies this
      ensures questions == qs && editingIndex == old(editingIndex)
    {
      questions := qs;
    }

    /** A template picked below a non-empty list is appended to it. */
    method AppendQuestions(qs: seq<Question>)
      modifies this
      ensures questions == old(questions) + qs && editingIndex == old(editingIndex)
    {
      questions := questions + qs;
    }

    method AddQuestion(id: string, createdAt: string)
      modifies this
      ensures questions == old(questions) + [NewQuestion(|old(questions)|, id, createdAt)]
      ensures editingIndex == Some(|old(questions)|)
    {
      var n := |questions|;
      questions := questions + [NewQuestion(n, id, createdAt)];
      editingIndex := Some(n);
    }

    method UpdateQuestion(index: nat, patch: QuestionPatch)
      requires index < |questions|
      modifies this
      ensures questions == old(questions)[index := Merge(old(questions)[index], patch)]
      ensures editingIndex == old(editingIndex)
    {
      var updated := questions;
      updated := updated[index := Merge(updated[index], patch)];
      questions := updated;
    }

    /** Removes the question at `index`; the editing index is cleared only
      when it is that index (it is not shifted for later questions). */
    method DeleteQuestion(index: nat)
      modifies this
      ensures questions == RemoveAt(old(questions), index)
      ensures editingIndex == if old(editingIndex) == Some(index) then None else old(editingIndex)
    {
      questions := RemoveAt(questions, index);
      if editingIndex == Some(index) {
        editingIndex := None;
      }
    }

    /** Swaps with the neighbour above (`up`) or below; nothing moves past
      either end. */
    method MoveQuestion(index: nat, up: bool)
      requires index < |questions|
      modifies this
      ensures (up && index == 0) || (!up && index == |old(questions)| - 1) ==> questions == old(questions)
      ensures up && index > 0 ==> questions == Swap(old(questions), index, index - 1)
      ensures !up && index < |old(questions)| - 1 ==> questions == Swap(old(questions), index, index + 1)
      ensures multiset(questions) == multiset(old(questions))
      ensures editingIndex == old(editingIndex)
    {
      if (up && index == 0) || (!up && index == |questions| - 1) {
        return;
      }
      var newIndex := if up then index - 1 else index + 1;
      SwapSpec(questions, index, newIndex);
      questions := Swap(questions, index, newIndex);
    }

    method AddOption(qi: nat)
      requires qi < |questions|
      modifies this
      ensures questions == old(questions)[qi := old(questions)[qi].(
                options := Some(OptionsOrEmpty(old(questions)[qi].options) + [QuestionOption("", "")]))]
      ensures editingIndex == old(editingIndex)
    {
      var current := OptionsOrEmpty(questions[qi].options);
      var newOptions := current + [QuestionOption("", "")];
      UpdateQuestion(qi, NoChange.(options := Some(Some(newOptions))));
    }

    /** Editing a label replaces the option by the label and its derived
      value; editing the value keeps the label. */
    method UpdateOption(qi: nat, oi: nat, isLabel: bool, value: string)
      requires qi < |questions| && oi < |OptionsOrEmpty(questions[qi].options)|
      modifies this
      ensures var opts := OptionsOrEmpty(old(questions)[qi].options);
              var o := if isLabel then QuestionOption(value, AutoValue(value)) else opts[oi].(value := value);
              questions == old(questions)[qi := old(questions)[qi].(options := Some(opts[oi := o]))]
      ensures editingIndex == old(editingIndex)
    {
      var newOptions := OptionsOrEmpty(questions[qi].options);
      if isLabel {
        var autoValue := AutoValue(value);
        newOptions := newOptions[oi := QuestionOption(value, autoValue)];
      } else {
        newOptions := newOptions[oi := newOptions[oi].(value := value)];
      }
      UpdateQuestion(qi, NoChange.(options := Some(Some(newOptions))));
    }

    method DeleteOption(qi: nat, oi: nat)
      requires qi < |questions|
      modifies this
      ensures var rest := RemoveAt(OptionsOrEmpty(old(questions)[qi].options), oi);
              questions == old(questions)[qi := old(questions)[qi].(options := if rest == [] then None else Some(rest))]
      ensures editingIndex == old(editingIndex)
    {
      var newOptions := RemoveAt(OptionsOrEmpty(questions[qi].options), oi);
      UpdateQuestion(qi, NoChange.(options := Some(if |newOptions| > 0 then Some(newOptions) else None)));
    }

    /** The type selector: the type and, by `OptionsForType`, the options. */
    method ChangeType(qi: nat, t: string)
      requires qi < |questions|
      modifies this
      ensures questions == old(questions)[qi := old(questions)[qi].(
                questionType := t, options := OptionsForType(t, old(questions)[qi].options))]
      ensures editingIndex == old(editingIndex)
    {
      UpdateQuestion(qi, NoChange.(questionType := Some(t),
                                   options := Some(OptionsForType(t, questions[qi].options))));
    }

    /** The JSON import callback on an empty list: the imported questions
      replace the list, and the metadata to pass on, if any, is returned. */
    method LoadImported(qs: seq<Question>, formTitle: Option<string>, formDescription: Option<string>)
      returns (metadata: Option<(string, string)>)
      modifies this
      ensures questions == qs && editingIndex == old(editingIndex)
      ensures metadata == ImportedMetadata(formTitle, formDescription)
    {
      questions := qs;
      metadata := ImportedMetadata(formTitle, formDescription);
    }
  }

  /** Moving a question down and back up restores the list. */
  lemma MoveDownThenUp(qs: seq<Question>, index: nat)
    requires index + 1 < |qs|
    ensures Swap(Swap(qs, index, index + 1), index + 1, index) == qs
  {
    var t := Swap(qs, index, index + 1);
    assert Swap(t, index + 1, index) == Swap(t, index, index + 1);
    SwapSpec(qs, index, index + 1);
  }

  /** Questions added to lists of different lengths get different ids. */
  lemma {:induction false} AddedIdsAreDistinct(n: nat, m: nat, id: string, id': string, at: string, at': string)
    requires n != m
    ensures NewQuestion(n, id, at).questionId != NewQuestion(m, id', at').questionId
  {
    DefaultQuestionIdInjective(n, m);
  }
}
