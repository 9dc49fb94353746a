/** The records of `lib/types.ts`: forms, questions with their options, and
    submissions whose answers are loosely typed JSON. */
module Types {
  import opened Wrappers
  import opened Strings
  import opened JsValues

  /** A choice of a select question; `caption` is the source's `label`
      (a reserved word in Dafny). */
  datatype QuestionOption = QuestionOption(caption: string, value: string)

  /** `question_type` is kept as text: the editor stores whatever the type
      selector offers ("fill", "text", "textarea", "email", "single",
      "multiple") and the legacy schema uses "select", "radio", "checkbox". */
  datatype Question = Question(
    id: string,
    formId: string,
    questionText: string,
    questionId: string,
    questionType: string,
    options: Option<seq<QuestionOption>>,
    isRequired: bool,
    orderNumber: int,
    placeholder: Option<string>,
    createdAt: string)

  datatype Submission = Submission(
    id: string,
    formId: string,
    answers: map<string, JsVal>,
    createdAt: string,
    email: Option<string>)

  /** The id `q_{i+1}` a question at index `i` gets when it has none. */
  function DefaultQuestionId(index: nat): string {
    "q_" + NatToString(index + 1)
  }

  /** Questions at different indices get different default ids. */
  lemma {:induction false} DefaultQuestionIdInjective(i: nat, j: nat)
    requires i != j
    ensures DefaultQuestionId(i) != DefaultQuestionId(j)
  {
    NatToStringInjective(i + 1, j + 1);
    var a := NatToString(i + 1);
    var b := NatToString(j + 1);
    assert a == ("q_" + a)[2..];
    assert b == ("q_" + b)[2..];
  }

  /** `question.options || []`. */
  function OptionsOrEmpty(options: Option<seq<QuestionOption>>): seq<QuestionOption> {
    if options.Some? then options.value else []
  }

  function Labels(opts: seq<QuestionOption>): (r: seq<string>)
    ensures |r| == |opts|
    ensures forall i :: 0 <= i < |opts| ==> r[i] == opts[i].caption
  {
    seq(|opts|, i requires 0 <= i < |opts| => opts[i].caption)
  }

  /** `["single", "multiple"].includes(t)`. */
  predicate IsChoiceType(t: string) {
    t == "single" || t == "multiple"
  }

  /** `options.find(opt => opt.value === v)`: the first option whose value
      is `v`, even when a later option has the same value. */
  function FindOption(opts: seq<QuestionOption>, v: JsVal): (r: Option<QuestionOption>)
    ensures r.Some? ==> r.value in opts && v == Str(r.value.value)
    ensures r.Some? ==> exists i :: 0 <= i < |opts| && opts[i] == r.value &&
                          forall j :: 0 <= j < i ==> v != Str(opts[j].value)
    ensures r.None? <==> forall o :: o in opts ==> v != Str(o.value)
  {
    if opts == [] then None
    else if v == Str(opts[0].value) then Some(opts[0])
    else
      var r := FindOption(opts[1..], v);
      assert r.Some? ==> exists i :: 0 <= i < |opts| && opts[i] == r.value &&
                           forall j :: 0 <= j < i ==> v != Str(opts[j].value) by {
        if r.Some? {
          var i :| 0 <= i < |opts[1..]| && opts[1..][i] == r.value &&
                   forall j :: 0 <= j < i ==> v != Str(opts[1..][j].value);
          assert opts[i + 1] == r.value;
          assert forall j :: 0 < j < i + 1 ==> opts[j] == opts[1..][j - 1];
        }
      }
      r
  }

  /** `submissions.map(sub => sub.answers[qid]).filter(...)`: the answers
      that are neither undefined, null nor "". */
  function AnswersFor(qid: string, subs: seq<Submission>): (r: seq<JsVal>)
    ensures |r| <= |subs|
    ensures forall a :: a in r ==> Answered(a)
  {
    if subs == [] then []
    else
      var a := At(subs[0].answers, qid);
      (if Answered(a) then [a] else []) + AnswersFor(qid, subs[1..])
  }

  /** The number of submissions with an admissible answer. */
  function AnsweredCount(qid: string, subs: seq<Submission>): nat {
    if subs == [] then 0
    else (if Answered(At(subs[0].answers, qid)) then 1 else 0) + AnsweredCount(qid, subs[1..])
  }

  lemma {:induction false} AnswersForCount(qid: string, subs: seq<Submission>)
    ensures |AnswersFor(qid, subs)| == AnsweredCount(qid, subs)
  {
    if subs != [] { AnswersForCount(qid, subs[1..]); }
  }
}
