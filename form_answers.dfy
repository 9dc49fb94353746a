/** The answer logic the step-by-step form renderers share: toggling a
    multiple-choice answer, validating the current question (required
    answers and the email pattern), deciding what the Next action does, and
    the error a submission ends with. */
module FormAnswers {
  import opened Wrappers
  import opened Strings
  import opened JsValues
  import opened Types

  const REQUIRED_MESSAGE := "This question is required"
  const EMAIL_MESSAGE := "Please enter a valid email address"
  const ALREADY_SUBMITTED := "You have already submitted this form"
  const SUBMISSION_FAILED := "Submission failed"

  /** An answer that counts as missing: falsy, or an empty array. */
  predicate Missing(v: JsVal) {
    !Truthy(v) || (v.Arr? && |v.elems| == 0)
  }

  /** The new answer of a multiple-choice question after clicking the option
      `value`: a falsy answer starts from the empty list, a list loses the
      value when it holds it and gains it at the end otherwise, and any
      other answer is replaced by the one-element list. */
  function Toggle(current: JsVal, value: string): (r: JsVal)
    ensures r.Arr?
    ensures Str(value) in r.elems <==>
              !(Truthy(current) && current.Arr? && Str(value) in current.elems)
    ensures forall v :: v != Str(value) ==>
              (v in r.elems <==> Truthy(current) && current.Arr? && v in current.elems)
  {
    var cur := if Truthy(current) then current else Arr([]);
    if cur.Arr? then
      if Str(value) in cur.elems then Arr(RemoveStr(cur.elems, value))
      else Arr(cur.elems + [Str(value)])
    else Arr([Str(value)])
  }

  /** Clicking an option twice gives back the list it started from, when the
      option was not selected. */
  lemma ToggleTwice(xs: seq<JsVal>, value: string)
    requires Str(value) !in xs
    ensures Toggle(Toggle(Arr(xs), value), value) == Arr(xs)
  {
    RemoveStrAppended(xs, value);
  }

  /** Clicking a selected option deselects it without reordering the rest,
      and clicking it again selects it at the end of the list. */
  lemma ToggleSelected(xs: seq<JsVal>, value: string)
    requires Str(value) in xs
    ensures Toggle(Arr(xs), value) == Arr(RemoveStr(xs, value))
    ensures Toggle(Toggle(Arr(xs), value), value) == Arr(RemoveStr(xs, value) + [Str(value)])
  {
  }

  /** One of the three parts of `^[^\s@]+@[^\s@]+\.[^\s@]+$`: non-empty,
      without whitespace and without `@`. */
  predicate EmailPart(t: string) {
    |t| > 0 && forall k :: 0 <= k < |t| ==> t[k] != '@' && !IsSpace(t[k])
  }

  /** What the email regular expression accepts: some `@` at `i` and some
      later `.` at `j` split the string into three such parts. */
  ghost predicate EmailPattern(s: string) {
    exists i, j :: 0 < i < j < |s| && s[i] == '@' && s[j] == '.' &&
      EmailPart(s[..i]) && EmailPart(s[i + 1..j]) && EmailPart(s[j + 1..])
  }

  /** The first index of `c` in `s`, or -1. */
  function IndexOf(s: string, c: char): (r: int)
    ensures -1 <= r < |s|
    ensures r == -1 <==> c !in s
    ensures 0 <= r ==> s[r] == c && forall k :: 0 <= k < r ==> s[k] != c
  {
    if s == [] then -1
    else if s[0] == c then 0
    else
      var k := IndexOf(s[1..], c);
      assert s[1..][..if k < 0 then 0 else k] == s[1..1 + if k < 0 then 0 else k];
      if k < 0 then -1 else k + 1
  }

  /** A direct check of the same pattern: no whitespace anywhere, exactly
      one `@`, at least one character before it, and a `.` with at least
      one character on each side somewhere after it. */
  predicate ValidEmail(s: string) {
    var i := IndexOf(s, '@');
    0 < i && i + 3 <= |s| &&
    (forall k :: 0 <= k < |s| ==> !IsSpace(s[k])) &&
    '@' !in s[i + 1..] && '.' in s[i + 2..|s| - 1]
  }

  lemma PatternIsValid(s: string, i: int, j: int)
    requires 0 < i < j < |s| && s[i] == '@' && s[j] == '.'
    requires EmailPart(s[..i]) && EmailPart(s[i + 1..j]) && EmailPart(s[j + 1..])
    ensures ValidEmail(s)
  {
    forall k | 0 <= k < i
      ensures s[k] != '@'
    {
      assert s[..i][k] == s[k];
    }
    assert IndexOf(s, '@') == i;
    forall k | 0 <= k < |s|
      ensures !IsSpace(s[k])
    {
      if k < i {
        assert s[..i][k] == s[k];
      } else if i < k < j {
        assert s[i + 1..j][k - i - 1] == s[k];
      } else if j < k {
        assert s[j + 1..][k - j - 1] == s[k];
      }
    }
    var rest := s[i + 1..];
    forall k | 0 <= k < |rest|
      ensures rest[k] != '@'
    {
      var p := i + 1 + k;
      if p < j {
        assert s[i + 1..j][p - i - 1] == s[p];
      } else if j < p {
        assert s[j + 1..][p - j - 1] == s[p];
      }
    }
    assert s[i + 2..|s| - 1][j - i - 2] == '.';
  }

  lemma ValidIsPattern(s: string)
    requires ValidEmail(s)
    ensures EmailPattern(s)
  {
    var i := IndexOf(s, '@');
    var t := s[i + 2..|s| - 1];
    var d :| 0 <= d < |t| && t[d] == '.';
    var j := i + 2 + d;
    assert s[j] == '.';
    assert EmailPart(s[..i]) by {
      forall k | 0 <= k < i ensures s[..i][k] != '@' && !IsSpace(s[..i][k]) {
        assert s[..i][k] == s[k];
      }
    }
    var b, c := s[i + 1..j], s[j + 1..];
    assert EmailPart(b) by {
      forall k | 0 <= k < |b|
        ensures b[k] != '@' && !IsSpace(b[k])
      {
        assert b[k] == s[i + 1..][k] == s[i + 1 + k];
      }
    }
    assert EmailPart(c) by {
      forall k | 0 <= k < |c|
        ensures c[k] != '@' && !IsSpace(c[k])
      {
        assert c[k] == s[i + 1..][j - i + k] == s[j + 1 + k];
      }
    }
  }

  /** The direct check accepts exactly what the regular expression accepts. */
  lemma ValidEmailIsPattern(s: string)
    ensures ValidEmail(s) <==> EmailPattern(s)
  {
    if ValidEmail(s) {
      ValidIsPattern(s);
    }
    if EmailPattern(s) {
      var i, j :| 0 < i < j < |s| && s[i] == '@' && s[j] == '.' &&
        EmailPart(s[..i]) && EmailPart(s[i + 1..j]) && EmailPart(s[j + 1..]);
      PatternIsValid(s, i, j);
    }
  }

  /** The error the current question's answer raises, if any. Only a
      required question is checked; the email pattern is matched against the
      answer coerced to a string. */
  function ValidateAnswer(q: Question, answers: map<string, JsVal>): (r: Option<string>)
    ensures r.Some? ==> r.value == REQUIRED_MESSAGE || r.value == EMAIL_MESSAGE
  {
    if !q.isRequired then None
    else
      var answer := At(answers, q.questionId);
      if Missing(answer) then Some(REQUIRED_MESSAGE)
      else if q.questionType == "email" && !ValidEmail(ToStr(answer)) then Some(EMAIL_MESSAGE)
      else None
  }

  /** An answer passes exactly when the question is optional, or it is
      present and, for an email question, matches the email pattern. */
  lemma ValidateAnswerSpec(q: Question, answers: map<string, JsVal>)
    ensures ValidateAnswer(q, answers).None? <==>
              !q.isRequired ||
              (!Missing(At(answers, q.questionId)) &&
               (q.questionType == "email" ==> EmailPattern(ToStr(At(answers, q.questionId)))))
    ensures q.isRequired && Missing(At(answers, q.questionId)) ==>
              ValidateAnswer(q, answers) == Some(REQUIRED_MESSAGE)
  {
    ValidEmailIsPattern(ToStr(At(answers, q.questionId)));
  }

  /** What the Next action does on a given step. `Crash` is the TypeError
      raised when there is no question at the current step. */
  datatype NextOutcome = Crash | Rejected(message: string) | Advance | Submit

  function Next(questions: seq<Question>, step: nat, answers: map<string, JsVal>): (r: NextOutcome)
    ensures r == Crash <==> step >= |questions|
    ensures r.Rejected? <==>
              step < |questions| && ValidateAnswer(questions[step], answers).Some?
    ensures r == Advance ==> step + 1 < |questions|
    ensures r == Submit ==> step + 1 == |questions|
    ensures step + 1 < |questions| && !questions[step].isRequired ==> r == Advance
  {
    if step >= |questions| then Crash
    else match ValidateAnswer(questions[step], answers)
      case Some(m) => Rejected(m)
      case None => if step < |questions| - 1 then Advance else Submit
  }

  /** `answers[key] || null`. */
  function FieldOrNull(answers: map<string, JsVal>, key: string): (r: JsVal)
    ensures Truthy(At(answers, key)) ==> key in answers && r == answers[key]
    ensures !Truthy(At(answers, key)) ==> r == Null
  {
    var e := At(answers, key);
    if Truthy(e) then e else Null
  }

  /** `answers.email || null`: the address a submission is filed under. */
  function UserEmail(answers: map<string, JsVal>): JsVal {
    FieldOrNull(answers, "email")
  }

  /** The row a renderer inserts into `submissions`; `name` is `None` when
      the renderer sends no name column. */
  datatype Insertion = Insertion(formId: string, email: JsVal, name: Option<JsVal>,
                                 answers: map<string, JsVal>)

  /** The error message a submission ends with, or `None` when it completes.
      `existing` is whether a submission with the same form and email was
      found; `insertFailure` is what the insert threw: `None` when it
      succeeded, `Some(Some(m))` for an error with message `m`,
      `Some(None)` for a thrown value that is not an `Error`. */
  function SubmitError(answers: map<string, JsVal>, existing: bool,
                       insertFailure: Option<Option<string>>): (r: Option<string>)
  {
    if Truthy(UserEmail(answers)) && existing then Some(ALREADY_SUBMITTED)
    else match insertFailure
      case None => None
      case Some(thrown) => Some(if thrown.Some? then thrown.value else SUBMISSION_FAILED)
  }

  /** A submission completes exactly when no earlier one is on file for its
      email and the insert succeeds; without an email the earlier-submission
      check plays no part. */
  lemma SubmitErrorSpec(answers: map<string, JsVal>, existing: bool,
                        insertFailure: Option<Option<string>>)
    ensures SubmitError(answers, existing, insertFailure).None? <==>
              !(Truthy(At(answers, "email")) && existing) && insertFailure.None?
    ensures !Truthy(At(answers, "email")) ==>
              SubmitError(answers, existing, insertFailure) ==
              SubmitError(answers, !existing, insertFailure)
    ensures insertFailure == Some(None) && !(Truthy(At(answers, "email")) && existing) ==>
              SubmitError(answers, existing, insertFailure) == Some(SUBMISSION_FAILED)
  {
  }
}
