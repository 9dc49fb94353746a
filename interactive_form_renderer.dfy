/** The step-by-step form a respondent fills in: a landing screen, one
    question per step, validation on Next, and the submission at the end. */
module InteractiveFormRenderer {
  import opened Wrappers
  import opened JsValues
  import opened Types
  import opened FormAnswers

  /** The guard of the document-level Enter handler as written: it checks
      neither that the form has been started nor anything about the screen
      on display. */
  predicate EnterGuardAsWritten(isSubmitting: bool, isComplete: bool) {
    !isSubmitting && !isComplete
  }

  /** The guard with the start check the earlier renderer has. */
  predicate EnterGuard(hasStarted: bool, isSubmitting: bool, isComplete: bool) {
    hasStarted && !isSubmitting && !isComplete
  }

  /** On the landing screen, before Start is pressed, the guard as written
      lets Enter through, and Next then leaves the first question behind
      unseen when it is optional: it moves to the second question, or, in a
      one-question form, submits an empty form. The guard with the start
      check does not let Enter through there. */
  lemma EnterOnLandingScreen(questions: seq<Question>, answers: map<string, JsVal>)
    requires |questions| >= 1 && !questions[0].isRequired
    ensures EnterGuardAsWritten(false, false)
    ensures Next(questions, 0, answers) == (if |questions| == 1 then Submit else Advance)
    ensures !EnterGuard(false, false, false)
  {
  }

  class Renderer {
    const formId: string
    const questions: seq<Question>
    var hasStarted: bool
    var currentStep: nat
    var answers: map<string, JsVal>
    var isSubmitting: bool
    var isComplete: bool
    var error: Option<string>

    /** The current step always names a question, unless there are none. */
    ghost predicate Valid()
      reads this
    {
      currentStep < |questions| || currentStep == 0
    }

    constructor(formId: string, questions: seq<Question>)
      ensures Valid()
      ensures this.formId == formId && this.questions == questions
      ensures !hasStarted && currentStep == 0 && answers == map[]
      ensures !isSubmitting && !isComplete && error.None?
    {
      this.formId := formId;
      this.questions := questions;
      hasStarted := false;
      currentStep := 0;
      answers := map[];
      isSubmitting := false;
      isComplete := false;
      error := None;
    }

    /** The Start button of the landing screen. */
    method Start()
      modifies this
      ensures hasStarted
      ensures currentStep == old(currentStep) && answers == old(answers) && error == old(error)
      ensures isSubmitting == old(isSubmitting) && isComplete == old(isComplete)
    {
      hasStarted := true;
    }

    /** A multiple-choice click toggles the option in the answer list; any
        other answer is replaced. Either way the error is cleared. */
    method HandleAnswer(questionId: string, value: string, questionType: string)
      modifies this
      ensures answers == old(answers)[questionId :=
                if questionType == "multiple" then Toggle(At(old(answers), questionId), value)
                else Str(value)]
      ensures error.None?
      ensures hasStarted == old(hasStarted) && currentStep == old(currentStep)
      ensures isSubmitting == old(isSubmitting) && isComplete == old(isComplete)
    {
      if questionType == "multiple" {
        var updated := Toggle(At(answers, questionId), value);
        answers := answers[questionId := updated];
      } else {
        answers := answers[questionId := Str(value)];
      }
      error := None;
    }

    /** Next: an invalid answer sets the error and stays; a valid one moves
        on, or starts the submission on the last question. With no questions
        at all the handler stops at a TypeError and nothing changes. */
    method HandleNext()
      requires Valid()
      modifies this
      ensures Valid()
      ensures |questions| == 0 ==> unchanged(this)
      ensures hasStarted == old(hasStarted) && answers == old(answers)
      ensures isComplete == old(isComplete)
      ensures match Next(questions, old(currentStep), old(answers))
        case Crash => unchanged(this)
        case Rejected(m) =>
          error == Some(m) && currentStep == old(currentStep) && isSubmitting == old(isSubmitting)
        case Advance =>
          currentStep == old(currentStep) + 1 && error == old(error) &&
          isSubmitting == old(isSubmitting)
        case Submit =>
          isSubmitting && currentStep == old(currentStep) && error == old(error)
    {
      match Next(questions, currentStep, answers)
      case Crash =>
      case Rejected(m) =>
        error := Some(m);
      case Advance =>
        currentStep := currentStep + 1;
      case Submit =>
        isSubmitting := true;
    }

    /** Previous: steps back and clears the error, except on the first step. */
    method HandleBack()
      requires Valid()
      modifies this
      ensures Valid()
      ensures old(currentStep) == 0 ==> unchanged(this)
      ensures old(currentStep) > 0 ==> currentStep == old(currentStep) - 1 && error.None?
      ensures hasStarted == old(hasStarted) && answers == old(answers)
      ensures isSubmitting == old(isSubmitting) && isComplete == old(isComplete)
    {
      if currentStep > 0 {
        currentStep := currentStep - 1;
        error := None;
      }
    }

    /** The rest of the submission once the database has answered:
        `existing` is whether a submission with this form and email was
        found, `insertFailure` what the insert threw. Returns the row sent to
        the insert, which is skipped when an earlier submission was found. */
    method FinishSubmit(existing: bool, insertFailure: Option<Option<string>>)
      returns (row: Option<Insertion>)
      modifies this
      ensures !isSubmitting
      ensures row == (if Truthy(UserEmail(old(answers))) && existing then None
                      else Some(Insertion(formId, UserEmail(old(answers)),
                                          Some(FieldOrNull(old(answers), "name")), old(answers))))
      ensures var e := SubmitError(old(answers), existing, insertFailure);
              if e.None? then isComplete && error == old(error)
              else error == e && isComplete == old(isComplete)
      ensures hasStarted == old(hasStarted) && currentStep == old(currentStep)
      ensures answers == old(answers)
    {
      var userEmail := UserEmail(answers);
      if Truthy(userEmail) && existing {
        row := None;
      } else {
        row := Some(Insertion(formId, userEmail, Some(FieldOrNull(answers, "name")), answers));
      }
      var e := SubmitError(answers, existing, insertFailure);
      if e.None? {
        isComplete := true;
      } else {
        error := e;
      }
      isSubmitting := false;
    }

    /** Enter as the document-level handler is written: it calls Next even
        on the landing screen. */
    method PressEnterAsWritten()
      requires Valid()
      modifies this
      ensures Valid()
      ensures !old(hasStarted) && old(currentStep) == 0 && |questions| >= 2 &&
              !questions[0].isRequired && !old(isSubmitting) && !old(isComplete) ==>
                !hasStarted && currentStep == 1
      ensures !EnterGuardAsWritten(old(isSubmitting), old(isComplete)) ==> unchanged(this)
      ensures EnterGuardAsWritten(old(isSubmitting), old(isComplete)) ==>
        hasStarted == old(hasStarted) && answers == old(answers) && isComplete == old(isComplete) &&
        match Next(questions, old(currentStep), old(answers))
        case Crash => unchanged(this)
        case Rejected(m) =>
          error == Some(m) && currentStep == old(currentStep) && isSubmitting == old(isSubmitting)
        case Advance =>
          currentStep == old(currentStep) + 1 && error == old(error) &&
          isSubmitting == old(isSubmitting)
        case Submit =>
          isSubmitting && currentStep == old(currentStep) && error == old(error)
    {
      if EnterGuardAsWritten(isSubmitting, isComplete) {
        HandleNext();
      }
    }

    /** Enter with the start check: nothing happens on the landing screen,
        while submitting or once complete; otherwise it is Next. */
    method PressEnter()
      requires Valid()
      modifies this
      ensures Valid()
      ensures !EnterGuard(old(hasStarted), old(isSubmitting), old(isComplete)) ==> unchanged(this)
      ensures EnterGuard(old(hasStarted), old(isSubmitting), old(isComplete)) ==>
        hasStarted == old(hasStarted) && answers == old(answers) && isComplete == old(isComplete) &&
        match Next(questions, old(currentStep), old(answers))
        case Crash => unchanged(this)
        case Rejected(m) =>
          error == Some(m) && currentStep == old(currentStep) && isSubmitting == old(isSubmitting)
        case Advance =>
          currentStep == old(currentStep) + 1 && error == old(error) &&
          isSubmitting == old(isSubmitting)
        case Submit =>
          isSubmitting && currentStep == old(currentStep) && error == old(error)
    {
      if EnterGuard(hasStarted, isSubmitting, isComplete) {
        HandleNext();
      }
    }
  }
}
