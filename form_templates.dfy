/** The built-in form templates: their data, and the lookups by id and by
    category and the list of categories. */
module FormTemplates {
  import opened Wrappers
  import opened Strings
  import opened Types

  /** A template question: a question without the id, form id and creation
      time it gets once it belongs to a form. */
  datatype TemplateQuestion = TemplateQuestion(
    questionText: string,
    questionId: string,
    questionType: string,
    options: Option<seq<QuestionOption>>,
    isRequired: bool,
    orderNumber: int,
    placeholder: Option<string>)

  datatype FormTemplate = FormTemplate(
    id: string,
    name: string,
    description: string,
    category: string,
    questions: seq<TemplateQuestion>)

  const EVALUATION_2024 := FormTemplate(
    "ecell-evaluation-2024",
    "E-Cell Evaluation 2024",
    "Comprehensive evaluation form for E-Cell activities and interests",
    "evaluation",
    [
      TemplateQuestion("What's your startup vibe?", "startup_vibe", "single",
        Some([
         QuestionOption("Dreamer - I have big ideas", "dreamer"),
         QuestionOption("Builder - I love creating things", "builder"),
         QuestionOption("Problem-Solver - I fix what's broken", "problem_solver"),
         QuestionOption("Hustler - I make things happen", "hustler")]),
        true, 1, None),
      TemplateQuestion("Which tech areas interest you most?", "tech_interests", "multiple",
        Some([
         QuestionOption("Web Development", "web_dev"),
         QuestionOption("AI/Machine Learning", "ai_ml"),
         QuestionOption("Mobile App Development", "mobile_dev"),
         QuestionOption("Blockchain", "blockchain"),
         QuestionOption("IoT", "iot"),
         QuestionOption("Data Science", "data_science")]),
        true, 2, None),
      TemplateQuestion("What role do you see yourself in a startup team?", "team_role", "single",
        Some([
         QuestionOption("CEO/Founder", "ceo"),
         QuestionOption("CTO/Tech Lead", "cto"),
         QuestionOption("Product Manager", "pm"),
         QuestionOption("Developer", "developer"),
         QuestionOption("Designer", "designer"),
         QuestionOption("Marketing", "marketing")]),
        true, 3, None),
      TemplateQuestion("What type of E-Cell activities interest you most?", "activity_preferences", "multiple",
        Some([
         QuestionOption("Workshops & Training", "workshops"),
         QuestionOption("Hackathons", "hackathons"),
         QuestionOption("Pitch Competitions", "pitch_competitions"),
         QuestionOption("Networking Events", "networking"),
         QuestionOption("Mentorship Programs", "mentorship"),
         QuestionOption("Startup Visits", "startup_visits")]),
        true, 4, None),
      TemplateQuestion("Your email address", "email", "email",
        None,
        true, 5, Some("Enter your email address")),
      TemplateQuestion("Tell us about your startup idea or project (optional)", "startup_idea", "text",
        None,
        false, 6, Some("Describe your startup idea or current project..."))])

  const TECH_INTEREST_SURVEY := FormTemplate(
    "tech-interest-survey",
    "Tech Interest Survey",
    "Quick survey to understand student technology interests",
    "survey",
    [
      TemplateQuestion("Which programming languages do you know?", "programming_languages", "multiple",
        Some([
         QuestionOption("JavaScript", "javascript"),
         QuestionOption("Python", "python"),
         QuestionOption("Java", "java"),
         QuestionOption("C++", "cpp"),
         QuestionOption("React", "react"),
         QuestionOption("Node.js", "nodejs")]),
        true, 1, None),
      TemplateQuestion("What's your experience level?", "experience_level", "single",
        Some([
         QuestionOption("Beginner (0-1 years)", "beginner"),
         QuestionOption("Intermediate (1-3 years)", "intermediate"),
         QuestionOption("Advanced (3+ years)", "advanced")]),
        true, 2, None),
      TemplateQuestion("Your email", "email", "email",
        None,
        true, 3, Some("your.email@example.com"))])

  const EVENT_FEEDBACK := FormTemplate(
    "event-feedback",
    "Event Feedback Form",
    "Collect feedback after E-Cell events",
    "feedback",
    [
      TemplateQuestion("How would you rate this event overall?", "overall_rating", "single",
        Some([
         QuestionOption("Excellent", "excellent"),
         QuestionOption("Good", "good"),
         QuestionOption("Average", "average"),
         QuestionOption("Poor", "poor")]),
        true, 1, None),
      TemplateQuestion("What did you like most about the event?", "liked_most", "multiple",
        Some([
         QuestionOption("Content Quality", "content"),
         QuestionOption("Speaker Expertise", "speaker"),
         QuestionOption("Networking Opportunities", "networking"),
         QuestionOption("Organization", "organization"),
         QuestionOption("Venue", "venue")]),
        true, 2, None),
      TemplateQuestion("Any suggestions for improvement?", "suggestions", "text",
        None,
        false, 3, Some("Share your suggestions...")),
      TemplateQuestion("Your email (optional)", "email", "email",
        None,
        false, 4, Some("your.email@example.com"))])

  const FORM_TEMPLATES: seq<FormTemplate> := [EVALUATION_2024, TECH_INTEREST_SURVEY, EVENT_FEEDBACK]

  /** `templates.find(t => t.id === id)`: the first template with that id. */
  function FindById(templates: seq<FormTemplate>, id: string): (r: Option<FormTemplate>)
    ensures r.None? <==> forall t :: t in templates ==> t.id != id
    ensures r.Some? ==> r.value.id == id
    ensures r.Some? ==>
              exists i :: 0 <= i < |templates| && templates[i] == r.value &&
                (forall j :: 0 <= j < i ==> templates[j].id != id)
  {
    if templates == [] then None
    else if templates[0].id == id then
      assert templates[0] == templates[0];
      Some(templates[0])
    else
      var r := FindById(templates[1..], id);
      assert forall t :: t in templates ==> t == templates[0] || t in templates[1..];
      if r.Some? then
        var i :| 0 <= i < |templates[1..]| && templates[1..][i] == r.value &&
                 forall j :: 0 <= j < i ==> templates[1..][j].id != id;
        assert templates[i + 1] == r.value;
        assert forall j :: 1 <= j < i + 1 ==> templates[j].id == templates[1..][j - 1].id;
        r
      else r
  }

  function GetTemplateById(id: string): Option<FormTemplate> {
    FindById(FORM_TEMPLATES, id)
  }

  /** `templates.filter(t => t.category === category)`. */
  function FilterByCategory(templates: seq<FormTemplate>, category: string): (r: seq<FormTemplate>)
    ensures forall t :: t in r <==> t in templates && t.category == category
    ensures |r| <= |templates|
  {
    if templates == [] then []
    else
      var rest := FilterByCategory(templates[1..], category);
      assert forall t :: t in templates <==> t == templates[0] || t in templates[1..];
      if templates[0].category == category then [templates[0]] + rest else rest
  }

  /** The filter keeps list order: it distributes over concatenation. */
  lemma {:induction false} FilterByCategoryConcat(a: seq<FormTemplate>, b: seq<FormTemplate>,
                                                  category: string)
    ensures FilterByCategory(a + b, category) ==
              FilterByCategory(a, category) + FilterByCategory(b, category)
  {
    if a == [] {
      assert a + b == b;
    } else {
      assert (a + b)[1..] == a[1..] + b;
      FilterByCategoryConcat(a[1..], b, category);
    }
  }

  function GetTemplatesByCategory(category: string): seq<FormTemplate> {
    FilterByCategory(FORM_TEMPLATES, category)
  }

  function CategoryList(templates: seq<FormTemplate>): (r: seq<string>)
    ensures |r| == |templates| && forall i :: 0 <= i < |templates| ==> r[i] == templates[i].category
  {
    seq(|templates|, i requires 0 <= i < |templates| => templates[i].category)
  }

  /** `[...new Set(templates.map(t => t.category))]`. */
  function Categories(templates: seq<FormTemplate>): (r: seq<string>)
    ensures forall c :: c in r <==> exists t :: t in templates && t.category == c
    ensures forall i, j :: 0 <= i < j < |r| ==> r[i] != r[j]
  {
    var cs := CategoryList(templates);
    assert forall c :: c in cs <==> exists t :: t in templates && t.category == c by {
      forall c | c in cs ensures exists t :: t in templates && t.category == c {
        var i :| 0 <= i < |cs| && cs[i] == c;
        assert templates[i] in templates;
      }
      forall c | exists t :: t in templates && t.category == c ensures c in cs {
        var t :| t in templates && t.category == c;
        var i :| 0 <= i < |templates| && templates[i] == t;
        assert cs[i] == c;
      }
    }
    Dedup(cs)
  }

  function GetAllCategories(): seq<string> {
    Categories(FORM_TEMPLATES)
  }

  /** Order numbers run 1..n in listing order. */
  predicate Numbered(t: FormTemplate) {
    forall i :: 0 <= i < |t.questions| ==> t.questions[i].orderNumber == i + 1
  }

  /** Choice questions carry options; text and email questions do not. */
  predicate OptionsMatchType(t: FormTemplate) {
    forall i :: 0 <= i < |t.questions| ==>
      (IsChoiceType(t.questions[i].questionType) ==> t.questions[i].options.Some?) &&
      (t.questions[i].questionType == "text" || t.questions[i].questionType == "email" ==>
         t.questions[i].options.None?)
  }

  predicate DistinctQuestionIds(t: FormTemplate) {
    forall i, j :: 0 <= i < j < |t.questions| ==>
      t.questions[i].questionId != t.questions[j].questionId
  }

  predicate WellFormed(t: FormTemplate) {
    Numbered(t) && OptionsMatchType(t) && DistinctQuestionIds(t)
  }

  function QuestionIds(t: FormTemplate): (r: seq<string>)
    ensures |r| == |t.questions|
    ensures forall i :: 0 <= i < |r| ==> r[i] == t.questions[i].questionId
  {
    seq(|t.questions|, i requires 0 <= i < |t.questions| => t.questions[i].questionId)
  }

  /** The ids differ in length, except `startup_vibe` and `startup_idea`,
      which differ at their ninth character. */
  lemma EvaluationIdsDistinct()
    ensures DistinctQuestionIds(EVALUATION_2024)
  {
    var qs := EVALUATION_2024.questions;
    assert |qs[0].questionId| == 12 && |qs[1].questionId| == 14 && |qs[2].questionId| == 9;
    assert |qs[3].questionId| == 20 && |qs[4].questionId| == 5 && |qs[5].questionId| == 12;
    assert qs[0].questionId[8] != qs[5].questionId[8];
  }

  lemma EvaluationOptionsMatchType()
    ensures OptionsMatchType(EVALUATION_2024)
  {
    var qs := EVALUATION_2024.questions;
    assert qs[0].options.Some? && qs[1].options.Some? && qs[2].options.Some?;
    assert qs[3].options.Some? && qs[4].options.None? && qs[5].options.None?;
  }

  lemma EvaluationWellFormed()
    ensures WellFormed(EVALUATION_2024)
  {
    EvaluationIdsDistinct();
    EvaluationOptionsMatchType();
  }

  /** The ids all differ in length. */
  lemma SurveyWellFormed()
    ensures WellFormed(TECH_INTEREST_SURVEY)
  {
    var qs := TECH_INTEREST_SURVEY.questions;
    assert |qs[0].questionId| == 21 && |qs[1].questionId| == 16 && |qs[2].questionId| == 5;
  }

  /** The ids all differ in length. */
  lemma FeedbackIdsDistinct()
    ensures DistinctQuestionIds(EVENT_FEEDBACK)
  {
    var qs := EVENT_FEEDBACK.questions;
    assert |qs[0].questionId| == 14 && |qs[1].questionId| == 10;
    assert |qs[2].questionId| == 11 && |qs[3].questionId| == 5;
  }

  lemma FeedbackWellFormed()
    ensures WellFormed(EVENT_FEEDBACK)
  {
    FeedbackIdsDistinct();
  }

  /** Every built-in template is well formed, and no two share an id. */
  lemma TemplatesWellFormed()
    ensures forall i :: 0 <= i < |FORM_TEMPLATES| ==> WellFormed(FORM_TEMPLATES[i])
    ensures forall i, j :: 0 <= i < j < |FORM_TEMPLATES| ==> FORM_TEMPLATES[i].id != FORM_TEMPLATES[j].id
  {
    EvaluationWellFormed();
    SurveyWellFormed();
    FeedbackWellFormed();
  }

  /** Each template is found by its own id. */
  lemma TemplateLookup(i: nat)
    requires i < |FORM_TEMPLATES|
    ensures GetTemplateById(FORM_TEMPLATES[i].id) == Some(FORM_TEMPLATES[i])
  {
    TemplatesWellFormed();
  }

  /** The categories, each once, in first-occurrence order. */
  lemma AllCategories()
    ensures GetAllCategories() == ["evaluation", "survey", "feedback"]
  {
    var cs := CategoryList(FORM_TEMPLATES);
    assert cs == ["evaluation", "survey", "feedback"];
    assert cs[..2] == ["evaluation", "survey"];
    assert cs[..2][..1] == ["evaluation"];
    assert Dedup(["evaluation"]) == ["evaluation"];
    assert Dedup(["evaluation", "survey"]) == ["evaluation", "survey"];
  }

  /** Each category holds the one template listed under it. */
  lemma CategoryLookup()
    ensures GetTemplatesByCategory("evaluation") == [EVALUATION_2024]
    ensures GetTemplatesByCategory("survey") == [TECH_INTEREST_SURVEY]
    ensures GetTemplatesByCategory("feedback") == [EVENT_FEEDBACK]
  {
    var ts := FORM_TEMPLATES;
    assert ts[1..] == [TECH_INTEREST_SURVEY, EVENT_FEEDBACK];
    assert ts[1..][1..] == [EVENT_FEEDBACK];
    assert ts[1..][1..][1..] == [];
    assert EVALUATION_2024.category == "evaluation";
    assert TECH_INTEREST_SURVEY.category == "survey";
    assert EVENT_FEEDBACK.category == "feedback";
    forall c | c in ["evaluation", "survey", "feedback"]
      ensures FilterByCategory(ts, c) ==
                (if c == "evaluation" then [EVALUATION_2024] else []) +
                (if c == "survey" then [TECH_INTEREST_SURVEY] else []) +
                (if c == "feedback" then [EVENT_FEEDBACK] else [])
    {
      var f3 := FilterByCategory(ts[1..][1..], c);
      assert f3 == if c == "feedback" then [EVENT_FEEDBACK] else [];
      var f2 := FilterByCategory(ts[1..], c);
      assert f2 == (if c == "survey" then [TECH_INTEREST_SURVEY] else []) + f3;
    }
  }
}
