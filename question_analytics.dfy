/** `QuestionAnalytics` of components/admin/question-analytics.tsx: the
    per-question breakdown of the admin dashboard. Only answers equal to
    some option's value are counted (no fallback bucket, no decoding), one
    per answer for "single" questions and one per selected element for
    "multiple" questions. */
module QuestionAnalytics {
  import opened Wrappers
  import opened Strings
  import opened JsValues
  import opened Counts
  import opened Types
  import AnalyticsEngine

  /** This view's palette: the engine's first eight colours. */
  const COLORS: seq<string> := [
    "#FF8C32", "#FFA533", "#FFD233", "#FF6B6B",
    "#4ECDC4", "#45B7D1", "#96CEB4", "#FFEAA7"
  ]

  /** `COLORS[index % COLORS.length]`. */
  function ColorAt(index: nat): (r: string)
    ensures r in COLORS
  {
    COLORS[index % |COLORS|]
  }

  /** The label `v` is counted under: that of the first option whose value
      it is, or none. */
  function OptionKey(opts: seq<QuestionOption>, v: JsVal): seq<string> {
    match FindOption(opts, v)
    case Some(o) => [o.caption]
    case None => []
  }

  /** The labels the values `vs` are counted under, in order. */
  function OptionKeys(opts: seq<QuestionOption>, vs: seq<JsVal>): seq<string>
    decreases |vs|
  {
    if vs == [] then []
    else OptionKeys(opts, vs[..|vs| - 1]) + OptionKey(opts, vs[|vs| - 1])
  }

  /** For "multiple": only array answers count, element by element. */
  function SelectedKeys(opts: seq<QuestionOption>, answers: seq<JsVal>): seq<string>
    decreases |answers|
  {
    if answers == [] then []
    else
      var last := answers[|answers| - 1];
      SelectedKeys(opts, answers[..|answers| - 1]) + (if last.Arr? then OptionKeys(opts, last.elems) else [])
  }

  /** The counted labels of a question of either choice type. */
  function SelectionKeys(q: Question, answers: seq<JsVal>): seq<string> {
    var opts := OptionsOrEmpty(q.options);
    if q.questionType == "single" then OptionKeys(opts, answers)
    else if q.questionType == "multiple" then SelectedKeys(opts, answers)
    else []
  }

  /** `analyticsData` as (name, value) entries. */
  function AnalyticsDataOf(q: Question, subs: seq<Submission>): Counts {
    if IsChoiceType(q.questionType) then
      var answers := AnswersFor(q.questionId, subs);
      Positive(IncrAll(Zeroes(Labels(OptionsOrEmpty(q.options))), SelectionKeys(q, answers)))
    else []
  }

  lemma OptionKeysStep(d: Counts, opts: seq<QuestionOption>, vs: seq<JsVal>, j: nat)
    requires j < |vs|
    ensures var before := IncrAll(d, OptionKeys(opts, vs[..j]));
            IncrAll(d, OptionKeys(opts, vs[..j + 1]))
              == if FindOption(opts, vs[j]).Some? then Incr(before, FindOption(opts, vs[j]).value.caption)
                 else before
  {
    assert vs[..j + 1][..j] == vs[..j];
    var ks := OptionKeys(opts, vs[..j]);
    if FindOption(opts, vs[j]).Some? {
      IncrAllSnoc(d, ks, FindOption(opts, vs[j]).value.caption);
    } else {
      assert ks + [] == ks;
    }
  }

  /** `values.forEach(v => { option = find(...); if (option) counts[option.label]++ })`. */
  method CountOptions(counts: Counts, opts: seq<QuestionOption>, vs: seq<JsVal>) returns (r: Counts)
    ensures r == IncrAll(counts, OptionKeys(opts, vs))
  {
    r := counts;
    var j := 0;
    while j < |vs|
      invariant 0 <= j <= |vs|
      invariant r == IncrAll(counts, OptionKeys(opts, vs[..j]))
    {
      OptionKeysStep(counts, opts, vs, j);
      var option := FindOption(opts, vs[j]);
      if option.Some? {
        r := Incr(r, option.value.caption);
      }
      j := j + 1;
    }
    assert vs[..|vs|] == vs;
  }

  lemma SelectedKeysStep(d: Counts, opts: seq<QuestionOption>, answers: seq<JsVal>, i: nat)
    requires i < |answers|
    ensures var before := SelectedKeys(opts, answers[..i]);
            IncrAll(d, SelectedKeys(opts, answers[..i + 1]))
              == if answers[i].Arr? then IncrAll(IncrAll(d, before), OptionKeys(opts, answers[i].elems))
                 else IncrAll(d, before)
  {
    assert answers[..i + 1][..i] == answers[..i];
    var before := SelectedKeys(opts, answers[..i]);
    if answers[i].Arr? {
      IncrAllAppend(d, before, OptionKeys(opts, answers[i].elems));
    } else {
      assert before + [] == before;
    }
  }

  /** The `useMemo` computation of `analyticsData`. */
  method AnalyticsData(q: Question, subs: seq<Submission>) returns (entries: Counts)
    ensures entries == AnalyticsDataOf(q, subs)
  {
    var answers := AnswersFor(q.questionId, subs);
    var opts := OptionsOrEmpty(q.options);
    if q.questionType == "single" {
      var counts := ZeroAll(Labels(opts));
      counts := CountOptions(counts, opts, answers);
      entries := Positive(counts);
    } else if q.questionType == "multiple" {
      var counts := ZeroAll(Labels(opts));
      ghost var init := counts;
      var i := 0;
      while i < |answers|
        invariant 0 <= i <= |answers|
        invariant counts == IncrAll(init, SelectedKeys(opts, answers[..i]))
      {
        SelectedKeysStep(init, opts, answers, i);
        if answers[i].Arr? {
          counts := CountOptions(counts, opts, answers[i].elems);
        }
        i := i + 1;
      }
      assert answers[..|answers|] == answers;
      entries := Positive(counts);
    } else {
      entries := [];
    }
  }

  lemma {:induction false} OptionKeysAreLabels(opts: seq<QuestionOption>, vs: seq<JsVal>)
    ensures forall k :: k in OptionKeys(opts, vs) ==> k in Labels(opts)
    ensures |OptionKeys(opts, vs)| <= |vs|
    decreases |vs|
  {
    if vs != [] {
      OptionKeysAreLabels(opts, vs[..|vs| - 1]);
      var o := FindOption(opts, vs[|vs| - 1]);
      if o.Some? {
        var i :| 0 <= i < |opts| && opts[i] == o.value;
        assert Labels(opts)[i] == o.value.caption;
      }
    }
  }

  lemma {:induction false} SelectedKeysAreLabels(opts: seq<QuestionOption>, answers: seq<JsVal>)
    ensures forall k :: k in SelectedKeys(opts, answers) ==> k in Labels(opts)
    decreases |answers|
  {
    if answers != [] {
      SelectedKeysAreLabels(opts, answers[..|answers| - 1]);
      var last := answers[|answers| - 1];
      if last.Arr? { OptionKeysAreLabels(opts, last.elems); }
    }
  }

  /** What the breakdown shows for a choice question: distinct option
      labels in the order the options declare them (by first declaration),
      each with the positive number of times it was chosen, and every label
      chosen at least once is shown. Other question types show nothing. */
  lemma AnalyticsDataSpec(q: Question, subs: seq<Submission>)
    ensures var entries := AnalyticsDataOf(q, subs);
            var opts := OptionsOrEmpty(q.options);
            var keys := SelectionKeys(q, AnswersFor(q.questionId, subs));
            && (!IsChoiceType(q.questionType) ==> entries == [])
            && DistinctKeys(entries)
            && SubSeq(Keys(entries), Dedup(Labels(opts)))
            && (forall k :: Has(entries, k) <==> k in keys)
            && (forall k :: Lookup(entries, k) == Occ(keys, k))
            && (forall i :: 0 <= i < |entries| ==> entries[i].1 > 0)
  {
    var opts := OptionsOrEmpty(q.options);
    var answers := AnswersFor(q.questionId, subs);
    var keys := SelectionKeys(q, answers);
    if IsChoiceType(q.questionType) {
      var init := Zeroes(Labels(opts));
      var d := IncrAll(init, keys);
      ZeroesSpec(Labels(opts));
      if q.questionType == "single" {
        OptionKeysAreLabels(opts, answers);
      } else {
        SelectedKeysAreLabels(opts, answers);
      }
      IncrAllKeys(init, keys);
      PositiveOrder(d);
      forall k ensures Lookup(AnalyticsDataOf(q, subs), k) == Occ(keys, k)
                && (Has(AnalyticsDataOf(q, subs), k) <==> k in keys) {
        IncrAllLookup(init, keys, k);
        PositiveLookup(d, k);
        OccPositive(keys, k);
      }
      PositiveKeys(d);
    }
  }

  /** For a "single" question every answer adds at most one to one count,
      so the counts add up to at most the number of answered responses. */
  lemma SingleCountsBounded(q: Question, subs: seq<Submission>)
    requires q.questionType == "single"
    ensures Sum(AnalyticsDataOf(q, subs)) <= AnsweredResponses(q, subs)
  {
    var opts := OptionsOrEmpty(q.options);
    var answers := AnswersFor(q.questionId, subs);
    var keys := SelectionKeys(q, answers);
    var init := Zeroes(Labels(opts));
    ZeroesSpec(Labels(opts));
    IncrAllSum(init, keys);
    PositiveSum(IncrAll(init, keys));
    OptionKeysAreLabels(opts, answers);
    AnswersForCount(q.questionId, subs);
  }

  /** `answeredResponses`: the responses whose answer is neither
      undefined, null nor "". */
  function AnsweredResponses(q: Question, subs: seq<Submission>): (r: nat)
    ensures r <= |subs|
    ensures r == |AnswersFor(q.questionId, subs)|
  {
    AnswersForCount(q.questionId, subs);
    AnsweredCount(q.questionId, subs)
  }

  /** The question ids this view refuses, compared after lower-casing. */
  const EXCLUDED_IDS: seq<string> := ["name", "email", "full_name", "email_address"]

  /** Whether the view renders charts rather than "Analytics not
      available for this question type". */
  predicate ShowsAnalytics(q: Question) {
    Lower(q.questionId) !in EXCLUDED_IDS && IsChoiceType(q.questionType)
  }

  /** The view excludes a superset of what the engine excludes: every
      question it shows is one the engine also charts. */
  lemma ShownQuestionsAreCharted(q: Question)
    ensures ShowsAnalytics(q) ==> !AnalyticsEngine.ExcludedFromEngine(q)
    ensures ShowsAnalytics(q) <==> IsChoiceType(q.questionType) && !AnalyticsEngine.ExcludedFromEngine(q)
                                   && Lower(q.questionId) != "full_name" && Lower(q.questionId) != "email_address"
  {
  }
}
