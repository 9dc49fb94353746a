/** `AnalyticsEngine` of lib/analytics-engine.ts: per-question answers become
    pie (or bar) chart datasets, and submissions become a per-day trend line.
    The dictionaries the source mutates in `forEach` loops are the local
    tallies of the methods below; each method is proved equal to a
    specification function, and the properties the charts promise are lemmas
    about those functions. */
module AnalyticsEngine {
  import opened Wrappers
  import opened Strings
  import opened JsValues
  import opened Counts
  import opened Types

  const COLORS: seq<string> := [
    "#FF8C32", "#FFA533", "#FFD233", "#FF6B6B", "#4ECDC4",
    "#45B7D1", "#96CEB4", "#FFEAA7", "#DDA0DD", "#98D8C8"
  ]

  datatype ChartType = Pie | Bar | Line

  /** The single entry of `data.datasets`. */
  datatype Series = Series(name: string, data: seq<nat>, background: seq<string>, border: seq<string>)

  datatype ChartDataset = ChartDataset(
    questionId: string,
    questionText: string,
    questionType: string,
    chartType: ChartType,
    labels: seq<string>,
    series: Series,
    totalResponses: nat)

  // ---------------------------------------------------------------------
  // Entity decoding

  /** `s.replace(/&#39;/g, "'").replace(/&amp;/g, "&")`. */
  function Decode(s: string): string {
    ReplaceAll(ReplaceAll(s, "&#39;", "'"), "&amp;", "&")
  }

  /** Text without an ampersand is left alone. */
  lemma DecodeWithoutAmpersand(s: string)
    requires '&' !in s
    ensures Decode(s) == s
  {
    ReplaceAllAbsent(s, "&#39;", "'");
    ReplaceAllAbsent(s, "&amp;", "&");
  }

  /** Decoding is not idempotent: the second replacement can produce a new
      "&#39;" that only a second pass turns into an apostrophe. */
  lemma DecodeNotIdempotent()
    ensures Decode("&amp;#39;") == "&#39;"
    ensures Decode(Decode("&amp;#39;")) == "'"
  {
    DecodeStep1();
    DecodeStep2();
    DecodeStep3();
    ReplaceAllAbsent("'", "&amp;", "&");
  }

  /** The first pass finds no `&#39;` in `&amp;#39;`. */
  lemma DecodeStep1()
    ensures ReplaceAll("&amp;#39;", "&#39;", "'") == "&amp;#39;"
  {
    var s := "&amp;#39;";
    assert !StartsWith(s, "&#39;");
    assert s[1..] == "amp;#39;";
    ReplaceAllAbsent("amp;#39;", "&#39;", "'");
  }

  /** The second replacement turns `&amp;#39;` into `&#39;`. */
  lemma DecodeStep2()
    ensures ReplaceAll("&amp;#39;", "&amp;", "&") == "&#39;"
  {
    var s := "&amp;#39;";
    assert StartsWith(s, "&amp;");
    assert s[5..] == "#39;";
    ReplaceAllAbsent("#39;", "&amp;", "&");
  }

  /** A second pass turns `&#39;` into an apostrophe. */
  lemma DecodeStep3()
    ensures ReplaceAll("&#39;", "&#39;", "'") == "'"
  {
    var s := "&#39;";
    assert StartsWith(s, "&#39;");
    assert s[5..] == "";
  }

  // ---------------------------------------------------------------------
  // Counting answers

  /** The key one answer value is counted under, if any: the label of the
      first option whose value it is, else the value itself when it is a
      string (the fallback bucket), else nothing. Pie charts decode both. */
  function CountKey(opts: seq<QuestionOption>, v: JsVal, decode: bool): Option<string> {
    match FindOption(opts, v)
    case Some(o) => Some(if decode then Decode(o.caption) else o.caption)
    case None => if v.Str? then Some(if decode then Decode(v.s) else v.s) else None
  }

  function KeyList(k: Option<string>): seq<string> {
    if k.Some? then [k.value] else []
  }

  /** The keys the values `vs` are counted under, in order. */
  function KeysOfValues(opts: seq<QuestionOption>, vs: seq<JsVal>, decode: bool): seq<string>
    decreases |vs|
  {
    if vs == [] then []
    else KeysOfValues(opts, vs[..|vs| - 1], decode) + KeyList(CountKey(opts, vs[|vs| - 1], decode))
  }

  /** An array answer contributes each of its elements; any other answer is
      one value. */
  function ValuesOf(answer: JsVal): seq<JsVal> {
    if answer.Arr? then answer.elems else [answer]
  }

  /** The keys all of `answers` are counted under, in order. */
  function KeysOfAnswers(opts: seq<QuestionOption>, answers: seq<JsVal>, decode: bool): seq<string>
    decreases |answers|
  {
    if answers == [] then []
    else KeysOfAnswers(opts, answers[..|answers| - 1], decode)
         + KeysOfValues(opts, ValuesOf(answers[|answers| - 1]), decode)
  }

  /** The tally after initialisation and counting. */
  function ChoiceCounts(q: Question, answers: seq<JsVal>, decode: bool): Counts {
    var opts := OptionsOrEmpty(q.options);
    IncrAll(Zeroes(Labels(opts)), KeysOfAnswers(opts, answers, decode))
  }

  /** The inner loop over the elements of an array answer: each element
      raises the count of the key it is counted under, if any. */
  method CountValues(counts: Counts, opts: seq<QuestionOption>, vs: seq<JsVal>, decode: bool)
    returns (r: Counts)
    ensures r == IncrAll(counts, KeysOfValues(opts, vs, decode))
  {
    r := counts;
    var j := 0;
    while j < |vs|
      invariant 0 <= j <= |vs|
      invariant r == IncrAll(counts, KeysOfValues(opts, vs[..j], decode))
    {
      var key := CountKey(opts, vs[j], decode);
      CountValueStep(counts, opts, vs, j, decode);
      if key.Some? {
        r := Incr(r, key.value);
      }
      j := j + 1;
    }
    assert vs[..|vs|] == vs;
  }

  lemma CountValueStep(counts: Counts, opts: seq<QuestionOption>, vs: seq<JsVal>, j: nat, decode: bool)
    requires j < |vs|
    ensures var before := IncrAll(counts, KeysOfValues(opts, vs[..j], decode));
            var key := CountKey(opts, vs[j], decode);
            IncrAll(counts, KeysOfValues(opts, vs[..j + 1], decode))
              == if key.Some? then Incr(before, key.value) else before
  {
    var ks := KeysOfValues(opts, vs[..j], decode);
    assert vs[..j + 1][..j] == vs[..j];
    var key := CountKey(opts, vs[j], decode);
    if key.Some? {
      IncrAllSnoc(counts, ks, key.value);
    } else {
      assert ks + [] == ks;
    }
  }

  lemma CountAnswerStep(init: Counts, opts: seq<QuestionOption>, answers: seq<JsVal>, i: nat, decode: bool)
    requires i < |answers|
    ensures IncrAll(init, KeysOfAnswers(opts, answers[..i + 1], decode))
         == IncrAll(IncrAll(init, KeysOfAnswers(opts, answers[..i], decode)),
                    KeysOfValues(opts, ValuesOf(answers[i]), decode))
  {
    assert answers[..i + 1][..i] == answers[..i];
    IncrAllAppend(init, KeysOfAnswers(opts, answers[..i], decode), KeysOfValues(opts, ValuesOf(answers[i]), decode));
  }

  lemma ScalarStep(d: Counts, opts: seq<QuestionOption>, answer: JsVal, decode: bool)
    requires !answer.Arr?
    ensures var key := CountKey(opts, answer, decode);
            IncrAll(d, KeysOfValues(opts, ValuesOf(answer), decode))
              == if key.Some? then Incr(d, key.value) else d
  {
    assert [answer][..0] == [];
    var key := CountKey(opts, answer, decode);
    if key.Some? {
      assert [key.value][..0] == [];
    }
  }

  /** One answer's turn in the counting loop: an array answer counts each
      element, any other answer counts itself. */
  method CountAnswer(counts: Counts, opts: seq<QuestionOption>, answer: JsVal, decode: bool)
    returns (r: Counts)
    ensures r == IncrAll(counts, KeysOfValues(opts, ValuesOf(answer), decode))
  {
    if answer.Arr? {
      r := CountValues(counts, opts, answer.elems, decode);
    } else {
      ScalarStep(counts, opts, answer, decode);
      r := counts;
      var key := CountKey(opts, answer, decode);
      if key.Some? {
        r := Incr(counts, key.value);
      }
    }
  }

  /** The counting loops of `createPieChart` (with `decode`) and
      `createBarChart` (without): zero every option label, then count each
      answer, element by element for arrays. */
  method CountChoices(q: Question, answers: seq<JsVal>, decode: bool) returns (counts: Counts)
    ensures counts == ChoiceCounts(q, answers, decode)
  {
    var opts := OptionsOrEmpty(q.options);
    counts := ZeroAll(Labels(opts));
    ghost var init := counts;
    var i := 0;
    while i < |answers|
      invariant 0 <= i <= |answers|
      invariant counts == IncrAll(init, KeysOfAnswers(opts, answers[..i], decode))
    {
      CountAnswerStep(init, opts, answers, i, decode);
      counts := CountAnswer(counts, opts, answers[i], decode);
      i := i + 1;
    }
    assert answers[..|answers|] == answers;
  }

  function PieColors(n: nat): (r: seq<string>)
    ensures |r| == n
    ensures forall i :: 0 <= i < n ==> r[i] == COLORS[i % |COLORS|]
  {
    seq(n, i requires 0 <= i < n => COLORS[i % |COLORS|])
  }

  /** The dataset `createPieChart` returns for `answers` already filtered. */
  function PieChartOf(q: Question, answers: seq<JsVal>): ChartDataset {
    var shown := Positive(ChoiceCounts(q, answers, true));
    ChartDataset(q.questionId, q.questionText, q.questionType, Pie,
                 Keys(shown), Series("Responses", Values(shown), PieColors(|shown|), []),
                 |answers|)
  }

  /** The dataset `createBarChart` returns. */
  function BarChartOf(q: Question, answers: seq<JsVal>): ChartDataset {
    var shown := Positive(ChoiceCounts(q, answers, false));
    ChartDataset(q.questionId, q.questionText, q.questionType, Bar,
                 Keys(shown), Series("Count", Values(shown), [COLORS[0]], [COLORS[1]]),
                 |answers|)
  }

  method CreatePieChart(q: Question, answers: seq<JsVal>) returns (ds: ChartDataset)
    ensures ds == PieChartOf(q, answers)
    ensures ds.chartType == Pie && |ds.labels| == |ds.series.data| == |ds.series.background|
  {
    var counts := CountChoices(q, answers, true);
    var shown := Positive(counts);
    ds := ChartDataset(q.questionId, q.questionText, q.questionType, Pie,
                       Keys(shown), Series("Responses", Values(shown), PieColors(|shown|), []),
                       |answers|);
  }

  method CreateBarChart(q: Question, answers: seq<JsVal>) returns (ds: ChartDataset)
    ensures ds == BarChartOf(q, answers)
    ensures ds.chartType == Bar && |ds.labels| == |ds.series.data|
  {
    var counts := CountChoices(q, answers, false);
    var shown := Positive(counts);
    ds := ChartDataset(q.questionId, q.questionText, q.questionType, Bar,
                       Keys(shown), Series("Count", Values(shown), [COLORS[0]], [COLORS[1]]),
                       |answers|);
  }

  function SumOf(s: seq<nat>): nat {
    if s == [] then 0 else s[0] + SumOf(s[1..])
  }

  lemma {:induction false} SumOfValues(d: Counts)
    ensures SumOf(Values(d)) == Sum(d)
  {
    if d != [] {
      SumOfValues(d[1..]);
      assert Values(d)[1..] == Values(d[1..]);
    }
  }

  /** What a counted chart shows: labels and counts are index-aligned, the
      labels are distinct and are exactly the keys some answer value was
      counted under, each count is that key's number of occurrences and is
      positive, and the counts add up to the number of counted values. */
  lemma {:induction false} CountedChart(q: Question, answers: seq<JsVal>, decode: bool)
    ensures var keys := KeysOfAnswers(OptionsOrEmpty(q.options), answers, decode);
            var shown := Positive(ChoiceCounts(q, answers, decode));
            && |Keys(shown)| == |Values(shown)|
            && DistinctKeys(shown)
            && (forall k :: k in Keys(shown) <==> k in keys)
            && (forall i :: 0 <= i < |shown| ==> Values(shown)[i] == Occ(keys, Keys(shown)[i]) > 0)
            && SumOf(Values(shown)) == |keys|
  {
    var opts := OptionsOrEmpty(q.options);
    var keys := KeysOfAnswers(opts, answers, decode);
    var init := Zeroes(Labels(opts));
    var d := ChoiceCounts(q, answers, decode);
    var shown := Positive(d);
    ZeroesSpec(Labels(opts));
    IncrAllKeys(init, keys);
    IncrAllSum(init, keys);
    PositiveKeys(d);
    PositiveSum(d);
    SumOfValues(shown);
    forall k ensures Lookup(d, k) == Occ(keys, k) && (Has(shown, k) <==> k in keys) {
      IncrAllLookup(init, keys, k);
      PositiveLookup(d, k);
      OccPositive(keys, k);
    }
    forall i | 0 <= i < |shown| ensures Values(shown)[i] == Occ(keys, Keys(shown)[i]) > 0 {
      PositiveLookup(d, shown[i].0);
    }
  }

  /** A non-array answer counts at most once: under its option's label when
      it is some option's value, else under its own text when it is a
      string, else not at all. */
  lemma ScalarAnswerKeys(opts: seq<QuestionOption>, answer: JsVal, decode: bool)
    requires !answer.Arr?
    ensures var keys := KeysOfValues(opts, ValuesOf(answer), decode);
            && |keys| <= 1
            && (FindOption(opts, answer).Some? ==>
                  keys == [if decode then Decode(FindOption(opts, answer).value.caption)
                           else FindOption(opts, answer).value.caption])
            && (FindOption(opts, answer).None? && answer.Str? ==>
                  keys == [if decode then Decode(answer.s) else answer.s])
            && (FindOption(opts, answer).None? && !answer.Str? ==> keys == [])
  {
    assert [answer][..0] == [];
  }

  /** An array answer counts each element by the same rule, so one
      submission can raise several counts. */
  lemma {:induction false} ArrayAnswerKeys(opts: seq<QuestionOption>, vs: seq<JsVal>, decode: bool)
    ensures var keys := KeysOfValues(opts, vs, decode);
            && |keys| <= |vs|
            && ((forall v :: v in vs ==> v.Str?) ==> |keys| == |vs|)
    decreases |vs|
  {
    if vs != [] {
      var p := vs[..|vs| - 1];
      assert forall v :: v in p ==> v in vs;
      ArrayAnswerKeys(opts, p, decode);
      assert vs[|vs| - 1] in vs;
    }
  }

  /** With only string answers, every answer is counted exactly once, so the
      counts add up to `totalResponses`. */
  lemma {:induction false} StringAnswersCountOnce(opts: seq<QuestionOption>, answers: seq<JsVal>, decode: bool)
    requires forall a :: a in answers ==> a.Str?
    ensures |KeysOfAnswers(opts, answers, decode)| == |answers|
    decreases |answers|
  {
    if answers != [] {
      var p := answers[..|answers| - 1];
      assert forall a :: a in p ==> a in answers;
      StringAnswersCountOnce(opts, p, decode);
      var last := answers[|answers| - 1];
      assert last in answers;
      ScalarAnswerKeys(opts, last, decode);
    }
  }

  /** The pie dataset: labels and counts aligned, every count positive and
      equal to the number of decoded keys counted under its label, and
      `totalResponses` is the number of answers, not the sum of counts. */
  lemma PieChartSpec(q: Question, answers: seq<JsVal>)
    ensures var ds := PieChartOf(q, answers);
            var keys := KeysOfAnswers(OptionsOrEmpty(q.options), answers, true);
            && ds.chartType == Pie
            && ds.totalResponses == |answers|
            && |ds.labels| == |ds.series.data|
            && (forall i, j :: 0 <= i < j < |ds.labels| ==> ds.labels[i] != ds.labels[j])
            && (forall k :: k in ds.labels <==> k in keys)
            && (forall i :: 0 <= i < |ds.labels| ==> ds.series.data[i] == Occ(keys, ds.labels[i]) > 0)
            && SumOf(ds.series.data) == |keys|
            && ((forall a :: a in answers ==> a.Str?) ==> SumOf(ds.series.data) == ds.totalResponses)
  {
    CountedChart(q, answers, true);
    if forall a :: a in answers ==> a.Str? {
      StringAnswersCountOnce(OptionsOrEmpty(q.options), answers, true);
    }
  }

  /** The bar dataset counts by the same rule without decoding labels. */
  lemma BarChartSpec(q: Question, answers: seq<JsVal>)
    ensures var ds := BarChartOf(q, answers);
            var keys := KeysOfAnswers(OptionsOrEmpty(q.options), answers, false);
            && ds.chartType == Bar
            && ds.totalResponses == |answers|
            && |ds.labels| == |ds.series.data|
            && (forall k :: k in ds.labels <==> k in keys)
            && (forall i :: 0 <= i < |ds.labels| ==> ds.series.data[i] == Occ(keys, ds.labels[i]) > 0)
            && SumOf(ds.series.data) == |keys|
  {
    CountedChart(q, answers, false);
  }

  // ---------------------------------------------------------------------
  // generateChartData

  /** Question ids the engine never charts: `['name', 'email']`, compared
      after lower-casing. */
  predicate ExcludedFromEngine(q: Question) {
    Lower(q.questionId) == "name" || Lower(q.questionId) == "email"
  }

  /** `generateChartData`: a pie dataset per question that is not excluded,
      dropping those with no admissible answer. */
  function GenerateChartData(questions: seq<Question>, subs: seq<Submission>): seq<ChartDataset> {
    if questions == [] then []
    else
      var q := questions[0];
      var rest := GenerateChartData(questions[1..], subs);
      if ExcludedFromEngine(q) then rest
      else
        var ds := PieChartOf(q, AnswersFor(q.questionId, subs));
        if ds.totalResponses > 0 then [ds] + rest else rest
  }

  /** The datasets come from the questions in order: a question appears iff
      its id is not name/email and some submission answers it; each dataset
      is that question's pie chart with a positive `totalResponses`. */
  lemma {:induction false} GenerateChartDataSpec(questions: seq<Question>, subs: seq<Submission>)
    ensures var out := GenerateChartData(questions, subs);
            && |out| <= |questions|
            && (forall ds :: ds in out ==>
                  ds.totalResponses > 0 && ds.chartType == Pie &&
                  exists q :: q in questions && !ExcludedFromEngine(q) &&
                              ds == PieChartOf(q, AnswersFor(q.questionId, subs)))
            && (forall q :: q in questions && !ExcludedFromEngine(q) && AnsweredCount(q.questionId, subs) > 0 ==>
                  PieChartOf(q, AnswersFor(q.questionId, subs)) in out)
  {
    if questions != [] {
      var q := questions[0];
      GenerateChartDataSpec(questions[1..], subs);
      AnswersForCount(q.questionId, subs);
      assert forall x :: x in questions <==> x == q || x in questions[1..];
    }
  }

  /** The datasets keep the questions' order: generating distributes over
      concatenation. */
  lemma {:induction false} GenerateChartDataConcat(a: seq<Question>, b: seq<Question>, subs: seq<Submission>)
    ensures GenerateChartData(a + b, subs) == GenerateChartData(a, subs) + GenerateChartData(b, subs)
  {
    if a == [] {
      assert a + b == b;
    } else {
      assert (a + b)[1..] == a[1..] + b;
      GenerateChartDataConcat(a[1..], b, subs);
    }
  }

  // ---------------------------------------------------------------------
  // generateSubmissionTrends

  /** Inserts `x` into a strictly sorted list. */
  function Insert(s: seq<string>, x: string): (r: seq<string>)
    requires StrictlySorted(s) && x !in s
    ensures StrictlySorted(r)
    ensures |r| == |s| + 1
    ensures forall y :: y in r <==> y in s || y == x
  {
    if s == [] then [x]
    else if Less(x, s[0]) then
      assert forall j :: 0 < j < |s| ==> Less(x, s[j]) by {
        forall j | 0 < j < |s| ensures Less(x, s[j]) { LessTransitive(x, s[0], s[j]); }
      }
      [x] + s
    else
      LessTotal(x, s[0]);
      var t := Insert(s[1..], x);
      assert forall j :: 0 <= j < |t| ==> Less(s[0], t[j]) by {
        forall j | 0 <= j < |t| ensures Less(s[0], t[j]) {
          if t[j] != x {
            assert t[j] in s[1..];
            var m :| 0 <= m < |s[1..]| && s[1..][m] == t[j];
            assert s[m + 1] == t[j];
          }
        }
      }
      [s[0]] + t
  }

  /** `Object.keys(dailyCounts).sort()`. */
  method SortKeys(keys: seq<string>) returns (sorted: seq<string>)
    requires forall i, j :: 0 <= i < j < |keys| ==> keys[i] != keys[j]
    ensures StrictlySorted(sorted)
    ensures |sorted| == |keys|
    ensures forall y :: y in sorted <==> y in keys
  {
    sorted := [];
    var i := 0;
    while i < |keys|
      invariant 0 <= i <= |keys|
      invariant StrictlySorted(sorted)
      invariant |sorted| == i
      invariant forall y :: y in sorted <==> y in keys[..i]
    {
      assert keys[i] !in keys[..i];
      sorted := Insert(sorted, keys[i]);
      assert keys[..i + 1] == keys[..i] + [keys[i]];
      i := i + 1;
    }
    assert keys[..|keys|] == keys;
  }

  /** The day key of each submission, `new Date(created_at).toLocaleDateString()`
      being the parameter `dayOf`. */
  function DaysOf(subs: seq<Submission>, dayOf: string -> string): (r: seq<string>)
    ensures |r| == |subs|
    ensures forall i :: 0 <= i < |subs| ==> r[i] == dayOf(subs[i].createdAt)
  {
    seq(|subs|, i requires 0 <= i < |subs| => dayOf(subs[i].createdAt))
  }

  /** Of a strictly sorted list, the last 30 are sorted and every dropped
      entry sorts before all that are kept. */
  lemma LastThirtyKeepsGreatest(sorted: seq<string>)
    requires StrictlySorted(sorted)
    ensures var r := LastN(sorted, 30);
            && StrictlySorted(r)
            && (forall k :: k in r ==> k in sorted)
            && (forall k :: k in sorted && k !in r ==> Less(k, r[0]))
  {
    var r := LastN(sorted, 30);
    var n := |sorted|;
    forall k | k in sorted && k !in r ensures Less(k, r[0]) {
      var p :| 0 <= p < n && sorted[p] == k;
      assert sorted[n - |r|] == r[0];
    }
  }

  /** The days are sorted as strings, not as dates: for two days that
      `toLocaleDateString` writes as `9/30/2024` and `10/1/2024`, the only
      list `SortKeys` may return puts 1 October first. */
  lemma TrendDaysInStringOrder(sorted: seq<string>)
    requires StrictlySorted(sorted) && |sorted| == 2
    requires forall y :: y in sorted <==> y in ["9/30/2024", "10/1/2024"]
    ensures sorted == ["10/1/2024", "9/30/2024"]
  {
    assert sorted[0] in ["9/30/2024", "10/1/2024"];
    assert sorted[1] in ["9/30/2024", "10/1/2024"];
    assert Less(sorted[0], sorted[1]);
    assert !Less("9/30/2024", "10/1/2024");
    LessIrreflexive(sorted[0]);
  }

  /** `generateSubmissionTrends`: count submissions per day, sort the days,
      keep the last 30. The labels are the (at most 30) greatest distinct
      days in ascending order, each counted exactly, and `totalResponses`
      counts every submission, also those on dropped days. */
  method GenerateSubmissionTrends(subs: seq<Submission>, dayOf: string -> string) returns (ds: ChartDataset)
    ensures var days := DaysOf(subs, dayOf);
            && ds.chartType == Line
            && ds.totalResponses == |subs|
            && |ds.labels| == |ds.series.data|
            && |ds.labels| == (if |Dedup(days)| < 30 then |Dedup(days)| else 30)
            && StrictlySorted(ds.labels)
            && (forall k :: k in ds.labels ==> k in days)
            && (forall k :: k in days && k !in ds.labels ==> Less(k, ds.labels[0]))
            && (forall i :: 0 <= i < |ds.labels| ==> ds.series.data[i] == Occ(days, ds.labels[i]))
  {
    var days := DaysOf(subs, dayOf);
    var dailyCounts := CountAll([], days);
    DedupKeys(days);
    var sortedDates := SortKeys(Keys(dailyCounts));
    var last30 := LastN(sortedDates, 30);
    LastThirtyKeepsGreatest(sortedDates);
    var data := seq(|last30|, j requires 0 <= j < |last30| => Lookup(dailyCounts, last30[j]));
    forall j | 0 <= j < |last30| ensures data[j] == Occ(days, last30[j]) {
      IncrAllLookup([], days, last30[j]);
    }
    ds := ChartDataset("submission_trends", "Submission Trends Over Time", "trend", Line,
                       last30, Series("Daily Submissions", data, [COLORS[0]], [COLORS[1]]),
                       |subs|);
  }
}
