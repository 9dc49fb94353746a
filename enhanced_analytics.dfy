/** The data side of `EnhancedAnalytics` in
    components/admin/analytics/enhanced-analytics.tsx: for each choice
    question, the raw answers are counted by their string form (every
    element of an array answer separately) into coloured chart entries,
    and the first four questions become insight cards. */
module EnhancedAnalytics {
  import opened Strings
  import opened JsValues
  import opened Counts
  import opened Types

  const ECELL_COLORS: seq<string> := [
    "#FF8C32", "#FFA533", "#FFD233", "#FF6B6B", "#4ECDC4",
    "#45B7D1", "#96CEB4", "#FFEAA7", "#DDA0DD", "#98D8C8"
  ]

  datatype InsightCard = InsightCard(title: string, description: string)

  const INSIGHT_CARDS: seq<InsightCard> := [
    InsightCard("🔥 Hot Topics", "Most selected interests"),
    InsightCard("👥 Team Composition", "Role distribution"),
    InsightCard("🎯 Activity Preferences", "Event planning insights"),
    InsightCard("🚀 Startup Readiness", "Interest vs experience")
  ]

  /** One chart entry `{ label, value, color }`; `name` is the source's `label`. */
  datatype Slice = Slice(name: string, value: nat, color: string)

  datatype AnalyticsItem = AnalyticsItem(
    questionId: string,
    questionText: string,
    questionType: string,
    responses: seq<Slice>,
    totalResponses: nat)

  /** An insight card with the first three entries of its question. */
  datatype Insight = Insight(card: InsightCard, data: seq<Slice>, total: nat)

  /** `questionAnswers`: the answers that are neither undefined nor null
      (unlike the other views, "" is kept). */
  function PresentAnswers(qid: string, subs: seq<Submission>): (r: seq<JsVal>)
    ensures |r| <= |subs|
    ensures forall a :: a in r ==> a != Undef && a != Null
  {
    if subs == [] then []
    else
      var a := At(subs[0].answers, qid);
      (if a != Undef && a != Null then [a] else []) + PresentAnswers(qid, subs[1..])
  }

  /** `String(v)` of every element: the keys `responseCounts[value]` uses. */
  function ElementKeys(vs: seq<JsVal>): (r: seq<string>)
    ensures |r| == |vs|
    ensures forall i :: 0 <= i < |vs| ==> r[i] == ToStr(vs[i])
  {
    seq(|vs|, i requires 0 <= i < |vs| => ToStr(vs[i]))
  }

  /** The keys all answers are counted under, in order. */
  function ResponseKeys(answers: seq<JsVal>): seq<string>
    decreases |answers|
  {
    if answers == [] then []
    else
      var last := answers[|answers| - 1];
      ResponseKeys(answers[..|answers| - 1])
        + (if last.Arr? then ElementKeys(last.elems) else [ToStr(last)])
  }

  /** `Object.entries(responseCounts).map(([label, value], index) => ...)`. */
  function ChartData(counts: Counts): (r: seq<Slice>)
    ensures |r| == |counts|
    ensures forall i :: 0 <= i < |r| ==>
              r[i] == Slice(counts[i].0, counts[i].1, ECELL_COLORS[i % |ECELL_COLORS|])
  {
    seq(|counts|, i requires 0 <= i < |counts| =>
          Slice(counts[i].0, counts[i].1, ECELL_COLORS[i % |ECELL_COLORS|]))
  }

  function ItemOf(q: Question, subs: seq<Submission>): AnalyticsItem {
    var answers := PresentAnswers(q.questionId, subs);
    AnalyticsItem(q.questionId, q.questionText, q.questionType,
                  ChartData(IncrAll([], ResponseKeys(answers))), |answers|)
  }

  /** `analytics`: an item per choice question, in question order. */
  function AnalyticsOf(questions: seq<Question>, subs: seq<Submission>): seq<AnalyticsItem>
    decreases |questions|
  {
    if questions == [] then []
    else
      var rest := AnalyticsOf(questions[..|questions| - 1], subs);
      var q := questions[|questions| - 1];
      if IsChoiceType(q.questionType) then rest + [ItemOf(q, subs)] else rest
  }

  lemma ResponseKeysStep(answers: seq<JsVal>, i: nat)
    requires i < |answers|
    ensures IncrAll([], ResponseKeys(answers[..i + 1]))
         == IncrAll(IncrAll([], ResponseKeys(answers[..i])),
                    if answers[i].Arr? then ElementKeys(answers[i].elems) else [ToStr(answers[i])])
  {
    assert answers[..i + 1][..i] == answers[..i];
    IncrAllAppend([], ResponseKeys(answers[..i]),
                  if answers[i].Arr? then ElementKeys(answers[i].elems) else [ToStr(answers[i])]);
  }

  /** The counting loop over `questionAnswers`. */
  method CountResponses(answers: seq<JsVal>) returns (counts: Counts)
    ensures counts == IncrAll([], ResponseKeys(answers))
  {
    counts := [];
    var i := 0;
    while i < |answers|
      invariant 0 <= i <= |answers|
      invariant counts == IncrAll([], ResponseKeys(answers[..i]))
    {
      ResponseKeysStep(answers, i);
      var answer := answers[i];
      if answer.Arr? {
        counts := CountAll(counts, ElementKeys(answer.elems));
      } else {
        assert [ToStr(answer)][..0] == [];
        counts := Incr(counts, ToStr(answer));
      }
      i := i + 1;
    }
    assert answers[..|answers|] == answers;
  }

  /** The analytics half of `fetchAnalytics`, once both queries are back. */
  method ProcessAnalytics(questions: seq<Question>, subs: seq<Submission>)
    returns (analytics: seq<AnalyticsItem>)
    ensures analytics == AnalyticsOf(questions, subs)
  {
    analytics := [];
    var i := 0;
    while i < |questions|
      invariant 0 <= i <= |questions|
      invariant analytics == AnalyticsOf(questions[..i], subs)
    {
      assert questions[..i + 1][..i] == questions[..i];
      var q := questions[i];
      assert AnalyticsOf(questions[..i + 1], subs) ==
               if IsChoiceType(q.questionType) then analytics + [ItemOf(q, subs)] else analytics;
      if IsChoiceType(q.questionType) {
        var answers := PresentAnswers(q.questionId, subs);
        var counts := CountResponses(answers);
        analytics := analytics + [AnalyticsItem(q.questionId, q.questionText, q.questionType,
                                                ChartData(counts), |answers|)];
      }
      i := i + 1;
    }
    assert questions[..|questions|] == questions;
  }

  /** `analytics.slice(0, 4).map(...)`: card `index` with the first three
      entries and the total of the `index`-th item. */
  function Insights(analytics: seq<AnalyticsItem>): (r: seq<Insight>)
    ensures |r| == if |analytics| < 4 then |analytics| else 4
    ensures forall i :: 0 <= i < |r| ==>
              && r[i].card == INSIGHT_CARDS[i]
              && r[i].total == analytics[i].totalResponses
              && r[i].data <= analytics[i].responses
              && |r[i].data| == (if |analytics[i].responses| < 3 then |analytics[i].responses| else 3)
  {
    var n := if |analytics| < 4 then |analytics| else 4;
    seq(n, i requires 0 <= i < n =>
          var rs := analytics[i].responses;
          Insight(INSIGHT_CARDS[i], if |rs| <= 3 then rs else rs[..3], analytics[i].totalResponses))
  }

  function SliceSum(s: seq<Slice>): nat {
    if s == [] then 0 else s[0].value + SliceSum(s[1..])
  }

  lemma {:induction false} SliceSumIsSum(s: seq<Slice>, counts: Counts)
    requires |s| == |counts|
    requires forall i :: 0 <= i < |s| ==> s[i].value == counts[i].1
    ensures SliceSum(s) == Sum(counts)
  {
    if s != [] {
      SliceSumIsSum(s[1..], counts[1..]);
    }
  }

  function SliceLabels(s: seq<Slice>): (r: seq<string>)
    ensures |r| == |s|
    ensures forall i :: 0 <= i < |s| ==> r[i] == s[i].name
  {
    seq(|s|, i requires 0 <= i < |s| => s[i].name)
  }

  /** Without array answers every answer is counted exactly once. */
  lemma {:induction false} ScalarAnswersCountOnce(answers: seq<JsVal>)
    requires forall a :: a in answers ==> !a.Arr?
    ensures |ResponseKeys(answers)| == |answers|
    decreases |answers|
  {
    if answers != [] {
      var p := answers[..|answers| - 1];
      assert forall a :: a in p ==> a in answers;
      ScalarAnswersCountOnce(p);
      assert answers[|answers| - 1] in answers;
    }
  }

  /** The chart data of a tally: distinct labels, exactly the tallied
      keys, each with its (positive) number of occurrences and the colour
      of its position, adding up to the number of keys. */
  lemma ChartDataOfTally(keys: seq<string>)
    ensures var rs := ChartData(IncrAll([], keys));
            && (forall i, j :: 0 <= i < j < |rs| ==> rs[i].name != rs[j].name)
            && (forall k :: k in SliceLabels(rs) <==> k in keys)
            && (forall i :: 0 <= i < |rs| ==> rs[i].value == Occ(keys, rs[i].name) > 0)
            && (forall i :: 0 <= i < |rs| ==> rs[i].color == ECELL_COLORS[i % 10])
            && SliceSum(rs) == |keys|
  {
    var d := IncrAll([], keys);
    var rs := ChartData(d);
    IncrAllKeys([], keys);
    IncrAllSum([], keys);
    SliceSumIsSum(rs, d);
    assert SliceLabels(rs) == Keys(d);
    forall i | 0 <= i < |rs| ensures rs[i].value == Occ(keys, rs[i].name) > 0 {
      IncrAllLookup([], keys, d[i].0);
      OccPositive(keys, d[i].0);
      assert d[i].0 in Keys(d);
    }
  }

  /** A question's entry list: distinct labels, exactly the string forms
      of the answers and of the array answers' elements, each with its
      (positive) number of occurrences and the colour of its position;
      the values add up to the number of counted keys, which is the number
      of answers when no answer is an array. */
  lemma ItemSpec(q: Question, subs: seq<Submission>)
    ensures var item := ItemOf(q, subs);
            var answers := PresentAnswers(q.questionId, subs);
            var keys := ResponseKeys(answers);
            var rs := item.responses;
            && item.totalResponses == |answers|
            && (forall i, j :: 0 <= i < j < |rs| ==> rs[i].name != rs[j].name)
            && (forall k :: k in SliceLabels(rs) <==> k in keys)
            && (forall i :: 0 <= i < |rs| ==> rs[i].value == Occ(keys, rs[i].name) > 0)
            && (forall i :: 0 <= i < |rs| ==> rs[i].color == ECELL_COLORS[i % 10])
            && SliceSum(rs) == |keys|
            && ((forall a :: a in answers ==> !a.Arr?) ==> SliceSum(rs) == item.totalResponses)
  {
    var answers := PresentAnswers(q.questionId, subs);
    var keys := ResponseKeys(answers);
    assert ItemOf(q, subs).responses == ChartData(IncrAll([], keys));
    ChartDataOfTally(keys);
    if forall a :: a in answers ==> !a.Arr? {
      ScalarAnswersCountOnce(answers);
    }
  }

  /** Items come from the choice questions only, in order, one each. */
  lemma {:induction false} AnalyticsOfSpec(questions: seq<Question>, subs: seq<Submission>)
    ensures var out := AnalyticsOf(questions, subs);
            && |out| <= |questions|
            && (forall item :: item in out ==> exists q :: q in questions && IsChoiceType(q.questionType) && item == ItemOf(q, subs))
            && (forall q :: q in questions && IsChoiceType(q.questionType) ==> ItemOf(q, subs) in out)
    decreases |questions|
  {
    if questions != [] {
      var p := questions[..|questions| - 1];
      AnalyticsOfSpec(p, subs);
      assert forall x :: x in questions <==> x in p || x == questions[|questions| - 1];
    }
  }

  /** The items keep the questions' order: building them distributes over
      concatenation. */
  lemma {:induction false} AnalyticsOfConcat(a: seq<Question>, b: seq<Question>, subs: seq<Submission>)
    ensures AnalyticsOf(a + b, subs) == AnalyticsOf(a, subs) + AnalyticsOf(b, subs)
    decreases |b|
  {
    if b == [] {
      assert a + b == a;
    } else {
      var p := b[..|b| - 1];
      assert (a + b)[..|a + b| - 1] == a + p;
      assert (a + b)[|a + b| - 1] == b[|b| - 1];
      AnalyticsOfConcat(a, p, subs);
    }
  }
}
