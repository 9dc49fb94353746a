/** The per-question pie cards of components/admin/analytics/question-analytics.tsx,
    which reads the older `questions`/`responses` tables: options are plain
    strings, every option is shown (also with a zero count), and an answer
    counts only when its string form is one of the options. */
module LegacyQuestionAnalytics {
  import opened Wrappers
  import opened Strings
  import opened JsValues
  import opened Counts

  /** A row of the legacy `questions` table; `options` is `None` for a
      question stored without options. */
  datatype LegacyQuestion = LegacyQuestion(
    id: string,
    questionText: string,
    questionType: string,
    options: Option<seq<string>>)

  /** A row of the legacy `responses` table, answers keyed by question id. */
  datatype LegacyResponse = LegacyResponse(answers: map<string, JsVal>)

  const CHART_COLORS: seq<string> := [
    "hsl(var(--chart-1))", "hsl(var(--chart-2))", "hsl(var(--chart-3))",
    "hsl(var(--chart-4))", "hsl(var(--chart-5))"
  ]

  /** `["select", "radio", "checkbox"].includes(t)`. */
  predicate IsLegacyChoiceType(t: string) {
    t == "select" || t == "radio" || t == "checkbox"
  }

  /** The keys a single answer is counted under: each element of an array
      whose string form is an option, or a truthy scalar whose string form
      is an option. */
  function AnswerKeys(options: seq<string>, answer: JsVal): seq<string> {
    if answer.Arr? then ElementKeys(options, answer.elems)
    else if Truthy(answer) && ToStr(answer) in options then [ToStr(answer)]
    else []
  }

  function ElementKeys(options: seq<string>, vs: seq<JsVal>): seq<string>
    decreases |vs|
  {
    if vs == [] then []
    else
      var k := ToStr(vs[|vs| - 1]);
      ElementKeys(options, vs[..|vs| - 1]) + (if k in options then [k] else [])
  }

  /** The keys all responses are counted under, in order. */
  function LegacyKeys(q: LegacyQuestion, options: seq<string>, rs: seq<LegacyResponse>): seq<string>
    decreases |rs|
  {
    if rs == [] then []
    else LegacyKeys(q, options, rs[..|rs| - 1]) + AnswerKeys(options, At(rs[|rs| - 1].answers, q.id))
  }

  /** `optionCounts` once every response has been counted. */
  function LegacyCountsOf(q: LegacyQuestion, options: seq<string>, rs: seq<LegacyResponse>): Counts {
    IncrAll(Zeroes(options), LegacyKeys(q, options, rs))
  }

  lemma {:induction false} ElementKeysAreOptions(options: seq<string>, vs: seq<JsVal>)
    ensures forall k :: k in ElementKeys(options, vs) ==> k in options
    decreases |vs|
  {
    if vs != [] { ElementKeysAreOptions(options, vs[..|vs| - 1]); }
  }

  lemma {:induction false} LegacyKeysAreOptions(q: LegacyQuestion, options: seq<string>, rs: seq<LegacyResponse>)
    ensures forall k :: k in LegacyKeys(q, options, rs) ==> k in options
    decreases |rs|
  {
    if rs != [] {
      LegacyKeysAreOptions(q, options, rs[..|rs| - 1]);
      var a := At(rs[|rs| - 1].answers, q.id);
      if a.Arr? { ElementKeysAreOptions(options, a.elems); }
    }
  }

  /** Counting never adds a key: the record keeps the options' keys. */
  lemma CountsKeepOptions(options: seq<string>, ks: seq<string>)
    requires forall k :: k in ks ==> k in options
    ensures Keys(IncrAll(Zeroes(options), ks)) == Dedup(options)
    ensures forall k :: Has(IncrAll(Zeroes(options), ks), k) <==> k in options
  {
    ZeroesSpec(options);
    IncrAllKeys(Zeroes(options), ks);
  }

  lemma ElementStep(d: Counts, options: seq<string>, vs: seq<JsVal>, j: nat)
    requires j < |vs|
    ensures var before := IncrAll(d, ElementKeys(options, vs[..j]));
            IncrAll(d, ElementKeys(options, vs[..j + 1]))
              == if ToStr(vs[j]) in options then Incr(before, ToStr(vs[j])) else before
  {
    assert vs[..j + 1][..j] == vs[..j];
    var ks := ElementKeys(options, vs[..j]);
    if ToStr(vs[j]) in options {
      IncrAllSnoc(d, ks, ToStr(vs[j]));
    } else {
      assert ks + [] == ks;
    }
  }

  /** `answer.forEach(a => { if (optionCounts[a] !== undefined) optionCounts[a]++ })`. */
  method CountElements(counts: Counts, options: seq<string>, vs: seq<JsVal>) returns (r: Counts)
    requires forall k :: Has(counts, k) <==> k in options
    ensures r == IncrAll(counts, ElementKeys(options, vs))
  {
    r := counts;
    var j := 0;
    while j < |vs|
      invariant 0 <= j <= |vs|
      invariant r == IncrAll(counts, ElementKeys(options, vs[..j]))
      invariant forall k :: Has(r, k) <==> k in options
    {
      ElementStep(counts, options, vs, j);
      var key := ToStr(vs[j]);
      if Has(r, key) {
        r := Incr(r, key);
      }
      j := j + 1;
    }
    assert vs[..|vs|] == vs;
  }

  /** The body of `responses.forEach`: one answer, counted only under keys
      the record already has. */
  method CountAnswer(counts: Counts, options: seq<string>, answer: JsVal) returns (r: Counts)
    requires forall k :: Has(counts, k) <==> k in options
    ensures r == IncrAll(counts, AnswerKeys(options, answer))
    ensures forall k :: Has(r, k) <==> k in options
  {
    if answer.Arr? {
      r := CountElements(counts, options, answer.elems);
      ElementKeysAreOptions(options, answer.elems);
    } else if Truthy(answer) && Has(counts, ToStr(answer)) {
      r := Incr(counts, ToStr(answer));
      assert [ToStr(answer)][..0] == [];
    } else {
      r := counts;
    }
    IncrAllKeys(counts, AnswerKeys(options, answer));
  }

  lemma ResponseStep(d: Counts, q: LegacyQuestion, options: seq<string>, rs: seq<LegacyResponse>, i: nat)
    requires i < |rs|
    ensures IncrAll(d, LegacyKeys(q, options, rs[..i + 1]))
         == IncrAll(IncrAll(d, LegacyKeys(q, options, rs[..i])), AnswerKeys(options, At(rs[i].answers, q.id)))
  {
    assert rs[..i + 1][..i] == rs[..i];
    IncrAllAppend(d, LegacyKeys(q, options, rs[..i]), AnswerKeys(options, At(rs[i].answers, q.id)));
  }

  /** The `reduce` that zeroes the options, then `responses.forEach(...)`. */
  method LegacyCounts(q: LegacyQuestion, options: seq<string>, rs: seq<LegacyResponse>)
    returns (counts: Counts)
    ensures counts == LegacyCountsOf(q, options, rs)
  {
    counts := ZeroAll(options);
    ghost var init := counts;
    ZeroesSpec(options);
    var i := 0;
    while i < |rs|
      invariant 0 <= i <= |rs|
      invariant counts == IncrAll(init, LegacyKeys(q, options, rs[..i]))
      invariant forall k :: Has(counts, k) <==> k in options
    {
      ResponseStep(init, q, options, rs, i);
      counts := CountAnswer(counts, options, At(rs[i].answers, q.id));
      i := i + 1;
    }
    assert rs[..|rs|] == rs;
  }

  /** What a card shows. */
  datatype Card = NoResponsesYet | PieCard(data: Counts, colors: seq<string>)

  /** `chartData.every(d => d.value === 0)`. */
  predicate AllZero(data: Counts) {
    forall i :: 0 <= i < |data| ==> data[i].1 == 0
  }

  function CardOf(data: Counts): Card {
    if AllZero(data) then NoResponsesYet
    else PieCard(data, seq(|data|, i requires 0 <= i < |data| => CHART_COLORS[i % |CHART_COLORS|]))
  }

  /** A card per legacy choice question, in order; `None` stands for the
      TypeError `question.options.reduce` throws on a question without
      options, which takes down the whole list. */
  function CardsOf(questions: seq<LegacyQuestion>, rs: seq<LegacyResponse>): Option<seq<Card>>
    decreases |questions|
  {
    if questions == [] then Some([])
    else
      var q := questions[0];
      var rest := CardsOf(questions[1..], rs);
      if !IsLegacyChoiceType(q.questionType) then rest
      else if q.options.None? || rest.None? then None
      else Some([CardOf(LegacyCountsOf(q, q.options.value, rs))] + rest.value)
  }

  /** A record that counts exactly the keys of `keys`, all of them
      present, is all zero exactly when nothing was counted. */
  lemma AllZeroIffNothingCounted(d: Counts, keys: seq<string>)
    requires DistinctKeys(d)
    requires forall k :: Lookup(d, k) == Occ(keys, k)
    requires forall k :: k in keys ==> Has(d, k)
    ensures AllZero(d) <==> keys == []
  {
    if keys != [] {
      var k := keys[0];
      OccPositive(keys, k);
      var i :| 0 <= i < |d| && Keys(d)[i] == k;
      assert d[i].1 > 0;
    } else {
      forall i | 0 <= i < |d| ensures d[i].1 == 0 {
        assert Lookup(d, d[i].0) == 0;
      }
    }
  }

  /** Every option is listed once, in declaration order, with the number of
      times it was chosen; and a card says "No responses yet" exactly when
      no response chose any option. */
  lemma LegacyCountsSpec(q: LegacyQuestion, options: seq<string>, rs: seq<LegacyResponse>)
    ensures var d := LegacyCountsOf(q, options, rs);
            var keys := LegacyKeys(q, options, rs);
            && Keys(d) == Dedup(options)
            && (forall k :: Lookup(d, k) == Occ(keys, k))
            && (CardOf(d) == NoResponsesYet <==> keys == [])
  {
    var keys := LegacyKeys(q, options, rs);
    var d := LegacyCountsOf(q, options, rs);
    LegacyKeysAreOptions(q, options, rs);
    CountsKeepOptions(options, keys);
    ZeroesSpec(options);
    IncrAllKeys(Zeroes(options), keys);
    forall k ensures Lookup(d, k) == Occ(keys, k) {
      IncrAllLookup(Zeroes(options), keys, k);
    }
    AllZeroIffNothingCounted(d, keys);
  }

  /** The scalar rule: a falsy answer (false, 0, "", null, undefined) is
      never counted, and a truthy one only when it names an option. */
  lemma ScalarAnswerRule(options: seq<string>, answer: JsVal)
    requires !answer.Arr?
    ensures |AnswerKeys(options, answer)| <= 1
    ensures AnswerKeys(options, answer) != [] <==> Truthy(answer) && ToStr(answer) in options
  {
  }

  /** Non-choice questions get no card; a failure on one choice question
      is a failure of the whole list; otherwise the i-th card is the card of
      the i-th choice question's counts. */
  lemma {:induction false} CardsOfSpec(questions: seq<LegacyQuestion>, rs: seq<LegacyResponse>)
    ensures CardsOf(questions, rs).None? <==>
              exists q :: q in questions && IsLegacyChoiceType(q.questionType) && q.options.None?
    ensures CardsOf(questions, rs).Some? ==>
              |CardsOf(questions, rs).value| == |Filter(questions)|
    ensures CardsOf(questions, rs).Some? ==>
              forall i :: 0 <= i < |Filter(questions)| ==>
                var q := Filter(questions)[i];
                q.options.Some? &&
                CardsOf(questions, rs).value[i] == CardOf(LegacyCountsOf(q, q.options.value, rs))
    decreases |questions|
  {
    if questions != [] {
      CardsOfSpec(questions[1..], rs);
      assert forall x :: x in questions <==> x == questions[0] || x in questions[1..];
    }
  }

  /** `questions.filter(q => [...].includes(q.question_type))`. */
  function Filter(questions: seq<LegacyQuestion>): (r: seq<LegacyQuestion>)
    ensures forall q :: q in r <==> q in questions && IsLegacyChoiceType(q.questionType)
  {
    if questions == [] then []
    else (if IsLegacyChoiceType(questions[0].questionType) then [questions[0]] else []) + Filter(questions[1..])
  }

  /** The filter keeps the questions' order: it distributes over
      concatenation. */
  lemma {:induction false} FilterConcat(a: seq<LegacyQuestion>, b: seq<LegacyQuestion>)
    ensures Filter(a + b) == Filter(a) + Filter(b)
  {
    if a == [] {
      assert a + b == b;
    } else {
      assert (a + b)[1..] == a[1..] + b;
      FilterConcat(a[1..], b);
    }
  }
}
