/** `ResponsesOverTimeChart` of
    components/admin/analytics/responses-over-time-chart.tsx: responses
    grouped by calendar day (`new Date(submitted_at).toLocaleDateString()`,
    the parameter `dayOf`), listed in first-occurrence order, last 30 kept. */
module ResponsesOverTimeChart {
  import opened Strings
  import opened Counts

  /** A row of the legacy `responses` table, as far as the chart reads it. */
  datatype Response = Response(submittedAt: string)

  datatype View = NoDataAvailable | LineChart(points: Counts)

  function DatesOf(rs: seq<Response>, dayOf: string -> string): (r: seq<string>)
    ensures |r| == |rs|
    ensures forall i :: 0 <= i < |rs| ==> r[i] == dayOf(rs[i].submittedAt)
  {
    seq(|rs|, i requires 0 <= i < |rs| => dayOf(rs[i].submittedAt))
  }

  function ViewOf(rs: seq<Response>, dayOf: string -> string): View {
    var points := LastN(IncrAll([], DatesOf(rs, dayOf)), 30);
    if |points| == 0 then NoDataAvailable else LineChart(points)
  }

  /** The component: the `reduce` grouping, `Object.entries`, the slice
      and the empty-state branch. */
  method Render(rs: seq<Response>, dayOf: string -> string) returns (v: View)
    ensures v == ViewOf(rs, dayOf)
  {
    var responsesByDate := CountAll([], DatesOf(rs, dayOf));
    var chartData := LastN(responsesByDate, 30);
    if |chartData| == 0 {
      v := NoDataAvailable;
    } else {
      v := LineChart(chartData);
    }
  }

  /** The last 30 entries of a day tally are distinct days that occur
      among the responses, each with its exact number of responses. */
  lemma {:induction false} LastThirtyOfTally(dates: seq<string>)
    ensures var p := LastN(IncrAll([], dates), 30);
            && (p == [] <==> dates == [])
            && |p| <= 30
            && DistinctKeys(p)
            && (forall i :: 0 <= i < |p| ==> p[i].0 in dates && p[i].1 == Occ(dates, p[i].0) > 0)
  {
    var d := IncrAll([], dates);
    TallyEntries(dates);
    if dates != [] {
      assert Has(d, dates[0]);
    }
    var p := LastN(d, 30);
    var m := |d| - |p|;
    forall i | 0 <= i < |p| ensures p[i] == d[m + i] {
    }
  }

  /** The kept days are the last distinct days in order of first response. */
  lemma LastThirtyKeys(dates: seq<string>)
    ensures var p := LastN(IncrAll([], dates), 30);
            var days := Dedup(dates);
            && |p| == (if |days| < 30 then |days| else 30)
            && Keys(p) == days[|days| - |p|..]
  {
    var d := IncrAll([], dates);
    DedupKeys(dates);
    var p := LastN(d, 30);
    var m := |d| - |p|;
    assert p == d[m..];
    forall i | 0 <= i < |p| ensures Keys(p)[i] == Keys(d)[m + i] {
      assert p[i] == d[m + i];
    }
  }

  /** "No data available" exactly when there are no responses; otherwise
      the last (at most) 30 distinct days in order of first response, each
      with its exact number of responses. */
  lemma ViewSpec(rs: seq<Response>, dayOf: string -> string)
    ensures ViewOf(rs, dayOf) == NoDataAvailable <==> rs == []
    ensures ViewOf(rs, dayOf).LineChart? ==>
              var p := ViewOf(rs, dayOf).points;
              var days := Dedup(DatesOf(rs, dayOf));
              && |p| == (if |days| < 30 then |days| else 30)
              && Keys(p) == days[|days| - |p|..]
              && DistinctKeys(p)
              && (forall i :: 0 <= i < |p| ==>
                    p[i].0 in DatesOf(rs, dayOf) && p[i].1 == Occ(DatesOf(rs, dayOf), p[i].0) > 0)
  {
    var dates := DatesOf(rs, dayOf);
    var p := LastN(IncrAll([], dates), 30);
    LastThirtyOfTally(dates);
    LastThirtyKeys(dates);
    assert ViewOf(rs, dayOf) == if |p| == 0 then NoDataAvailable else LineChart(p);
    assert rs == [] <==> dates == [];
  }
}

/** `ResponsesChart` of components/admin/analytics/responses-chart.tsx:
    the same grouping by day without the 30-day cut, rendering nothing
    when there is no response. */
module ResponsesChart {
  import opened Strings
  import opened Counts
  import ResponsesOverTimeChart

  datatype View = Nothing | Timeline(points: Counts)

  function ViewOf(rs: seq<ResponsesOverTimeChart.Response>, dayOf: string -> string): View {
    var points := IncrAll([], ResponsesOverTimeChart.DatesOf(rs, dayOf));
    if |points| == 0 then Nothing else Timeline(points)
  }

  method Render(rs: seq<ResponsesOverTimeChart.Response>, dayOf: string -> string) returns (v: View)
    ensures v == ViewOf(rs, dayOf)
  {
    var responsesByDate := CountAll([], ResponsesOverTimeChart.DatesOf(rs, dayOf));
    if |responsesByDate| == 0 {
      v := Nothing;
    } else {
      v := Timeline(responsesByDate);
    }
  }

  /** The timeline lists every day once, in order of first response, with
      its number of responses; the counts add up to the number of
      responses; nothing is rendered exactly when there is no response. */
  lemma ViewSpec(rs: seq<ResponsesOverTimeChart.Response>, dayOf: string -> string)
    ensures var dates := ResponsesOverTimeChart.DatesOf(rs, dayOf);
            && (ViewOf(rs, dayOf) == Nothing <==> rs == [])
            && (ViewOf(rs, dayOf).Timeline? ==>
                  var p := ViewOf(rs, dayOf).points;
                  && DistinctKeys(p)
                  && Keys(p) == Dedup(dates)
                  && (forall k :: Has(p, k) <==> k in dates)
                  && (forall k :: Lookup(p, k) == Occ(dates, k))
                  && Sum(p) == |rs|)
  {
    var dates := ResponsesOverTimeChart.DatesOf(rs, dayOf);
    var d := IncrAll([], dates);
    assert ViewOf(rs, dayOf) == if |d| == 0 then Nothing else Timeline(d);
    assert rs == [] <==> dates == [];
    IncrAllKeys([], dates);
    IncrAllSum([], dates);
    DedupKeys(dates);
    TallyLookup(dates);
    if dates != [] {
      assert Has(d, dates[0]);
    }
  }
}

/** `FormComparisonChart` of components/admin/analytics/form-comparison-chart.tsx:
    one bar per form, at most ten, titles cut to 20 characters. */
module FormComparisonChart {
  datatype FormWithStats = FormWithStats(id: string, title: string, responseCount: nat)

  datatype Bar = Bar(name: string, responses: nat)

  datatype View = NoDataAvailable | BarChart(bars: seq<Bar>)

  /** `title.length > 20 ? title.substring(0, 20) + "..." : title`. */
  function ShortTitle(title: string): string {
    if |title| > 20 then title[..20] + "..." else title
  }

  /** A short title is the title itself when it fits, else its first 20
      characters followed by an ellipsis; it is never longer than 23. */
  lemma ShortTitleSpec(title: string)
    ensures |ShortTitle(title)| <= 23
    ensures |title| <= 20 ==> ShortTitle(title) == title
    ensures |title| > 20 ==> |ShortTitle(title)| == 23 && ShortTitle(title)[..20] == title[..20]
                             && ShortTitle(title)[20..] == "..."
  {
    if |title| > 20 {
      assert |ShortTitle(title)| == 23;
    }
  }

  function BarsOf(forms: seq<FormWithStats>): (r: seq<Bar>)
    ensures |r| == if |forms| < 10 then |forms| else 10
    ensures forall i :: 0 <= i < |r| ==>
              r[i] == Bar(ShortTitle(forms[i].title), forms[i].responseCount)
  {
    var n := if |forms| < 10 then |forms| else 10;
    seq(n, i requires 0 <= i < n => Bar(ShortTitle(forms[i].title), forms[i].responseCount))
  }

  function ViewOf(forms: seq<FormWithStats>): (r: View)
    ensures r == NoDataAvailable <==> forms == []
    ensures r.BarChart? ==> r.bars == BarsOf(forms)
  {
    var bars := BarsOf(forms);
    if |bars| == 0 then NoDataAvailable else BarChart(bars)
  }
}
