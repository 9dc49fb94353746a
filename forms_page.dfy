/** The statistics of the admin forms page: each form's response count,
    taken from the embedded submission count, and the totals shown in the
    summary cards. */
module FormsPage {
  import opened Wrappers
  import opened JsValues

  /** A fetched form: its `is_active` column and the embedded
      `submissions(count)` rows, given by their counts. */
  datatype FetchedForm = FetchedForm(id: string, isActive: JsVal, submissionCounts: seq<nat>)

  datatype FormWithStats = FormWithStats(form: FetchedForm, responseCount: nat)

  /** `form.submissions[0]?.count || 0`. */
  function ResponseCount(f: FetchedForm): (r: nat)
    ensures |f.submissionCounts| == 0 ==> r == 0
    ensures |f.submissionCounts| > 0 ==> r == f.submissionCounts[0]
  {
    if |f.submissionCounts| > 0 then f.submissionCounts[0] else 0
  }

  /** `forms?.map(...)`: `None` when the fetch returned no data. */
  function FormsWithStats(forms: Option<seq<FetchedForm>>): (r: Option<seq<FormWithStats>>)
    ensures r.None? <==> forms.None?
    ensures r.Some? ==> |r.value| == |forms.value|
    ensures r.Some? ==> forall i :: 0 <= i < |forms.value| ==>
              r.value[i] == FormWithStats(forms.value[i], ResponseCount(forms.value[i]))
  {
    match forms
    case None => None
    case Some(fs) =>
      Some(seq(|fs|, i requires 0 <= i < |fs| => FormWithStats(fs[i], ResponseCount(fs[i]))))
  }

  function TotalForms(forms: Option<seq<FetchedForm>>): nat {
    if forms.Some? then |forms.value| else 0
  }

  /** The number of forms whose `is_active` is exactly `true`. */
  function CountActive(fs: seq<FetchedForm>): nat {
    if fs == [] then 0
    else (if fs[0].isActive == Bool(true) then 1 else 0) + CountActive(fs[1..])
  }

  function ActiveForms(forms: Option<seq<FetchedForm>>): nat {
    if forms.Some? then CountActive(forms.value) else 0
  }

  /** The sum of the response counts, `reduce((sum, f) => sum + f.response_count, 0)`. */
  function SumResponses(fs: seq<FormWithStats>): nat {
    if fs == [] then 0 else fs[0].responseCount + SumResponses(fs[1..])
  }

  function TotalResponses(forms: Option<seq<FetchedForm>>): nat {
    match FormsWithStats(forms)
    case None => 0
    case Some(ws) => SumResponses(ws)
  }

  /** At most every form is active, and all are exactly when each has
      `is_active === true`; a value such as `"true"` or `1` does not count. */
  lemma {:induction false} CountActiveBounds(fs: seq<FetchedForm>)
    ensures CountActive(fs) <= |fs|
    ensures CountActive(fs) == |fs| <==> forall i :: 0 <= i < |fs| ==> fs[i].isActive == Bool(true)
    ensures CountActive(fs) == 0 <==> forall i :: 0 <= i < |fs| ==> fs[i].isActive != Bool(true)
  {
    if fs != [] {
      CountActiveBounds(fs[1..]);
      assert forall i :: 1 <= i < |fs| ==> fs[i] == fs[1..][i - 1];
    }
  }

  /** The active count never exceeds the form count. */
  lemma ActiveAtMostTotal(forms: Option<seq<FetchedForm>>)
    ensures ActiveForms(forms) <= TotalForms(forms)
    ensures forms.None? ==> ActiveForms(forms) == 0 && TotalForms(forms) == 0
  {
    if forms.Some? {
      CountActiveBounds(forms.value);
    }
  }

  /** The sum distributes over concatenation. */
  lemma {:induction false} SumResponsesConcat(a: seq<FormWithStats>, b: seq<FormWithStats>)
    ensures SumResponses(a + b) == SumResponses(a) + SumResponses(b)
  {
    if a == [] {
      assert a + b == b;
    } else {
      assert (a + b)[1..] == a[1..] + b;
      SumResponsesConcat(a[1..], b);
    }
  }

  /** Every form's count is part of the total, and the total is zero exactly
      when no form has a response. */
  lemma {:induction false} SumResponsesBounds(fs: seq<FormWithStats>)
    ensures forall i :: 0 <= i < |fs| ==> fs[i].responseCount <= SumResponses(fs)
    ensures SumResponses(fs) == 0 <==> forall i :: 0 <= i < |fs| ==> fs[i].responseCount == 0
  {
    if fs != [] {
      SumResponsesBounds(fs[1..]);
      assert forall i :: 1 <= i < |fs| ==> fs[i] == fs[1..][i - 1];
    }
  }

  /** The total counts the first embedded count of every form. */
  lemma TotalResponsesSpec(fs: seq<FetchedForm>, i: nat)
    requires i < |fs|
    ensures ResponseCount(fs[i]) <= TotalResponses(Some(fs))
    ensures TotalResponses(Some(fs)) == 0 <==> forall j :: 0 <= j < |fs| ==> ResponseCount(fs[j]) == 0
    ensures TotalResponses(None) == 0
  {
    var ws := FormsWithStats(Some(fs)).value;
    SumResponsesBounds(ws);
    assert forall j :: 0 <= j < |fs| ==> ws[j].responseCount == ResponseCount(fs[j]);
  }

  /** The average per form as the card shows it, in tenths:
      `Math.round((total / forms) * 10) / 10`, and 0 without forms. */
  function AverageTenths(totalResponses: nat, totalForms: nat): nat {
    if totalForms > 0 then (20 * totalResponses + totalForms) / (2 * totalForms) else 0
  }

  /** The shown average is the ratio rounded half up to one decimal:
      `r / 10` lies within half a tenth of `total / forms`, ties going up. */
  lemma AverageRounded(totalResponses: nat, totalForms: nat)
    ensures totalForms == 0 ==> AverageTenths(totalResponses, totalForms) == 0
    ensures var r := AverageTenths(totalResponses, totalForms);
            totalForms > 0 ==>
              2 * totalForms * r <= 20 * totalResponses + totalForms < 2 * totalForms * (r + 1)
  {
    if totalForms > 0 {
      var a, b := 20 * totalResponses + totalForms, 2 * totalForms;
      var q := a / b;
      assert a == b * q + a % b;
      assert b * (q + 1) == b * q + b;
    }
  }
}
