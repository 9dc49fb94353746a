/** A JavaScript `Record<string, number>` used as a tally: entries in key
    insertion order (the order `Object.keys` and `Object.entries` report
    for non-numeric keys), each key once. */
module Counts {
  import opened Strings

  type Counts = seq<(string, nat)>

  function Keys(d: Counts): (r: seq<string>)
    ensures |r| == |d|
    ensures forall i :: 0 <= i < |d| ==> r[i] == d[i].0
  {
    if d == [] then [] else [d[0].0] + Keys(d[1..])
  }

  function Values(d: Counts): (r: seq<nat>)
    ensures |r| == |d|
    ensures forall i :: 0 <= i < |d| ==> r[i] == d[i].1
  {
    if d == [] then [] else [d[0].1] + Values(d[1..])
  }

  predicate DistinctKeys(d: Counts) {
    forall i, j :: 0 <= i < j < |d| ==> d[i].0 != d[j].0
  }

  predicate Has(d: Counts, k: string) {
    k in Keys(d)
  }

  /** `record[k] || 0`. */
  function Lookup(d: Counts, k: string): (r: nat)
    ensures !Has(d, k) ==> r == 0
    ensures DistinctKeys(d) ==> forall i :: 0 <= i < |d| && d[i].0 == k ==> r == d[i].1
  {
    if d == [] then 0
    else if d[0].0 == k then d[0].1
    else Lookup(d[1..], k)
  }

  /** `record[k] = v`: an existing key keeps its place, a new one goes last. */
  function Put(d: Counts, k: string, v: nat): (r: Counts)
    ensures Keys(r) == if Has(d, k) then Keys(d) else Keys(d) + [k]
    ensures forall k' :: Lookup(r, k') == if k' == k then v else Lookup(d, k')
    ensures DistinctKeys(d) ==> DistinctKeys(r)
  {
    if d == [] then [(k, v)]
    else if d[0].0 == k then
      var r := [(k, v)] + d[1..];
      assert r[1..] == d[1..];
      r
    else
      var rest := Put(d[1..], k, v);
      var r := [d[0]] + rest;
      assert r[1..] == rest;
      assert Keys(d) == [d[0].0] + Keys(d[1..]);
      assert Keys(r) == [d[0].0] + Keys(rest);
      assert Has(d, k) == Has(d[1..], k);
      r
  }

  /** `record[k] = (record[k] || 0) + 1`. */
  function Incr(d: Counts, k: string): Counts {
    Put(d, k, Lookup(d, k) + 1)
  }

  /** Incrementing once for every key of `ks`, first to last. */
  function IncrAll(d: Counts, ks: seq<string>): Counts
    decreases |ks|
  {
    if ks == [] then d else Incr(IncrAll(d, ks[..|ks| - 1]), ks[|ks| - 1])
  }

  /** How many times `k` occurs in `ks`. */
  function Occ(ks: seq<string>, k: string): nat
    decreases |ks|
  {
    if ks == [] then 0
    else Occ(ks[..|ks| - 1], k) + (if ks[|ks| - 1] == k then 1 else 0)
  }

  function Sum(d: Counts): nat {
    if d == [] then 0 else d[0].1 + Sum(d[1..])
  }

  /** Every key declared with a zero count, in declaration order: the
      `forEach(option => counts[option.label] = 0)` initialisation. */
  function Zeroes(labels: seq<string>): Counts
    decreases |labels|
  {
    if labels == [] then [] else Put(Zeroes(labels[..|labels| - 1]), labels[|labels| - 1], 0)
  }

  /** The entries with a positive count, in order:
      `Object.keys(r).filter(k => r[k] > 0)`. */
  function Positive(d: Counts): (r: Counts)
    ensures forall i :: 0 <= i < |r| ==> r[i].1 > 0
  {
    if d == [] then []
    else if d[0].1 > 0 then [d[0]] + Positive(d[1..])
    else Positive(d[1..])
  }

  lemma {:induction false} ZeroesSpec(labels: seq<string>)
    ensures DistinctKeys(Zeroes(labels))
    ensures Keys(Zeroes(labels)) == Dedup(labels)
    ensures forall k :: Lookup(Zeroes(labels), k) == 0
    ensures Sum(Zeroes(labels)) == 0
    decreases |labels|
  {
    if labels != [] {
      var p := labels[..|labels| - 1];
      ZeroesSpec(p);
      PutSum(Zeroes(p), labels[|labels| - 1], 0);
    }
  }

  lemma {:induction false} PutSum(d: Counts, k: string, v: nat)
    requires DistinctKeys(d)
    ensures Sum(Put(d, k, v)) + Lookup(d, k) == Sum(d) + v
  {
    if d != [] && d[0].0 != k {
      assert DistinctKeys(d[1..]);
      PutSum(d[1..], k, v);
    }
    if d != [] && d[0].0 == k {
      assert !Has(d[1..], k) by {
        forall i | 0 <= i < |d[1..]| ensures Keys(d[1..])[i] != k {
          assert d[1..][i] == d[i + 1];
        }
      }
    }
  }

  /** After the increments, each key's count has grown by its number of
      occurrences. */
  lemma {:induction false} IncrAllLookup(d: Counts, ks: seq<string>, k: string)
    ensures Lookup(IncrAll(d, ks), k) == Lookup(d, k) + Occ(ks, k)
    decreases |ks|
  {
    if ks != [] {
      IncrAllLookup(d, ks[..|ks| - 1], k);
    }
  }

  /** The keys after the increments: the old ones in their order, then each
      new key at its first occurrence. */
  lemma {:induction false} IncrAllKeys(d: Counts, ks: seq<string>)
    ensures DistinctKeys(d) ==> DistinctKeys(IncrAll(d, ks))
    ensures forall k :: Has(IncrAll(d, ks), k) <==> Has(d, k) || k in ks
    ensures Keys(d) <= Keys(IncrAll(d, ks))
    ensures (forall k :: k in ks ==> Has(d, k)) ==> Keys(IncrAll(d, ks)) == Keys(d)
    decreases |ks|
  {
    if ks != [] {
      var p := ks[..|ks| - 1];
      var last := ks[|ks| - 1];
      assert forall k :: k in ks <==> k in p || k == last;
      var prev := IncrAll(d, p);
      IncrAllKeys(d, p);
      IncrAllLast(d, ks);
      IncrKeys(prev, last);
    }
  }

  /** One increment keeps the keys, or appends the new key. */
  lemma IncrKeys(d: Counts, k: string)
    ensures Keys(Incr(d, k)) == if Has(d, k) then Keys(d) else Keys(d) + [k]
    ensures forall k' :: Has(Incr(d, k), k') <==> Has(d, k') || k' == k
    ensures DistinctKeys(d) ==> DistinctKeys(Incr(d, k))
  {
  }

  /** Each increment adds one to the total. */
  lemma {:induction false} IncrAllSum(d: Counts, ks: seq<string>)
    requires DistinctKeys(d)
    ensures Sum(IncrAll(d, ks)) == Sum(d) + |ks|
    decreases |ks|
  {
    if ks != [] {
      var p := ks[..|ks| - 1];
      IncrAllSum(d, p);
      IncrAllKeys(d, p);
      PutSum(IncrAll(d, p), ks[|ks| - 1], Lookup(IncrAll(d, p), ks[|ks| - 1]) + 1);
    }
  }

  lemma IncrAllSnoc(d: Counts, ks: seq<string>, k: string)
    ensures IncrAll(d, ks + [k]) == Incr(IncrAll(d, ks), k)
  {
    assert (ks + [k])[..|ks|] == ks;
  }

  lemma {:induction false} OccAppend(a: seq<string>, b: seq<string>, k: string)
    ensures Occ(a + b, k) == Occ(a, k) + Occ(b, k)
    decreases |b|
  {
    if b == [] {
      assert a + b == a;
    } else {
      var b' := b[..|b| - 1];
      assert (a + b)[..|a + b| - 1] == a + b';
      OccAppend(a, b', k);
    }
  }

  lemma {:induction false} OccPositive(ks: seq<string>, k: string)
    ensures Occ(ks, k) > 0 <==> k in ks
    decreases |ks|
  {
    if ks != [] {
      OccPositive(ks[..|ks| - 1], k);
      assert forall x :: x in ks <==> x in ks[..|ks| - 1] || x == ks[|ks| - 1];
    }
  }

  lemma NotInTail(d: Counts)
    requires d != [] && DistinctKeys(d)
    ensures DistinctKeys(d[1..])
    ensures !Has(d[1..], d[0].0)
  {
    forall i | 0 <= i < |d[1..]| ensures Keys(d[1..])[i] != d[0].0 {
      assert d[1..][i] == d[i + 1];
    }
  }

  /** Filtering keeps keys distinct and never introduces a key. */
  lemma {:induction false} PositiveKeys(d: Counts)
    requires DistinctKeys(d)
    ensures DistinctKeys(Positive(d))
    ensures forall k :: Has(Positive(d), k) ==> Has(d, k)
  {
    if d != [] {
      NotInTail(d);
      PositiveKeys(d[1..]);
      if d[0].1 > 0 {
        var r := Positive(d);
        assert Keys(r) == [d[0].0] + Keys(Positive(d[1..]));
        forall i, j | 0 <= i < j < |r| ensures r[i].0 != r[j].0 {
          assert r[j] == Positive(d[1..])[j - 1];
          if i > 0 { assert r[i] == Positive(d[1..])[i - 1]; }
          else { assert Keys(Positive(d[1..]))[j - 1] == r[j].0; }
        }
      }
      forall k | Has(Positive(d), k) ensures Has(d, k) {
        assert Keys(d) == [d[0].0] + Keys(d[1..]);
        if d[0].1 > 0 {
          assert Keys(Positive(d)) == [d[0].0] + Keys(Positive(d[1..]));
          if k != d[0].0 { assert Has(Positive(d[1..]), k); }
        } else {
          assert Positive(d) == Positive(d[1..]);
          assert Has(d[1..], k);
        }
      }
    }
  }

  /** Filtering keeps every positive count and turns the others into
      absent keys. */
  lemma {:induction false} PositiveLookup(d: Counts, k: string)
    requires DistinctKeys(d)
    ensures Lookup(Positive(d), k) == Lookup(d, k)
    ensures Has(Positive(d), k) <==> Lookup(d, k) > 0
  {
    if d != [] {
      NotInTail(d);
      PositiveLookup(d[1..], k);
      PositiveKeys(d[1..]);
      if d[0].1 > 0 {
        assert Keys(Positive(d)) == [d[0].0] + Keys(Positive(d[1..]));
      }
    }
  }

  lemma {:induction false} PositiveSum(d: Counts)
    ensures Sum(Positive(d)) == Sum(d)
  {
    if d != [] {
      PositiveSum(d[1..]);
    }
  }

  /** Filtering keeps the relative order of keys. */
  lemma {:induction false} PositiveOrder(d: Counts)
    requires DistinctKeys(d)
    ensures SubSeq(Keys(Positive(d)), Keys(d))
  {
    if d != [] {
      NotInTail(d);
      PositiveOrder(d[1..]);
      PositiveKeys(d[1..]);
      assert Keys(d)[1..] == Keys(d[1..]);
      if d[0].1 > 0 {
        assert Keys(Positive(d)) == [d[0].0] + Keys(Positive(d[1..]));
      } else if Keys(Positive(d)) != [] {
        assert Keys(Positive(d))[0] in Keys(Positive(d[1..]));
      }
    }
  }

  /** `a` is `b` with some elements left out. */
  predicate SubSeq(a: seq<string>, b: seq<string>)
    decreases |b|
  {
    if a == [] then true
    else if b == [] then false
    else if a[0] == b[0] then SubSeq(a[1..], b[1..])
    else SubSeq(a, b[1..])
  }

  lemma IncrAllLast(d: Counts, ks: seq<string>)
    requires ks != []
    ensures IncrAll(d, ks) == Incr(IncrAll(d, ks[..|ks| - 1]), ks[|ks| - 1])
  {
  }

  lemma {:induction false} IncrAllAppend(d: Counts, a: seq<string>, b: seq<string>)
    ensures IncrAll(d, a + b) == IncrAll(IncrAll(d, a), b)
    decreases |b|
  {
    if b == [] {
      assert a + b == a;
    } else {
      var p := b[..|b| - 1];
      var k := b[|b| - 1];
      var ab := a + b;
      assert ab[..|ab| - 1] == a + p;
      assert ab[|ab| - 1] == k;
      IncrAllLast(d, ab);
      IncrAllLast(IncrAll(d, a), b);
      IncrAllAppend(d, a, p);
    }
  }

  lemma IncrAllPrefix(d: Counts, ks: seq<string>, i: nat)
    requires i < |ks|
    ensures IncrAll(d, ks[..i + 1]) == Incr(IncrAll(d, ks[..i]), ks[i])
  {
    assert ks[..i + 1][..i] == ks[..i];
  }

  /** A tally that starts empty holds each key of `ks` once, with its
      (positive) number of occurrences, and nothing else. */
  lemma TallyEntries(ks: seq<string>)
    ensures var d := IncrAll([], ks);
            && DistinctKeys(d)
            && (forall k :: Has(d, k) <==> k in ks)
            && (forall i :: 0 <= i < |d| ==> d[i].0 in ks && d[i].1 == Occ(ks, d[i].0) > 0)
  {
    var d := IncrAll([], ks);
    IncrAllKeys([], ks);
    forall i | 0 <= i < |d| ensures d[i].0 in ks && d[i].1 == Occ(ks, d[i].0) > 0 {
      assert Has(d, d[i].0) by { assert Keys(d)[i] == d[i].0; }
      IncrAllLookup([], ks, d[i].0);
      OccPositive(ks, d[i].0);
    }
  }

  /** A tally from an empty record holds each key's number of occurrences. */
  lemma TallyLookup(ks: seq<string>)
    ensures forall k :: Lookup(IncrAll([], ks), k) == Occ(ks, k)
  {
    forall k ensures Lookup(IncrAll([], ks), k) == Occ(ks, k) {
      IncrAllLookup([], ks, k);
    }
  }

  /** The initialisation loop `labels.forEach(l => r[l] = 0)`. */
  method ZeroAll(labels: seq<string>) returns (d: Counts)
    ensures d == Zeroes(labels)
  {
    d := [];
    var i := 0;
    while i < |labels|
      invariant 0 <= i <= |labels|
      invariant d == Zeroes(labels[..i])
    {
      assert labels[..i + 1][..i] == labels[..i];
      d := Put(d, labels[i], 0);
      i := i + 1;
    }
    assert labels[..|labels|] == labels;
  }

  /** A counting loop `ks.forEach(k => r[k] = (r[k] || 0) + 1)` over a
      record `d` that already holds counts. */
  method CountAll(d: Counts, ks: seq<string>) returns (r: Counts)
    ensures r == IncrAll(d, ks)
  {
    r := d;
    var i := 0;
    while i < |ks|
      invariant 0 <= i <= |ks|
      invariant r == IncrAll(d, ks[..i])
    {
      IncrAllPrefix(d, ks, i);
      r := Incr(r, ks[i]);
      i := i + 1;
    }
    assert ks[..|ks|] == ks;
  }

  /** Tallying from an empty record lists each key once, in order of first
      occurrence. */
  lemma {:induction false} DedupKeys(ks: seq<string>)
    ensures Keys(IncrAll([], ks)) == Dedup(ks)
    decreases |ks|
  {
    if ks != [] {
      var p := ks[..|ks| - 1];
      DedupKeys(p);
      IncrAllKeys([], p);
    }
  }
}
