/** `pd.qcut(x, q=4)` as used by the feature code: the bin edges are the
    batch's 0, 0.25, 0.5, 0.75 and 1 quantiles under linear interpolation, the
    bins are closed on the right with the lowest one also holding the minimum,
    and edges that are not all different reject the whole column. */
module Quantiles {
  import opened Values

  predicate Sorted(s: seq<real>) {
    forall i, j :: 0 <= i <= j < |s| ==> s[i] <= s[j]
  }

  predicate StrictlySorted(s: seq<real>) {
    forall i, j :: 0 <= i < j < |s| ==> s[i] < s[j]
  }

  lemma {:induction false} LeastOfSorted(s: seq<real>, y: real)
    requires Sorted(s) && s != [] && y in multiset(s)
    ensures s[0] <= y
  {
    var k :| 0 <= k < |s| && s[k] == y;
  }

  function Insert(x: real, s: seq<real>): (r: seq<real>)
    requires Sorted(s)
    ensures Sorted(r)
    ensures multiset(r) == multiset(s) + multiset{x}
  {
    if s == [] || x <= s[0] then [x] + s
    else
      var rest := Insert(x, s[1..]);
      assert s == [s[0]] + s[1..];
      forall y | y in multiset(rest) ensures s[0] <= y {
        if y != x { LeastOfSorted(s, y); }
      }
      forall j | 0 <= j < |rest| ensures s[0] <= rest[j] {
        assert rest[j] in multiset(rest);
      }
      [s[0]] + rest
  }

  /** The batch in ascending order, as numpy sorts it before interpolating. */
  function Sort(xs: seq<real>): (s: seq<real>)
    ensures Sorted(s)
    ensures multiset(s) == multiset(xs)
    ensures |s| == |xs|
  {
    if xs == [] then []
    else
      assert xs == [xs[0]] + xs[1..];
      var s := Insert(xs[0], Sort(xs[1..]));
      assert |s| == |multiset(s)|;
      s
  }

  /** The fraction of the way from one sample to the next at position t/4. */
  function Frac(t: nat): (f: real)
    ensures 0.0 <= f < 1.0
  {
    (t % 4) as real / 4.0
  }

  /** numpy's linear quantile of the sorted sample `s` at position t/4:
      the value between s[t/4] and s[t/4 + 1] at fraction (t % 4)/4. */
  function Interp(s: seq<real>, t: nat): real
    requires |s| >= 1 && t <= 4 * (|s| - 1)
  {
    var lo := t / 4;
    if lo + 1 < |s| then s[lo] + Frac(t) * (s[lo + 1] - s[lo]) else s[lo]
  }

  /** Two positions in order fall in buckets in order, and in one bucket
      their fractions are in order too. */
  lemma Quarter(t1: nat, t2: nat)
    requires t1 <= t2
    ensures t1 / 4 <= t2 / 4
    ensures t1 / 4 == t2 / 4 ==> Frac(t1) <= Frac(t2)
    ensures t1 < t2 && t1 / 4 == t2 / 4 ==> Frac(t1) < Frac(t2)
  {
  }

  /** Interpolating between a <= b stays between them, in the order of the fractions. */
  lemma LerpOrder(a: real, b: real, f1: real, f2: real)
    requires a <= b && 0.0 <= f1 <= f2 <= 1.0
    ensures a <= a + f1 * (b - a) <= a + f2 * (b - a) <= b
    ensures a + 0.0 * (b - a) == a
  {
    var d := b - a;
    assert f1 * d <= f2 * d;
    assert f2 * d <= 1.0 * d;
  }

  /** Between a < b, a larger fraction gives a strictly larger value. */
  lemma LerpStrict(a: real, b: real, f1: real, f2: real)
    requires a < b && 0.0 <= f1 < f2 <= 1.0
    ensures a + f1 * (b - a) < a + f2 * (b - a)
    ensures a + f1 * (b - a) < b
  {
    var d := b - a;
    assert f1 * d < f2 * d;
    assert f2 * d <= 1.0 * d;
  }

  /** A quantile lies between the sample at its position and the next one,
      strictly below the next one when the sample has no ties. */
  lemma InterpBetween(s: seq<real>, t: nat)
    requires Sorted(s) && |s| >= 1 && t <= 4 * (|s| - 1)
    ensures s[t / 4] <= Interp(s, t)
    ensures t / 4 + 1 < |s| ==> Interp(s, t) <= s[t / 4 + 1]
    ensures t / 4 + 1 < |s| && StrictlySorted(s) ==> Interp(s, t) < s[t / 4 + 1]
  {
    var lo := t / 4;
    if lo + 1 < |s| {
      assert Interp(s, t) == s[lo] + Frac(t) * (s[lo + 1] - s[lo]);
      LerpOrder(s[lo], s[lo + 1], Frac(t), 1.0);
      if StrictlySorted(s) {
        LerpStrict(s[lo], s[lo + 1], Frac(t), 1.0);
      }
    }
  }

  /** Positions further right never give a smaller quantile. */
  lemma {:induction false} InterpMonotone(s: seq<real>, t1: nat, t2: nat)
    requires Sorted(s) && |s| >= 1 && t1 <= t2 <= 4 * (|s| - 1)
    ensures Interp(s, t1) <= Interp(s, t2)
  {
    var lo1, lo2 := t1 / 4, t2 / 4;
    Quarter(t1, t2);
    if lo1 == lo2 {
      if lo1 + 1 < |s| {
        LerpOrder(s[lo1], s[lo1 + 1], Frac(t1), Frac(t2));
      }
    } else {
      InterpBetween(s, t1);
      InterpBetween(s, t2);
      assert s[lo1 + 1] <= s[lo2];
    }
  }

  /** On a sample without ties, positions further right give a larger quantile. */
  lemma {:induction false} InterpStrictlyMonotone(s: seq<real>, t1: nat, t2: nat)
    requires StrictlySorted(s) && |s| >= 1 && t1 < t2 <= 4 * (|s| - 1)
    ensures Interp(s, t1) < Interp(s, t2)
  {
    var lo1, lo2 := t1 / 4, t2 / 4;
    Quarter(t1, t2);
    assert lo1 + 1 < |s|;
    assert Sorted(s);
    if lo1 == lo2 {
      LerpStrict(s[lo1], s[lo1 + 1], Frac(t1), Frac(t2));
    } else {
      InterpBetween(s, t1);
      InterpBetween(s, t2);
      assert s[lo1 + 1] <= s[lo2];
    }
  }

  /** The five qcut edges: quantiles 0, 0.25, 0.5, 0.75 and 1 of the batch. */
  function Edges(xs: seq<real>): (e: seq<real>)
    requires |xs| >= 1
    ensures |e| == 5
    ensures e[0] == Sort(xs)[0] && e[4] == Sort(xs)[|xs| - 1]
  {
    var s := Sort(xs);
    var m := |s| - 1;
    InterpEnds(s);
    [Interp(s, 0), Interp(s, m), Interp(s, 2 * m), Interp(s, 3 * m), Interp(s, 4 * m)]
  }

  predicate AllDistinct(e: seq<real>) {
    forall i, j :: 0 <= i < j < |e| ==> e[i] != e[j]
  }

  predicate Increasing(e: seq<real>) {
    forall i :: 0 <= i < |e| - 1 ==> e[i] < e[i + 1]
  }

  /** The first and last positions are the batch minimum and maximum. */
  lemma InterpEnds(s: seq<real>)
    requires |s| >= 1
    ensures Interp(s, 0) == s[0]
    ensures Interp(s, 4 * (|s| - 1)) == s[|s| - 1]
  {
  }

  /** The edges never decrease. */
  lemma {:induction false} EdgesOrdered(xs: seq<real>)
    requires |xs| >= 1
    ensures forall i :: 0 <= i < 4 ==> Edges(xs)[i] <= Edges(xs)[i + 1]
  {
    var s := Sort(xs);
    var m := |s| - 1;
    var e := Edges(xs);
    assert e == [Interp(s, 0), Interp(s, m), Interp(s, 2 * m), Interp(s, 3 * m), Interp(s, 4 * m)];
    InterpMonotone(s, 0, m);
    InterpMonotone(s, m, 2 * m);
    InterpMonotone(s, 2 * m, 3 * m);
    InterpMonotone(s, 3 * m, 4 * m);
    assert e[0] <= e[1] <= e[2] <= e[3] <= e[4];
  }

  /** The edges run from the batch minimum to the batch maximum, never
      decreasing, so "all different" is the same as "strictly increasing". */
  lemma {:induction false} EdgesSpan(xs: seq<real>)
    requires |xs| >= 1
    ensures forall i :: 0 <= i < 4 ==> Edges(xs)[i] <= Edges(xs)[i + 1]
    ensures forall x :: x in xs ==> Edges(xs)[0] <= x <= Edges(xs)[4]
    ensures Edges(xs)[0] in xs && Edges(xs)[4] in xs
    ensures AllDistinct(Edges(xs)) <==> Increasing(Edges(xs))
  {
    var s, e := Sort(xs), Edges(xs);
    EdgesOrdered(xs);
    InterpEnds(s);
    assert e[0] == s[0] && e[4] == s[|s| - 1];
    assert s[0] in multiset(xs) && s[|s| - 1] in multiset(xs);
    forall x | x in xs ensures e[0] <= x <= e[4] {
      assert x in multiset(s);
      var k :| 0 <= k < |s| && s[k] == x;
    }
    if Increasing(e) {
      assert e[0] < e[1] < e[2] < e[3] < e[4];
    }
  }

  /** The 1-based bin searchsorted(side='left') gives `x` among the five
      edges, with pd.cut's include_lowest correction for the minimum, made
      0-based: code k stands for the label Q(k+1). */
  function Code(e: seq<real>, x: real): (r: int)
    requires |e| == 5
    ensures x == e[0] ==> r == 0
    ensures Increasing(e) ==> (0 <= r <= 3 <==> e[0] <= x <= e[4])
  {
    var below := (if e[0] < x then 1 else 0) + (if e[1] < x then 1 else 0)
      + (if e[2] < x then 1 else 0) + (if e[3] < x then 1 else 0) + (if e[4] < x then 1 else 0);
    (if x == e[0] then 1 else below) - 1
  }

  /** Code k is the bin (e[k], e[k+1]], the lowest bin also holding e[0]. */
  lemma CodeBin(e: seq<real>, x: real)
    requires |e| == 5 && Increasing(e) && e[0] <= x <= e[4]
    ensures 0 <= Code(e, x) <= 3
    ensures forall k :: 0 <= k <= 3 ==>
      (Code(e, x) == k <==> (e[k] < x <= e[k + 1]) || (k == 0 && x == e[0]))
  {
  }

  /** A larger value never lands in a lower bin. */
  lemma CodeMonotone(e: seq<real>, x: real, y: real)
    requires |e| == 5 && Increasing(e) && e[0] <= x <= y <= e[4]
    ensures Code(e, x) <= Code(e, y)
  {
  }

  /** `pd.qcut(xs, q=4)`: one code in 0..3 per value, or an error when the
      edges are not all different (which includes the empty batch, whose
      quantiles are all NaN). */
  function Qcut(xs: seq<real>, name: string): (r: Result<seq<int>>)
    ensures r.Ok? <==> |xs| >= 1 && Increasing(Edges(xs))
    ensures r.Err? ==> r.error == NonUniqueBinEdges(name)
    ensures r.Ok? ==> |r.value| == |xs| && forall i :: 0 <= i < |xs| ==> 0 <= r.value[i] <= 3
  {
    if |xs| == 0 then Err(NonUniqueBinEdges(name))
    else
      var e := Edges(xs);
      EdgesSpan(xs);
      if !AllDistinct(e) then Err(NonUniqueBinEdges(name))
      else
        assert forall i :: 0 <= i < |xs| ==> e[0] <= xs[i] <= e[4] by {
          forall i | 0 <= i < |xs| ensures e[0] <= xs[i] <= e[4] { assert xs[i] in xs; }
        }
        Ok(seq(|xs|, i requires 0 <= i < |xs| => Code(e, xs[i])))
  }

  /** Each value's code names the quartile bin it falls in, and the codes are
      ordered like the values. */
  lemma QcutBins(xs: seq<real>, name: string, i: nat, j: nat)
    requires Qcut(xs, name).Ok? && i < |xs| && j < |xs|
    ensures forall k :: 0 <= k <= 3 ==>
      (Qcut(xs, name).value[i] == k <==>
        (Edges(xs)[k] < xs[i] <= Edges(xs)[k + 1]) || (k == 0 && xs[i] == Edges(xs)[0]))
    ensures xs[i] <= xs[j] ==> Qcut(xs, name).value[i] <= Qcut(xs, name).value[j]
  {
    EdgesSpan(xs);
    assert xs[i] in xs && xs[j] in xs;
    CodeBin(Edges(xs), xs[i]);
    if xs[i] <= xs[j] { CodeMonotone(Edges(xs), xs[i], xs[j]); }
  }

  /** A batch whose values are all equal (a single row, in particular) has
      five equal edges and is rejected. */
  lemma {:induction false} TiedBatchRejected(xs: seq<real>, c: real, name: string)
    requires |xs| >= 1 && forall i :: 0 <= i < |xs| ==> xs[i] == c
    ensures Qcut(xs, name) == Err(NonUniqueBinEdges(name))
  {
    EdgesSpan(xs);
    assert xs[0] in xs && Edges(xs)[0] == c == Edges(xs)[4];
  }

  lemma {:induction false} MultiplicityOfDistinct(xs: seq<real>, v: real)
    requires forall i, j :: 0 <= i < j < |xs| ==> xs[i] != xs[j]
    ensures multiset(xs)[v] <= 1
  {
    if xs != [] {
      assert xs == [xs[0]] + xs[1..];
      MultiplicityOfDistinct(xs[1..], v);
      if v == xs[0] {
        assert v !in xs[1..] by {
          forall k | 0 <= k < |xs[1..]| ensures xs[1..][k] != v { assert xs[k + 1] != xs[0]; }
        }
      }
    }
  }

  lemma {:induction false} RepeatedValue(s: seq<real>, i: nat, j: nat)
    requires i < j < |s| && s[i] == s[j]
    ensures multiset(s)[s[i]] >= 2
  {
    assert s == s[..i] + [s[i]] + s[i + 1..j] + [s[j]] + s[j + 1..];
  }

  /** Sorting a batch without repeated values gives a sample without ties. */
  lemma {:induction false} SortedWithoutTies(xs: seq<real>)
    requires forall i, j :: 0 <= i < j < |xs| ==> xs[i] != xs[j]
    ensures StrictlySorted(Sort(xs))
  {
    var s := Sort(xs);
    forall i, j | 0 <= i < j < |s| ensures s[i] < s[j] {
      if s[i] == s[j] {
        RepeatedValue(s, i, j);
        MultiplicityOfDistinct(xs, s[i]);
        assert false;
      }
    }
  }

  /** With no two equal values and at least two rows the edges are always
      different: qcut rejects ties, not small batches. */
  lemma {:induction false} DistinctBatchAccepted(xs: seq<real>, name: string)
    requires |xs| >= 2 && forall i, j :: 0 <= i < j < |xs| ==> xs[i] != xs[j]
    ensures Qcut(xs, name).Ok?
  {
    var s := Sort(xs);
    var m := |s| - 1;
    SortedWithoutTies(xs);
    InterpStrictlyMonotone(s, 0, m);
    InterpStrictlyMonotone(s, m, 2 * m);
    InterpStrictlyMonotone(s, 2 * m, 3 * m);
    InterpStrictlyMonotone(s, 3 * m, 4 * m);
    assert Increasing(Edges(xs));
  }
}
