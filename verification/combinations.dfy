/**
 The combination generator of core/mixer/mixerEngine.js: index triples
 i < j < k enumerated in lexicographic order over the leg list, cut off as soon
 as the target count is reached.
 */
module Combinations {
  import opened Legs
  import opened Seqs

  datatype Triple = Triple(i: nat, j: nat, k: nat)

  /** Lexicographic order on index triples. */
  predicate LexLess(a: Triple, b: Triple) {
    a.i < b.i || (a.i == b.i && (a.j < b.j || (a.j == b.j && a.k < b.k)))
  }

  /** Strictly increasing, hence duplicate-free. */
  ghost predicate LexIncreasing(ts: seq<Triple>) {
    forall a, b :: 0 <= a < b < |ts| ==> LexLess(ts[a], ts[b])
  }

  lemma LexIncreasingAppend(xs: seq<Triple>, ys: seq<Triple>)
    requires LexIncreasing(xs) && LexIncreasing(ys)
    requires forall a, b :: 0 <= a < |xs| && 0 <= b < |ys| ==> LexLess(xs[a], ys[b])
    ensures LexIncreasing(xs + ys)
  {
    forall a, b | 0 <= a < b < |xs + ys|
      ensures LexLess((xs + ys)[a], (xs + ys)[b])
    {
      if b < |xs| {
      } else if a >= |xs| {
        assert (xs + ys)[a] == ys[a - |xs|] && (xs + ys)[b] == ys[b - |xs|];
      } else {
        assert (xs + ys)[b] == ys[b - |xs|];
      }
    }
  }

  /** The innermost loop: (i, j, k'), k <= k' < n. */
  function KRun(i: nat, j: nat, k: nat, n: nat): seq<Triple>
    decreases n - k
  {
    if k >= n then [] else [Triple(i, j, k)] + KRun(i, j, k + 1, n)
  }

  /** The middle loop from j on: (i, j', k'), j <= j' < k' < n. */
  function JRun(i: nat, j: nat, n: nat): seq<Triple>
    decreases n - j
  {
    if j >= n then [] else KRun(i, j, j + 1, n) + JRun(i, j + 1, n)
  }

  /** The outer loop from i on: (i', j', k'), i <= i' < j' < k' < n. */
  function IRun(i: nat, n: nat): seq<Triple>
    decreases n - i
  {
    if i >= n then [] else JRun(i, i + 1, n) + IRun(i + 1, n)
  }

  /** All index triples i < j < k < n in lexicographic order. */
  function Triples(n: nat): seq<Triple> {
    IRun(0, n)
  }

  /** Row j contributes m - 1 pairs to the m(m-1)/2 pairs from j on. */
  lemma PairCountStep(m: int, head: int, tail: int)
    requires m >= 1 && head == m - 1 && 2 * tail == (m - 1) * (m - 2)
    ensures 2 * head + 2 * tail == m * (m - 1)
  {
    assert 2 * (m - 1) + (m - 1) * (m - 2) == m * (m - 1);
  }

  /** Block i contributes (m-1)(m-2)/2 triples to the m(m-1)(m-2)/6 triples from i on. */
  lemma TripleCountStep(m: int, head: int, tail: int)
    requires m >= 1 && 2 * head == (m - 1) * (m - 2) && 6 * tail == (m - 1) * (m - 2) * (m - 3)
    ensures 6 * head + 6 * tail == m * (m - 1) * (m - 2)
  {
    assert 3 * ((m - 1) * (m - 2)) + (m - 1) * (m - 2) * (m - 3) == m * (m - 1) * (m - 2);
  }

  lemma {:induction false} KRunShape(i: nat, j: nat, k: nat, n: nat)
    ensures |KRun(i, j, k, n)| == if k <= n then n - k else 0
    ensures forall m :: 0 <= m < |KRun(i, j, k, n)| ==>
      KRun(i, j, k, n)[m].i == i && KRun(i, j, k, n)[m].j == j && k <= KRun(i, j, k, n)[m].k < n
    ensures LexIncreasing(KRun(i, j, k, n))
    decreases n - k
  {
    if k < n {
      KRunShape(i, j, k + 1, n);
      LexIncreasingAppend([Triple(i, j, k)], KRun(i, j, k + 1, n));
    }
  }

  lemma {:induction false} JRunShape(i: nat, j: nat, n: nat)
    ensures 2 * |JRun(i, j, n)| == if j <= n then (n - j) * (n - j - 1) else 0
    ensures forall m :: 0 <= m < |JRun(i, j, n)| ==> JRun(i, j, n)[m].i == i && j <= JRun(i, j, n)[m].j < JRun(i, j, n)[m].k < n
    ensures LexIncreasing(JRun(i, j, n))
    decreases n - j
  {
    if j < n {
      var head, tail := KRun(i, j, j + 1, n), JRun(i, j + 1, n);
      KRunShape(i, j, j + 1, n);
      JRunShape(i, j + 1, n);
      LexIncreasingAppend(head, tail);
      PairCountStep(n - j, |head|, |tail|);
    }
  }

  lemma {:induction false} IRunShape(i: nat, n: nat)
    ensures 6 * |IRun(i, n)| == if i <= n then (n - i) * (n - i - 1) * (n - i - 2) else 0
    ensures forall m :: 0 <= m < |IRun(i, n)| ==> i <= IRun(i, n)[m].i < IRun(i, n)[m].j < IRun(i, n)[m].k < n
    ensures LexIncreasing(IRun(i, n))
    decreases n - i
  {
    if i < n {
      var head, tail := JRun(i, i + 1, n), IRun(i + 1, n);
      JRunShape(i, i + 1, n);
      IRunShape(i + 1, n);
      LexIncreasingAppend(head, tail);
      TripleCountStep(n - i, |head|, |tail|);
    }
  }

  /** n choose 3 triples, each with i < j < k < n, strictly increasing in lexicographic order. */
  lemma TriplesShape(n: nat)
    ensures 6 * |Triples(n)| == n * (n - 1) * (n - 2)
    ensures forall m :: 0 <= m < |Triples(n)| ==> Triples(n)[m].i < Triples(n)[m].j < Triples(n)[m].k < n
    ensures LexIncreasing(Triples(n))
  {
    IRunShape(0, n);
  }

  lemma {:induction false} KRunComplete(i: nat, j: nat, k: nat, n: nat, c: nat)
    requires k <= c < n
    ensures Triple(i, j, c) in KRun(i, j, k, n)
    decreases n - k
  {
    var tail := KRun(i, j, k + 1, n);
    assert KRun(i, j, k, n) == [Triple(i, j, k)] + tail;
    if k < c {
      KRunComplete(i, j, k + 1, n, c);
      InConcat(Triple(i, j, c), [Triple(i, j, k)], tail);
    }
  }

  lemma {:induction false} JRunComplete(i: nat, j: nat, n: nat, b: nat, c: nat)
    requires j <= b < c < n
    ensures Triple(i, b, c) in JRun(i, j, n)
    decreases n - j
  {
    var head, tail := KRun(i, j, j + 1, n), JRun(i, j + 1, n);
    assert JRun(i, j, n) == head + tail;
    if j < b {
      JRunComplete(i, j + 1, n, b, c);
    } else {
      KRunComplete(i, j, j + 1, n, c);
    }
    InConcat(Triple(i, b, c), head, tail);
  }

  lemma {:induction false} IRunComplete(i: nat, n: nat, a: nat, b: nat, c: nat)
    requires i <= a < b < c < n
    ensures Triple(a, b, c) in IRun(i, n)
    decreases n - i
  {
    var head, tail := JRun(i, i + 1, n), IRun(i + 1, n);
    assert IRun(i, n) == head + tail;
    if i < a {
      IRunComplete(i + 1, n, a, b, c);
    } else {
      JRunComplete(i, i + 1, n, b, c);
    }
    InConcat(Triple(a, b, c), head, tail);
  }

  /** Every index triple i < j < k < n is enumerated. */
  lemma TriplesComplete(n: nat, a: nat, b: nat, c: nat)
    requires a < b < c < n
    ensures Triple(a, b, c) in Triples(n)
  {
    IRunComplete(0, n, a, b, c);
  }

  /** A triple is enumerated exactly when its indices increase and stay below n. */
  lemma TriplesMembers(n: nat, t: Triple)
    ensures t in Triples(n) <==> t.i < t.j < t.k < n
  {
    TriplesShape(n);
    if t.i < t.j < t.k < n {
      TriplesComplete(n, t.i, t.j, t.k);
    }
  }

  /** Fewer than three legs give no triple at all; three or more give at least one. */
  lemma TriplesEmptyIff(n: nat)
    ensures Triples(n) == [] <==> n < 3
  {
    TriplesShape(n);
    if n < 3 {
      assert n * (n - 1) * (n - 2) == 0;
    } else {
      TriplesComplete(n, 0, 1, 2);
    }
  }

  predicate InRange(ts: seq<Triple>, n: nat) {
    forall m :: 0 <= m < |ts| ==> ts[m].i < n && ts[m].j < n && ts[m].k < n
  }

  /** `[legs[i], legs[j], legs[k]]` for every triple. */
  function Pick(legs: seq<Leg>, ts: seq<Triple>): (r: seq<seq<Leg>>)
    requires InRange(ts, |legs|)
    ensures |r| == |ts|
    ensures forall m :: 0 <= m < |r| ==> r[m] == [legs[ts[m].i], legs[ts[m].j], legs[ts[m].k]]
  {
    seq(|ts|, m requires 0 <= m < |ts| => [legs[ts[m].i], legs[ts[m].j], legs[ts[m].k]])
  }

  /** What the middle loop still has to enumerate from (i, j) on: the rest of row i, then rows i+1.. */
  function Mid(i: nat, j: nat, n: nat): seq<Triple> {
    JRun(i, j, n) + IRun(i + 1, n)
  }

  lemma MidEnter(i: nat, n: nat)
    requires i < n
    ensures IRun(i, n) == Mid(i, i + 1, n)
  {
  }

  lemma MidExit(i: nat, j: nat, n: nat)
    requires j >= n
    ensures Mid(i, j, n) == IRun(i + 1, n)
  {
  }

  lemma InnerEnter(i: nat, j: nat, n: nat)
    requires j < n
    ensures Mid(i, j, n) == KRun(i, j, j + 1, n) + Mid(i, j + 1, n)
  {
    Associate(KRun(i, j, j + 1, n), JRun(i, j + 1, n), IRun(i + 1, n));
  }

  lemma InnerStep(i: nat, j: nat, k: nat, n: nat, rest: seq<Triple>)
    requires k < n
    ensures KRun(i, j, k, n) + rest == [Triple(i, j, k)] + (KRun(i, j, k + 1, n) + rest)
  {
    Associate([Triple(i, j, k)], KRun(i, j, k + 1, n), rest);
  }

  lemma InnerExit(i: nat, j: nat, k: nat, n: nat, rest: seq<Triple>)
    requires k >= n
    ensures KRun(i, j, k, n) + rest == rest
  {
  }

  lemma PickAppend(legs: seq<Leg>, done: seq<Triple>, t: Triple)
    requires InRange(done, |legs|) && t.i < |legs| && t.j < |legs| && t.k < |legs|
    ensures InRange(done + [t], |legs|)
    ensures Pick(legs, done + [t]) == Pick(legs, done) + [[legs[t.i], legs[t.j], legs[t.k]]]
  {
  }

  /** What every level of the generator keeps: the combos are the enumerated triples' legs, never past the target. */
  ghost predicate Progress(legs: seq<Leg>, targetCount: int, legPerTicket: int, combos: seq<seq<Leg>>, done: seq<Triple>, all: seq<Triple>) {
    && done <= all && InRange(done, |legs|)
    && (legPerTicket == 3 ==> combos == Pick(legs, done))
    && (legPerTicket != 3 ==> combos == [])
    && (targetCount > 0 ==> |combos| <= targetCount)
  }

  /** The innermost loop: k from j + 1 while below n and below the target. */
  method EnumerateRow(legs: seq<Leg>, targetCount: int, legPerTicket: int, i: nat, j: nat, combos0: seq<seq<Leg>>,
                      ghost done0: seq<Triple>, ghost rest: seq<Triple>, ghost all: seq<Triple>)
    returns (combos: seq<seq<Leg>>, ghost done: seq<Triple>)
    requires i < j < |legs|
    requires Progress(legs, targetCount, legPerTicket, combos0, done0, all)
    requires |combos0| < targetCount ==> done0 + (KRun(i, j, j + 1, |legs|) + rest) == all
    ensures Progress(legs, targetCount, legPerTicket, combos, done, all)
    ensures |combos| < targetCount ==> done + rest == all
  {
    var n := |legs|;
    combos, done := combos0, done0;
    var k := j + 1;
    while k < n && |combos| < targetCount
      invariant j < k <= n
      invariant Progress(legs, targetCount, legPerTicket, combos, done, all)
      invariant |combos| < targetCount ==> done + (KRun(i, j, k, n) + rest) == all
    {
      var combo := [legs[i], legs[j], legs[k]];
      InnerStep(i, j, k, n, rest);
      Associate(done, [Triple(i, j, k)], KRun(i, j, k + 1, n) + rest);
      PickAppend(legs, done, Triple(i, j, k));
      if |combo| == legPerTicket {
        combos := combos + [combo];
      }
      done := done + [Triple(i, j, k)];
      k := k + 1;
    }
    if k >= n {
      InnerExit(i, j, k, n, rest);
    }
  }

  /** The middle loop: j from i + 1 while below n and below the target. */
  method EnumerateBlock(legs: seq<Leg>, targetCount: int, legPerTicket: int, i: nat, combos0: seq<seq<Leg>>,
                        ghost done0: seq<Triple>, ghost all: seq<Triple>)
    returns (combos: seq<seq<Leg>>, ghost done: seq<Triple>)
    requires i < |legs|
    requires Progress(legs, targetCount, legPerTicket, combos0, done0, all)
    requires |combos0| < targetCount ==> done0 + IRun(i, |legs|) == all
    ensures Progress(legs, targetCount, legPerTicket, combos, done, all)
    ensures |combos| < targetCount ==> done + IRun(i + 1, |legs|) == all
  {
    var n := |legs|;
    combos, done := combos0, done0;
    var j := i + 1;
    MidEnter(i, n);
    while j < n && |combos| < targetCount
      invariant i < j <= n
      invariant Progress(legs, targetCount, legPerTicket, combos, done, all)
      invariant |combos| < targetCount ==> done + Mid(i, j, n) == all
    {
      InnerEnter(i, j, n);
      combos, done := EnumerateRow(legs, targetCount, legPerTicket, i, j, combos, done, Mid(i, j + 1, n), all);
      j := j + 1;
    }
    if j >= n {
      MidExit(i, j, n);
    }
  }

  /** The outer loop's invariant: rows before i are done, unless the target was reached. */
  ghost predicate Outer(legs: seq<Leg>, targetCount: int, legPerTicket: int, i: nat, combos: seq<seq<Leg>>,
                        done: seq<Triple>, all: seq<Triple>) {
    && i <= |legs|
    && Progress(legs, targetCount, legPerTicket, combos, done, all)
    && (|combos| < targetCount ==> done + IRun(i, |legs|) == all)
    && (targetCount <= 0 ==> done == [])
  }

  /** When the outer loop stops, the enumerated prefix is exactly the first targetCount triples. */
  lemma OuterDone(legs: seq<Leg>, targetCount: int, legPerTicket: int, i: nat, combos: seq<seq<Leg>>,
                  done: seq<Triple>, all: seq<Triple>)
    requires Outer(legs, targetCount, legPerTicket, i, combos, done, all)
    requires !(i < |legs| && |combos| < targetCount)
    requires InRange(all, |legs|)
    ensures InRange(Take(all, targetCount), |legs|)
    ensures legPerTicket == 3 ==> combos == Pick(legs, Take(all, targetCount))
    ensures legPerTicket != 3 ==> combos == []
    ensures targetCount <= 0 ==> combos == []
    ensures targetCount > 0 ==> |combos| <= targetCount
    ensures forall m :: 0 <= m < |combos| ==> |combos[m]| == 3
  {
    if legPerTicket == 3 {
      assert |combos| == |done|;
      if targetCount <= 0 {
        assert done == [];
      } else if |combos| < targetCount {
        assert IRun(i, |legs|) == [];
        assert done == all;
      } else {
        assert done == all[..targetCount];
      }
      assert done == Take(all, targetCount);
    }
  }

  /**
   `generateCombinations(legs, targetCount, legPerTicket)`: the three nested
   loops, each guarded by the cutoff `combos.length < targetCount`. A combo is
   always three legs long, so nothing is pushed unless legPerTicket is 3.
   */
  method GenerateCombinations(legs: seq<Leg>, targetCount: int, legPerTicket: int) returns (combos: seq<seq<Leg>>)
    ensures InRange(Take(Triples(|legs|), targetCount), |legs|)
    ensures legPerTicket == 3 ==> combos == Pick(legs, Take(Triples(|legs|), targetCount))
    ensures legPerTicket != 3 ==> combos == []
    ensures targetCount <= 0 ==> combos == []
    ensures targetCount > 0 ==> |combos| <= targetCount
    ensures forall m :: 0 <= m < |combos| ==> |combos[m]| == 3
  {
    var n := |legs|;
    ghost var all := Triples(n);
    TriplesShape(n);
    ghost var done: seq<Triple> := [];
    combos := [];
    var i := 0;
    while i < n && |combos| < targetCount
      invariant Outer(legs, targetCount, legPerTicket, i, combos, done, all)
    {
      combos, done := EnumerateBlock(legs, targetCount, legPerTicket, i, combos, done, all);
      i := i + 1;
    }
    OuterDone(legs, targetCount, legPerTicket, i, combos, done, all);
  }
}
