/**
 Ticket scoring and ranking (core/mixer/mixerEngine.js): the product of the leg
 odds rounded to two decimals, the rounded mean confidence, and the stable
 descending sort on that mean followed by the top three.
 */
module Tickets {
  import opened JsValues
  import opened Legs
  import opened Seqs

  /**
   A scored ticket. `confidenceAvg` is None where JavaScript computes NaN
   (a ticket without legs); the timestamp and the summary line are not modelled.
   */
  datatype Ticket = Ticket(id: string, totalOdd: real, confidenceAvg: Option<int>, legs: seq<Leg>, legCount: nat)

  /** `leg.odd || 1` */
  function OddFactor(leg: Leg): (r: real)
    ensures leg.odd != 0.0 ==> r == leg.odd
    ensures leg.odd == 0.0 ==> r == 1.0
  {
    OrElse(Some(leg.odd), 1.0)
  }

  /** The product left by `reduce((sum, leg) => sum * (leg.odd || 1), 1)`, folded from the left. */
  function OddProduct(legs: seq<Leg>): (r: real)
    ensures (forall i :: 0 <= i < |legs| ==> legs[i].odd >= 1.0) ==> r >= 1.0
  {
    if |legs| == 0 then 1.0
    else
      var init := OddProduct(legs[..|legs| - 1]);
      assert forall i :: 0 <= i < |legs| - 1 ==> legs[..|legs| - 1][i] == legs[i];
      ProductAtLeastOne(init, OddFactor(legs[|legs| - 1]));
      init * OddFactor(legs[|legs| - 1])
  }

  lemma ProductAtLeastOne(a: real, b: real)
    ensures a >= 1.0 && b >= 1.0 ==> a * b >= 1.0
  {
    if a >= 1.0 && b >= 1.0 {
      assert a * b >= 1.0 * b;
    }
  }

  /** The sum left by `reduce((sum, leg) => sum + (leg.confidence || 0), 0)`. */
  function ConfidenceSum(legs: seq<Leg>): int {
    if |legs| == 0 then 0 else ConfidenceSum(legs[..|legs| - 1]) + legs[|legs| - 1].confidence
  }

  function MinConfidence(legs: seq<Leg>): (r: int)
    requires |legs| > 0
    ensures forall i :: 0 <= i < |legs| ==> r <= legs[i].confidence
    ensures exists i :: 0 <= i < |legs| && r == legs[i].confidence
  {
    if |legs| == 1 then legs[0].confidence
    else
      var rest := MinConfidence(legs[1..]);
      assert forall i :: 1 <= i < |legs| ==> legs[1..][i - 1] == legs[i];
      if legs[0].confidence <= rest then legs[0].confidence else rest
  }

  function MaxConfidence(legs: seq<Leg>): (r: int)
    requires |legs| > 0
    ensures forall i :: 0 <= i < |legs| ==> legs[i].confidence <= r
    ensures exists i :: 0 <= i < |legs| && r == legs[i].confidence
  {
    if |legs| == 1 then legs[0].confidence
    else
      var rest := MaxConfidence(legs[1..]);
      assert forall i :: 1 <= i < |legs| ==> legs[1..][i - 1] == legs[i];
      if legs[0].confidence >= rest then legs[0].confidence else rest
  }

  /** The confidence sum lies between |legs| times any lower and any upper bound of the confidences. */
  lemma {:induction false} SumBounds(legs: seq<Leg>, lo: int, hi: int)
    requires forall i :: 0 <= i < |legs| ==> lo <= legs[i].confidence <= hi
    ensures |legs| * lo <= ConfidenceSum(legs) <= |legs| * hi
  {
    if |legs| > 0 {
      var init := legs[..|legs| - 1];
      assert forall i :: 0 <= i < |init| ==> init[i] == legs[i];
      SumBounds(init, lo, hi);
      assert |legs| * lo == |init| * lo + lo;
      assert |legs| * hi == |init| * hi + hi;
    }
  }

  /** The exact mean confidence of a non-empty ticket. */
  function Mean(legs: seq<Leg>): real
    requires |legs| > 0
  {
    ConfidenceSum(legs) as real / |legs| as real
  }

  /** `Math.round(sum / legs.length)`, None standing for the NaN of an empty ticket. */
  function AverageConfidence(legs: seq<Leg>): (r: Option<int>)
    ensures r.None? <==> |legs| == 0
    ensures r.Some? ==> Mean(legs) - 0.5 < r.value as real <= Mean(legs) + 0.5
    ensures r.Some? ==> MinConfidence(legs) <= r.value <= MaxConfidence(legs)
  {
    if |legs| == 0 then None
    else
      AverageWithinRange(legs);
      Some(Round(Mean(legs)))
  }

  /** The rounded mean never leaves the range of the leg confidences. */
  lemma AverageWithinRange(legs: seq<Leg>)
    requires |legs| > 0
    ensures MinConfidence(legs) <= Round(Mean(legs)) <= MaxConfidence(legs)
  {
    var lo, hi := MinConfidence(legs), MaxConfidence(legs);
    SumBounds(legs, lo, hi);
    MeanBetween(ConfidenceSum(legs), |legs|, lo, hi);
    RoundBetween(Mean(legs), lo, hi);
  }

  lemma MeanBetween(sum: int, count: nat, lo: int, hi: int)
    requires count > 0 && count * lo <= sum <= count * hi
    ensures lo as real <= sum as real / count as real <= hi as real
  {
    var n := count as real;
    assert (count * lo) as real == lo as real * n;
    assert (count * hi) as real == hi as real * n;
  }

  /** `scoreTicket(legs)` with the generated id supplied by the caller. */
  function ScoreTicket(id: string, legs: seq<Leg>): (r: Ticket)
    ensures r.id == id && r.legs == legs && r.legCount == |legs|
    ensures -0.005 <= r.totalOdd - OddProduct(legs) <= 0.005
    ensures (r.totalOdd * 100.0).Floor as real == r.totalOdd * 100.0
    ensures (forall i :: 0 <= i < |legs| ==> legs[i].odd >= 1.0) ==> r.totalOdd >= 1.0
    ensures r.confidenceAvg == AverageConfidence(legs)
  {
    var total := ToFixed2(OddProduct(legs));
    if forall i :: 0 <= i < |legs| ==> legs[i].odd >= 1.0 then
      AtLeastOneStaysAtLeastOne(OddProduct(legs));
      Ticket(id, total, AverageConfidence(legs), legs, |legs|)
    else
      Ticket(id, total, AverageConfidence(legs), legs, |legs|)
  }

  /** Rounding to hundredths cannot take a value at least 1 below 1: 1.00 is itself a hundredth. */
  lemma AtLeastOneStaysAtLeastOne(x: real)
    requires x >= 1.0
    ensures ToFixed2(x) >= 1.0
  {
    var r := ToFixed2(x);
    var h := (r * 100.0).Floor;
    assert h as real == r * 100.0;
    assert r * 100.0 >= x * 100.0 - 0.5;
    assert h as real >= 99.5;
    assert h >= 100;
  }

  /** The sort key; a NaN average (only possible without legs) is ranked as 0. */
  function Key(t: Ticket): int {
    t.confidenceAvg.GetOr(0)
  }

  ghost predicate SortedDesc(ts: seq<Ticket>) {
    forall a, b :: 0 <= a < b < |ts| ==> Key(ts[a]) >= Key(ts[b])
  }

  /** Puts t before the first ticket whose key is not greater than its own. */
  function InsertDesc(t: Ticket, sorted: seq<Ticket>): (r: seq<Ticket>)
    ensures multiset(r) == multiset(sorted) + multiset{t}
    ensures |r| == |sorted| + 1
  {
    if |sorted| == 0 || Key(t) >= Key(sorted[0]) then [t] + sorted
    else
      assert sorted == [sorted[0]] + sorted[1..];
      [sorted[0]] + InsertDesc(t, sorted[1..])
  }

  /** No ticket's average exceeds v. */
  ghost predicate AtMost(ts: seq<Ticket>, v: int) {
    forall m :: 0 <= m < |ts| ==> Key(ts[m]) <= v
  }

  lemma {:induction false} InsertAtMost(t: Ticket, ts: seq<Ticket>, v: int)
    requires AtMost(ts, v) && Key(t) <= v
    ensures AtMost(InsertDesc(t, ts), v)
  {
    if |ts| > 0 && Key(t) < Key(ts[0]) {
      InsertAtMost(t, ts[1..], v);
      assert InsertDesc(t, ts) == [ts[0]] + InsertDesc(t, ts[1..]);
    }
  }

  /** A head no smaller than anything behind it extends a descending list. */
  lemma SortedCons(head: Ticket, rest: seq<Ticket>)
    requires SortedDesc(rest) && AtMost(rest, Key(head))
    ensures SortedDesc([head] + rest)
  {
    forall a, b | 0 <= a < b < |[head] + rest|
      ensures Key(([head] + rest)[a]) >= Key(([head] + rest)[b])
    {
      assert ([head] + rest)[b] == rest[b - 1];
      if a > 0 {
        assert ([head] + rest)[a] == rest[a - 1];
      }
    }
  }

  /** Inserting into a descending list keeps it descending. */
  lemma {:induction false} InsertSorted(t: Ticket, sorted: seq<Ticket>)
    requires SortedDesc(sorted)
    ensures SortedDesc(InsertDesc(t, sorted))
  {
    if |sorted| > 0 && Key(t) < Key(sorted[0]) {
      var head, tail := sorted[0], sorted[1..];
      var rest := InsertDesc(t, tail);
      assert SortedDesc(tail);
      assert AtMost(tail, Key(head)) by {
        forall m | 0 <= m < |tail|
          ensures Key(tail[m]) <= Key(head)
        {
          assert tail[m] == sorted[m + 1];
        }
      }
      InsertSorted(t, tail);
      InsertAtMost(t, tail, Key(head));
      SortedCons(head, rest);
      assert InsertDesc(t, sorted) == [head] + rest;
    } else {
      assert InsertDesc(t, sorted) == [t] + sorted;
      if |sorted| > 0 {
        assert AtMost(sorted, Key(t)) by {
          forall m | 0 <= m < |sorted|
            ensures Key(sorted[m]) <= Key(t)
          {
            assert m == 0 || Key(sorted[0]) >= Key(sorted[m]);
          }
        }
      }
      SortedCons(t, sorted);
    }
  }

  /**
   `sort((a, b) => b.confidence_avg - a.confidence_avg)`: a stable sort on
   descending average, written as an insertion sort.
   */
  function SortDesc(ts: seq<Ticket>): (r: seq<Ticket>)
    ensures SortedDesc(r)
    ensures multiset(r) == multiset(ts)
    ensures |r| == |ts|
  {
    if |ts| == 0 then []
    else
      assert ts == [ts[0]] + ts[1..];
      InsertSorted(ts[0], SortDesc(ts[1..]));
      InsertDesc(ts[0], SortDesc(ts[1..]))
  }

  /** Tickets sharing the average v, in order. */
  function WithKey(v: int): Ticket -> bool {
    t => Key(t) == v
  }

  lemma {:induction false} InsertKeepsClass(t: Ticket, sorted: seq<Ticket>, v: int)
    ensures Key(t) == v ==> Filter(WithKey(v), InsertDesc(t, sorted)) == [t] + Filter(WithKey(v), sorted)
    ensures Key(t) != v ==> Filter(WithKey(v), InsertDesc(t, sorted)) == Filter(WithKey(v), sorted)
    decreases |sorted|, 1
  {
    if |sorted| == 0 || Key(t) >= Key(sorted[0]) {
      FrontKeepsClass(t, sorted, v);
    } else {
      BehindKeepsClass(t, sorted, v);
    }
  }

  /** The case where t goes in front. */
  lemma FrontKeepsClass(t: Ticket, sorted: seq<Ticket>, v: int)
    requires |sorted| == 0 || Key(t) >= Key(sorted[0])
    ensures Filter(WithKey(v), InsertDesc(t, sorted)) == Filter(WithKey(v), [t]) + Filter(WithKey(v), sorted)
    ensures Filter(WithKey(v), [t]) == if Key(t) == v then [t] else []
  {
    assert InsertDesc(t, sorted) == [t] + sorted;
    FilterAppend(WithKey(v), [t], sorted);
    assert [t][1..] == [];
  }

  lemma InsertBehind(t: Ticket, sorted: seq<Ticket>)
    requires |sorted| > 0 && Key(t) < Key(sorted[0])
    ensures InsertDesc(t, sorted) == [sorted[0]] + InsertDesc(t, sorted[1..])
  {
  }

  /** The case where t goes behind the head, proved from the tail's case. */
  lemma {:induction false} BehindKeepsClass(t: Ticket, sorted: seq<Ticket>, v: int)
    requires |sorted| > 0 && Key(t) < Key(sorted[0])
    ensures Key(t) == v ==> Filter(WithKey(v), InsertDesc(t, sorted)) == [t] + Filter(WithKey(v), sorted)
    ensures Key(t) != v ==> Filter(WithKey(v), InsertDesc(t, sorted)) == Filter(WithKey(v), sorted)
    decreases |sorted|, 0
  {
    var p := WithKey(v);
    var head, tail := sorted[0], sorted[1..];
    var rest := InsertDesc(t, tail);
    InsertBehind(t, sorted);
    FilterCons(p, head, rest);
    FilterCons(p, head, tail);
    InsertKeepsClass(t, tail, v);
  }

  /** The sort is stable: tickets with equal averages keep their relative order. */
  lemma {:induction false} SortStable(ts: seq<Ticket>, v: int)
    ensures Filter(WithKey(v), SortDesc(ts)) == Filter(WithKey(v), ts)
  {
    if |ts| > 0 {
      assert ts == [ts[0]] + ts[1..];
      SortStable(ts[1..], v);
      InsertKeepsClass(ts[0], SortDesc(ts[1..]), v);
      FilterAppend(WithKey(v), [ts[0]], ts[1..]);
    }
  }

  /** The first three of a descending rearrangement of ts are its best: every ticket left out ranks no higher. */
  lemma TopThree(ts: seq<Ticket>, sorted: seq<Ticket>)
    requires SortedDesc(sorted) && multiset(sorted) == multiset(ts)
    ensures SortedDesc(Take(sorted, 3))
    ensures forall i :: 0 <= i < |Take(sorted, 3)| ==> Take(sorted, 3)[i] in ts
    ensures forall i, j :: 0 <= i < |Take(sorted, 3)| && 0 <= j < |ts| && ts[j] !in Take(sorted, 3) ==>
      Key(ts[j]) <= Key(Take(sorted, 3)[i])
  {
    var r := Take(sorted, 3);
    assert forall q :: 0 <= q < |r| ==> sorted[q] == r[q];
    forall i | 0 <= i < |r|
      ensures r[i] in ts
    {
      assert sorted[i] in multiset(ts);
    }
    forall i, j | 0 <= i < |r| && 0 <= j < |ts| && ts[j] !in r
      ensures Key(ts[j]) <= Key(r[i])
    {
      assert ts[j] in multiset(sorted);
      var p :| 0 <= p < |sorted| && sorted[p] == ts[j];
      assert p >= |r|;
    }
  }

  /** `tickets.sort(...).slice(0, 3)`: the three best averages, best first. */
  function RankTickets(ts: seq<Ticket>): (r: seq<Ticket>)
    ensures |r| == if |ts| < 3 then |ts| else 3
    ensures SortedDesc(r)
    ensures forall i :: 0 <= i < |r| ==> r[i] in ts
    ensures forall i, j :: 0 <= i < |r| && 0 <= j < |ts| && ts[j] !in r ==> Key(ts[j]) <= Key(r[i])
  {
    var sorted := SortDesc(ts);
    TopThree(ts, sorted);
    Take(sorted, 3)
  }
}
