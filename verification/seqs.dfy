/**
 Sequence vocabulary shared by the pipeline stages: order-preserving filtering
 (`Array.prototype.filter`) and the subsequence relation.
 */
module Seqs {

  /** `xs.filter(p)`: the elements satisfying p, in their original order. */
  function Filter<T(==)>(p: T -> bool, xs: seq<T>): (r: seq<T>)
    ensures |r| <= |xs|
    ensures forall i :: 0 <= i < |r| ==> p(r[i])
  {
    if |xs| == 0 then []
    else (if p(xs[0]) then [xs[0]] else []) + Filter(p, xs[1..])
  }

  lemma {:induction false} FilterAppend<T>(p: T -> bool, xs: seq<T>, ys: seq<T>)
    ensures Filter(p, xs + ys) == Filter(p, xs) + Filter(p, ys)
  {
    if |xs| == 0 {
      assert xs + ys == ys;
    } else {
      assert (xs + ys)[1..] == xs[1..] + ys;
      FilterAppend(p, xs[1..], ys);
    }
  }

  /** The kept elements come from xs, and every element of xs that passes is kept. */
  lemma {:induction false} FilterMembers<T>(p: T -> bool, xs: seq<T>)
    ensures forall i :: 0 <= i < |Filter(p, xs)| ==> Filter(p, xs)[i] in xs
    ensures forall i :: 0 <= i < |xs| && p(xs[i]) ==> xs[i] in Filter(p, xs)
  {
    if |xs| > 0 {
      FilterMembers(p, xs[1..]);
      var head := if p(xs[0]) then [xs[0]] else [];
      var rest := Filter(p, xs[1..]);
      assert Filter(p, xs) == head + rest;
      forall i | 0 <= i < |head + rest|
        ensures (head + rest)[i] in xs
      {
        if i >= |head| {
          assert (head + rest)[i] == rest[i - |head|];
          assert rest[i - |head|] in xs[1..];
        }
      }
      forall i | 0 <= i < |xs| && p(xs[i])
        ensures xs[i] in head + rest
      {
        if i > 0 {
          assert xs[i] == xs[1..][i - 1];
          assert xs[i] in rest;
        }
      }
    }
  }

  /** Filtering a sequence with a known first element. */
  lemma FilterCons<T>(p: T -> bool, x: T, xs: seq<T>)
    ensures Filter(p, [x] + xs) == (if p(x) then [x] else []) + Filter(p, xs)
  {
    assert ([x] + xs)[1..] == xs;
  }

  /** Filtering keeps everything when every element passes. */
  lemma {:induction false} FilterAll<T>(p: T -> bool, xs: seq<T>)
    requires forall i :: 0 <= i < |xs| ==> p(xs[i])
    ensures Filter(p, xs) == xs
  {
    if |xs| > 0 {
      FilterAll(p, xs[1..]);
    }
  }

  /** Filtering keeps nothing when no element passes. */
  lemma {:induction false} FilterNone<T>(p: T -> bool, xs: seq<T>)
    requires forall i :: 0 <= i < |xs| ==> !p(xs[i])
    ensures Filter(p, xs) == []
  {
    if |xs| > 0 {
      FilterNone(p, xs[1..]);
    }
  }

  /** The filter keeps the whole length exactly when every element passes. */
  lemma {:induction false} FilterKeepsLength<T>(p: T -> bool, xs: seq<T>)
    ensures |Filter(p, xs)| == |xs| <==> forall i :: 0 <= i < |xs| ==> p(xs[i])
  {
    if |xs| > 0 {
      FilterKeepsLength(p, xs[1..]);
      assert forall i :: 1 <= i < |xs| ==> xs[1..][i - 1] == xs[i];
      assert |Filter(p, xs[1..])| <= |xs[1..]|;
    }
  }

  /** Splitting by a predicate and its negation loses and invents nothing. */
  lemma {:induction false} FilterPartition<T>(p: T -> bool, q: T -> bool, xs: seq<T>)
    requires forall x :: q(x) == !p(x)
    ensures multiset(Filter(p, xs)) + multiset(Filter(q, xs)) == multiset(xs)
  {
    if |xs| > 0 {
      var x, rest := xs[0], xs[1..];
      assert xs == [x] + rest;
      FilterPartition(p, q, rest);
      FilterCons(p, x, rest);
      FilterCons(q, x, rest);
      PartitionStep(p(x), x, rest, Filter(p, rest), Filter(q, rest), Filter(p, [x] + rest), Filter(q, [x] + rest));
    }
  }

  /** One element goes to exactly one side of a partition. */
  lemma PartitionStep<T>(b: bool, x: T, rest: seq<T>, fp: seq<T>, fq: seq<T>, gp: seq<T>, gq: seq<T>)
    requires multiset(fp) + multiset(fq) == multiset(rest)
    requires b ==> gp == [x] + fp && gq == fq
    requires !b ==> gp == fp && gq == [x] + fq
    ensures multiset(gp) + multiset(gq) == multiset([x] + rest)
  {
    assert multiset([x] + rest) == multiset{x} + multiset(rest);
    if b {
      assert multiset([x] + fp) == multiset{x} + multiset(fp);
    } else {
      assert multiset([x] + fq) == multiset{x} + multiset(fq);
    }
  }

  /** The first `count` elements, or all of them: what an early cutoff at `count` leaves. */
  function Take<T>(s: seq<T>, count: int): (r: seq<T>)
    ensures r <= s
    ensures |r| == if count <= 0 then 0 else if count >= |s| then |s| else count
  {
    if count <= 0 then [] else if count >= |s| then s else s[..count]
  }

  /** The parts concatenated in order: what pushing each part onto one list leaves. */
  function Flatten<T>(parts: seq<seq<T>>): seq<T> {
    if |parts| == 0 then [] else Flatten(parts[..|parts| - 1]) + parts[|parts| - 1]
  }

  /** The concatenation is empty exactly when every part is. */
  lemma {:induction false} FlattenEmpty<T>(parts: seq<seq<T>>)
    ensures Flatten(parts) == [] <==> forall k :: 0 <= k < |parts| ==> parts[k] == []
  {
    if |parts| > 0 {
      var n := |parts| - 1;
      FlattenEmpty(parts[..n]);
      assert forall k :: 0 <= k < n ==> parts[..n][k] == parts[k];
    }
  }

  /** Two part lists with empty parts in the same places flatten to empty together. */
  lemma FlattenSameEmptiness<T>(a: seq<seq<T>>, b: seq<seq<T>>)
    requires |a| == |b|
    requires forall k :: 0 <= k < |a| ==> (a[k] == [] <==> b[k] == [])
    ensures Flatten(a) == [] <==> Flatten(b) == []
  {
    FlattenEmpty(a);
    FlattenEmpty(b);
  }

  /** Part k sits, as one block, inside the concatenation, after the parts before it. */
  lemma {:induction false} FlattenAt<T>(parts: seq<seq<T>>, k: nat) returns (before: seq<T>, after: seq<T>)
    requires k < |parts|
    ensures Flatten(parts) == before + parts[k] + after
    ensures before == Flatten(parts[..k])
  {
    var n := |parts| - 1;
    if k < n {
      var after';
      before, after' := FlattenAt(parts[..n], k);
      assert parts[..n][k] == parts[k] && parts[..n][..k] == parts[..k];
      after := after' + parts[n];
    } else {
      before, after := Flatten(parts[..n]), [];
    }
  }

  /** What holds of every element of every part holds of every element of the concatenation. */
  lemma {:induction false} FlattenAll<T>(p: T -> bool, parts: seq<seq<T>>)
    requires forall k :: 0 <= k < |parts| ==> forall x :: x in parts[k] ==> p(x)
    ensures forall x :: x in Flatten(parts) ==> p(x)
  {
    if |parts| > 0 {
      var n := |parts| - 1;
      assert forall k :: 0 <= k < n ==> parts[..n][k] == parts[k];
      FlattenAll(p, parts[..n]);
    }
  }

  /** An element of the middle part is an element of the whole. */
  lemma InMiddle<T>(x: T, a: seq<T>, b: seq<T>, c: seq<T>)
    requires x in b
    ensures x in a + b + c
  {
    var k :| 0 <= k < |b| && b[k] == x;
    assert (a + b + c)[|a| + k] == x;
  }

  /** An element of a concatenation comes from one of its two parts. */
  lemma InConcat<T>(x: T, a: seq<T>, b: seq<T>)
    ensures x in a + b <==> x in a || x in b
  {
  }

  lemma Associate<T>(a: seq<T>, b: seq<T>, c: seq<T>)
    ensures a + (b + c) == (a + b) + c
  {
  }

  lemma Reassociate<T>(a: seq<T>, b: seq<T>, c: seq<T>, d: seq<T>)
    ensures a + (b + (c + d)) == a + b + c + d
  {
  }

  /** a can be obtained from b by deleting elements (matched from the back). */
  predicate IsSubseq<T(==)>(a: seq<T>, b: seq<T>)
    decreases |b|
  {
    if |a| == 0 then true
    else if |b| == 0 then false
    else if a[|a| - 1] == b[|b| - 1] then IsSubseq(a[..|a| - 1], b[..|b| - 1])
    else IsSubseq(a, b[..|b| - 1])
  }

  lemma {:induction false} SubseqExtend<T>(a: seq<T>, b: seq<T>, x: T)
    requires IsSubseq(a, b)
    ensures IsSubseq(a, b + [x])
    decreases |a| + |b|, 1
  {
    var b' := b + [x];
    assert b'[..|b'| - 1] == b;
    if |a| > 0 && a[|a| - 1] == x {
      SubseqDropLast(a, b);
    }
  }

  lemma {:induction false} SubseqDropLast<T>(a: seq<T>, b: seq<T>)
    requires |a| > 0 && IsSubseq(a, b)
    ensures IsSubseq(a[..|a| - 1], b)
    decreases |a| + |b|, 0
  {
    var bi := b[..|b| - 1];
    assert b == bi + [b[|b| - 1]];
    if a[|a| - 1] == b[|b| - 1] {
      SubseqExtend(a[..|a| - 1], bi, b[|b| - 1]);
    } else {
      SubseqDropLast(a, bi);
      SubseqExtend(a[..|a| - 1], bi, b[|b| - 1]);
    }
  }

  /** `xs.map(f)` */
  function Map<A, B>(f: A -> B, xs: seq<A>): (r: seq<B>)
    ensures |r| == |xs|
    ensures forall i :: 0 <= i < |r| ==> r[i] == f(xs[i])
  {
    seq(|xs|, i requires 0 <= i < |xs| => f(xs[i]))
  }

  lemma MapCons<A, B>(f: A -> B, x: A, xs: seq<A>)
    ensures Map(f, [x] + xs) == [f(x)] + Map(f, xs)
  {
    assert Map(f, [x] + xs)[1..] == Map(f, xs);
  }

  /** Mapping both sides keeps a subsequence a subsequence. */
  lemma {:induction false} MapSubseq<A, B>(f: A -> B, a: seq<A>, b: seq<A>)
    requires IsSubseq(a, b)
    ensures IsSubseq(Map(f, a), Map(f, b))
    decreases |b|
  {
    if |a| > 0 {
      var ai, bi := a[..|a| - 1], b[..|b| - 1];
      assert Map(f, a)[..|a| - 1] == Map(f, ai);
      assert Map(f, b)[..|b| - 1] == Map(f, bi);
      if a[|a| - 1] == b[|b| - 1] {
        MapSubseq(f, ai, bi);
      } else {
        MapSubseq(f, a, bi);
        if f(a[|a| - 1]) == f(b[|b| - 1]) {
          SubseqDropLast(Map(f, a), Map(f, bi));
        }
      }
    }
  }

  /** Every element of a subsequence comes from the larger sequence. */
  lemma {:induction false} SubseqElements<T>(a: seq<T>, b: seq<T>)
    requires IsSubseq(a, b)
    ensures forall x :: x in a ==> x in b
    ensures |a| <= |b|
    decreases |b|
  {
    if |a| > 0 {
      var bi := b[..|b| - 1];
      assert b == bi + [b[|b| - 1]];
      if a[|a| - 1] == b[|b| - 1] {
        SubseqElements(a[..|a| - 1], bi);
        assert a == a[..|a| - 1] + [a[|a| - 1]];
      } else {
        SubseqElements(a, bi);
      }
    }
  }
}
