/**
 The rule engine (core/mixer/ruleEngine.js): an odds window, a stats gate, a
 stable sort that puts top leagues first, then one greedy pass that admits at
 most two legs per market family and two per league across the whole run, and
 finally the league weight attached to every surviving leg.
 */
module RuleEngine {
  import opened JsValues
  import opened Legs
  import opened Seqs

  /** Premier League, La Liga, Serie A, Bundesliga, Ligue 1. */
  const TOP_LEAGUES: seq<int> := [39, 140, 135, 78, 61]
  const TOP_WEIGHT: real := 1.25
  const MIN_ODD: real := 1.08
  const MAX_ODD: real := 1.5
  /** Legs admitted per family key and per league. */
  const CAP: nat := 2

  /** `withinOddsRange`: inclusive at both ends. */
  predicate WithinOddsRange(leg: Leg) {
    MIN_ODD <= leg.odd <= MAX_ODD
  }

  /** `hasStats`: only an explicit `false` fails; an absent flag passes. */
  predicate HasStats(leg: Leg) {
    leg.meta.statsAvailable != Some(false)
  }

  predicate IsTop(leg: Leg) {
    leg.leagueId in TOP_LEAGUES
  }

  predicate IsOther(leg: Leg) {
    !IsTop(leg)
  }

  /** `leagueWeight` */
  function LeagueWeight(leg: Leg): (r: real)
    ensures r == TOP_WEIGHT <==> IsTop(leg)
    ensures r == 1.0 <==> !IsTop(leg)
  {
    if IsTop(leg) then TOP_WEIGHT else 1.0
  }

  /** The two filters, in source order. */
  function Eligible(legs: seq<Leg>): (r: seq<Leg>)
    ensures forall i :: 0 <= i < |r| ==> WithinOddsRange(r[i]) && HasStats(r[i]) && r[i] in legs
    ensures forall i :: 0 <= i < |legs| && WithinOddsRange(legs[i]) && HasStats(legs[i]) ==> legs[i] in r
  {
    FilterMembers(WithinOddsRange, legs);
    FilterMembers(HasStats, Filter(WithinOddsRange, legs));
    EligibleKeepsAll(legs);
    Filter(HasStats, Filter(WithinOddsRange, legs))
  }

  /** A leg that passes both filters survives them. */
  lemma EligibleKeepsAll(legs: seq<Leg>)
    ensures forall i :: 0 <= i < |legs| && WithinOddsRange(legs[i]) && HasStats(legs[i]) ==>
      legs[i] in Filter(HasStats, Filter(WithinOddsRange, legs))
  {
    var ranged := Filter(WithinOddsRange, legs);
    FilterMembers(WithinOddsRange, legs);
    FilterMembers(HasStats, ranged);
    forall i | 0 <= i < |legs| && WithinOddsRange(legs[i]) && HasStats(legs[i])
      ensures legs[i] in Filter(HasStats, ranged)
    {
      var j :| 0 <= j < |ranged| && ranged[j] == legs[i];
      assert HasStats(ranged[j]);
    }
  }

  /** Non-increasing league weight. */
  ghost predicate SortedByWeight(legs: seq<Leg>) {
    forall i, j :: 0 <= i < j < |legs| ==> LeagueWeight(legs[i]) >= LeagueWeight(legs[j])
  }

  /**
   `sort((a, b) => leagueWeight(b) - leagueWeight(a))`. The comparator only
   separates two weight classes and the sort is stable, so the result is the
   top-league legs followed by the others, each class in input order.
   */
  function SortByWeight(legs: seq<Leg>): (r: seq<Leg>)
    ensures SortedByWeight(r)
    ensures multiset(r) == multiset(legs)
    ensures Filter(IsTop, r) == Filter(IsTop, legs)
    ensures Filter(IsOther, r) == Filter(IsOther, legs)
  {
    var tops, others := Filter(IsTop, legs), Filter(IsOther, legs);
    FilterPartition(IsTop, IsOther, legs);
    FilterAppend(IsTop, tops, others);
    FilterAppend(IsOther, tops, others);
    FilterAll(IsTop, tops);
    FilterNone(IsTop, others);
    FilterAll(IsOther, others);
    FilterNone(IsOther, tops);
    tops + others
  }

  /** A sequence sorted by weight is its top-league legs followed by its other legs. */
  lemma {:induction false} SortedSplits(ys: seq<Leg>)
    requires SortedByWeight(ys)
    ensures ys == Filter(IsTop, ys) + Filter(IsOther, ys)
  {
    if |ys| > 0 {
      var t := ys[1..];
      assert SortedByWeight(t) by {
        forall i, j | 0 <= i < j < |t|
          ensures LeagueWeight(t[i]) >= LeagueWeight(t[j])
        {
          assert t[i] == ys[i + 1] && t[j] == ys[j + 1];
        }
      }
      SortedSplits(t);
      var tops, others := Filter(IsTop, t), Filter(IsOther, t);
      assert ys == [ys[0]] + t;
      if IsTop(ys[0]) {
        assert Filter(IsTop, ys) == [ys[0]] + tops;
        assert Filter(IsOther, ys) == others;
        Associate([ys[0]], tops, others);
      } else {
        forall i | 0 <= i < |t|
          ensures !IsTop(t[i])
        {
          assert LeagueWeight(ys[0]) >= LeagueWeight(ys[i + 1]);
        }
        FilterNone(IsTop, t);
        assert Filter(IsTop, ys) == [];
        assert Filter(IsOther, ys) == [ys[0]] + others;
      }
    }
  }

  /**
   The stable sort is unique: any arrangement that is sorted by weight and keeps
   the input order inside each weight class is exactly SortByWeight.
   */
  lemma StableSortUnique(xs: seq<Leg>, ys: seq<Leg>)
    requires SortedByWeight(ys)
    requires Filter(IsTop, ys) == Filter(IsTop, xs)
    requires Filter(IsOther, ys) == Filter(IsOther, xs)
    ensures ys == SortByWeight(xs)
  {
    SortedSplits(ys);
  }

  /** The diversification key: `leg.meta?.family || leg.market`. */
  function FamilyKey(leg: Leg): (r: string)
    ensures leg.meta.family != "" ==> r == leg.meta.family
    ensures leg.meta.family == "" ==> r == leg.market
  {
    if leg.meta.family != "" then leg.meta.family else leg.market
  }

  /** How many legs of s share the family key. */
  function FamilyCount(s: seq<Leg>, key: string): nat
  {
    if |s| == 0 then 0
    else FamilyCount(s[..|s| - 1], key) + (if FamilyKey(s[|s| - 1]) == key then 1 else 0)
  }

  /** How many legs of s belong to the league. */
  function LeagueCount(s: seq<Leg>, league: int): nat
  {
    if |s| == 0 then 0
    else LeagueCount(s[..|s| - 1], league) + (if s[|s| - 1].leagueId == league then 1 else 0)
  }

  lemma CountsAppend(s: seq<Leg>, leg: Leg)
    ensures forall key :: FamilyCount(s + [leg], key) == FamilyCount(s, key) + (if FamilyKey(leg) == key then 1 else 0)
    ensures forall league :: LeagueCount(s + [leg], league) == LeagueCount(s, league) + (if leg.leagueId == league then 1 else 0)
  {
    forall key
      ensures FamilyCount(s + [leg], key) == FamilyCount(s, key) + (if FamilyKey(leg) == key then 1 else 0)
    {
      FamilyAppend(s, leg, key);
    }
    forall league
      ensures LeagueCount(s + [leg], league) == LeagueCount(s, league) + (if leg.leagueId == league then 1 else 0)
    {
      LeagueAppend(s, leg, league);
    }
  }

  lemma FamilyAppend(s: seq<Leg>, leg: Leg, key: string)
    ensures FamilyCount(s + [leg], key) == FamilyCount(s, key) + (if FamilyKey(leg) == key then 1 else 0)
  {
    assert (s + [leg])[..|s + [leg]| - 1] == s;
  }

  lemma LeagueAppend(s: seq<Leg>, leg: Leg, league: int)
    ensures LeagueCount(s + [leg], league) == LeagueCount(s, league) + (if leg.leagueId == league then 1 else 0)
  {
    assert (s + [leg])[..|s + [leg]| - 1] == s;
  }

  /** The greedy test: both the leg's family and its league are still below the cap. */
  predicate Admits(kept: seq<Leg>, leg: Leg) {
    FamilyCount(kept, FamilyKey(leg)) < CAP && LeagueCount(kept, leg.leagueId) < CAP
  }

  /** Reference definition of the greedy pass: scan left to right, keep a leg iff the kept ones admit it. */
  function Capped(legs: seq<Leg>): seq<Leg>
  {
    if |legs| == 0 then []
    else
      var kept := Capped(legs[..|legs| - 1]);
      var leg := legs[|legs| - 1];
      if Admits(kept, leg) then kept + [leg] else kept
  }

  /** The counters never pass the cap. */
  lemma CappedWithinCaps(legs: seq<Leg>)
    ensures forall key :: FamilyCount(Capped(legs), key) <= CAP
    ensures forall league :: LeagueCount(Capped(legs), league) <= CAP
  {
    forall key
      ensures FamilyCount(Capped(legs), key) <= CAP
    {
      CappedFamilyWithin(legs, key);
    }
    forall league
      ensures LeagueCount(Capped(legs), league) <= CAP
    {
      CappedLeagueWithin(legs, league);
    }
  }

  lemma {:induction false} CappedFamilyWithin(legs: seq<Leg>, key: string)
    ensures FamilyCount(Capped(legs), key) <= CAP
  {
    if |legs| > 0 {
      var kept, leg := Capped(legs[..|legs| - 1]), legs[|legs| - 1];
      CappedFamilyWithin(legs[..|legs| - 1], key);
      if Admits(kept, leg) {
        FamilyAppend(kept, leg, key);
      }
    }
  }

  lemma {:induction false} CappedLeagueWithin(legs: seq<Leg>, league: int)
    ensures LeagueCount(Capped(legs), league) <= CAP
  {
    if |legs| > 0 {
      var kept, leg := Capped(legs[..|legs| - 1]), legs[|legs| - 1];
      CappedLeagueWithin(legs[..|legs| - 1], league);
      if Admits(kept, leg) {
        LeagueAppend(kept, leg, league);
      }
    }
  }

  /** The greedy pass only deletes legs. */
  lemma {:induction false} CappedSubseq(legs: seq<Leg>)
    ensures IsSubseq(Capped(legs), legs)
  {
    if |legs| > 0 {
      var init := legs[..|legs| - 1];
      var leg := legs[|legs| - 1];
      CappedSubseq(init);
      assert legs == init + [leg];
      if !Admits(Capped(init), leg) {
        SubseqExtend(Capped(init), init, leg);
      } else {
        var out := Capped(init) + [leg];
        assert out[..|out| - 1] == Capped(init);
      }
    }
  }

  /** The kept legs of a prefix are a prefix of the kept legs: decisions are never revised. */
  lemma {:induction false} CappedPrefix(legs: seq<Leg>, n: nat)
    requires n <= |legs|
    ensures Capped(legs[..n]) <= Capped(legs)
    decreases |legs| - n
  {
    if n < |legs| {
      var init := legs[..|legs| - 1];
      assert init[..n] == legs[..n];
      CappedPrefix(init, n);
    } else {
      assert legs[..n] == legs;
    }
  }

  lemma CountsMonotone(a: seq<Leg>, b: seq<Leg>)
    requires a <= b
    ensures forall key :: FamilyCount(a, key) <= FamilyCount(b, key)
    ensures forall league :: LeagueCount(a, league) <= LeagueCount(b, league)
  {
    forall key
      ensures FamilyCount(a, key) <= FamilyCount(b, key)
    {
      FamilyMonotone(a, b, key);
    }
    forall league
      ensures LeagueCount(a, league) <= LeagueCount(b, league)
    {
      LeagueMonotone(a, b, league);
    }
  }

  lemma {:induction false} FamilyMonotone(a: seq<Leg>, b: seq<Leg>, key: string)
    requires a <= b
    ensures FamilyCount(a, key) <= FamilyCount(b, key)
    decreases |b|
  {
    if |a| < |b| {
      var init := b[..|b| - 1];
      assert a <= init;
      FamilyMonotone(a, init, key);
    } else {
      assert a == b;
    }
  }

  lemma {:induction false} LeagueMonotone(a: seq<Leg>, b: seq<Leg>, league: int)
    requires a <= b
    ensures LeagueCount(a, league) <= LeagueCount(b, league)
    decreases |b|
  {
    if |a| < |b| {
      var init := b[..|b| - 1];
      assert a <= init;
      LeagueMonotone(a, init, league);
    } else {
      assert a == b;
    }
  }

  /** A leg admitted when its turn comes is in the final output. */
  lemma CappedKeepsAdmitted(legs: seq<Leg>, i: nat)
    requires i < |legs| && Admits(Capped(legs[..i]), legs[i])
    ensures legs[i] in Capped(legs)
  {
    assert legs[..i + 1][..i] == legs[..i];
    var upto := Capped(legs[..i + 1]);
    assert upto[|upto| - 1] == legs[i];
    CappedPrefix(legs, i + 1);
    assert Capped(legs)[|upto| - 1] == legs[i];
  }

  /**
   Greedy maximality: a leg the pass leaves out finds its family or its league
   already at the cap in the output.
   */
  lemma CappedMaximal(legs: seq<Leg>, i: nat)
    requires i < |legs|
    requires legs[i] !in Capped(legs)
    ensures FamilyCount(Capped(legs), FamilyKey(legs[i])) == CAP
         || LeagueCount(Capped(legs), legs[i].leagueId) == CAP
  {
    var before := Capped(legs[..i]);
    if Admits(before, legs[i]) {
      CappedKeepsAdmitted(legs, i);
    }
    CappedPrefix(legs, i);
    CountsMonotone(before, Capped(legs));
    CappedWithinCaps(legs);
  }

  /** `counter.get(k) || 0` on a Map of counts. */
  function Counter<K>(counter: map<K, nat>, k: K): (r: nat)
    ensures k !in counter ==> r == 0
    ensures k in counter ==> r == counter[k]
  {
    if k in counter then counter[k] else 0
  }

  /** The counter maps hold the counts of the kept legs. */
  ghost predicate Tracks(families: map<string, nat>, leagues: map<int, nat>, kept: seq<Leg>) {
    && (forall key :: Counter(families, key) == FamilyCount(kept, key))
    && (forall league :: Counter(leagues, league) == LeagueCount(kept, league))
  }

  /** Bumping both counters of a kept leg keeps the maps in step. */
  lemma TracksAppend(families: map<string, nat>, leagues: map<int, nat>, kept: seq<Leg>, leg: Leg)
    requires Tracks(families, leagues, kept)
    ensures Tracks(families[FamilyKey(leg) := Counter(families, FamilyKey(leg)) + 1],
                   leagues[leg.leagueId := Counter(leagues, leg.leagueId) + 1], kept + [leg])
  {
    CountsAppend(kept, leg);
    var families', leagues' := families[FamilyKey(leg) := Counter(families, FamilyKey(leg)) + 1],
                               leagues[leg.leagueId := Counter(leagues, leg.leagueId) + 1];
    assert forall key :: Counter(families', key) == FamilyCount(kept + [leg], key) by {
      forall key
        ensures Counter(families', key) == FamilyCount(kept + [leg], key)
      {
        FamilyAppend(kept, leg, key);
      }
    }
    assert forall league :: Counter(leagues', league) == LeagueCount(kept + [leg], league) by {
      forall league
        ensures Counter(leagues', league) == LeagueCount(kept + [leg], league)
      {
        LeagueAppend(kept, leg, league);
      }
    }
  }

  /** One step of the reference pass, read off the counter maps. */
  lemma CappedStep(legs: seq<Leg>, i: nat, families: map<string, nat>, leagues: map<int, nat>)
    requires i < |legs|
    requires Tracks(families, leagues, Capped(legs[..i]))
    ensures var leg, kept := legs[i], Capped(legs[..i]);
      Capped(legs[..i + 1]) ==
        if Counter(families, FamilyKey(leg)) < CAP && Counter(leagues, leg.leagueId) < CAP
        then kept + [leg] else kept
  {
    assert legs[..i + 1][..i] == legs[..i];
  }

  /** The filter callback: reject at a full family, then at a full league, else count the leg and keep it. */
  method Admit(leg: Leg, families: map<string, nat>, leagues: map<int, nat>)
    returns (keep: bool, families': map<string, nat>, leagues': map<int, nat>)
    ensures keep <==> Counter(families, FamilyKey(leg)) < CAP && Counter(leagues, leg.leagueId) < CAP
    ensures keep ==> families' == families[FamilyKey(leg) := Counter(families, FamilyKey(leg)) + 1]
    ensures keep ==> leagues' == leagues[leg.leagueId := Counter(leagues, leg.leagueId) + 1]
    ensures !keep ==> families' == families && leagues' == leagues
  {
    families', leagues' := families, leagues;
    var family := FamilyKey(leg);
    var familyCount := Counter(families, family);
    if familyCount >= CAP {
      return false, families', leagues';
    }
    var leagueCount := Counter(leagues, leg.leagueId);
    if leagueCount >= CAP {
      return false, families', leagues';
    }
    families' := families[family := familyCount + 1];
    leagues' := leagues[leg.leagueId := leagueCount + 1];
    keep := true;
  }

  /** After i legs, the pass has kept what the reference keeps and its maps count the kept legs. */
  ghost predicate CapsInvariant(legs: seq<Leg>, i: nat, kept: seq<Leg>, families: map<string, nat>, leagues: map<int, nat>) {
    i <= |legs| && kept == Capped(legs[..i]) && Tracks(families, leagues, kept)
  }

  /** One call of the filter callback keeps the invariant. */
  lemma CapsStep(legs: seq<Leg>, i: nat, kept: seq<Leg>, families: map<string, nat>, leagues: map<int, nat>,
                 keep: bool, families': map<string, nat>, leagues': map<int, nat>)
    requires i < |legs| && CapsInvariant(legs, i, kept, families, leagues)
    requires keep <==> Counter(families, FamilyKey(legs[i])) < CAP && Counter(leagues, legs[i].leagueId) < CAP
    requires keep ==> families' == families[FamilyKey(legs[i]) := Counter(families, FamilyKey(legs[i])) + 1]
    requires keep ==> leagues' == leagues[legs[i].leagueId := Counter(leagues, legs[i].leagueId) + 1]
    requires !keep ==> families' == families && leagues' == leagues
    ensures CapsInvariant(legs, i + 1, if keep then kept + [legs[i]] else kept, families', leagues')
  {
    CappedStep(legs, i, families, leagues);
    if keep {
      TracksAppend(families, leagues, kept, legs[i]);
    }
  }

  /** The source's pass, with the two counter maps of the original. */
  method ApplyCaps(legs: seq<Leg>) returns (kept: seq<Leg>)
    ensures kept == Capped(legs)
    ensures forall key :: FamilyCount(kept, key) <= CAP
    ensures forall league :: LeagueCount(kept, league) <= CAP
  {
    var families: map<string, nat> := map[];
    var leagues: map<int, nat> := map[];
    kept := [];
    var i := 0;
    while i < |legs|
      invariant CapsInvariant(legs, i, kept, families, leagues)
    {
      var keep, families', leagues' := Admit(legs[i], families, leagues);
      CapsStep(legs, i, kept, families, leagues, keep, families', leagues');
      families, leagues := families', leagues';
      if keep {
        kept := kept + [legs[i]];
      }
      i := i + 1;
    }
    CapsDone(legs, i, kept, families, leagues);
  }

  lemma CapsDone(legs: seq<Leg>, i: nat, kept: seq<Leg>, families: map<string, nat>, leagues: map<int, nat>)
    requires CapsInvariant(legs, i, kept, families, leagues) && i >= |legs|
    ensures kept == Capped(legs)
    ensures forall key :: FamilyCount(kept, key) <= CAP
    ensures forall league :: LeagueCount(kept, league) <= CAP
  {
    assert legs[..i] == legs;
    CappedWithinCaps(legs);
  }

  /** `{ ...leg, meta: { ...leg.meta, leagueWeight: leagueWeight(leg) } }` */
  function AttachWeight(leg: Leg): (r: Leg)
    ensures r.meta.leagueWeight == LeagueWeight(leg)
    ensures r.(meta := leg.meta) == leg
    ensures r.meta.(leagueWeight := leg.meta.leagueWeight) == leg.meta
  {
    leg.(meta := leg.meta.(leagueWeight := LeagueWeight(leg)))
  }

  function Weighted(legs: seq<Leg>): (r: seq<Leg>)
    ensures |r| == |legs|
    ensures forall i :: 0 <= i < |r| ==> r[i] == AttachWeight(legs[i])
  {
    seq(|legs|, i requires 0 <= i < |legs| => AttachWeight(legs[i]))
  }

  lemma WeightedSubseq(a: seq<Leg>, b: seq<Leg>)
    requires IsSubseq(a, b)
    ensures IsSubseq(Weighted(a), Weighted(b))
  {
    MapSubseq(AttachWeight, a, b);
    assert Weighted(a) == Map(AttachWeight, a);
    assert Weighted(b) == Map(AttachWeight, b);
  }

  /** `applyRules(legs)` */
  function ApplyRules(legs: seq<Leg>): (r: seq<Leg>)
    ensures forall i :: 0 <= i < |r| ==> WithinOddsRange(r[i]) && HasStats(r[i])
    ensures forall i :: 0 <= i < |r| ==> r[i].meta.leagueWeight == LeagueWeight(r[i])
    ensures SortedByWeight(r)
    ensures forall key :: FamilyCount(r, key) <= CAP
    ensures forall league :: LeagueCount(r, league) <= CAP
    ensures IsSubseq(r, Weighted(SortByWeight(Eligible(legs))))
    ensures |r| <= |legs|
  {
    ApplyRulesFacts(legs);
    Weighted(Capped(SortByWeight(Eligible(legs))))
  }

  lemma ApplyRulesFacts(legs: seq<Leg>)
    ensures var r := Weighted(Capped(SortByWeight(Eligible(legs))));
      && (forall i :: 0 <= i < |r| ==> WithinOddsRange(r[i]) && HasStats(r[i]))
      && SortedByWeight(r)
      && (forall key :: FamilyCount(r, key) <= CAP)
      && (forall league :: LeagueCount(r, league) <= CAP)
      && IsSubseq(r, Weighted(SortByWeight(Eligible(legs))))
      && |r| <= |legs|
  {
    var sorted := SortByWeight(Eligible(legs));
    var kept := Capped(sorted);
    CappedSubseq(sorted);
    CappedWithinCaps(sorted);
    WeightedCounts(kept);
    WeightedSubseq(kept, sorted);
    SubseqSorted(kept, sorted);
    KeptAreEligible(legs);
  }

  /** Capping the sorted eligible legs keeps only legs that passed both filters. */
  lemma KeptAreEligible(legs: seq<Leg>)
    ensures var kept := Capped(SortByWeight(Eligible(legs)));
      && (forall i :: 0 <= i < |kept| ==> WithinOddsRange(kept[i]) && HasStats(kept[i]))
      && |kept| <= |legs|
  {
    var eligible := Eligible(legs);
    var sorted := SortByWeight(eligible);
    var kept := Capped(sorted);
    CappedSubseq(sorted);
    SubseqElements(kept, sorted);
    assert |sorted| == |eligible| by {
      assert |multiset(sorted)| == |multiset(eligible)|;
    }
    forall i | 0 <= i < |kept|
      ensures WithinOddsRange(kept[i]) && HasStats(kept[i])
    {
      assert kept[i] in sorted;
      assert kept[i] in multiset(eligible);
    }
  }

  /** A subsequence of a weight-sorted sequence is weight-sorted. */
  lemma {:induction false} SubseqSorted(a: seq<Leg>, b: seq<Leg>)
    requires IsSubseq(a, b) && SortedByWeight(b)
    ensures SortedByWeight(Weighted(a))
    decreases |b|
  {
    if |a| > 0 {
      var ai, bi := a[..|a| - 1], b[..|b| - 1];
      assert SortedByWeight(bi);
      if a[|a| - 1] == b[|b| - 1] {
        SubseqSorted(ai, bi);
        SubseqElements(ai, bi);
        forall i | 0 <= i < |ai|
          ensures LeagueWeight(ai[i]) >= LeagueWeight(a[|a| - 1])
        {
          assert ai[i] in ai;
          assert ai[i] in bi;
        }
      } else {
        SubseqSorted(a, bi);
      }
      assert Weighted(a) == Weighted(ai) + [AttachWeight(a[|a| - 1])];
    }
  }

  lemma {:induction false} WeightedCounts(s: seq<Leg>)
    ensures forall key :: FamilyCount(Weighted(s), key) == FamilyCount(s, key)
    ensures forall league :: LeagueCount(Weighted(s), league) == LeagueCount(s, league)
  {
    if |s| > 0 {
      var init := s[..|s| - 1];
      WeightedCounts(init);
      assert Weighted(s)[..|s| - 1] == Weighted(init);
    }
  }

  /** Every output leg is an input leg that passed both filters, with only its league weight set. */
  lemma ApplyRulesProvenance(legs: seq<Leg>, i: nat)
    requires i < |ApplyRules(legs)|
    ensures exists x :: x in legs && WithinOddsRange(x) && HasStats(x) && ApplyRules(legs)[i] == AttachWeight(x)
  {
    var r := ApplyRules(legs);
    var sorted := SortByWeight(Eligible(legs));
    var w := Weighted(sorted);
    SubseqElements(r, w);
    assert r[i] in w;
    var j :| 0 <= j < |w| && w[j] == r[i];
    var x := sorted[j];
    assert x in multiset(Eligible(legs));
    assert x in Eligible(legs);
  }
}
