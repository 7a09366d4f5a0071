/**
 `mixAndRank` (core/mixer/mixerEngine.js): rule filtering, scoring with the
 built-in signal bundle, up to sixty three-leg combinations, ticket scoring and
 the top three by average confidence.
 */
module Mixer {
  import opened JsValues
  import opened Legs
  import opened Seqs
  import opened RuleEngine
  import opened MetaModel
  import opened Combinations
  import opened Tickets

  /** How many combinations mixAndRank asks for. */
  const TARGET_COMBOS: int := 60

  /** The signal bundle mixAndRank passes to the scorer: two signals scale with the league weight. */
  function ReferenceSignals(leg: Leg): (r: Signals)
    ensures r.form == Some(leg.meta.leagueWeight * 10.0) && r.xG == Some(leg.meta.leagueWeight * 8.0)
    ensures r.shots == Some(5.0) && r.momentum == Some(6.0) && r.h2h == Some(4.0)
  {
    Signals(Some(leg.meta.leagueWeight * 10.0), Some(leg.meta.leagueWeight * 8.0), Some(5.0), Some(6.0), Some(4.0))
  }

  /**
   With the built-in signals, a leg that clears the minimum odd with a league
   weight of at most 1.25 scores at most round(52 + 8.53) = 61.
   */
  lemma ReferenceScoreCeiling(leg: Leg)
    requires leg.odd >= MIN_ODD
    requires 0.0 <= leg.meta.leagueWeight <= TOP_WEIGHT
    ensures ScoreLeg(leg, ReferenceSignals(leg)).confidence <= 61
  {
    var s := ReferenceSignals(leg);
    var w := EffectiveWeight(leg);
    assert Base(leg.odd) <= 52.0;
    assert Boost(s, w) <= 8.53;
    RoundMonotone(Min(100.0, Base(leg.odd) + Boost(s, w)), 60.53);
    RoundUnique(60.53, 61);
  }

  /** No rule-filtered leg survives the threshold of 62 under the built-in signals. */
  lemma NoLegSurvives(legs: seq<Leg>)
    ensures ScoreLegs(ApplyRules(legs), ReferenceSignals) == []
  {
    var filtered := ApplyRules(legs);
    var scored := ScoreAll(filtered, ReferenceSignals);
    forall i | 0 <= i < |scored|
      ensures !Retained(scored[i])
    {
      assert filtered[i].meta.leagueWeight == LeagueWeight(filtered[i]);
      ReferenceScoreCeiling(filtered[i]);
    }
    FilterNone(Retained, scored);
  }

  /** `combos.map((combo) => scoreTicket(combo))`, ids supplied by the caller. */
  function ScoreTickets(combos: seq<seq<Leg>>, ids: nat -> string): (r: seq<Ticket>)
    ensures |r| == |combos|
    ensures forall m :: 0 <= m < |r| ==> r[m] == ScoreTicket(ids(m), combos[m])
  {
    seq(|combos|, m requires 0 <= m < |combos| => ScoreTicket(ids(m), combos[m]))
  }

  /** A ticket's legs are three legs of `scored` at increasing positions. */
  ghost predicate DrawnFrom(t: Ticket, scored: seq<Leg>) {
    exists i, j, k :: 0 <= i < j < k < |scored| && t.legs == [scored[i], scored[j], scored[k]]
  }

  /** Every ticket has three legs drawn from `scored`. */
  ghost predicate ThreeLegsDrawn(ts: seq<Ticket>, scored: seq<Leg>) {
    forall m :: 0 <= m < |ts| ==> ts[m].legCount == 3 && DrawnFrom(ts[m], scored)
  }

  /** Tickets picked out of drawn tickets are drawn. */
  lemma DrawnSubset(sub: seq<Ticket>, ts: seq<Ticket>, scored: seq<Leg>)
    requires forall m :: 0 <= m < |sub| ==> sub[m] in ts
    requires ThreeLegsDrawn(ts, scored)
    ensures ThreeLegsDrawn(sub, scored)
  {
    forall m | 0 <= m < |sub|
      ensures sub[m].legCount == 3 && DrawnFrom(sub[m], scored)
    {
      var p :| 0 <= p < |ts| && ts[p] == sub[m];
    }
  }

  /** Every ticket scored from the generator's combinations has three legs drawn from `scored`. */
  lemma AllDrawn(scored: seq<Leg>, combos: seq<seq<Leg>>, ids: nat -> string)
    requires InRange(Take(Triples(|scored|), TARGET_COMBOS), |scored|)
    requires combos == Pick(scored, Take(Triples(|scored|), TARGET_COMBOS))
    ensures ThreeLegsDrawn(ScoreTickets(combos, ids), scored)
  {
    var chosen := Take(Triples(|scored|), TARGET_COMBOS);
    TriplesShape(|scored|);
    forall p | 0 <= p < |ScoreTickets(combos, ids)|
      ensures ScoreTickets(combos, ids)[p].legCount == 3 && DrawnFrom(ScoreTickets(combos, ids)[p], scored)
    {
      var t := chosen[p];
      assert t == Triples(|scored|)[p];
      assert ScoreTickets(combos, ids)[p].legs == [scored[t.i], scored[t.j], scored[t.k]];
    }
  }

  /**
   What the mixing stage returns for the scored legs: the first 60 lexicographic
   index triples, picked, scored, stably sorted by average confidence, top three.
   */
  function Ranked(scored: seq<Leg>, ids: nat -> string): seq<Ticket> {
    TriplesShape(|scored|);
    RankTickets(ScoreTickets(Pick(scored, Take(Triples(|scored|), TARGET_COMBOS)), ids))
  }

  /** The mixing stage after scoring: combine, score every ticket, sort, keep three. */
  method Mix(scored: seq<Leg>, ids: nat -> string) returns (tickets: seq<Ticket>)
    ensures |tickets| == if |Triples(|scored|)| < 3 then |Triples(|scored|)| else 3
    ensures SortedDesc(tickets)
    ensures ThreeLegsDrawn(tickets, scored)
    ensures InRange(Take(Triples(|scored|), TARGET_COMBOS), |scored|)
    ensures tickets == Ranked(scored, ids)
  {
    var combos := GenerateCombinations(scored, TARGET_COMBOS, 3);
    var all := ScoreTickets(combos, ids);
    tickets := RankTickets(all);
    AllDrawn(scored, combos, ids);
    DrawnSubset(tickets, all, scored);
  }

  /** `mixAndRank(legs)` with an arbitrary signal provider in place of the built-in one. */
  method MixAndRankWith(legs: seq<Leg>, provider: Leg -> Signals, ids: nat -> string) returns (tickets: seq<Ticket>)
    ensures |tickets| <= 3
    ensures SortedDesc(tickets)
    ensures forall m :: 0 <= m < |tickets| ==> DrawnFrom(tickets[m], ScoreLegs(ApplyRules(legs), provider))
    ensures |ScoreLegs(ApplyRules(legs), provider)| < 3 <==> tickets == []
    ensures var scored := ScoreLegs(ApplyRules(legs), provider);
      && InRange(Take(Triples(|scored|), TARGET_COMBOS), |scored|)
      && tickets == Ranked(scored, ids)
  {
    var filtered := ApplyRules(legs);
    var scored := ScoreLegs(filtered, provider);
    tickets := Mix(scored, ids);
    TriplesEmptyIff(|scored|);
  }

  /**
   `mixAndRank(legs)` as shipped: under the built-in signals nothing clears the
   threshold, so the result is always empty.
   */
  method MixAndRank(legs: seq<Leg>, ids: nat -> string) returns (tickets: seq<Ticket>)
    ensures tickets == []
  {
    tickets := MixAndRankWith(legs, ReferenceSignals, ids);
    NoLegSurvives(legs);
  }
}
