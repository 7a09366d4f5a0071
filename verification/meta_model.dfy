/**
 The heuristic scorer (core/ai/metaModel.js): a clamped base derived from the
 odd, plus weighted signals and the league weight, capped at 100 and rounded;
 risk flags for high odds and low confidence; and a threshold filter at 62.
 */
module MetaModel {
  import opened JsValues
  import opened Legs
  import opened Seqs

  const THRESHOLD: int := 62
  /** Odds strictly above this carry HIGH_ODD. */
  const HIGH_ODD_LIMIT: real := 1.4

  /** The signal bundle; an absent signal (or a falsy one) counts as 0. */
  datatype Signals = Signals(form: Option<real>, xG: Option<real>, shots: Option<real>, momentum: Option<real>, h2h: Option<real>)

  /** The default provider's bundle `{}`. */
  const NO_SIGNALS: Signals := Signals(None, None, None, None, None)

  predicate NonNegative(x: Option<real>) {
    x.None? || x.value >= 0.0
  }

  predicate AllNonNegative(s: Signals) {
    NonNegative(s.form) && NonNegative(s.xG) && NonNegative(s.shots) && NonNegative(s.momentum) && NonNegative(s.h2h)
  }

  /** `Math.min(Math.max((1.6 - odd) * 100, 30), 85)` */
  function Base(odd: real): (r: real)
    ensures 30.0 <= r <= 85.0
    ensures 30.0 <= (1.6 - odd) * 100.0 <= 85.0 ==> r == (1.6 - odd) * 100.0
    ensures (1.6 - odd) * 100.0 < 30.0 ==> r == 30.0
    ensures (1.6 - odd) * 100.0 > 85.0 ==> r == 85.0
  {
    Min(Max((1.6 - odd) * 100.0, 30.0), 85.0)
  }

  /** A higher odd never gives a higher base. */
  lemma BaseAntitone(odd1: real, odd2: real)
    requires odd1 <= odd2
    ensures Base(odd2) <= Base(odd1)
  {
  }

  /** `leg.meta?.leagueWeight || 1` */
  function EffectiveWeight(leg: Leg): (r: real)
    ensures leg.meta.leagueWeight != 0.0 ==> r == leg.meta.leagueWeight
    ensures leg.meta.leagueWeight == 0.0 ==> r == 1.0
  {
    OrElse(Some(leg.meta.leagueWeight), 1.0)
  }

  /** Everything added to the base: the weighted signals and five times the league weight. */
  function Boost(s: Signals, weight: real): (r: real)
    ensures AllNonNegative(s) && weight >= 0.0 ==> r >= 0.0
  {
    OrElse(s.form, 0.0) * 0.1 + OrElse(s.xG, 0.0) * 0.05 + OrElse(s.shots, 0.0) * 0.03
    + OrElse(s.momentum, 0.0) * 0.05 + OrElse(s.h2h, 0.0) * 0.02 + weight * 5.0
  }

  /** `Math.round(Math.min(100, base + ...))` */
  function Confidence(leg: Leg, s: Signals): (r: int)
    ensures r <= 100
    ensures AllNonNegative(s) && EffectiveWeight(leg) >= 0.0 ==> r >= 30
  {
    var raw := Min(100.0, Base(leg.odd) + Boost(s, EffectiveWeight(leg)));
    CappedRoundRange(raw);
    Round(raw)
  }

  lemma CappedRoundRange(raw: real)
    requires raw <= 100.0
    ensures Round(raw) <= 100
    ensures raw >= 30.0 ==> Round(raw) >= 30
  {
    RoundMonotone(raw, 100.0);
    RoundUnique(100.0, 100);
    if raw >= 30.0 {
      RoundBetween(raw, 30, 100);
    }
  }

  /** HIGH_ODD first, then LOW_CONFIDENCE, each present only when its condition holds. */
  function RiskFlags(odd: real, confidence: int): (r: seq<RiskFlag>)
    ensures HighOdd in r <==> odd > HIGH_ODD_LIMIT
    ensures LowConfidence in r <==> confidence < THRESHOLD
    ensures |r| <= 2
  {
    (if odd > HIGH_ODD_LIMIT then [HighOdd] else []) + (if confidence < THRESHOLD then [LowConfidence] else [])
  }

  /** `scoreLeg(leg, signals)`, without the free-text reason. */
  function ScoreLeg(leg: Leg, s: Signals): (r: Leg)
    ensures r.confidence <= 100
    ensures AllNonNegative(s) && EffectiveWeight(leg) >= 0.0 ==> r.confidence >= 30
    ensures HighOdd in r.riskFlags <==> leg.odd > HIGH_ODD_LIMIT
    ensures LowConfidence in r.riskFlags <==> r.confidence < THRESHOLD
    ensures r.(confidence := leg.confidence, riskFlags := leg.riskFlags) == leg
  {
    var confidence := Confidence(leg, s);
    leg.(confidence := confidence, riskFlags := RiskFlags(leg.odd, confidence))
  }

  /** With signals and weight fixed, a higher odd never scores higher. */
  lemma ScoreAntitoneInOdd(leg: Leg, s: Signals, odd1: real, odd2: real)
    requires odd1 <= odd2
    ensures ScoreLeg(leg.(odd := odd2), s).confidence <= ScoreLeg(leg.(odd := odd1), s).confidence
  {
    BaseAntitone(odd1, odd2);
    var w := EffectiveWeight(leg);
    assert EffectiveWeight(leg.(odd := odd1)) == w && EffectiveWeight(leg.(odd := odd2)) == w;
    RoundMonotone(Min(100.0, Base(odd2) + Boost(s, w)), Min(100.0, Base(odd1) + Boost(s, w)));
  }

  /** odd 1.1, no signals, weight 1: base 50, confidence 55, so LOW_CONFIDENCE and no HIGH_ODD. */
  lemma ExampleLowOdd(leg: Leg)
    requires leg.odd == 1.1 && leg.meta.leagueWeight == 1.0
    ensures ScoreLeg(leg, NO_SIGNALS).confidence == 55
    ensures ScoreLeg(leg, NO_SIGNALS).riskFlags == [LowConfidence]
  {
    assert Base(1.1) == 50.0;
    RoundUnique(55.0, 55);
  }

  /** odd 1.2, no signals, weight 1.25: base 40, confidence round(46.25) = 46. */
  lemma ExampleTopLeague(leg: Leg)
    requires leg.odd == 1.2 && leg.meta.leagueWeight == 1.25
    ensures ScoreLeg(leg, NO_SIGNALS).confidence == 46
  {
    assert Base(1.2) == 40.0;
    RoundUnique(46.25, 46);
  }

  /** The post-filter as written: the threshold and the absence of LOW_CONFIDENCE. */
  predicate Retained(leg: Leg) {
    leg.confidence >= THRESHOLD && LowConfidence !in leg.riskFlags
  }

  predicate AtThreshold(leg: Leg) {
    leg.confidence >= THRESHOLD
  }

  function ScoreAll(legs: seq<Leg>, provider: Leg -> Signals): (r: seq<Leg>)
    ensures |r| == |legs|
    ensures forall i :: 0 <= i < |r| ==> r[i] == ScoreLeg(legs[i], provider(legs[i]))
  {
    seq(|legs|, i requires 0 <= i < |legs| => ScoreLeg(legs[i], provider(legs[i])))
  }

  /** `scoreLegs(legs, signalProvider)` */
  function ScoreLegs(legs: seq<Leg>, provider: Leg -> Signals): (r: seq<Leg>)
    ensures |r| <= |legs|
    ensures forall i :: 0 <= i < |r| ==> r[i].confidence >= THRESHOLD && LowConfidence !in r[i].riskFlags
    ensures forall i :: 0 <= i < |r| ==> r[i] in ScoreAll(legs, provider)
    ensures forall i :: 0 <= i < |legs| && ScoreLeg(legs[i], provider(legs[i])).confidence >= THRESHOLD ==>
      ScoreLeg(legs[i], provider(legs[i])) in r
  {
    FilterMembers(Retained, ScoreAll(legs, provider));
    Filter(Retained, ScoreAll(legs, provider))
  }

  /**
   The LOW_CONFIDENCE test in the post-filter is redundant: scoring then
   keeping the legs at or above the threshold gives the same list.
   */
  lemma {:induction false} ThresholdAlone(legs: seq<Leg>, provider: Leg -> Signals)
    ensures ScoreLegs(legs, provider) == Filter(AtThreshold, ScoreAll(legs, provider))
  {
    SameFilterOnScored(ScoreAll(legs, provider));
  }

  lemma {:induction false} SameFilterOnScored(scored: seq<Leg>)
    requires forall i :: 0 <= i < |scored| ==> (LowConfidence in scored[i].riskFlags <==> scored[i].confidence < THRESHOLD)
    ensures Filter(Retained, scored) == Filter(AtThreshold, scored)
  {
    if |scored| > 0 {
      SameFilterOnScored(scored[1..]);
    }
  }
}
