/**
 The four reference leg builders (core/builders/builder_*.js). Each reads one
 odds sub-record of a fixture, hands it to the shared constructor with its own
 market code and family, and returns the leg as a list of at most one element.
 */
module Builders {
  import opened JsValues
  import opened Legs

  /** What every builder leaves on a leg it builds from fixture f. */
  predicate BuiltFrom(f: Fixture, leg: Leg, market: string, family: string) {
    && f.fixtureId == Some(leg.fixtureId)
    && f.leagueId == Some(leg.leagueId)
    && leg.teamHome == TeamLabel(f.homeTeam)
    && leg.teamAway == TeamLabel(f.awayTeam)
    && leg.market == market
    && leg.meta == LegMeta(Some(f.statsAvailable.GetOr(true)), 1.0, family)
    && leg.confidence == 0
    && leg.builder.None?
    && leg.riskFlags == []
  }

  /** `leg ? [leg] : []` */
  function AsList(leg: Option<Leg>): (r: seq<Leg>)
    ensures |r| <= 1
    ensures r == [] <==> leg.None?
    ensures leg.Some? ==> r == [leg.value]
  {
    if leg.Some? then [leg.value] else []
  }

  /** The meta argument every reference builder passes: only a family. */
  function FamilyMeta(family: string): BuilderMeta {
    BuilderMeta(None, None, family)
  }

  /** `match.odds?.matchWinner?.draw` */
  function DrawOdd(f: Fixture): JsNumber {
    if f.odds.Some? && f.odds.value.matchWinner.Some? then f.odds.value.matchWinner.value.draw else Absent
  }

  /** `match.odds?.over15?.home` */
  function Over15Odd(f: Fixture): JsNumber {
    if f.odds.Some? && f.odds.value.over15.Some? then f.odds.value.over15.value.home else Absent
  }

  /** `match.odds?.over25?.home` */
  function Over25Odd(f: Fixture): JsNumber {
    if f.odds.Some? && f.odds.value.over25.Some? then f.odds.value.over25.value.home else Absent
  }

  /** `match.odds?.btts?.no || match.odds?.btts?.yes` */
  function BttsPick(f: Fixture): (r: JsNumber)
    ensures f.odds.Some? && f.odds.value.btts.Some? && f.odds.value.btts.value.no.Truthy() ==>
      r == f.odds.value.btts.value.no
    ensures f.odds.Some? && f.odds.value.btts.Some? && !f.odds.value.btts.value.no.Truthy() ==>
      r == f.odds.value.btts.value.yes
    ensures f.odds.None? || f.odds.value.btts.None? ==> r == Absent
  {
    if f.odds.Some? && f.odds.value.btts.Some? then
      var b := f.odds.value.btts.value;
      if b.no.Truthy() then b.no else b.yes
    else Absent
  }

  /** builder_draw_safety: the draw odd as a DRAW_SFTY leg of family 1X2. */
  function DrawSafety(f: Fixture): (r: seq<Leg>)
    ensures |r| <= 1
    ensures r == [] <==> !HasIdentity(f) || !DrawOdd(f).IsNumber()
    ensures |r| == 1 ==> BuiltFrom(f, r[0], "DRAW_SFTY", "1X2") && r[0].odd == DrawOdd(f).value
  {
    AsList(CreateBuilderLeg(Some(f), "DRAW_SFTY", DrawOdd(f), FamilyMeta("1X2")))
  }

  /** builder_first_half_goals: the over-1.5 home odd as an O15_HT leg of family GOALS. */
  function FirstHalfGoals(f: Fixture): (r: seq<Leg>)
    ensures |r| <= 1
    ensures r == [] <==> !HasIdentity(f) || !Over15Odd(f).IsNumber()
    ensures |r| == 1 ==> BuiltFrom(f, r[0], "O15_HT", "GOALS") && r[0].odd == Over15Odd(f).value
  {
    AsList(CreateBuilderLeg(Some(f), "O15_HT", Over15Odd(f), FamilyMeta("GOALS")))
  }

  /** `Math.max(1.01, 1.8 - over25)`: the implied under-2.5 odd. */
  function ImpliedUnder(over25: real): (r: real)
    ensures r >= 1.01
    ensures over25 >= 0.79 ==> r == 1.01
    ensures over25 < 0.79 ==> r == 1.8 - over25
  {
    Max(1.01, 1.8 - over25)
  }

  /** builder_under_safe: nothing for a falsy over-2.5 odd, else the implied under odd as a U25_SAFE leg. */
  function UnderSafe(f: Fixture): (r: seq<Leg>)
    ensures |r| <= 1
    ensures !Over25Odd(f).Truthy() ==> r == []
    ensures r == [] <==> !HasIdentity(f) || !Over25Odd(f).Truthy()
    ensures |r| == 1 ==>
      && BuiltFrom(f, r[0], "U25_SAFE", "GOALS")
      && r[0].odd == ImpliedUnder(Over25Odd(f).value)
      && r[0].odd >= 1.01
  {
    var over25 := Over25Odd(f);
    if !over25.Truthy() then []
    else AsList(CreateBuilderLeg(Some(f), "U25_SAFE", Num(ImpliedUnder(over25.value)), FamilyMeta("GOALS")))
  }

  /** builder_btts_strict: the BTTS "no" odd, falling back to "yes", as a BTTS_STRICT leg. */
  function BttsStrict(f: Fixture): (r: seq<Leg>)
    ensures |r| <= 1
    ensures r == [] <==> !HasIdentity(f) || !BttsPick(f).IsNumber()
    ensures |r| == 1 ==> BuiltFrom(f, r[0], "BTTS_STRICT", "BTTS") && r[0].odd == BttsPick(f).value
  {
    AsList(CreateBuilderLeg(Some(f), "BTTS_STRICT", BttsPick(f), FamilyMeta("BTTS")))
  }
}
