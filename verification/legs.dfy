/**
 Fixtures, legs and the shared leg constructor (`createBuilderLeg` in
 core/builders/utils.js). A leg exists only for a fixture that carries all four
 identifying fields and for an odd that is a number.
 */
module Legs {
  import opened JsValues
  import Seqs

  /** `homeTeam`/`awayTeam` as the ingest layers deliver them: absent, a plain name, or a team object. */
  datatype TeamRef = NoTeam | TeamText(text: string) | TeamObject(name: string) {
    /** An absent team and the empty string are falsy; every object is truthy. */
    predicate Truthy() {
      match this
      case NoTeam => false
      case TeamText(s) => s != ""
      case TeamObject(_) => true
    }
  }

  datatype MatchWinnerOdds = MatchWinnerOdds(home: JsNumber, draw: JsNumber, away: JsNumber)
  datatype OverOdds = OverOdds(home: JsNumber, line: real)
  datatype BttsOdds = BttsOdds(yes: JsNumber, no: JsNumber)

  /** The odds bundle: every sub-record may be missing. */
  datatype Odds = Odds(
    matchWinner: Option<MatchWinnerOdds>,
    over15: Option<OverOdds>,
    over25: Option<OverOdds>,
    btts: Option<BttsOdds>)

  /** The fields of a fixture that the builders read. */
  datatype Fixture = Fixture(
    fixtureId: Option<int>,
    leagueId: Option<int>,
    homeTeam: TeamRef,
    awayTeam: TeamRef,
    statsAvailable: Option<bool>,
    odds: Option<Odds>)

  /** The optional `meta` argument of the constructor; an empty family string means "not given". */
  datatype BuilderMeta = BuilderMeta(statsAvailable: Option<bool>, leagueWeight: Option<real>, family: string)

  datatype RiskFlag = HighOdd | LowConfidence

  /** leagueWeight 0 stands for a falsy weight; statsAvailable None for an absent flag. */
  datatype LegMeta = LegMeta(statsAvailable: Option<bool>, leagueWeight: real, family: string)

  /**
   A candidate bet. `builder` is None until the registry tags the leg;
   `riskFlags` is empty until the scorer attaches flags.
   */
  datatype Leg = Leg(
    fixtureId: int,
    leagueId: int,
    teamHome: TeamRef,
    teamAway: TeamRef,
    market: string,
    odd: real,
    confidence: int,
    meta: LegMeta,
    builder: Option<string>,
    riskFlags: seq<RiskFlag>)

  /** The validation gate: all four identifying fields are truthy. */
  predicate HasIdentity(f: Fixture) {
    TruthyId(f.fixtureId) && TruthyId(f.leagueId) && f.homeTeam.Truthy() && f.awayTeam.Truthy()
  }

  /** `team?.name || team`: a team object with a non-empty name shows its name. */
  function TeamLabel(t: TeamRef): (r: TeamRef)
    ensures t.TeamObject? && t.name != "" ==> r == TeamText(t.name)
    ensures !(t.TeamObject? && t.name != "") ==> r == t
    ensures t.Truthy() ==> r.Truthy()
  {
    if t.TeamObject? && t.name != "" then TeamText(t.name) else t
  }

  predicate IsAsciiLetter(c: char) {
    'A' <= c <= 'Z' || 'a' <= c <= 'z'
  }

  function UpperAscii(c: char): (r: char)
    requires IsAsciiLetter(c)
    ensures 'A' <= r <= 'Z'
    ensures 'A' <= c <= 'Z' ==> r == c
  {
    if 'a' <= c <= 'z' then (c as int - 32) as char else c
  }

  function UpperLetters(s: string): (r: string)
    requires forall i :: 0 <= i < |s| ==> IsAsciiLetter(s[i])
    ensures |r| == |s|
    ensures forall i :: 0 <= i < |r| ==> 'A' <= r[i] <= 'Z'
  {
    seq(|s|, i requires 0 <= i < |s| => UpperAscii(s[i]))
  }

  /** `market.replace(/[^A-Z]/gi, '').slice(0, 3).toUpperCase()` */
  function DeriveFamily(market: string): (r: string)
    ensures |r| <= 3
    ensures forall i :: 0 <= i < |r| ==> 'A' <= r[i] <= 'Z'
    ensures r == [] <==> forall i :: 0 <= i < |market| ==> !IsAsciiLetter(market[i])
    ensures |r| == if |Seqs.Filter(IsAsciiLetter, market)| < 3 then |Seqs.Filter(IsAsciiLetter, market)| else 3
    ensures forall i :: 0 <= i < |r| ==> r[i] == UpperAscii(Seqs.Filter(IsAsciiLetter, market)[i])
  {
    var letters := Seqs.Filter(IsAsciiLetter, market);
    Seqs.FilterMembers(IsAsciiLetter, market);
    var cut := if |letters| <= 3 then letters else letters[..3];
    assert forall i :: 0 <= i < |market| && IsAsciiLetter(market[i]) ==> |letters| > 0;
    assert |letters| > 0 ==> exists i :: 0 <= i < |market| && market[i] == letters[0];
    UpperLetters(cut)
  }

  /** The first three letters of the market, upper-cased: digits and separators are skipped. */
  lemma DeriveFamilyUnderSafe()
    ensures DeriveFamily("U25_SAFE") == "USA"
  {
    assert Seqs.Filter(IsAsciiLetter, "U25_SAFE") == "USAFE";
  }

  /** Lower-case letters are upper-cased, and a dot is skipped like any separator. */
  lemma DeriveFamilyLowerCase()
    ensures DeriveFamily("o1.5_ht") == "OHT"
  {
    assert Seqs.Filter(IsAsciiLetter, "o1.5_ht") == "oht";
  }

  /** A market with a single letter gives a one-letter family. */
  lemma DeriveFamilyShort()
    ensures DeriveFamily("1X2") == "X"
  {
    assert Seqs.Filter(IsAsciiLetter, "1X2") == "X";
  }

  /** A derived family is already upper-case letters, so deriving again returns it unchanged. */
  lemma DeriveFamilyIdempotent(market: string)
    ensures DeriveFamily(DeriveFamily(market)) == DeriveFamily(market)
  {
    var f := DeriveFamily(market);
    Seqs.FilterAll(IsAsciiLetter, f);
    assert UpperLetters(f) == f;
  }

  /** `createBuilderLeg(match, market, odd, meta)`; None stands for its `null`. */
  function CreateBuilderLeg(fixture: Option<Fixture>, market: string, odd: JsNumber, meta: BuilderMeta): (r: Option<Leg>)
    ensures r.None? <==> fixture.None? || !HasIdentity(fixture.value) || !odd.IsNumber()
    ensures r.Some? ==>
      && r.value.fixtureId == fixture.value.fixtureId.value
      && r.value.leagueId == fixture.value.leagueId.value
      && r.value.market == market
      && r.value.odd == odd.value
      && r.value.confidence == 0
      && r.value.builder.None?
      && r.value.riskFlags == []
      && r.value.teamHome == TeamLabel(fixture.value.homeTeam)
      && r.value.teamAway == TeamLabel(fixture.value.awayTeam)
      && r.value.teamHome.Truthy() && r.value.teamAway.Truthy()
      && r.value.fixtureId != 0 && r.value.leagueId != 0
    ensures r.Some? ==> r.value.meta.statsAvailable.Some?
    ensures r.Some? && meta.statsAvailable.Some? ==> r.value.meta.statsAvailable == meta.statsAvailable
    ensures r.Some? && meta.statsAvailable.None? ==>
      r.value.meta.statsAvailable == Some(fixture.value.statsAvailable.GetOr(true))
    ensures r.Some? && meta.leagueWeight.Some? && meta.leagueWeight.value != 0.0 ==>
      r.value.meta.leagueWeight == meta.leagueWeight.value
    ensures r.Some? && (meta.leagueWeight.None? || meta.leagueWeight.value == 0.0) ==>
      r.value.meta.leagueWeight == 1.0
    ensures r.Some? && meta.family != "" ==> r.value.meta.family == meta.family
    ensures r.Some? && meta.family == "" ==> r.value.meta.family == DeriveFamily(market)
  {
    if fixture.None? || !HasIdentity(fixture.value) then None
    else if !odd.IsNumber() then None
    else
      var m := fixture.value;
      var stats := if meta.statsAvailable.Some? then meta.statsAvailable.value
                   else m.statsAvailable.GetOr(true);
      Some(Leg(
        m.fixtureId.value,
        m.leagueId.value,
        TeamLabel(m.homeTeam),
        TeamLabel(m.awayTeam),
        market,
        odd.value,
        0,
        LegMeta(Some(stats), OrElse(meta.leagueWeight, 1.0),
                if meta.family != "" then meta.family else DeriveFamily(market)),
        None,
        []))
  }
}
