/**
 Prediction settlement (agents/evaluate_results.js): index matches by fixture
 id, settle each prediction whose match is known against its market's hit rule,
 and summarise hits, misses and the hit rate.
 */
module Settlement {
  import opened JsValues
  import opened Seqs

  /** A finished match; a goal field that is not a number is None. */
  datatype Match = Match(fixtureId: Option<int>, goalsHome: Option<real>, goalsAway: Option<real>)

  datatype Prediction = Prediction(
    fixtureId: Option<int>, league: string, country: string, homeTeam: string, awayTeam: string,
    market: string, odd: real, confidence: int)

  /** A settled prediction: its fields, whether it hit, and the score it was settled on. */
  datatype Item = Item(prediction: Prediction, hit: bool, homeGoals: real, awayGoals: real)

  datatype Summary = Summary(totalPredictions: nat, hits: nat, misses: nat, hitRate: real, items: seq<Item>)

  /** `fixtureMap`: built in input order, so a later match with the same id replaces an earlier one. */
  function FixtureMap(matches: seq<Match>): (r: map<int, Match>)
    ensures forall k :: k in r ==> r[k].fixtureId == Some(k) && r[k] in matches
  {
    if |matches| == 0 then map[]
    else
      var last := matches[|matches| - 1];
      var m := FixtureMap(matches[..|matches| - 1]);
      assert forall k :: k in m ==> m[k] in matches by {
        forall k | k in m
          ensures m[k] in matches
        {
          var init := matches[..|matches| - 1];
          var j :| 0 <= j < |init| && init[j] == m[k];
          assert matches[j] == m[k];
        }
      }
      if last.fixtureId.Some? then m[last.fixtureId.value := last] else m
  }

  /** An id is in the map exactly when some match carries it. */
  lemma {:induction false} FixtureMapKeys(matches: seq<Match>, k: int)
    ensures k in FixtureMap(matches) <==> exists i :: 0 <= i < |matches| && matches[i].fixtureId == Some(k)
  {
    if |matches| > 0 {
      var n := |matches| - 1;
      FixtureMapKeys(matches[..n], k);
      assert forall i :: 0 <= i < n ==> matches[..n][i] == matches[i];
    }
  }

  /** The map holds the last match with each id. */
  lemma {:induction false} FixtureMapLastWins(matches: seq<Match>, j: nat)
    requires j < |matches| && matches[j].fixtureId.Some?
    requires forall i :: j < i < |matches| ==> matches[i].fixtureId != matches[j].fixtureId
    ensures matches[j].fixtureId.value in FixtureMap(matches)
    ensures FixtureMap(matches)[matches[j].fixtureId.value] == matches[j]
  {
    var n := |matches| - 1;
    var init := matches[..n];
    FixtureMapSnoc(matches);
    if j < n {
      assert init[j] == matches[j];
      assert forall i :: j < i < n ==> init[i] == matches[i];
      FixtureMapLastWins(init, j);
    }
  }

  /** The last match is written over the map of the ones before it. */
  lemma FixtureMapSnoc(matches: seq<Match>)
    requires |matches| > 0
    ensures var last, m := matches[|matches| - 1], FixtureMap(matches[..|matches| - 1]);
      FixtureMap(matches) == if last.fixtureId.Some? then m[last.fixtureId.value := last] else m
  {
  }

  /** `typeof goals === 'number' ? goals : 0` */
  function Goals(g: Option<real>): (r: real)
    ensures g.None? ==> r == 0.0
    ensures g.Some? ==> r == g.value
  {
    g.GetOr(0.0)
  }

  /** OVER_1_5 needs two goals in all, BTTS_YES a goal on each side; every other market misses. */
  function Hit(market: string, home: real, away: real): (r: bool)
    ensures market == "OVER_1_5" ==> (r <==> home + away >= 2.0)
    ensures market == "BTTS_YES" ==> (r <==> home > 0.0 && away > 0.0)
    ensures market != "OVER_1_5" && market != "BTTS_YES" ==> !r
  {
    if market == "OVER_1_5" then home + away >= 2.0
    else if market == "BTTS_YES" then home > 0.0 && away > 0.0
    else false
  }

  /** `fixtureMap.get(prediction.fixtureId)` finds a match. */
  function Known(fixtures: map<int, Match>): Prediction -> bool {
    (p: Prediction) => p.fixtureId.Some? && p.fixtureId.value in fixtures
  }

  function Settle(p: Prediction, m: Match): (r: Item)
    ensures r.prediction == p
    ensures r.homeGoals == Goals(m.goalsHome) && r.awayGoals == Goals(m.goalsAway)
    ensures r.hit == Hit(p.market, Goals(m.goalsHome), Goals(m.goalsAway))
  {
    var home, away := Goals(m.goalsHome), Goals(m.goalsAway);
    Item(p, Hit(p.market, home, away), home, away)
  }

  function PredictionsOf(items: seq<Item>): (r: seq<Prediction>)
    ensures |r| == |items|
    ensures forall i :: 0 <= i < |r| ==> r[i] == items[i].prediction
  {
    seq(|items|, i requires 0 <= i < |items| => items[i].prediction)
  }

  /** `predictions.forEach(...)`: one item per prediction whose match is known, in prediction order. */
  function SettleAll(predictions: seq<Prediction>, fixtures: map<int, Match>): (r: seq<Item>)
    ensures PredictionsOf(r) == Filter(Known(fixtures), predictions)
    ensures forall i :: 0 <= i < |r| ==> r[i] == Settle(r[i].prediction, fixtures[r[i].prediction.fixtureId.value])
  {
    if |predictions| == 0 then []
    else
      var p := predictions[0];
      var rest := SettleAll(predictions[1..], fixtures);
      if Known(fixtures)(p) then
        var r := [Settle(p, fixtures[p.fixtureId.value])] + rest;
        assert PredictionsOf(r) == [p] + PredictionsOf(rest);
        r
      else rest
  }

  /** The items produced, counted, and the hit rate in percent rounded to two decimals (0 without items). */
  function Summarise(items: seq<Item>): (r: Summary)
    ensures r.totalPredictions == |items|
    ensures r.hits + r.misses == r.totalPredictions
    ensures r.hits == |Filter((i: Item) => i.hit, items)|
    ensures r.totalPredictions == 0 ==> r.hitRate == 0.0
    ensures 0.0 <= r.hitRate <= 100.0
    ensures r.items == items
  {
    var hits := |Filter((i: Item) => i.hit, items)|;
    var total := |items|;
    var rate := HitRate(hits, total);
    Summary(total, hits, total - hits, rate, items)
  }

  /** `totalPredictions > 0 ? Number(((hits / totalPredictions) * 100).toFixed(2)) : 0` */
  function HitRate(hits: nat, total: nat): (r: real)
    requires hits <= total
    ensures total == 0 ==> r == 0.0
    ensures 0.0 <= r <= 100.0
    ensures total > 0 ==> -0.005 <= r - hits as real * 100.0 / total as real <= 0.005
  {
    if total == 0 then 0.0
    else
      RateBounds(hits, total);
      ToFixed2(hits as real / total as real * 100.0)
  }

  lemma RateBounds(hits: nat, total: nat)
    requires 0 < total && hits <= total
    ensures 0.0 <= ToFixed2(hits as real / total as real * 100.0) <= 100.0
  {
    var x := hits as real / total as real * 100.0;
    assert hits as real / total as real <= 1.0;
    assert 0.0 <= x <= 100.0;
    HundredthsCeiling(x);
  }

  /** A value at most 100 never rounds above 100: 100.00 is itself a hundredth. */
  lemma HundredthsCeiling(x: real)
    requires x <= 100.0
    ensures ToFixed2(x) <= 100.0
  {
    var r := ToFixed2(x);
    var h := (r * 100.0).Floor;
    assert h as real == r * 100.0;
    assert h as real <= 10000.5;
    assert h <= 10000;
  }

  /** The script's evaluation: map, settle, summarise. */
  function Evaluate(matches: seq<Match>, predictions: seq<Prediction>): (r: Summary)
    ensures r.totalPredictions <= |predictions|
    ensures r.totalPredictions == |Filter(Known(FixtureMap(matches)), predictions)|
    ensures r.hits + r.misses == r.totalPredictions
  {
    var items := SettleAll(predictions, FixtureMap(matches));
    assert |PredictionsOf(items)| == |items|;
    Summarise(items)
  }

  /** A prediction without a known match adds no item and leaves the counts alone. */
  lemma UnknownPredictionIgnored(matches: seq<Match>, predictions: seq<Prediction>, p: Prediction)
    requires !Known(FixtureMap(matches))(p)
    ensures Evaluate(matches, predictions + [p]) == Evaluate(matches, predictions)
  {
    var fixtures := FixtureMap(matches);
    SettleAllAppendUnknown(predictions, fixtures, p);
  }

  lemma {:induction false} SettleAllAppendUnknown(predictions: seq<Prediction>, fixtures: map<int, Match>, p: Prediction)
    requires !Known(fixtures)(p)
    ensures SettleAll(predictions + [p], fixtures) == SettleAll(predictions, fixtures)
  {
    if |predictions| == 0 {
      assert predictions + [p] == [p];
      assert [p][1..] == [];
    } else {
      assert (predictions + [p])[1..] == predictions[1..] + [p];
      SettleAllAppendUnknown(predictions[1..], fixtures, p);
    }
  }

  /** A prediction on a fixture id no match carries is never settled. */
  lemma AbsentIdNeverSettled(matches: seq<Match>, p: Prediction)
    requires p.fixtureId.None? || forall i :: 0 <= i < |matches| ==> matches[i].fixtureId != p.fixtureId
    ensures !Known(FixtureMap(matches))(p)
  {
    if p.fixtureId.Some? {
      FixtureMapKeys(matches, p.fixtureId.value);
    }
  }
}
