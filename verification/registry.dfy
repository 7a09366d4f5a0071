/**
 The builder registry (core/builders/registry.js): a fixed, ordered list of
 named builders, run over every fixture; the legs are concatenated
 fixture-major, builder-minor, each tagged with the name of its builder.
 */
module Registry {
  import opened JsValues
  import opened Legs
  import Builders
  import Seqs

  /**
   What a builder call may hand back to the registry: a falsy value (None), or
   an array whose entries may be null (None entries).
   */
  type BuilderOutput = Option<seq<Option<Leg>>>

  /** A builder function together with its JavaScript function name. */
  datatype Builder = Builder(name: string, build: Fixture -> BuilderOutput)

  /** A builder's plain array of legs, as the registry receives it. */
  function Returned(legs: seq<Leg>): (r: BuilderOutput)
    ensures r.Some? && |r.value| == |legs|
    ensures forall i :: 0 <= i < |legs| ==> r.value[i] == Some(legs[i])
  {
    Some(seq(|legs|, i requires 0 <= i < |legs| => Some(legs[i])))
  }

  /** The registration order. */
  const BUILDERS: seq<Builder> := [
    Builder("builder_draw_safety", f => Returned(Builders.DrawSafety(f))),
    Builder("builder_first_half_goals", f => Returned(Builders.FirstHalfGoals(f))),
    Builder("builder_under_safe", f => Returned(Builders.UnderSafe(f))),
    Builder("builder_btts_strict", f => Returned(Builders.BttsStrict(f)))
  ]

  /** A non-null array entry. */
  predicate IsPresent(item: Option<Leg>) {
    item.Some?
  }

  /** The non-null entries of an array, in order. */
  function NonNull(items: seq<Option<Leg>>): (r: seq<Leg>)
    ensures |r| <= |items|
    ensures forall i :: 0 <= i < |r| ==> Some(r[i]) in items
    ensures forall i :: 0 <= i < |items| && items[i].Some? ==> items[i].value in r
    ensures (forall i :: 0 <= i < |items| ==> items[i].Some?) ==> |r| == |items|
    ensures |r| == |Seqs.Filter(IsPresent, items)|
    ensures forall i :: 0 <= i < |r| ==> Seqs.Filter(IsPresent, items)[i] == Some(r[i])
  {
    if |items| == 0 then []
    else (if items[0].Some? then [items[0].value] else []) + NonNull(items[1..])
  }

  /** `(builder(fixture) || []).filter(leg => leg)` */
  function Present(out: BuilderOutput): (r: seq<Leg>)
    ensures out.None? ==> r == []
    ensures out.Some? ==> r == NonNull(out.value)
  {
    if out.None? then [] else NonNull(out.value)
  }

  /** A plain array passes through the registry's falsy and null checks unchanged. */
  lemma {:induction false} PresentReturned(legs: seq<Leg>)
    ensures Present(Returned(legs)) == legs
  {
    var items := Returned(legs).value;
    if |legs| > 0 {
      PresentReturned(legs[1..]);
      assert items[1..] == Returned(legs[1..]).value;
      assert legs == [legs[0]] + legs[1..];
    }
  }

  /** `{ ...leg, builder: name }` for every leg. */
  function Tag(name: string, legs: seq<Leg>): (r: seq<Leg>)
    ensures |r| == |legs|
    ensures forall i :: 0 <= i < |r| ==> r[i] == legs[i].(builder := Some(name))
  {
    seq(|legs|, i requires 0 <= i < |legs| => legs[i].(builder := Some(name)))
  }

  /** The legs one fixture contributes, builder by builder in list order. */
  function ForFixture(builders: seq<Builder>, f: Fixture): seq<Leg>
  {
    if |builders| == 0 then []
    else RunBuilder(builders[0], f) + ForFixture(builders[1..], f)
  }

  /** `runBuilders(fixtures)` over an arbitrary builder list. */
  function RunBuilders(builders: seq<Builder>, fixtures: seq<Fixture>): seq<Leg>
  {
    if |fixtures| == 0 then []
    else ForFixture(builders, fixtures[0]) + RunBuilders(builders, fixtures[1..])
  }

  /** The legs one builder contributes for one fixture. */
  function RunBuilder(b: Builder, f: Fixture): (r: seq<Leg>)
  {
    Tag(b.name, Present(b.build(f)))
  }

  lemma {:induction false} ForFixtureCons(builders: seq<Builder>, f: Fixture)
    requires |builders| > 0
    ensures ForFixture(builders, f) == RunBuilder(builders[0], f) + ForFixture(builders[1..], f)
  {
  }

  lemma ReferenceBuilders(f: Fixture)
    ensures RunBuilder(BUILDERS[0], f) == Tag("builder_draw_safety", Builders.DrawSafety(f))
    ensures RunBuilder(BUILDERS[1], f) == Tag("builder_first_half_goals", Builders.FirstHalfGoals(f))
    ensures RunBuilder(BUILDERS[2], f) == Tag("builder_under_safe", Builders.UnderSafe(f))
    ensures RunBuilder(BUILDERS[3], f) == Tag("builder_btts_strict", Builders.BttsStrict(f))
  {
    PresentReturned(Builders.DrawSafety(f));
    PresentReturned(Builders.FirstHalfGoals(f));
    PresentReturned(Builders.UnderSafe(f));
    PresentReturned(Builders.BttsStrict(f));
  }

  /** Four builders contribute their legs one after the other. */
  lemma ForFixtureFour(bs: seq<Builder>, f: Fixture)
    requires |bs| == 4
    ensures ForFixture(bs, f) == RunBuilder(bs[0], f) + RunBuilder(bs[1], f) + RunBuilder(bs[2], f) + RunBuilder(bs[3], f)
  {
    var a, b, c, d := RunBuilder(bs[0], f), RunBuilder(bs[1], f), RunBuilder(bs[2], f), RunBuilder(bs[3], f);
    assert ForFixture(bs[4..], f) == [];
    assert ForFixture(bs[3..], f) == d by {
      ForFixtureCons(bs[3..], f);
      assert bs[3..][1..] == bs[4..];
    }
    assert ForFixture(bs[2..], f) == c + d by {
      ForFixtureCons(bs[2..], f);
      assert bs[2..][1..] == bs[3..];
    }
    assert ForFixture(bs[1..], f) == b + (c + d) by {
      ForFixtureCons(bs[1..], f);
      assert bs[1..][1..] == bs[2..];
    }
    assert ForFixture(bs, f) == a + (b + (c + d)) by {
      ForFixtureCons(bs, f);
    }
    Seqs.Reassociate(a, b, c, d);
  }

  /** The registered builders run in the order draw-safety, first-half-goals, under-safe, btts-strict. */
  lemma ReferenceOrder(f: Fixture)
    ensures ForFixture(BUILDERS, f) ==
      Tag("builder_draw_safety", Builders.DrawSafety(f))
      + Tag("builder_first_half_goals", Builders.FirstHalfGoals(f))
      + Tag("builder_under_safe", Builders.UnderSafe(f))
      + Tag("builder_btts_strict", Builders.BttsStrict(f))
  {
    ForFixtureFour(BUILDERS, f);
    ReferenceBuilders(f);
  }

  /** Running over two batches of fixtures is running over each and concatenating: no deduplication. */
  lemma {:induction false} RunBuildersAppend(builders: seq<Builder>, xs: seq<Fixture>, ys: seq<Fixture>)
    ensures RunBuilders(builders, xs + ys) == RunBuilders(builders, xs) + RunBuilders(builders, ys)
  {
    if |xs| == 0 {
      assert xs + ys == ys;
    } else {
      assert (xs + ys)[1..] == xs[1..] + ys;
      RunBuildersAppend(builders, xs[1..], ys);
    }
  }

  /** With the four reference builders a fixture yields at most four legs. */
  lemma {:induction false} AtMostFourPerFixture(fixtures: seq<Fixture>)
    ensures |RunBuilders(BUILDERS, fixtures)| <= 4 * |fixtures|
  {
    if |fixtures| > 0 {
      ReferenceOrder(fixtures[0]);
      AtMostFourPerFixture(fixtures[1..]);
    }
  }

  /** Index form of "leg was produced by builder bi for fixture fi, then tagged". */
  ghost predicate TaggedOutput(builders: seq<Builder>, fixtures: seq<Fixture>, leg: Leg) {
    exists fi, bi, li ::
      && 0 <= fi < |fixtures| && 0 <= bi < |builders|
      && 0 <= li < |Present(builders[bi].build(fixtures[fi]))|
      && leg == Present(builders[bi].build(fixtures[fi]))[li].(builder := Some(builders[bi].name))
  }

  lemma {:induction false} ForFixtureProvenance(builders: seq<Builder>, f: Fixture, leg: Leg)
    requires leg in ForFixture(builders, f)
    ensures exists bi, li ::
      && 0 <= bi < |builders|
      && 0 <= li < |Present(builders[bi].build(f))|
      && leg == Present(builders[bi].build(f))[li].(builder := Some(builders[bi].name))
  {
    var head := RunBuilder(builders[0], f);
    if leg in head {
      var li :| 0 <= li < |head| && head[li] == leg;
      assert 0 <= 0 < |builders|;
    } else {
      ForFixtureProvenance(builders[1..], f, leg);
      var bi, li :| 0 <= bi < |builders[1..]| && 0 <= li < |Present(builders[1..][bi].build(f))|
        && leg == Present(builders[1..][bi].build(f))[li].(builder := Some(builders[1..][bi].name));
      assert builders[1..][bi] == builders[bi + 1];
    }
  }

  /** Every emitted leg is some builder's leg for some input fixture with only its builder name added. */
  lemma {:induction false} Provenance(builders: seq<Builder>, fixtures: seq<Fixture>, leg: Leg)
    requires leg in RunBuilders(builders, fixtures)
    ensures TaggedOutput(builders, fixtures, leg)
  {
    if leg in ForFixture(builders, fixtures[0]) {
      ForFixtureProvenance(builders, fixtures[0], leg);
      var bi, li :| 0 <= bi < |builders| && 0 <= li < |Present(builders[bi].build(fixtures[0]))|
        && leg == Present(builders[bi].build(fixtures[0]))[li].(builder := Some(builders[bi].name));
      assert 0 <= 0 < |fixtures|;
    } else {
      Provenance(builders, fixtures[1..], leg);
      var fi, bi, li :|
        && 0 <= fi < |fixtures[1..]| && 0 <= bi < |builders|
        && 0 <= li < |Present(builders[bi].build(fixtures[1..][fi]))|
        && leg == Present(builders[bi].build(fixtures[1..][fi]))[li].(builder := Some(builders[bi].name));
      assert fixtures[1..][fi] == fixtures[fi + 1];
    }
  }
}
