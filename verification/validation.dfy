/**
 The hand-rolled schema check of scripts/validate_predictions.js over parsed
 JSON values: a root array of prediction objects, each with eight required
 keys, typed properties with length and range limits, and no other keys.
 */
module Validation {
  import opened JsValues
  import opened Seqs

  /** A parsed JSON value; an object's entries are in `Object.entries` order. */
  datatype Json = JNull | JBool(b: bool) | JNum(n: real) | JStr(s: string) | JArr(items: seq<Json>) | JObj(entries: seq<(string, Json)>)

  /** `typeof value` for a parsed JSON value. */
  function TypeOf(v: Json): (r: string)
    ensures r == "string" <==> v.JStr?
    ensures r == "boolean" <==> v.JBool?
    ensures r == "number" <==> v.JNum?
    ensures r == "object" <==> v.JNull? || v.JArr? || v.JObj?
  {
    match v
    case JNull => "object"
    case JBool(_) => "boolean"
    case JNum(_) => "number"
    case JStr(_) => "string"
    case JArr(_) => "object"
    case JObj(_) => "object"
  }

  /** `Number.isInteger(value)` */
  predicate IsInteger(v: Json) {
    v.JNum? && v.n.Floor as real == v.n
  }

  /** `typeMatches(value, expectedType)` */
  predicate TypeMatches(v: Json, expected: string) {
    if expected == "integer" then IsInteger(v) else TypeOf(v) == expected
  }

  /** What each of the schema's type names admits. */
  lemma TypeNames(v: Json)
    ensures TypeMatches(v, "string") <==> v.JStr?
    ensures TypeMatches(v, "boolean") <==> v.JBool?
    ensures TypeMatches(v, "integer") <==> v.JNum? && v.n.Floor as real == v.n
    ensures !TypeMatches(v, "undefined")
  {
  }

  /** One entry of `properties`; a minLength of 0 is JavaScript's falsy, i.e. no length check. */
  datatype PropertyDef = PropertyDef(typeName: string, minLength: nat, minimum: Option<int>, maximum: Option<int>)

  datatype ItemSchema = ItemSchema(required: seq<string>, properties: seq<(string, PropertyDef)>, additionalProperties: bool)

  function NonEmptyString(): PropertyDef {
    PropertyDef("string", 1, None, None)
  }

  /** `schema.items` */
  const PREDICTION_SCHEMA: ItemSchema := ItemSchema(
    ["homeTeam", "awayTeam", "date", "outcome", "btts", "over25", "confidence", "reason"],
    [ ("homeTeam", NonEmptyString()),
      ("awayTeam", NonEmptyString()),
      ("date", NonEmptyString()),
      ("outcome", NonEmptyString()),
      ("btts", PropertyDef("boolean", 0, None, None)),
      ("over25", PropertyDef("boolean", 0, None, None)),
      ("confidence", PropertyDef("integer", 0, Some(0), Some(100))),
      ("reason", NonEmptyString()) ],
    false)

  /** The names every plain object inherits from Object.prototype. */
  const PROTOTYPE_MEMBERS: set<string> := {
    "constructor", "__proto__", "hasOwnProperty", "isPrototypeOf", "propertyIsEnumerable",
    "toString", "toLocaleString", "valueOf",
    "__defineGetter__", "__defineSetter__", "__lookupGetter__", "__lookupSetter__"
  }

  /** A key's own definition in the schema, first match. */
  function OwnDefinition(props: seq<(string, PropertyDef)>, key: string): (r: Option<PropertyDef>)
    ensures r.None? <==> forall m :: 0 <= m < |props| ==> props[m].0 != key
    ensures r.Some? ==> exists m :: 0 <= m < |props| && props[m] == (key, r.value)
  {
    if |props| == 0 then None
    else if props[0].0 == key then Some(props[0].1)
    else
      var rest := OwnDefinition(props[1..], key);
      assert forall m :: 1 <= m < |props| ==> props[1..][m - 1] == props[m];
      rest
  }

  /**
   `properties[key]` as written: a plain object lookup, which also finds the
   inherited Object.prototype members; their `.type` is undefined and so are
   their limits.
   */
  function InheritedDefinition(props: seq<(string, PropertyDef)>, key: string): (r: Option<PropertyDef>)
    ensures OwnDefinition(props, key).Some? ==> r == OwnDefinition(props, key)
    ensures OwnDefinition(props, key).None? && key in PROTOTYPE_MEMBERS ==> r == Some(PropertyDef("undefined", 0, None, None))
    ensures OwnDefinition(props, key).None? && key !in PROTOTYPE_MEMBERS ==> r.None?
  {
    if OwnDefinition(props, key).Some? then OwnDefinition(props, key)
    else if key in PROTOTYPE_MEMBERS then Some(PropertyDef("undefined", 0, None, None))
    else None
  }

  /** How `properties[key]` is resolved. */
  datatype Lookup = AsWritten | OwnOnly

  function Definition(props: seq<(string, PropertyDef)>, key: string, lookup: Lookup): Option<PropertyDef> {
    if lookup == AsWritten then InheritedDefinition(props, key) else OwnDefinition(props, key)
  }

  datatype ErrorKind =
    | NotArray
    | NotObject
    | Missing
    | WrongType(expected: string)
    | TooShort(minLength: nat)
    | BelowMinimum(minimum: int)
    | AboveMaximum(maximum: int)
    | Unexpected

  /** An error's path is "" (no index), "/index", or "/index/key". */
  datatype ValidationError = ValidationError(index: Option<nat>, key: Option<string>, kind: ErrorKind)

  predicate HasOwnKey(entries: seq<(string, Json)>, key: string) {
    exists m :: 0 <= m < |entries| && entries[m].0 == key
  }

  /** `key in item` */
  predicate HasKey(entries: seq<(string, Json)>, key: string, lookup: Lookup) {
    HasOwnKey(entries, key) || (lookup == AsWritten && key in PROTOTYPE_MEMBERS)
  }

  /** `!(key in item)` */
  function Absent(entries: seq<(string, Json)>, lookup: Lookup): string -> bool {
    key => !HasKey(entries, key, lookup)
  }

  /** The error for a required key the item lacks. */
  function MissingError(index: nat): string -> ValidationError {
    key => ValidationError(Some(index), Some(key), Missing)
  }

  /** `required.forEach(...)`: one Missing error per absent required key, in schema order. */
  function RequiredErrors(required: seq<string>, entries: seq<(string, Json)>, index: nat, lookup: Lookup): (r: seq<ValidationError>)
    ensures forall e :: e in r ==> e.index == Some(index) && e.kind == Missing && e.key.Some?
    ensures forall e :: e in r ==> e.key.value in required && !HasKey(entries, e.key.value, lookup)
    ensures forall m :: 0 <= m < |required| && !HasKey(entries, required[m], lookup) ==>
      ValidationError(Some(index), Some(required[m]), Missing) in r
    ensures r == [] <==> forall m :: 0 <= m < |required| ==> HasKey(entries, required[m], lookup)
    ensures r == Map(MissingError(index), Filter(Absent(entries, lookup), required))
  {
    if |required| == 0 then []
    else
      var rest := RequiredErrors(required[1..], entries, index, lookup);
      assert forall m :: 1 <= m < |required| ==> required[1..][m - 1] == required[m];
      var absent := Filter(Absent(entries, lookup), required[1..]);
      if HasKey(entries, required[0], lookup) then
        assert Filter(Absent(entries, lookup), required) == absent;
        rest
      else
        assert Filter(Absent(entries, lookup), required) == [required[0]] + absent;
        MapCons(MissingError(index), required[0], absent);
        [ValidationError(Some(index), Some(required[0]), Missing)] + rest
  }

  /** The length and range checks that run once the type matched. */
  function LimitErrors(def: PropertyDef, v: Json, index: nat, key: string): seq<ValidationError> {
    (if def.minLength != 0 && v.JStr? && |v.s| < def.minLength
     then [ValidationError(Some(index), Some(key), TooShort(def.minLength))] else [])
    + (if def.minimum.Some? && v.JNum? && v.n < def.minimum.value as real
       then [ValidationError(Some(index), Some(key), BelowMinimum(def.minimum.value))] else [])
    + (if def.maximum.Some? && v.JNum? && v.n > def.maximum.value as real
       then [ValidationError(Some(index), Some(key), AboveMaximum(def.maximum.value))] else [])
  }

  /** A value meets a property's type, length and range. */
  predicate Satisfies(v: Json, def: PropertyDef) {
    && TypeMatches(v, def.typeName)
    && (v.JStr? ==> |v.s| >= def.minLength)
    && (v.JNum? && def.minimum.Some? ==> v.n >= def.minimum.value as real)
    && (v.JNum? && def.maximum.Some? ==> v.n <= def.maximum.value as real)
  }

  /** The body of `Object.entries(item).forEach(...)` for one entry. */
  function EntryErrors(schema: ItemSchema, key: string, v: Json, index: nat, lookup: Lookup): (r: seq<ValidationError>)
    ensures forall e :: e in r ==> e.index == Some(index) && e.key == Some(key)
    ensures Definition(schema.properties, key, lookup).Some? && !TypeMatches(v, Definition(schema.properties, key, lookup).value.typeName) ==>
      r == [ValidationError(Some(index), Some(key), WrongType(Definition(schema.properties, key, lookup).value.typeName))]
    ensures Definition(schema.properties, key, lookup).Some? ==>
      (r == [] <==> Satisfies(v, Definition(schema.properties, key, lookup).value))
    ensures Definition(schema.properties, key, lookup).None? ==>
      (r == [] <==> schema.additionalProperties) && (r != [] ==> r == [ValidationError(Some(index), Some(key), Unexpected)])
    ensures |r| <= 3
  {
    match Definition(schema.properties, key, lookup)
    case Some(def) =>
      if !TypeMatches(v, def.typeName) then [ValidationError(Some(index), Some(key), WrongType(def.typeName))]
      else LimitErrors(def, v, index, key)
    case None =>
      if !schema.additionalProperties then [ValidationError(Some(index), Some(key), Unexpected)] else []
  }

  /** An error an entry check can raise: at the item's index, naming a key, not a missing key. */
  function EntryShaped(index: nat): ValidationError -> bool {
    (e: ValidationError) => e.index == Some(index) && e.key.Some? && e.kind != Missing
  }

  /** The errors of each entry of an object, in entry order. */
  function PerEntry(schema: ItemSchema, entries: seq<(string, Json)>, index: nat, lookup: Lookup): (r: seq<seq<ValidationError>>)
    ensures |r| == |entries|
    ensures forall m :: 0 <= m < |r| ==> r[m] == EntryErrors(schema, entries[m].0, entries[m].1, index, lookup)
    ensures forall m :: 0 <= m < |r| ==> forall e :: e in r[m] ==> EntryShaped(index)(e)
  {
    seq(|entries|, m requires 0 <= m < |entries| => EntryErrors(schema, entries[m].0, entries[m].1, index, lookup))
  }

  /** The entry errors of an object, entry by entry. */
  function EntriesErrors(schema: ItemSchema, entries: seq<(string, Json)>, index: nat, lookup: Lookup): (r: seq<ValidationError>)
    ensures forall e :: e in r ==> e.index == Some(index) && e.key.Some? && e.kind != Missing
    ensures r == [] <==> forall m :: 0 <= m < |entries| ==> EntryErrors(schema, entries[m].0, entries[m].1, index, lookup) == []
  {
    var parts := PerEntry(schema, entries, index, lookup);
    FlattenAll(EntryShaped(index), parts);
    FlattenEmpty(parts);
    Flatten(parts)
  }

  /** `validateItem(item, index, itemSchema, errors)`: the errors it pushes. */
  function ItemErrors(schema: ItemSchema, item: Json, index: nat, lookup: Lookup): (r: seq<ValidationError>)
    ensures !item.JObj? ==> r == [ValidationError(Some(index), None, NotObject)]
    ensures forall e :: e in r ==> e.index == Some(index)
  {
    if !item.JObj? then [ValidationError(Some(index), None, NotObject)]
    else RequiredErrors(schema.required, item.entries, index, lookup) + EntriesErrors(schema, item.entries, index, lookup)
  }

  /** The errors of each item, by index. */
  function PerItem(schema: ItemSchema, items: seq<Json>, lookup: Lookup): (r: seq<seq<ValidationError>>)
    ensures |r| == |items|
    ensures forall k :: 0 <= k < |r| ==> r[k] == ItemErrors(schema, items[k], k, lookup)
  {
    seq(|items|, k requires 0 <= k < |items| => ItemErrors(schema, items[k], k, lookup))
  }

  /** `items.forEach(...)`: the errors of every item, items in index order. */
  function ItemsErrors(schema: ItemSchema, items: seq<Json>, lookup: Lookup): (r: seq<ValidationError>)
    ensures forall e :: e in r ==> e.index.Some? && e.index.value < |items|
  {
    var parts := PerItem(schema, items, lookup);
    FlattenAll((e: ValidationError) => e.index.Some? && e.index.value < |items|, parts);
    Flatten(parts)
  }

  /** The last item's errors follow those of the items before it. */
  lemma ItemsErrorsLast(schema: ItemSchema, items: seq<Json>, lookup: Lookup)
    requires |items| > 0
    ensures ItemsErrors(schema, items, lookup)
      == ItemsErrors(schema, items[..|items| - 1], lookup) + ItemErrors(schema, items[|items| - 1], |items| - 1, lookup)
  {
    var n := |items| - 1;
    assert PerItem(schema, items, lookup)[..n] == PerItem(schema, items[..n], lookup);
  }

  /** Errors with an item index appear in nondecreasing index order. */
  ghost predicate IndexOrdered(r: seq<ValidationError>) {
    forall a, b :: 0 <= a < b < |r| && r[a].index.Some? && r[b].index.Some? ==> r[a].index.value <= r[b].index.value
  }

  /** The errors come out grouped by item, in index order. */
  lemma {:induction false} ItemsErrorsOrdered(schema: ItemSchema, items: seq<Json>, lookup: Lookup)
    ensures IndexOrdered(ItemsErrors(schema, items, lookup))
  {
    if |items| > 0 {
      var n := |items| - 1;
      var init, last := ItemsErrors(schema, items[..n], lookup), ItemErrors(schema, items[n], n, lookup);
      ItemsErrorsOrdered(schema, items[..n], lookup);
      ItemsErrorsLast(schema, items, lookup);
      OrderedConcat(init, last, n);
    }
  }

  lemma OrderedConcat(init: seq<ValidationError>, last: seq<ValidationError>, n: nat)
    requires IndexOrdered(init)
    requires forall e :: e in init ==> e.index.Some? && e.index.value < n
    requires forall e :: e in last ==> e.index == Some(n)
    ensures IndexOrdered(init + last)
  {
    var r := init + last;
    forall a, b | 0 <= a < b < |r| && r[a].index.Some? && r[b].index.Some?
      ensures r[a].index.value <= r[b].index.value
    {
      if b < |init| {
        assert r[a] == init[a] && r[b] == init[b];
      } else {
        assert r[b] == last[b - |init|] && r[b] in last;
        if a < |init| {
          assert r[a] == init[a] && r[a] in init;
        } else {
          assert r[a] == last[a - |init|] && r[a] in last;
        }
      }
    }
  }

  /** `validate(predictions)` with the given property lookup. */
  function ValidateWith(root: Json, lookup: Lookup): (r: seq<ValidationError>)
    ensures !root.JArr? ==> r == [ValidationError(None, None, NotArray)]
    ensures root.JArr? ==> forall e :: e in r ==> e.index.Some? && e.index.value < |root.items|
  {
    if !root.JArr? then [ValidationError(None, None, NotArray)]
    else ItemsErrors(PREDICTION_SCHEMA, root.items, lookup)
  }

  /** `validate(predictions)`, with `properties[key]` restricted to the schema's own keys. */
  function Validate(root: Json): (r: seq<ValidationError>)
    ensures !root.JArr? ==> r == [ValidationError(None, None, NotArray)]
    ensures root.JArr? ==> forall e :: e in r ==> e.index.Some? && e.index.value < |root.items|
  {
    ValidateWith(root, OwnOnly)
  }

  /** One entry meets the schema: a known key with a satisfying value, or an unknown key where extra keys are allowed. */
  predicate ValidEntry(schema: ItemSchema, key: string, v: Json) {
    match OwnDefinition(schema.properties, key)
    case None => schema.additionalProperties
    case Some(def) => Satisfies(v, def)
  }

  /** An item the schema accepts, stated without reference to the error list. */
  predicate ValidItem(schema: ItemSchema, item: Json) {
    && item.JObj?
    && (forall m :: 0 <= m < |schema.required| ==> HasOwnKey(item.entries, schema.required[m]))
    && (forall m :: 0 <= m < |item.entries| ==> ValidEntry(schema, item.entries[m].0, item.entries[m].1))
  }

  predicate AllValid(schema: ItemSchema, items: seq<Json>) {
    forall i :: 0 <= i < |items| ==> ValidItem(schema, items[i])
  }

  lemma AllValidSplit(schema: ItemSchema, items: seq<Json>)
    requires |items| > 0
    ensures AllValid(schema, items) <==> AllValid(schema, items[..|items| - 1]) && ValidItem(schema, items[|items| - 1])
  {
    var n := |items| - 1;
    assert forall i :: 0 <= i < n ==> items[..n][i] == items[i];
  }

  lemma ItemErrorsEmpty(schema: ItemSchema, item: Json, index: nat)
    ensures ItemErrors(schema, item, index, OwnOnly) == [] <==> ValidItem(schema, item)
  {
    if item.JObj? {
      var es := item.entries;
      var req, ent := RequiredErrors(schema.required, es, index, OwnOnly), EntriesErrors(schema, es, index, OwnOnly);
      assert ItemErrors(schema, item, index, OwnOnly) == req + ent;
      assert req + ent == [] <==> req == [] && ent == [];
      forall m | 0 <= m < |es|
        ensures EntryErrors(schema, es[m].0, es[m].1, index, OwnOnly) == [] <==> ValidEntry(schema, es[m].0, es[m].1)
      {
        EntryValid(schema, es[m].0, es[m].1, index);
      }
    }
  }

  lemma EntryValid(schema: ItemSchema, key: string, v: Json, index: nat)
    ensures EntryErrors(schema, key, v, index, OwnOnly) == [] <==> ValidEntry(schema, key, v)
  {
    assert Definition(schema.properties, key, OwnOnly) == OwnDefinition(schema.properties, key);
  }

  lemma ItemsErrorsEmpty(schema: ItemSchema, items: seq<Json>)
    ensures ItemsErrors(schema, items, OwnOnly) == [] <==> AllValid(schema, items)
  {
    FlattenEmpty(PerItem(schema, items, OwnOnly));
    forall k | 0 <= k < |items|
      ensures ItemErrors(schema, items[k], k, OwnOnly) == [] <==> ValidItem(schema, items[k])
    {
      ItemErrorsEmpty(schema, items[k], k);
    }
  }

  /** The validation passes exactly when the root is an array whose every item the schema accepts. */
  lemma ValidateEmptyIff(root: Json)
    ensures Validate(root) == [] <==> root.JArr? && AllValid(PREDICTION_SCHEMA, root.items)
  {
    if root.JArr? {
      ItemsErrorsEmpty(PREDICTION_SCHEMA, root.items);
    }
  }

  /** Each absent required key of item i is reported once as Missing at "/i/key". */
  lemma MissingReported(root: Json, i: nat, key: string)
    requires root.JArr? && i < |root.items| && root.items[i].JObj?
    requires key in PREDICTION_SCHEMA.required && !HasOwnKey(root.items[i].entries, key)
    ensures ValidationError(Some(i), Some(key), Missing) in Validate(root)
  {
    var item := root.items[i];
    var e := ValidationError(Some(i), Some(key), Missing);
    var required, entries := RequiredErrors(PREDICTION_SCHEMA.required, item.entries, i, OwnOnly),
                             EntriesErrors(PREDICTION_SCHEMA, item.entries, i, OwnOnly);
    assert e in required by {
      var m :| 0 <= m < |PREDICTION_SCHEMA.required| && PREDICTION_SCHEMA.required[m] == key;
      assert !HasKey(item.entries, key, OwnOnly);
    }
    ItemErrorsSplit(PREDICTION_SCHEMA, item, i, OwnOnly);
    var before, after := ItemErrorsAt(PREDICTION_SCHEMA, root.items, i, OwnOnly);
    InMiddle(e, before, required + entries, after);
  }

  /** An object's errors are its missing keys followed by its entry errors. */
  lemma ItemErrorsSplit(schema: ItemSchema, item: Json, index: nat, lookup: Lookup)
    requires item.JObj?
    ensures ItemErrors(schema, item, index, lookup)
      == RequiredErrors(schema.required, item.entries, index, lookup) + EntriesErrors(schema, item.entries, index, lookup)
  {
  }

  /** The errors of item i sit, as one block, inside the overall list. */
  lemma ItemErrorsAt(schema: ItemSchema, items: seq<Json>, i: nat, lookup: Lookup)
    returns (before: seq<ValidationError>, after: seq<ValidationError>)
    requires i < |items|
    ensures ItemsErrors(schema, items, lookup) == before + ItemErrors(schema, items[i], i, lookup) + after
  {
    before, after := FlattenAt(PerItem(schema, items, lookup), i);
  }

  /** A key outside the schema is reported as Unexpected at "/i/key". */
  lemma UnexpectedReported(root: Json, i: nat, m: nat)
    requires root.JArr? && i < |root.items| && root.items[i].JObj?
    requires m < |root.items[i].entries|
    requires OwnDefinition(PREDICTION_SCHEMA.properties, root.items[i].entries[m].0).None?
    ensures ValidationError(Some(i), Some(root.items[i].entries[m].0), Unexpected) in Validate(root)
  {
    var item := root.items[i];
    var es := item.entries;
    var e := ValidationError(Some(i), Some(es[m].0), Unexpected);
    assert EntryErrors(PREDICTION_SCHEMA, es[m].0, es[m].1, i, OwnOnly) == [e];
    var required := RequiredErrors(PREDICTION_SCHEMA.required, es, i, OwnOnly);
    var before, after := EntryErrorsAt(PREDICTION_SCHEMA, es, i, m, OwnOnly);
    InMiddle(e, before, [e], after);
    ItemErrorsSplit(PREDICTION_SCHEMA, item, i, OwnOnly);
    InMiddle(e, required, before + [e] + after, []);
    assert required + (before + [e] + after) + [] == ItemErrors(PREDICTION_SCHEMA, item, i, OwnOnly);
    var before', after' := ItemErrorsAt(PREDICTION_SCHEMA, root.items, i, OwnOnly);
    InMiddle(e, before', ItemErrors(PREDICTION_SCHEMA, item, i, OwnOnly), after');
  }

  /** The errors of entry m sit, as one block, inside the object's entry errors. */
  lemma EntryErrorsAt(schema: ItemSchema, entries: seq<(string, Json)>, index: nat, m: nat, lookup: Lookup)
    returns (before: seq<ValidationError>, after: seq<ValidationError>)
    requires m < |entries|
    ensures EntriesErrors(schema, entries, index, lookup)
      == before + EntryErrors(schema, entries[m].0, entries[m].1, index, lookup) + after
  {
    before, after := FlattenAt(PerEntry(schema, entries, index, lookup), m);
  }

  /** A confidence above 100 of the right type draws the maximum error and nothing else for that key. */
  lemma ConfidenceAboveMaximum(index: nat, n: int)
    requires n > 100
    ensures EntryErrors(PREDICTION_SCHEMA, "confidence", JNum(n as real), index, OwnOnly)
      == [ValidationError(Some(index), Some("confidence"), AboveMaximum(100))]
  {
    var def := PropertyDef("integer", 0, Some(0), Some(100));
    var v := JNum(n as real);
    ConfidenceDefinition();
    assert TypeMatches(v, "integer") by {
      assert (n as real).Floor == n;
    }
    EntryErrorsDefined(PREDICTION_SCHEMA, "confidence", v, index, OwnOnly, def);
    assert n as real > 100 as real;
    assert LimitErrors(def, v, index, "confidence") == [] + [] + [ValidationError(Some(index), Some("confidence"), AboveMaximum(100))];
  }

  /** A defined key whose value has the right type draws exactly the length and range errors. */
  lemma EntryErrorsDefined(schema: ItemSchema, key: string, v: Json, index: nat, lookup: Lookup, def: PropertyDef)
    requires Definition(schema.properties, key, lookup) == Some(def) && TypeMatches(v, def.typeName)
    ensures EntryErrors(schema, key, v, index, lookup) == LimitErrors(def, v, index, key)
  {
  }

  /** The definition found is the one at the first position carrying the key. */
  lemma {:induction false} OwnDefinitionAt(props: seq<(string, PropertyDef)>, key: string, m: nat)
    requires m < |props| && props[m].0 == key
    requires forall j :: 0 <= j < m ==> props[j].0 != key
    ensures OwnDefinition(props, key) == Some(props[m].1)
  {
    if m > 0 {
      assert props[1..][m - 1] == props[m];
      OwnDefinitionAt(props[1..], key, m - 1);
    }
  }

  lemma ConfidenceDefinition()
    ensures OwnDefinition(PREDICTION_SCHEMA.properties, "confidence") == Some(PropertyDef("integer", 0, Some(0), Some(100)))
  {
    var p := PREDICTION_SCHEMA.properties;
    assert p[0].0 != "confidence" && p[1].0 != "confidence" && p[2].0 != "confidence";
    assert p[3].0 != "confidence" && p[4].0 != "confidence" && p[5].0 != "confidence";
    OwnDefinitionAt(p, "confidence", 6);
  }

  /** An empty team name draws the minimum length error. */
  lemma EmptyTeamTooShort(index: nat)
    ensures EntryErrors(PREDICTION_SCHEMA, "homeTeam", JStr(""), index, OwnOnly)
      == [ValidationError(Some(index), Some("homeTeam"), TooShort(1))]
  {
    OwnDefinitionAt(PREDICTION_SCHEMA.properties, "homeTeam", 0);
  }

  /**
   As written, an own key named like an Object.prototype member is looked up
   on the prototype and reported as a type error "undefined"; with an
   own-property lookup it is an unexpected field.
   */
  lemma InheritedKeyMisreported(index: nat, v: Json)
    ensures EntryErrors(PREDICTION_SCHEMA, "constructor", v, index, AsWritten)
      == [ValidationError(Some(index), Some("constructor"), WrongType("undefined"))]
    ensures EntryErrors(PREDICTION_SCHEMA, "constructor", v, index, OwnOnly)
      == [ValidationError(Some(index), Some("constructor"), Unexpected)]
  {
    var p := PREDICTION_SCHEMA.properties;
    ConstructorNotOwn();
    TypeNames(v);
    assert "constructor" in PROTOTYPE_MEMBERS;
    assert Definition(p, "constructor", AsWritten) == Some(PropertyDef("undefined", 0, None, None));
    assert Definition(p, "constructor", OwnOnly) == None;
  }

  /** No schema key is as long as "constructor", so none is it. */
  lemma ConstructorNotOwn()
    ensures OwnDefinition(PREDICTION_SCHEMA.properties, "constructor") == None
  {
    var p := PREDICTION_SCHEMA.properties;
    assert |p[0].0| == 8 && |p[1].0| == 8 && |p[2].0| == 4 && |p[3].0| == 7;
    assert |p[4].0| == 4 && |p[5].0| == 6 && |p[6].0| == 10 && |p[7].0| == 6;
  }


  /** The two lookups disagree on the message only: an item fails under one exactly when it fails under the other. */
  lemma {:induction false} SameVerdict(root: Json)
    ensures ValidateWith(root, AsWritten) == [] <==> ValidateWith(root, OwnOnly) == []
  {
    if root.JArr? {
      SameVerdictItems(root.items);
    }
  }

  lemma SameVerdictItems(items: seq<Json>)
    ensures ItemsErrors(PREDICTION_SCHEMA, items, AsWritten) == [] <==> ItemsErrors(PREDICTION_SCHEMA, items, OwnOnly) == []
  {
    var written, own := PerItem(PREDICTION_SCHEMA, items, AsWritten), PerItem(PREDICTION_SCHEMA, items, OwnOnly);
    forall k | 0 <= k < |items|
      ensures written[k] == [] <==> own[k] == []
    {
      SameVerdictItem(items[k], k);
    }
    FlattenSameEmptiness(written, own);
  }

  lemma SameVerdictItem(item: Json, index: nat)
    ensures ItemErrors(PREDICTION_SCHEMA, item, index, AsWritten) == [] <==> ItemErrors(PREDICTION_SCHEMA, item, index, OwnOnly) == []
  {
    if item.JObj? {
      SameVerdictEntries(item.entries, index);
      RequiredNotInherited();
    }
  }

  /** None of the required keys is an Object.prototype member, so `key in item` sees only own keys for them. */
  lemma RequiredNotInherited()
    ensures forall m :: 0 <= m < |PREDICTION_SCHEMA.required| ==> PREDICTION_SCHEMA.required[m] !in PROTOTYPE_MEMBERS
  {
    var r := PREDICTION_SCHEMA.required;
    assert r[0] !in PROTOTYPE_MEMBERS by { assert r[0][0] == 'h' && "toString"[0] == 't'; }
    assert r[1] !in PROTOTYPE_MEMBERS by { assert r[1][0] == 'a' && "toString"[0] == 't'; }
    assert r[2] !in PROTOTYPE_MEMBERS;
    assert r[3] !in PROTOTYPE_MEMBERS by { assert r[3][0] == 'o' && "valueOf"[0] == 'v'; }
    assert r[4] !in PROTOTYPE_MEMBERS;
    assert r[5] !in PROTOTYPE_MEMBERS;
    assert r[6] !in PROTOTYPE_MEMBERS;
    assert r[7] !in PROTOTYPE_MEMBERS;
  }

  lemma SameVerdictEntries(entries: seq<(string, Json)>, index: nat)
    ensures EntriesErrors(PREDICTION_SCHEMA, entries, index, AsWritten) == [] <==>
      EntriesErrors(PREDICTION_SCHEMA, entries, index, OwnOnly) == []
  {
    var written, own := PerEntry(PREDICTION_SCHEMA, entries, index, AsWritten), PerEntry(PREDICTION_SCHEMA, entries, index, OwnOnly);
    forall m | 0 <= m < |entries|
      ensures written[m] == [] <==> own[m] == []
    {
      SameVerdictEntry(entries[m].0, entries[m].1, index);
    }
    FlattenSameEmptiness(written, own);
  }

  /** An entry is rejected under one lookup exactly when it is under the other: both reject a prototype name. */
  lemma SameVerdictEntry(key: string, v: Json, index: nat)
    ensures EntryErrors(PREDICTION_SCHEMA, key, v, index, AsWritten) == [] <==>
      EntryErrors(PREDICTION_SCHEMA, key, v, index, OwnOnly) == []
  {
    if OwnDefinition(PREDICTION_SCHEMA.properties, key).None? && key in PROTOTYPE_MEMBERS {
      TypeNames(v);
    }
  }

  /** Digits of a natural number, most significant first, no leading zeros. */
  function NatToString(n: nat): (r: string)
    ensures |r| >= 1
    ensures forall m :: 0 <= m < |r| ==> '0' <= r[m] <= '9'
    ensures |r| > 1 ==> r[0] != '0'
    decreases n
  {
    if n < 10 then [Digit(n)]
    else
      var prefix := NatToString(n / 10);
      assert forall m :: 0 <= m < |prefix| ==> (prefix + [Digit(n % 10)])[m] == prefix[m];
      prefix + [Digit(n % 10)]
  }

  function Digit(d: nat): (r: char)
    requires d < 10
    ensures '0' <= r <= '9'
  {
    "0123456789"[d]
  }

  function DigitValue(c: char): nat {
    if '0' <= c <= '9' then (c as int - '0' as int) as nat else 0
  }

  function ParseNat(s: string): nat {
    if |s| == 0 then 0 else ParseNat(s[..|s| - 1]) * 10 + DigitValue(s[|s| - 1])
  }

  /** The rendered index reads back as the index. */
  lemma {:induction false} ParseNatToString(n: nat)
    ensures ParseNat(NatToString(n)) == n
    decreases n
  {
    if n >= 10 {
      var prefix := NatToString(n / 10);
      ParseNatToString(n / 10);
      assert (prefix + [Digit(n % 10)])[..|prefix|] == prefix;
      assert DigitValue(Digit(n % 10)) == n % 10;
    } else {
      assert DigitValue(Digit(n)) == n;
    }
  }

  /** The error's path as a string. */
  function PathText(e: ValidationError): (r: string)
    ensures e.index.None? ==> r == ""
    ensures e.index.Some? ==> |r| >= 2 && r[0] == '/'
  {
    if e.index.None? then ""
    else "/" + NatToString(e.index.value) + (if e.key.Some? then "/" + e.key.value else "")
  }

  function IntToString(i: int): (r: string)
    ensures |r| >= 1
  {
    if i < 0 then "-" + NatToString(-i) else NatToString(i)
  }

  /** The message the script attaches to each kind of error. */
  function Message(kind: ErrorKind): (r: string)
    ensures kind.WrongType? ==> r == "tip mora biti " + kind.expected
    ensures kind == Unexpected ==> r == "neočekivano polje"
    ensures |r| > 0
  {
    match kind
    case NotArray => "koren mora biti niz predikcija"
    case NotObject => "svaka stavka mora biti objekat"
    case Missing => "polje je obavezno"
    case WrongType(t) => "tip mora biti " + t
    case TooShort(m) => "minimalna dužina je " + NatToString(m)
    case BelowMinimum(m) => "minimalna vrednost je " + IntToString(m)
    case AboveMaximum(m) => "maksimalna vrednost je " + IntToString(m)
    case Unexpected => "neočekivano polje"
  }
}
