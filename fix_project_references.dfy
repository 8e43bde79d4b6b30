/** The repair rule for projects whose `creators` or `collaborators` array
    holds patch objects (`{path, op}`) in place of references: it keeps the
    items whose `op.value` is set and turns each into a reference to that
    identifier, dropping every other item. */
module FixProjectReferences {
  import opened Text
  import opened Json
  import opened Patches
  import opened ReferenceMaps
  import ArtistToPerson

  /** `item.op && item.path`; reading a property of a null item throws. */
  function Malformed(x: Value): (r: Result<bool>)
    ensures r.Thrown? <==> x.Null?
    ensures r == Ok(true) <==> x.Obj? && Truthy(Get(x.fields, "op")) && Truthy(Get(x.fields, "path"))
  {
    match Prop(Some(x), "op")
    case TypeError => Thrown
    case op =>
      if !Truthy(AsOption(op)) then Ok(false)
      else Ok(Truthy(AsOption(Prop(Some(x), "path"))))
  }

  /** `item.op.value`, undefined when there is no `op`. */
  function OpValue(x: Value): Option<Value> {
    AsOption(Prop(AsOption(Prop(Some(x), "op")), "value"))
  }

  /** `item.op && item.op.value`. */
  function Carries(x: Value): (r: Result<bool>)
    ensures r.Thrown? <==> x.Null?
    ensures r == Ok(true) <==> Truthy(OpValue(x))
  {
    match Prop(Some(x), "op")
    case TypeError => Thrown
    case op => Ok(Truthy(AsOption(op)) && Truthy(OpValue(x)))
  }

  /** `{_type: 'reference', _ref: item.op.value, _key: item._key}`; an
      undefined `_key` is not written. */
  function Repaired(x: Value): (y: Value)
    requires Truthy(OpValue(x))
    ensures y.Obj? && y.fields.Keys <= {"_type", "_ref", "_key"}
    ensures Get(y.fields, "_type") == Some(Str("reference"))
    ensures Get(y.fields, "_ref") == OpValue(x)
    ensures Get(y.fields, "_key") == Get(x.fields, "_key")
  {
    Obj(map["_type" := Str("reference"), "_ref" := OpValue(x).value] + Pick(x.fields, "_key"))
  }

  /** `xs.some(Malformed)`: stops at the first malformed item. */
  function SomeMalformed(xs: seq<Value>): (r: Result<bool>)
    ensures r.Thrown? ==> exists k :: 0 <= k < |xs| && xs[k].Null?
    ensures (forall k :: 0 <= k < |xs| ==> !xs[k].Null?) ==> r.Ok?
    ensures r == Ok(false) <==> forall k :: 0 <= k < |xs| ==> Malformed(xs[k]) == Ok(false)
  {
    if xs == [] then Ok(false)
    else
      match Malformed(xs[0])
      case Thrown => Thrown
      case Ok(true) => Ok(true)
      case Ok(false) =>
        var r := SomeMalformed(xs[1..]);
        assert forall k :: 1 <= k < |xs| ==> xs[k] == xs[1..][k - 1];
        r
  }

  /** `xs.filter(Carries).map(Repaired)`. */
  function RepairAll(xs: seq<Value>): (r: Result<seq<Value>>)
    ensures r.Thrown? <==> exists k :: 0 <= k < |xs| && xs[k].Null?
    ensures r.Ok? ==> |r.value| <= |xs|
  {
    if xs == [] then Ok([])
    else
      match Carries(xs[0])
      case Thrown => Thrown
      case Ok(keep) =>
        var rest := RepairAll(xs[1..]);
        assert forall k :: 1 <= k < |xs| ==> xs[k] == xs[1..][k - 1];
        if rest.Thrown? then Thrown
        else Ok((if keep then [Repaired(xs[0])] else []) + rest.value)
  }

  datatype FieldOutcome = NotMalformed | Repair(items: seq<Value>) | Fail

  /** The check and repair of one array field of a project. */
  function FixField(doc: Doc, f: string): FieldOutcome {
    if !(Get(doc, "_type") == Some(Str("project")) && Truthy(Get(doc, f)) && doc[f].Arr?) then NotMalformed
    else
      match SomeMalformed(doc[f].items)
      case Thrown => Fail
      case Ok(false) => NotMalformed
      case Ok(true) =>
        match RepairAll(doc[f].items)
        case Thrown => Fail
        case Ok(ys) => Repair(ys)
  }

  /** `document(doc)`: `creators` first; `collaborators` only when the
      creators need no repair. */
  function Migrate(doc: Doc): Migration {
    match FixField(doc, "creators")
    case Fail => Throws
    case Repair(ys) => Edits([At("creators", Set(Arr(ys)))])
    case NotMalformed =>
      match FixField(doc, "collaborators")
      case Fail => Throws
      case Repair(ys) => Edits([At("collaborators", Set(Arr(ys)))])
      case NotMalformed => NoChange
  }

  /** A field of a project with a truthy array fails exactly when one of its
      items is null, and is repaired exactly when, besides, some item is
      malformed. */
  lemma {:induction false} FieldOutcomes(doc: Doc, f: string)
    requires Get(doc, "_type") == Some(Str("project")) && Truthy(Get(doc, f)) && doc[f].Arr?
    ensures FixField(doc, f).Fail? <==> exists k :: 0 <= k < |doc[f].items| && doc[f].items[k].Null?
    ensures FixField(doc, f).NotMalformed? <==> forall k :: 0 <= k < |doc[f].items| ==> Malformed(doc[f].items[k]) == Ok(false)
  {
    var xs := doc[f].items;
    if SomeMalformed(xs) == Ok(false) {
      forall k | 0 <= k < |xs| ensures !xs[k].Null? {
        assert Malformed(xs[k]) == Ok(false);
      }
    }
  }

  /** Repair distributes over concatenation: the kept items stay in order. */
  lemma {:induction false} RepairAllConcat(a: seq<Value>, b: seq<Value>)
    ensures RepairAll(a + b) ==
      if RepairAll(a).Thrown? || RepairAll(b).Thrown? then Thrown
      else Ok(RepairAll(a).value + RepairAll(b).value)
    decreases |a|
  {
    if a == [] {
      assert a + b == b;
      if RepairAll(b).Ok? {
        assert [] + RepairAll(b).value == RepairAll(b).value;
      }
    } else {
      assert (a + b)[0] == a[0];
      assert (a + b)[1..] == a[1..] + b;
      RepairAllConcat(a[1..], b);
      if !a[0].Null? && RepairAll(a[1..]).Ok? && RepairAll(b).Ok? {
        var head := if Carries(a[0]).value then [Repaired(a[0])] else [];
        assert RepairAll(a).value == head + RepairAll(a[1..]).value;
        assert RepairAll(a + b).value == head + (RepairAll(a[1..]).value + RepairAll(b).value);
        assert head + (RepairAll(a[1..]).value + RepairAll(b).value)
          == (head + RepairAll(a[1..]).value) + RepairAll(b).value;
      }
    }
  }

  /** One item is kept, as a reference, exactly when it carries `op.value`. */
  lemma RepairOne(x: Value)
    requires !x.Null?
    ensures RepairAll([x]) == Ok(if Truthy(OpValue(x)) then [Repaired(x)] else [])
  {
    assert [x][1..] == [];
    assert [x][0] == x;
    var head := if Carries(x).value then [Repaired(x)] else [];
    assert RepairAll([x]) == Ok(head + []);
    assert head + [] == head;
  }

  /** Every repaired item is a reference without `op`, hence not malformed. */
  lemma {:induction false} RepairedWellFormed(xs: seq<Value>)
    requires RepairAll(xs).Ok?
    ensures forall k :: 0 <= k < |RepairAll(xs).value| ==>
      && RepairAll(xs).value[k].Obj?
      && Get(RepairAll(xs).value[k].fields, "_type") == Some(Str("reference"))
      && Malformed(RepairAll(xs).value[k]) == Ok(false)
      && Carries(RepairAll(xs).value[k]) == Ok(false)
  {
    if xs != [] {
      assert forall k :: 1 <= k < |xs| ==> xs[k] == xs[1..][k - 1];
      RepairedWellFormed(xs[1..]);
    }
  }

  /** The document after the rule's patches. */
  function After(doc: Doc): Doc
    requires Migrate(doc).Edits?
  {
    ApplyPatches(doc, Migrate(doc).patches)
  }

  /** Re-running the rule settles: after a repair of `collaborators` a second
      run changes nothing; after a repair of `creators` a second run can only
      act on `collaborators`, exactly as the first run would have done had the
      creators been sound. */
  lemma {:induction false} RepairSettles(doc: Doc)
    requires Migrate(doc).Edits?
    ensures Migrate(doc).patches[0].field == "collaborators" ==> Migrate(After(doc)) == NoChange
    ensures Migrate(doc).patches[0].field == "creators" ==>
      Migrate(After(doc)) == match FixField(doc, "collaborators")
        case Fail => Throws
        case Repair(ys) => Edits([At("collaborators", Set(Arr(ys)))])
        case NotMalformed => NoChange
  {
    var p := Migrate(doc).patches[0];
    ApplySingle(doc, p);
    var d1 := After(doc);
    var f := p.field;
    var g := if f == "creators" then "collaborators" else "creators";
    assert d1 == doc[f := p.op.value];
    var xs := doc[f].items;
    assert FixField(doc, f) == Repair(p.op.value.items);
    RepairedWellFormed(xs);
    FieldOutcomes(d1, f);
    assert FixField(d1, f) == NotMalformed;
    assert FixField(d1, g) == FixField(doc, g);
  }

  /** What the repair recovers from one item after the artist-to-person rule
      as written: a bare reference, without `_key`, when the item was mapped. */
  function SurvivorOf(x: Value): seq<Value> {
    match MappedRef(x, ArtistToPersonMap)
    case Ok(Some(id)) => [Obj(map["_type" := Str("reference"), "_ref" := Str(id)])]
    case _ => []
  }

  function Survivors(xs: seq<Value>): seq<Value> {
    if xs == [] then [] else SurvivorOf(xs[0]) + Survivors(xs[1..])
  }

  lemma RepairRewritten(x: Value, y: Value)
    requires x.Obj? && "op" !in x.fields
    requires ArtistToPerson.RewriteElement(x) == Ok(y)
    ensures RepairAll([y]) == Ok(SurvivorOf(x))
  {
    RepairOne(y);
    var m := MappedRef(x, ArtistToPersonMap);
    if m.Ok? && m.value.Some? {
      assert Truthy(OpValue(y));
      assert Repaired(y) == Obj(map["_type" := Str("reference"), "_ref" := Str(m.value.value)]);
    } else {
      assert y == x;
    }
  }

  /** Repairing the as-written output of the artist-to-person rule keeps only
      the items that rule mapped, as references to the new person without
      their `_key`; every unmapped reference is dropped. */
  lemma {:induction false} RepairAfterArtistToPerson(xs: seq<Value>, ys: seq<Value>)
    requires forall k :: 0 <= k < |xs| ==> xs[k].Obj? && "op" !in xs[k].fields
    requires |ys| == |xs|
    requires forall k :: 0 <= k < |xs| ==> ArtistToPerson.RewriteElement(xs[k]) == Ok(ys[k])
    ensures RepairAll(ys) == Ok(Survivors(xs))
    decreases |xs|
  {
    if xs != [] {
      assert forall k :: 1 <= k < |xs| ==> xs[k] == xs[1..][k - 1] && ys[k] == ys[1..][k - 1];
      RepairAfterArtistToPerson(xs[1..], ys[1..]);
      assert ys == [ys[0]] + ys[1..];
      RepairAllConcat([ys[0]], ys[1..]);
      RepairRewritten(xs[0], ys[0]);
    }
  }
}
