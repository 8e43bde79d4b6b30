/** The rule that repoints project creators from old person documents to the
    artist documents that replace them, keeping every other field of each
    reference. */
module UpdateProjectReferences {
  import opened Text
  import opened Json
  import opened Patches
  import opened ReferenceMaps

  /** The store-side filter `defined(creators) && count(creators[]) > 0` on
      documents of type `project`. */
  predicate Selected(doc: Doc) {
    && Get(doc, "_type") == Some(Str("project"))
    && "creators" in doc && doc["creators"].Arr? && |doc["creators"].items| > 0
  }

  function RewriteCreator(x: Value): Result<Value> {
    SpreadRewrite(x, PersonToArtistMap)
  }

  /** `document(doc)`: nothing unless `creators` is a truthy array, else one
      `set` of the rewritten array. */
  function Migrate(doc: Doc): Migration {
    if !Truthy(Get(doc, "creators")) || !doc["creators"].Arr? then NoChange
    else
      match MapArray(doc["creators"].items, RewriteCreator)
      case Thrown => Throws
      case Ok(ys) => Edits([At("creators", Set(Arr(ys)))])
  }

  /** The runner: only selected documents reach `document`. */
  function Run(doc: Doc): (r: Migration)
    ensures r != NoChange ==> Selected(doc)
    ensures Selected(doc) ==> r.Edits? || r.Throws?
  {
    if Selected(doc) then Migrate(doc) else NoChange
  }

  /** What the rule does to a document with a creators array: it throws
      exactly when a creator is null; otherwise the array keeps its length
      and order, a mapped creator keeps all its fields but takes the artist
      identifier as `_ref`, and every other creator is kept as it is. */
  lemma {:induction false} MigrateCharacterised(doc: Doc)
    ensures Migrate(doc) == NoChange <==> !Truthy(Get(doc, "creators")) || !doc["creators"].Arr?
    ensures Migrate(doc).Throws? <==>
      && Truthy(Get(doc, "creators")) && doc["creators"].Arr?
      && exists k :: 0 <= k < |doc["creators"].items| && doc["creators"].items[k].Null?
    ensures Migrate(doc).Edits? ==>
      && var xs := doc["creators"].items;
      && Migrate(doc) == Edits([At("creators", Set(Migrate(doc).patches[0].op.value))])
      && var ys := Migrate(doc).patches[0].op.value.items;
      && |ys| == |xs|
      && forall k :: 0 <= k < |xs| ==>
           match MappedRef(xs[k], PersonToArtistMap)
           case Ok(Some(id)) => xs[k].Obj? && ys[k] == Obj(xs[k].fields["_ref" := Str(id)])
           case _ => ys[k] == xs[k]
  {
    if Truthy(Get(doc, "creators")) && doc["creators"].Arr? {
      var xs := doc["creators"].items;
      var r := MapArray(xs, RewriteCreator);
      if r.Thrown? {
        var k :| 0 <= k < |xs| && !RewriteCreator(xs[k]).Ok?;
        assert xs[k].Null?;
      } else {
        forall k | 0 <= k < |xs| ensures !xs[k].Null? {
          assert RewriteCreator(xs[k]).Ok?;
        }
      }
    }
  }

  /** A creator that the rule produced is left alone by a second run. */
  lemma RewriteSettles(x: Value)
    requires RewriteCreator(x).Ok?
    ensures RewriteCreator(RewriteCreator(x).value) == Ok(RewriteCreator(x).value)
  {
    TablesDisjoint();
    match MappedRef(x, PersonToArtistMap)
    case Ok(Some(id)) =>
      var y := RewriteCreator(x).value;
      assert id in PersonToArtistMap.Values;
      assert y.fields["_ref"] == Str(id);
      assert MappedRef(y, PersonToArtistMap) == Ok(None);
    case _ =>
  }

  /** Running the rule again on its own output sets `creators` to the value
      it already has, so applying the second result changes nothing. */
  lemma {:induction false} Idempotent(doc: Doc)
    requires Migrate(doc).Edits?
    ensures var d1 := ApplyPatches(doc, Migrate(doc).patches);
      && "creators" in d1
      && Migrate(d1) == Edits([At("creators", Set(d1["creators"]))])
      && ApplyPatches(d1, Migrate(d1).patches) == d1
  {
    MigrateCharacterised(doc);
    var xs := doc["creators"].items;
    var ys := Migrate(doc).patches[0].op.value.items;
    var d1 := ApplyPatches(doc, Migrate(doc).patches);
    ApplySingle(doc, Migrate(doc).patches[0]);
    assert d1 == doc["creators" := Arr(ys)];
    forall k | 0 <= k < |ys| ensures RewriteCreator(ys[k]) == Ok(ys[k]) {
      assert RewriteCreator(xs[k]).Ok?;
      RewriteSettles(xs[k]);
    }
    var zs := MapArray(ys, RewriteCreator);
    assert zs == Ok(ys) by {
      assert zs.Ok?;
      assert zs.value == ys;
    }
    ApplySingle(d1, Migrate(d1).patches[0]);
    assert ApplyPatches(d1, Migrate(d1).patches) == d1["creators" := Arr(ys)];
  }
}
