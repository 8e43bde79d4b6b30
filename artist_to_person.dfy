/** The rule that repoints artist references to person documents: the first
    of six (document type, array field) steps whose field is truthy rewrites
    that array, replacing each element whose `_ref` is a known artist. */
module ArtistToPerson {
  import opened Text
  import opened Json
  import opened Patches
  import opened ReferenceMaps

  /** The document types the rule is registered for. */
  const DocumentTypes: set<string> := {"artist", "artwork", "project", "award", "exhibition"}

  /** The steps, in the order they are tried. */
  const Steps: seq<(string, string)> := [
    ("artwork", "artists"),
    ("project", "creators"),
    ("project", "collaborators"),
    ("award", "recipients"),
    ("exhibition", "curators"),
    ("exhibition", "participants")
  ]

  /** `doc._type === type && doc[field]`. */
  predicate StepApplies(doc: Doc, i: nat)
    requires i < |Steps|
  {
    Get(doc, "_type") == Some(Str(Steps[i].0)) && Truthy(Get(doc, Steps[i].1))
  }

  /** The first step at or after `from` that applies. */
  function FirstStep(doc: Doc, from: nat): (r: Option<nat>)
    requires from <= |Steps|
    ensures r.Some? ==> from <= r.value < |Steps| && StepApplies(doc, r.value)
    ensures r.Some? ==> forall j: nat :: from <= j < r.value ==> !StepApplies(doc, j)
    ensures r.None? ==> forall j: nat :: from <= j < |Steps| ==> !StepApplies(doc, j)
    decreases |Steps| - from
  {
    if from == |Steps| then None
    else if StepApplies(doc, from) then Some(from)
    else FirstStep(doc, from + 1)
  }

  /** The element rewrite as written: a mapped element becomes the value of
      `at('_ref', set(id))`, a patch object, not a reference. */
  function RewriteElement(x: Value): Result<Value> {
    match MappedRef(x, ArtistToPersonMap)
    case Thrown => Thrown
    case Ok(None) => Ok(x)
    case Ok(Some(id)) => Ok(SetPatchValue("_ref", Str(id)))
  }

  /** The element rewrite evidently intended: the reference keeps its other
      fields and takes the person identifier. */
  function RewriteElementIntended(x: Value): Result<Value> {
    SpreadRewrite(x, ArtistToPersonMap)
  }

  /** The first applicable step rewrites its array with `rewrite`; `.map` on a
      truthy value that is not an array throws. */
  function MigrateWith(doc: Doc, rewrite: Value -> Result<Value>): Migration {
    match FirstStep(doc, 0)
    case None => NoChange
    case Some(i) =>
      var field := Steps[i].1;
      var v := Get(doc, field).value;
      if !v.Arr? then Throws
      else
        match MapArray(v.items, rewrite)
        case Thrown => Throws
        case Ok(ys) => Edits([At(field, Set(Arr(ys)))])
  }

  /** `document(doc)` as written. */
  function Migrate(doc: Doc): Migration {
    MigrateWith(doc, RewriteElement)
  }

  /** `document(doc)` with the intended element rewrite. */
  function MigrateIntended(doc: Doc): Migration {
    MigrateWith(doc, RewriteElementIntended)
  }

  /** The runner calls `document` only for the registered types. */
  function Run(doc: Doc): (r: Migration)
    ensures r == Migrate(doc)
  {
    if Get(doc, "_type").Some? && Get(doc, "_type").value.Str? && Get(doc, "_type").value.s in DocumentTypes
    then Migrate(doc)
    else NoChange
  }

  /** The rule leaves a document alone exactly when no step applies. */
  lemma {:induction false} NoChangeIffNoStep(doc: Doc, rewrite: Value -> Result<Value>)
    ensures MigrateWith(doc, rewrite) == NoChange <==> forall j: nat :: j < |Steps| ==> !StepApplies(doc, j)
  {
    if FirstStep(doc, 0).Some? {
      var i := FirstStep(doc, 0).value;
      assert StepApplies(doc, i);
    }
  }

  /** Only the first applicable step acts: the rule returns one `set` on that
      step's field, or throws, and no later step's field is touched. */
  lemma {:induction false} FirstStepOnly(doc: Doc, rewrite: Value -> Result<Value>, i: nat)
    requires i < |Steps| && StepApplies(doc, i)
    requires forall j: nat :: j < i ==> !StepApplies(doc, j)
    ensures MigrateWith(doc, rewrite).Edits? || MigrateWith(doc, rewrite).Throws?
    ensures MigrateWith(doc, rewrite).Edits? ==>
      && |MigrateWith(doc, rewrite).patches| == 1
      && MigrateWith(doc, rewrite).patches[0].field == Steps[i].1
      && MigrateWith(doc, rewrite).patches[0].op.Set?
  {
  }

  /** A project with truthy `creators` never has its `collaborators` rewritten. */
  lemma CreatorsShadowCollaborators(doc: Doc, rewrite: Value -> Result<Value>)
    requires Get(doc, "_type") == Some(Str("project")) && Truthy(Get(doc, "creators"))
    ensures MigrateWith(doc, rewrite).Edits? ==> MigrateWith(doc, rewrite).patches[0].field == "creators"
  {
    assert !StepApplies(doc, 0);
    FirstStepOnly(doc, rewrite, 1);
  }

  /** When step `i` acts, the rule throws exactly when the field is not an
      array or one of its elements throws; otherwise the new array has the
      same length and each element is the rewrite of the one at its place. */
  lemma {:induction false} StepResult(doc: Doc, rewrite: Value -> Result<Value>, i: nat)
    requires i < |Steps| && StepApplies(doc, i)
    requires forall j: nat :: j < i ==> !StepApplies(doc, j)
    ensures var v := Get(doc, Steps[i].1).value;
      MigrateWith(doc, rewrite).Throws?
      <==> !v.Arr? || exists k :: 0 <= k < |v.items| && rewrite(v.items[k]).Thrown?
    ensures MigrateWith(doc, rewrite).Edits? ==>
      && var v := Get(doc, Steps[i].1).value;
      && var ys := MigrateWith(doc, rewrite).patches[0].op.value;
      && v.Arr? && ys.Arr? && |ys.items| == |v.items|
      && forall k :: 0 <= k < |v.items| ==> ys.items[k] == rewrite(v.items[k]).value
  {
    FirstStepOnly(doc, rewrite, i);
  }

  /** As written, the rule throws on a null element and keeps unmapped
      elements, but puts a patch object in place of every mapped reference:
      the new element has no `_type`, `_ref` or `_key`. */
  lemma AsWrittenElements(x: Value)
    ensures RewriteElement(x).Thrown? <==> x.Null?
    ensures MappedRef(x, ArtistToPersonMap) == Ok(None) ==> RewriteElement(x) == Ok(x)
    ensures MappedRef(x, ArtistToPersonMap).Ok? && MappedRef(x, ArtistToPersonMap).value.Some? ==>
      && var y := RewriteElement(x).value;
      && y.Obj? && "_ref" !in y.fields && "_type" !in y.fields && "_key" !in y.fields
      && y.fields["op"].fields["value"] == Str(MappedRef(x, ArtistToPersonMap).value.value)
  {
  }

  /** A concrete project whose one creator is Markus Schork's artist reference. */
  const MarkusAsCreator: Doc := map[
    "_type" := Str("project"),
    "creators" := Arr([Obj(map[
      "_type" := Str("reference"),
      "_ref" := Str("3f151b53-676a-4dbb-a9c6-7a9fc5952634"),
      "_key" := Str("k1")])])
  ]

  /** On that project the rule as written sets `creators` to an array whose
      element is not a reference at all. */
  lemma AsWrittenLosesReference()
    ensures Migrate(MarkusAsCreator).Edits?
    ensures var ys := Migrate(MarkusAsCreator).patches[0].op.value;
      ys.Arr? && |ys.items| == 1 && ys.items[0].Obj? && "_ref" !in ys.items[0].fields
  {
    var doc := MarkusAsCreator;
    assert !StepApplies(doc, 0);
    assert StepApplies(doc, 1);
    StepResult(doc, RewriteElement, 1);
    var x := doc["creators"].items[0];
    assert MappedRef(x, ArtistToPersonMap) == Ok(Some("d2ebbc9b-ae79-40c9-81f3-841b471a43e5"));
    AsWrittenElements(x);
  }

  /** With the intended rewrite every element keeps its fields; a mapped one
      has only its `_ref` replaced by the person identifier, so a reference
      stays a reference. */
  lemma {:induction false} IntendedKeepsReferences(doc: Doc, i: nat, k: nat)
    requires i < |Steps| && StepApplies(doc, i)
    requires forall j: nat :: j < i ==> !StepApplies(doc, j)
    requires MigrateIntended(doc).Edits?
    ensures var xs := Get(doc, Steps[i].1).value.items;
      var ys := MigrateIntended(doc).patches[0].op.value.items;
      k < |xs| ==>
        && ys[k].Obj? == xs[k].Obj?
        && (xs[k].Obj? ==> ys[k].fields.Keys == xs[k].fields.Keys)
        && (xs[k].Obj? ==> forall g :: g in xs[k].fields && g != "_ref" ==> ys[k].fields[g] == xs[k].fields[g])
        && (MappedRef(xs[k], ArtistToPersonMap).Ok? && MappedRef(xs[k], ArtistToPersonMap).value.Some? ==>
              ys[k].fields["_ref"] == Str(MappedRef(xs[k], ArtistToPersonMap).value.value))
  {
    StepResult(doc, RewriteElementIntended, i);
    var xs := Get(doc, Steps[i].1).value.items;
    if k < |xs| {
      var r := RewriteElementIntended(xs[k]);
      assert r.Ok?;
    }
  }
}
