/** The rule that turns `person` documents into `artist` documents by
    patching them in place: a new `_type`, the core-artist flag, and the
    new artist fields filled with empty defaults where they are missing. */
module PersonToArtist {
  import opened Text
  import opened Json
  import opened Patches

  /** The ids of the two core artists. */
  const CoreArtistIds: seq<string> := [
    "13384ffd-86fa-41fd-af89-3f3c54d4c23f",
    "d18786be-d29f-40d1-8605-b728a82f8eeb"
  ]

  /** `CORE_ARTIST_IDS.includes(doc._id)`: strict equality, so only a string
      id can match. */
  predicate IsCoreArtist(doc: Doc) {
    Get(doc, "_id").Some? && Get(doc, "_id").value.Str? && Get(doc, "_id").value.s in CoreArtistIds
  }

  /** The file's own `set(value)` helper, which returns the function
      `prev => value` rather than a patch operation. */
  function SetHelper(value: Value): (op: Op)
    ensures op.Callback?
    ensures forall prev :: Invoke(op, prev) == value
  {
    Callback(value)
  }

  /** The empty `socialMedia` object. */
  const EmptySocialMedia: Value := Obj(map[
    "instagram" := Str(""), "website" := Str(""), "facebook" := Str(""),
    "twitter" := Str(""), "linkedin" := Str("")])

  /** The patches after the first, given the core-artist flag. */
  function Defaults(isCore: bool): seq<Patch> {
    [
      At("isCoreArtist", SetIfMissing(Bool(isCore))),
      At("isActive", SetIfMissing(Bool(true))),
      At("socialMedia", SetIfMissing(EmptySocialMedia)),
      At("statement", SetIfMissing(Null)),
      At("birthYear", SetIfMissing(Null)),
      At("birthPlace", SetIfMissing(Null)),
      At("currentLocation", SetIfMissing(Null)),
      At("education", SetIfMissing(Arr([]))),
      At("cv", SetIfMissing(Null)),
      At("personalProjects", SetIfMissing(Arr([]))),
      At("interests", SetIfMissing(Arr([]))),
      At("website", SetIfMissing(Str("")))
    ]
  }

  /** The operation list of `document(doc)` as written: its first entry is
      the helper's function value, not a `set` operation. */
  function Operations(doc: Doc): (ps: seq<Patch>)
    ensures |ps| == 13
    ensures ps[0].field == "_type" && ps[0].op.Callback?
    ensures ps[1..] == Defaults(IsCoreArtist(doc))
  {
    [At("_type", SetHelper(Str("artist")))] + Defaults(IsCoreArtist(doc))
  }

  function Migrate(doc: Doc): (m: Migration)
    ensures m.Edits? && m.patches == Operations(doc)
  {
    Edits(Operations(doc))
  }

  /** The defaults are all `setIfMissing` on distinct fields, the first
      holding the core-artist flag. */
  lemma DefaultsShape(isCore: bool)
    ensures OnlySetIfMissing(Defaults(isCore)) && Plain(Defaults(isCore))
    ensures |Defaults(isCore)| == 12
    ensures Defaults(isCore)[0] == At("isCoreArtist", SetIfMissing(Bool(isCore)))
    ensures forall i, j :: 0 <= i < j < 12 ==> Defaults(isCore)[i].field != Defaults(isCore)[j].field
  {
  }

  /** The `_type` entry, called with any previous value, yields "artist". */
  lemma TypeEntryIgnoresPrevious(doc: Doc, prev: Value)
    ensures Invoke(Operations(doc)[0].op, prev) == Str("artist")
  {
  }

  /** The core-artist flag is set (when missing) to whether the id is one of
      the two core ids. */
  lemma CoreFlag(doc: Doc)
    ensures Operations(doc)[1].field == "isCoreArtist"
    ensures Operations(doc)[1].op == SetIfMissing(Bool(IsCoreArtist(doc)))
    ensures IsCoreArtist(doc) <==> Get(doc, "_id") in {Some(Str(CoreArtistIds[0])), Some(Str(CoreArtistIds[1]))}
  {
  }

  /** The defaults never overwrite a field that is set. */
  lemma DefaultsKeepPresent(doc: Doc, f: string)
    requires !Missing(doc, f)
    ensures Get(ApplyPatches(doc, Operations(doc)[1..]), f) == Get(doc, f)
  {
    DefaultsShape(IsCoreArtist(doc));
    SetIfMissingKeepsPresent(doc, Operations(doc)[1..], f);
  }

  /** After the defaults, every default field is present, and non-null
      unless its default is null; applying them again changes nothing. */
  lemma DefaultsSettle(doc: Doc)
    ensures var ps := Operations(doc)[1..];
      OnlySetIfMissing(ps) && Saturated(ApplyPatches(doc, ps), ps)
    ensures var ps := Operations(doc)[1..];
      Plain(ps) && ApplyPatches(ApplyPatches(doc, ps), ps) == ApplyPatches(doc, ps)
  {
    var ps := Operations(doc)[1..];
    DefaultsShape(IsCoreArtist(doc));
    ApplySaturates(doc, ps);
    SetIfMissingIdempotent(doc, ps);
  }

  /** The evidently intended list: `set('artist')` from `sanity/migrate`. */
  function OperationsIntended(doc: Doc): (ps: seq<Patch>)
    ensures |ps| == 13 && ps[1..] == Operations(doc)[1..]
  {
    [At("_type", Set(Str("artist")))] + Defaults(IsCoreArtist(doc))
  }

  /** The intended list is made of plain patch operations; under the patch
      semantics of `Patches.ApplyPatch`, which lets `set` write `_type`, it
      retypes the document, fills the defaults and keeps every field that is
      already set (other than `_type`). The store itself refuses to change
      `_type`; the replacement document of `PersonToArtistV2` avoids that. */
  lemma IntendedRetypes(doc: Doc, f: string)
    ensures Plain(OperationsIntended(doc))
    ensures Get(ApplyPatches(doc, OperationsIntended(doc)), "_type") == Some(Str("artist"))
    ensures f != "_type" && !Missing(doc, f) ==>
      Get(ApplyPatches(doc, OperationsIntended(doc)), f) == Get(doc, f)
  {
    var ps := OperationsIntended(doc);
    var head := At("_type", Set(Str("artist")));
    var rest := Defaults(IsCoreArtist(doc));
    DefaultsShape(IsCoreArtist(doc));
    assert ps == [head] + rest;
    ApplyConcat(doc, [head], rest);
    ApplySingle(doc, head);
    var d1 := ApplyPatch(doc, head);
    assert !Missing(d1, "_type");
    SetIfMissingKeepsPresent(d1, rest, "_type");
    if f != "_type" && !Missing(doc, f) {
      assert Get(d1, f) == Get(doc, f);
      SetIfMissingKeepsPresent(d1, rest, f);
    }
  }

  /** As written, the list holds a function value where an operation is
      expected, so it is not a list of patch operations at all. */
  lemma AsWrittenTypeEntry(doc: Doc)
    ensures !Plain(Operations(doc))
    ensures Plain(OperationsIntended(doc))
  {
    assert Operations(doc)[0].op.Callback?;
    DefaultsShape(IsCoreArtist(doc));
  }
}
