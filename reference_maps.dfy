/** The identifier tables of the reference migrations and the lookup they all
    perform on an array element: `x._ref && MAP[x._ref]`. */
module ReferenceMaps {
  import opened Text
  import opened Json

  /** Old person identifiers to the artist documents that replace them. */
  const PersonToArtistMap: map<string, string> := map[
    "13384ffd-86fa-41fd-af89-3f3c54d4c23f" := "3f151b53-676a-4dbb-a9c6-7a9fc5952634",
    "d18786be-d29f-40d1-8605-b728a82f8eeb" := "d5ea0301-9ebe-49e5-aa98-3866934f9d88",
    "0cdee811-8f95-442d-ae12-d47d133959e7" := "18eed5a6-d7fa-4925-b316-8c58240500e1"
  ]

  /** Artist identifiers to the person documents that replace them. */
  const ArtistToPersonMap: map<string, string> := map[
    "3f151b53-676a-4dbb-a9c6-7a9fc5952634" := "d2ebbc9b-ae79-40c9-81f3-841b471a43e5",
    "d5ea0301-9ebe-49e5-aa98-3866934f9d88" := "c43bcb53-d258-482a-acf5-5d47f5dbe22e",
    "18eed5a6-d7fa-4925-b316-8c58240500e1" := "42c64ebe-d55a-4586-943d-fd2b6f6d9874"
  ]

  /** The new identifier for array element `x`, if `x._ref && table[x._ref]`
      holds; reading `_ref` of a null element throws. The reference is used
      as a property key, that is, converted to text. */
  function MappedRef(x: Value, table: map<string, string>): (r: Result<Option<string>>)
    ensures r.Thrown? <==> x.Null?
    ensures r.Ok? && r.value.Some? ==>
      && x.Obj? && "_ref" in x.fields
      && var key := ValueText(x.fields["_ref"]);
      && key in table && r.value.value == table[key] && r.value.value != ""
    ensures x.Obj? && "_ref" in x.fields && x.fields["_ref"].Str? && x.fields["_ref"].s != ""
      && x.fields["_ref"].s in table && table[x.fields["_ref"].s] != ""
      ==> r == Ok(Some(table[x.fields["_ref"].s]))
    ensures x.Obj? && "_ref" !in x.fields ==> r == Ok(None)
  {
    match Prop(Some(x), "_ref")
    case TypeError => Thrown
    case Undefined => Ok(None)
    case Present(ref) =>
      if !Truthy(Some(ref)) then Ok(None)
      else
        var key := ValueText(ref);
        if key in table && table[key] != "" then Ok(Some(table[key])) else Ok(None)
  }

  /** No identifier is both a key and a value of either table, so a
      rewritten reference is never rewritten again by the same table. */
  lemma TablesDisjoint()
    ensures PersonToArtistMap.Keys !! PersonToArtistMap.Values
    ensures ArtistToPersonMap.Keys !! ArtistToPersonMap.Values
  {
  }

  /** Every artist document that `PersonToArtistMap` points to is mapped back
      to a person by `ArtistToPersonMap`, and never to the person it came from. */
  lemma TablesChain()
    ensures forall k :: k in PersonToArtistMap ==> PersonToArtistMap[k] in ArtistToPersonMap
    ensures forall k :: k in PersonToArtistMap ==> ArtistToPersonMap[PersonToArtistMap[k]] != k
  {
  }

  /** `{...x, _ref: table[x._ref]}` for a mapped element, `x` otherwise. */
  function SpreadRewrite(x: Value, table: map<string, string>): (r: Result<Value>)
    ensures r.Thrown? <==> x.Null?
    ensures r.Ok? ==> match MappedRef(x, table)
      case Ok(Some(id)) => x.Obj? && r.value == Obj(x.fields["_ref" := Str(id)])
      case _ => r.value == x
  {
    match MappedRef(x, table)
    case Thrown => Thrown
    case Ok(None) => Ok(x)
    case Ok(Some(id)) => Ok(Obj(x.fields["_ref" := Str(id)]))
  }
}
