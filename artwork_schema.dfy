/** The two computed parts of the `artwork` schema: when the location
    reference is hidden, and the list preview. */
module ArtworkSchema {
  import opened Text
  import opened Json
  import opened Selection

  /** `parent?.locationType`: the field's value when the parent is an object
      that has it, undefined otherwise. */
  function LocationType(parent: Option<Value>): (r: Option<Value>)
    ensures r.Some? <==> parent.Some? && parent.value.Obj? && "locationType" in parent.value.fields
    ensures r.Some? ==> r.value == parent.value.fields["locationType"]
  {
    match parent
    case Some(Obj(m)) => Get(m, "locationType")
    case _ => None
  }

  /** The `hidden` callback of the location reference. */
  predicate LocationHidden(parent: Option<Value>) {
    LocationType(parent) == Some(Str("privateCollection"))
    || LocationType(parent) == Some(Str("artistCollection"))
  }

  /** The location is hidden exactly for works in a private or the artist's
      own collection; it is shown for institutions and when the type is not set. */
  lemma LocationHiddenCases(parent: Option<Value>)
    ensures LocationHidden(parent) <==>
      parent.Some? && parent.value.Obj? && "locationType" in parent.value.fields
      && parent.value.fields["locationType"] in {Str("privateCollection"), Str("artistCollection")}
    ensures LocationType(parent) == Some(Str("institution")) ==> !LocationHidden(parent)
    ensures LocationType(parent).None? ==> !LocationHidden(parent)
  {
  }

  /** `prepare`: "by " and the first creator's name, or empty. */
  function Prepare(title: Option<string>, creator0: Option<string>, media: Option<Value>): (p: Preview)
    ensures p.title == title && p.media == media
    ensures Filled(creator0) ==> p.subtitle == Some("by " + creator0.value)
    ensures !Filled(creator0) ==> p.subtitle == Some("")
  {
    Preview(title, Some(if Filled(creator0) then "by " + creator0.value else ""), media)
  }
}
