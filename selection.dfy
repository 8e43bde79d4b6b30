/** What a schema preview's `select` hands to `prepare`: each selected path
    is a string (or another value) or `undefined` when the document lacks it. */
module Selection {
  import opened Text
  import opened Json

  /** A selected string is truthy: present and non-empty. */
  predicate Filled(o: Option<string>) {
    o.Some? && o.value != ""
  }

  /** `o || ''`. */
  function OrEmpty(o: Option<string>): (r: string)
    ensures Filled(o) ==> r == o.value
    ensures !Filled(o) ==> r == ""
  {
    if Filled(o) then o.value else ""
  }

  /** `${o}` for a selected string: `undefined` prints as "undefined". */
  function Interpolate(o: Option<string>): (r: string)
    ensures o.Some? ==> r == o.value
    ensures o.None? ==> r == "undefined"
  {
    if o.Some? then o.value else "undefined"
  }

  /** What `prepare` returns: `title`, `subtitle` and `media`, each possibly
      undefined. */
  datatype Preview = Preview(title: Option<string>, subtitle: Option<string>, media: Option<Value>)

  /** `${icon || fallback} ${title}`: the icon (or the fallback when it is
      falsy), a space, then the title as text. */
  function IconTitle(icon: Option<string>, fallback: string, title: Option<string>): (r: string)
    ensures Filled(icon) ==> r == icon.value + " " + Interpolate(title)
    ensures !Filled(icon) ==> r == fallback + " " + Interpolate(title)
  {
    (if Filled(icon) then icon.value else fallback) + " " + Interpolate(title)
  }

  /** The title always ends with a space and the given title. */
  lemma IconTitleEnds(icon: Option<string>, fallback: string, title: Option<string>)
    ensures var r := IconTitle(icon, fallback, title);
      var suffix := " " + Interpolate(title);
      |suffix| <= |r| && r[|r| - |suffix|..] == suffix
  {
    var r := IconTitle(icon, fallback, title);
    var head := if Filled(icon) then icon.value else fallback;
    assert r == head + (" " + Interpolate(title));
  }
}
