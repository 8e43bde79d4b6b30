/** The list preview of `mediaType` documents. */
module MediaTypeSchema {
  import opened Text
  import opened Selection

  /** The icon shown when a media type has none. */
  const DefaultIcon: string := "\U{1F4F8}"

  /** `prepare`: the icon (or the camera) before the title; the description
      as subtitle. */
  function Prepare(title: Option<string>, icon: Option<string>, description: Option<string>): (p: Preview)
    ensures p.title == Some(IconTitle(icon, DefaultIcon, title))
    ensures p.subtitle == description && p.media.None?
  {
    Preview(Some(IconTitle(icon, DefaultIcon, title)), description, None)
  }

  /** The preview title ends with the type's title and begins with its icon,
      or with the camera when the icon is falsy. */
  lemma TitleShape(title: Option<string>, icon: Option<string>, description: Option<string>)
    ensures var t := Prepare(title, icon, description).title.value;
      var suffix := " " + Interpolate(title);
      |suffix| <= |t| && t[|t| - |suffix|..] == suffix
    ensures Filled(icon) ==> StartsWith(Prepare(title, icon, description).title.value, icon.value)
    ensures !Filled(icon) ==> StartsWith(Prepare(title, icon, description).title.value, DefaultIcon)
  {
    IconTitleEnds(icon, DefaultIcon, title);
  }
}
