/** The list preview of `projectType` documents. */
module ProjectTypeSchema {
  import opened Text
  import opened Selection

  /** The icon shown when a project type has none. */
  const DefaultIcon: string := "\U{1F4C1}"

  /** `prepare`: the icon (or the folder) before the title; the description
      as subtitle. */
  function Prepare(title: Option<string>, icon: Option<string>, description: Option<string>): (p: Preview)
    ensures p.title == Some(IconTitle(icon, DefaultIcon, title))
    ensures p.subtitle == description && p.media.None?
  {
    Preview(Some(IconTitle(icon, DefaultIcon, title)), description, None)
  }

  /** The preview title ends with the type's title and begins with its icon,
      or with the folder when the icon is falsy. */
  lemma TitleShape(title: Option<string>, icon: Option<string>, description: Option<string>)
    ensures var t := Prepare(title, icon, description).title.value;
      var suffix := " " + Interpolate(title);
      |suffix| <= |t| && t[|t| - |suffix|..] == suffix
    ensures Filled(icon) ==> StartsWith(Prepare(title, icon, description).title.value, icon.value)
    ensures !Filled(icon) ==> StartsWith(Prepare(title, icon, description).title.value, DefaultIcon)
  {
    IconTitleEnds(icon, DefaultIcon, title);
  }
}
