/** The list preview of `category` documents. */
module CategorySchema {
  import opened Text
  import opened Selection

  /** `prepare`: "Child of" the parent's title, or "Top level category". */
  function Prepare(title: Option<string>, parentTitle: Option<string>): (p: Preview)
    ensures p.title == title && p.media.None?
    ensures p.subtitle.Some? && p.subtitle.value != ""
    ensures Filled(parentTitle) ==> p.subtitle == Some("Child of " + parentTitle.value)
    ensures !Filled(parentTitle) ==> p.subtitle == Some("Top level category")
  {
    Preview(title, Some(if Filled(parentTitle) then "Child of " + parentTitle.value else "Top level category"), None)
  }
}
