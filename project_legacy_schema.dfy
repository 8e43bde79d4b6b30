/** The list preview of legacy `project` documents: the title over
    "by First Last (Role)" for the first creator. */
module ProjectLegacySchema {
  import opened Text
  import opened Json
  import opened Selection

  /** `creatorName`: "first last" when both are truthy, otherwise whichever
      one is, otherwise empty. */
  function CreatorName(creator0: Option<string>, creatorLast0: Option<string>): (r: string)
    ensures r == "" <==> !Filled(creator0) && !Filled(creatorLast0)
    ensures Filled(creator0) && !Filled(creatorLast0) ==> r == creator0.value
    ensures !Filled(creator0) && Filled(creatorLast0) ==> r == creatorLast0.value
    ensures Filled(creator0) && Filled(creatorLast0) ==>
      StartsWith(r, creator0.value) && r[|creator0.value|..] == " " + creatorLast0.value
  {
    if Filled(creator0) && Filled(creatorLast0) then creator0.value + " " + creatorLast0.value
    else OrEmpty(if Filled(creator0) then creator0 else creatorLast0)
  }

  /** The subtitle: empty without a creator name, otherwise "by " and the
      name, then " (role)" when the role is truthy. */
  function Subtitle(creatorName: string, creatorRole0: Option<string>): (r: string)
    ensures r == "" <==> creatorName == ""
    ensures creatorName != "" ==> StartsWith(r, "by " + creatorName)
    ensures creatorName != "" && !Filled(creatorRole0) ==> r == "by " + creatorName
    ensures creatorName != "" && Filled(creatorRole0) ==>
      r[|"by " + creatorName|..] == " (" + creatorRole0.value + ")"
  {
    if creatorName == "" then ""
    else "by " + creatorName + if Filled(creatorRole0) then " (" + creatorRole0.value + ")" else ""
  }

  /** `prepare`: title and media as selected, the subtitle as above. */
  function Prepare(title: Option<string>, creator0: Option<string>, creatorLast0: Option<string>,
                   creatorRole0: Option<string>, media: Option<Value>): (p: Preview)
    ensures p.title == title && p.media == media
    ensures p.subtitle == Some(Subtitle(CreatorName(creator0, creatorLast0), creatorRole0))
  {
    var creatorName := CreatorName(creator0, creatorLast0);
    Preview(title, Some(Subtitle(creatorName, creatorRole0)), media)
  }

  /** A project without a named first creator has an empty subtitle, even
      when a role is selected. */
  lemma NoCreatorNoSubtitle(title: Option<string>, creator0: Option<string>, creatorLast0: Option<string>,
                            creatorRole0: Option<string>, media: Option<Value>)
    requires !Filled(creator0) && !Filled(creatorLast0)
    ensures Prepare(title, creator0, creatorLast0, creatorRole0, media).subtitle == Some("")
  {
  }
}
