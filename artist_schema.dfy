/** The two computed parts of the `artist` schema: the text its slug is
    generated from, and the list preview ("First M. Last" over the first
    role and a core-artist badge). */
module ArtistSchema {
  import opened Text
  import opened Json
  import opened Selection

  /** The slug `source`: first and last name, each `''` when missing,
      separated by a space and trimmed. The first name loses its leading and
      the last name its trailing white space; a name that is missing or all
      white space leaves just the other one, trimmed. */
  function SlugSource(firstName: Option<string>, lastName: Option<string>): (r: string)
    ensures Unpadded(r)
    ensures var f, l := OrEmpty(firstName), OrEmpty(lastName);
      && (TrimStart(f) != "" && TrimEnd(l) != "" ==> r == TrimStart(f) + " " + TrimEnd(l))
      && (TrimStart(f) == "" ==> r == Trim(l))
      && (TrimEnd(l) == "" ==> r == Trim(f))
  {
    TrimJoin(OrEmpty(firstName), OrEmpty(lastName));
    Trim(OrEmpty(firstName) + " " + OrEmpty(lastName))
  }

  /** With both names given, and no white space around them, the slug source
      is "first last"; with one, just that one; with none, empty. */
  lemma SlugSourceCases(firstName: Option<string>, lastName: Option<string>)
    requires firstName.Some? ==> Unpadded(firstName.value)
    requires lastName.Some? ==> Unpadded(lastName.value)
    ensures Filled(firstName) && Filled(lastName) ==>
      SlugSource(firstName, lastName) == firstName.value + " " + lastName.value
    ensures Filled(firstName) && !Filled(lastName) ==> SlugSource(firstName, lastName) == firstName.value
    ensures !Filled(firstName) && Filled(lastName) ==> SlugSource(firstName, lastName) == lastName.value
    ensures !Filled(firstName) && !Filled(lastName) ==> SlugSource(firstName, lastName) == ""
  {
    var f, l := OrEmpty(firstName), OrEmpty(lastName);
    if f != "" && l != "" {
      TrimUnpadded(f + " " + l);
    } else if f != "" {
      assert f + " " + l == f + " ";
      TrimStartConcat(f, " ");
      TrimUnpadded(f);
      TrimEndConcat(f, " ");
    } else if l != "" {
      assert f + " " + l == " " + l;
      TrimStartConcat(" ", l);
      TrimUnpadded(l);
    } else {
      assert f + " " + l == " ";
    }
  }

  /** The badge shown for core artists. */
  const CoreArtistBadge: string := "\U{2B50} Core Artist"

  /** The selection `prepare` receives. */
  datatype ArtistSelection = ArtistSelection(
    firstName: Option<string>, middleName: Option<string>, lastName: Option<string>,
    role0: Option<string>, media: Option<Value>, isCoreArtist: Option<Value>)

  /** The middle initial with its period, when there is a middle name. */
  function MiddleInitial(middleName: Option<string>): string {
    if Filled(middleName) then " " + [middleName.value[0]] + "." else ""
  }

  /** `formattedName` after the two `+=` steps, before trimming. */
  function FormattedName(sel: ArtistSelection): string {
    OrEmpty(sel.firstName) + MiddleInitial(sel.middleName)
    + if Filled(sel.lastName) then " " + sel.lastName.value else ""
  }

  /** `[a, b].filter(Boolean)` over optional strings: every filled part is
      kept and nothing else; `TruthyPartsConcat` gives the order. */
  function TruthyParts(parts: seq<Option<string>>): (r: seq<string>)
    ensures |r| <= |parts|
    ensures forall i :: 0 <= i < |r| ==> r[i] != "" && Some(r[i]) in parts
    ensures forall i :: 0 <= i < |parts| && Filled(parts[i]) ==> parts[i].value in r
  {
    if parts == [] then []
    else (if Filled(parts[0]) then [parts[0].value] else []) + TruthyParts(parts[1..])
  }

  /** Filtering keeps the order of the parts: the kept parts of a
      concatenation are those of the first list, then those of the second. */
  lemma {:induction false} TruthyPartsConcat(a: seq<Option<string>>, b: seq<Option<string>>)
    ensures TruthyParts(a + b) == TruthyParts(a) + TruthyParts(b)
  {
    if a != [] {
      assert (a + b)[0] == a[0];
      assert (a + b)[1..] == a[1..] + b;
      TruthyPartsConcat(a[1..], b);
    } else {
      assert a + b == b;
    }
  }

  /** The subtitle: the first role and the badge, whichever are present,
      joined by " • ". */
  function Subtitle(role0: Option<string>, isCoreArtist: Option<Value>): string {
    Join(TruthyParts([role0, if Truthy(isCoreArtist) then Some(CoreArtistBadge) else None]), " \U{2022} ")
  }

  /** The subtitle is empty exactly when there is neither a role nor the
      core flag; otherwise it is the role, the badge, or both in that order. */
  lemma SubtitleCases(role0: Option<string>, isCoreArtist: Option<Value>)
    ensures Subtitle(role0, isCoreArtist) == "" <==> !Filled(role0) && !Truthy(isCoreArtist)
    ensures Filled(role0) && !Truthy(isCoreArtist) ==> Subtitle(role0, isCoreArtist) == role0.value
    ensures !Filled(role0) && Truthy(isCoreArtist) ==> Subtitle(role0, isCoreArtist) == CoreArtistBadge
    ensures Filled(role0) && Truthy(isCoreArtist) ==>
      Subtitle(role0, isCoreArtist) == role0.value + " \U{2022} " + CoreArtistBadge
  {
    var badge := if Truthy(isCoreArtist) then Some(CoreArtistBadge) else None;
    assert [role0, badge][1..] == [badge];
    assert [badge][1..] == [];
    assert TruthyParts([]) == [];
    assert TruthyParts([badge]) == (if Truthy(isCoreArtist) then [CoreArtistBadge] else []);
    var parts := TruthyParts([role0, badge]);
    if Filled(role0) && Truthy(isCoreArtist) {
      assert parts == [role0.value, CoreArtistBadge];
      assert parts[1..] == [CoreArtistBadge];
      assert Join(parts[1..], " \U{2022} ") == CoreArtistBadge;
    }
  }

  /** `prepare`: the name built by successive `+=`, then the subtitle. */
  method Prepare(sel: ArtistSelection) returns (p: Preview)
    ensures p.title == Some(Trim(FormattedName(sel)))
    ensures p.subtitle == Some(Subtitle(sel.role0, sel.isCoreArtist))
    ensures p.media == sel.media
  {
    var formattedName := OrEmpty(sel.firstName);
    if sel.middleName.Some? && |sel.middleName.value| > 0 {
      formattedName := formattedName + " " + [sel.middleName.value[0]] + ".";
    }
    assert formattedName == OrEmpty(sel.firstName) + MiddleInitial(sel.middleName);
    if Filled(sel.lastName) {
      formattedName := formattedName + " " + sel.lastName.value;
    }
    assert formattedName == FormattedName(sel);
    var parts := TruthyParts([sel.role0, if Truthy(sel.isCoreArtist) then Some(CoreArtistBadge) else None]);
    var subtitle := Join(parts, " \U{2022} ");
    p := Preview(Some(Trim(formattedName)), Some(subtitle), sel.media);
  }

  /** The title of a full name is "First M. Last". */
  lemma TitleFull(sel: ArtistSelection)
    requires Filled(sel.firstName) && Filled(sel.middleName) && Filled(sel.lastName)
    requires Unpadded(sel.firstName.value) && Unpadded(sel.lastName.value)
    ensures Trim(FormattedName(sel)) ==
      sel.firstName.value + " " + [sel.middleName.value[0]] + ". " + sel.lastName.value
  {
    var full := sel.firstName.value + " " + [sel.middleName.value[0]] + ". " + sel.lastName.value;
    assert FormattedName(sel) == full;
    TrimUnpadded(full);
  }

  /** Without a middle name, the title is "First Last"; with only one name,
      that name; with none, empty. */
  lemma TitleWithoutMiddle(sel: ArtistSelection)
    requires !Filled(sel.middleName)
    ensures Trim(FormattedName(sel)) == SlugSource(sel.firstName, sel.lastName)
  {
    var f, l := OrEmpty(sel.firstName), OrEmpty(sel.lastName);
    if Filled(sel.lastName) {
      assert FormattedName(sel) == f + " " + l;
    } else {
      assert FormattedName(sel) == f;
      assert l == "" && TrimEnd(l) == "";
    }
  }

  /** A first name without surrounding white space begins the title. */
  lemma TitleStartsWithFirstName(sel: ArtistSelection)
    requires Filled(sel.firstName) && Unpadded(sel.firstName.value)
    ensures StartsWith(Trim(FormattedName(sel)), sel.firstName.value)
  {
    var f := sel.firstName.value;
    var rest := FormattedName(sel)[|f|..];
    assert FormattedName(sel) == f + rest;
    TrimStartConcat(f, rest);
    TrimEndConcat(f, rest);
    TrimUnpadded(f);
  }
}
