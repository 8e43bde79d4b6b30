/** The second form of the person-to-artist rule. `_type` cannot be patched,
    so the rule replaces each `person` document with a new `artist` document
    under the same `_id`. */
module PersonToArtistV2 {
  import opened Text
  import opened Json
  import opened Patches
  import PersonToArtist

  /** The fields of the object literal `newArtistDoc`. */
  datatype ArtistField =
    | Id | Type | FirstName | MiddleName | LastName
    | Bio | Image | Email | Phone | Roles
    | IsCoreArtist | IsActive | SocialMedia
    | Statement | BirthYear | BirthPlace | CurrentLocation | Education | Cv
    | PersonalProjects | Interests | Website

  function Name(f: ArtistField): string {
    match f
    case Id => "_id"
    case Type => "_type"
    case FirstName => "firstName"
    case MiddleName => "middleName"
    case LastName => "lastName"
    case Bio => "bio"
    case Image => "image"
    case Email => "email"
    case Phone => "phone"
    case Roles => "roles"
    case IsCoreArtist => "isCoreArtist"
    case IsActive => "isActive"
    case SocialMedia => "socialMedia"
    case Statement => "statement"
    case BirthYear => "birthYear"
    case BirthPlace => "birthPlace"
    case CurrentLocation => "currentLocation"
    case Education => "education"
    case Cv => "cv"
    case PersonalProjects => "personalProjects"
    case Interests => "interests"
    case Website => "website"
  }

  lemma NameInjective(f: ArtistField, g: ArtistField)
    ensures Name(f) == Name(g) ==> f == g
  {
  }

  /** The fields copied from the person as they are. */
  predicate Copied(f: ArtistField) {
    f == Id || f == FirstName || f == MiddleName || f == LastName
  }

  /** The value the literal gives a field; `None` when it is undefined (a
      copied field the person lacks), which serialisation drops. */
  function FieldValue(doc: Doc, f: ArtistField): (r: Option<Value>)
    ensures !Copied(f) ==> r.Some?
  {
    match f
    case Id => Get(doc, "_id")
    case Type => Some(Str("artist"))
    case FirstName => Get(doc, "firstName")
    case MiddleName => Get(doc, "middleName")
    case LastName => Get(doc, "lastName")
    case Bio => Some(Or(Get(doc, "bio"), Null))
    case Image => Some(Or(Get(doc, "image"), Null))
    case Email => Some(Or(Get(doc, "email"), Null))
    case Phone => Some(Or(Get(doc, "phone"), Null))
    case Roles => Some(Or(Get(doc, "roles"), Arr([])))
    case IsCoreArtist => Some(Bool(PersonToArtist.IsCoreArtist(doc)))
    case IsActive => Some(Bool(true))
    case SocialMedia => Some(PersonToArtist.EmptySocialMedia)
    case Statement => Some(Null)
    case BirthYear => Some(Null)
    case BirthPlace => Some(Null)
    case CurrentLocation => Some(Null)
    case Education => Some(Arr([]))
    case Cv => Some(Null)
    case PersonalProjects => Some(Arr([]))
    case Interests => Some(Arr([]))
    case Website => Some(Str(""))
  }

  /** The fields in the order the literal lists them. */
  const Fields: seq<ArtistField> := [
    Id, Type, FirstName, MiddleName, LastName, Bio, Image, Email, Phone, Roles,
    IsCoreArtist, IsActive, SocialMedia, Statement, BirthYear, BirthPlace,
    CurrentLocation, Education, Cv, PersonalProjects, Interests, Website
  ]

  /** Every field occurs once in `Fields`, at `Position(f)`. */
  function Position(f: ArtistField): (i: nat)
    ensures i < |Fields| && Fields[i] == f
    ensures forall j :: 0 <= j < |Fields| && Fields[j] == f ==> j == i
  {
    match f
    case Id => 0
    case Type => 1
    case FirstName => 2
    case MiddleName => 3
    case LastName => 4
    case Bio => 5
    case Image => 6
    case Email => 7
    case Phone => 8
    case Roles => 9
    case IsCoreArtist => 10
    case IsActive => 11
    case SocialMedia => 12
    case Statement => 13
    case BirthYear => 14
    case BirthPlace => 15
    case CurrentLocation => 16
    case Education => 17
    case Cv => 18
    case PersonalProjects => 19
    case Interests => 20
    case Website => 21
  }

  /** Writes one property; an undefined value is not written. */
  function Put(m: Doc, f: ArtistField, o: Option<Value>): Doc {
    match o
    case Some(v) => m[Name(f) := v]
    case None => m
  }

  lemma PutLookup(m: Doc, g: ArtistField, o: Option<Value>, f: ArtistField)
    ensures Get(Put(m, g, o), Name(f)) == if g == f && o.Some? then o else Get(m, Name(f))
  {
    NameInjective(g, f);
  }

  /** The value the literal gives each property of the person's document. */
  function Values(doc: Doc): ArtistField -> Option<Value> {
    f => FieldValue(doc, f)
  }

  /** The object after its first `k` properties are written with `vals`. */
  function Build(vals: ArtistField -> Option<Value>, k: nat): Doc
    requires k <= |Fields|
  {
    if k == 0 then map[] else Put(Build(vals, k - 1), Fields[k - 1], vals(Fields[k - 1]))
  }

  /** `newArtistDoc` as serialised. */
  function NewArtistDoc(doc: Doc): Doc {
    Build(Values(doc), |Fields|)
  }

  function Migrate(doc: Doc): (m: Migration)
    ensures m.CreateOrReplace? && m.doc == NewArtistDoc(doc)
  {
    CreateOrReplace(NewArtistDoc(doc))
  }

  lemma {:induction false} BuildLookup(vals: ArtistField -> Option<Value>, k: nat, f: ArtistField)
    requires k <= |Fields|
    ensures Get(Build(vals, k), Name(f)) == if Position(f) < k then vals(f) else None
  {
    if k > 0 {
      var g := Fields[k - 1];
      BuildLookup(vals, k - 1, f);
      PutLookup(Build(vals, k - 1), g, vals(g), f);
    }
  }

  lemma {:induction false} BuildUnnamed(vals: ArtistField -> Option<Value>, k: nat, s: string)
    requires k <= |Fields|
    requires forall f :: Name(f) != s
    ensures s !in Build(vals, k)
  {
    if k > 0 {
      var g := Fields[k - 1];
      BuildUnnamed(vals, k - 1, s);
      assert Name(g) != s;
    }
  }

  /** Each field of the new document holds what the literal gives it. */
  lemma Lookup(doc: Doc, f: ArtistField)
    ensures Get(NewArtistDoc(doc), Name(f)) == FieldValue(doc, f)
  {
    BuildLookup(Values(doc), |Fields|, f);
  }

  /** Every field of the person that the literal does not name is dropped. */
  lemma Unnamed(doc: Doc, s: string)
    requires forall f :: Name(f) != s
    ensures s !in NewArtistDoc(doc)
  {
    BuildUnnamed(Values(doc), |Fields|, s);
  }

  /** The copied fields keep their values, including `_id`, so references to
      the person now point at the artist; all other fields are present. */
  lemma NewArtistCopies(doc: Doc, f: ArtistField)
    ensures Copied(f) ==> Get(NewArtistDoc(doc), Name(f)) == Get(doc, Name(f))
    ensures !Copied(f) ==> Name(f) in NewArtistDoc(doc)
  {
    Lookup(doc, f);
  }

  /** Optional person fields are kept when truthy and become null (or an
      empty list of roles) otherwise, and the type is "artist". */
  lemma NewArtistOptional(doc: Doc, f: ArtistField)
    requires f in {Bio, Image, Email, Phone}
    ensures Get(NewArtistDoc(doc), Name(f)) == Some(if Truthy(Get(doc, Name(f))) then doc[Name(f)] else Null)
    ensures Get(NewArtistDoc(doc), "roles") == Some(if Truthy(Get(doc, "roles")) then doc["roles"] else Arr([]))
    ensures Get(NewArtistDoc(doc), "_type") == Some(Str("artist"))
  {
    Lookup(doc, f);
    Lookup(doc, Roles);
    Lookup(doc, Type);
  }

  /** The field a default patch of the patching form writes. */
  function DefaultField(i: nat): ArtistField
    requires i < 12
  {
    [IsCoreArtist, IsActive, SocialMedia, Statement, BirthYear, BirthPlace,
     CurrentLocation, Education, Cv, PersonalProjects, Interests, Website][i]
  }

  /** The literal writes the `i`-th default field of the patching form with
      that form's default value. */
  predicate DefaultAgrees(doc: Doc, i: nat)
    requires i < 12
  {
    var ds := PersonToArtist.Defaults(PersonToArtist.IsCoreArtist(doc));
    Name(DefaultField(i)) == ds[i].field && FieldValue(doc, DefaultField(i)) == Some(ds[i].op.value)
  }

  /** The replacement holds the same defaults that the patching form fills
      into a person that has none of the artist fields. */
  lemma AgreesWithPatchingForm(doc: Doc, i: nat)
    requires 1 <= i < 13
    ensures Get(NewArtistDoc(doc), PersonToArtist.Operations(doc)[i].field)
      == Some(PersonToArtist.Operations(doc)[i].op.value)
  {
    var ds := PersonToArtist.Defaults(PersonToArtist.IsCoreArtist(doc));
    assert PersonToArtist.Operations(doc)[i] == ds[i - 1];
    Lookup(doc, DefaultField(i - 1));
    if i - 1 < 4 {
      DefaultsLow(doc, i - 1);
    } else if i - 1 < 8 {
      DefaultsMiddle(doc, i - 1);
    } else {
      DefaultsHigh(doc, i - 1);
    }
  }

  lemma DefaultsLow(doc: Doc, i: nat)
    requires 0 <= i < 4
    ensures DefaultAgrees(doc, i)
  {
    if i == 0 { assert DefaultField(i) == IsCoreArtist; }
    else if i == 1 { assert DefaultField(i) == IsActive; }
    else if i == 2 { assert DefaultField(i) == SocialMedia; }
    else { assert DefaultField(i) == Statement; }
  }

  lemma DefaultsMiddle(doc: Doc, i: nat)
    requires 4 <= i < 8
    ensures DefaultAgrees(doc, i)
  {
    if i == 4 { assert DefaultField(i) == BirthYear; }
    else if i == 5 { assert DefaultField(i) == BirthPlace; }
    else if i == 6 { assert DefaultField(i) == CurrentLocation; }
    else { assert DefaultField(i) == Education; }
  }

  lemma DefaultsHigh(doc: Doc, i: nat)
    requires 8 <= i < 12
    ensures DefaultAgrees(doc, i)
  {
    if i == 8 { assert DefaultField(i) == Cv; }
    else if i == 9 { assert DefaultField(i) == PersonalProjects; }
    else if i == 10 { assert DefaultField(i) == Interests; }
    else { assert DefaultField(i) == Website; }
  }

  /** Replacing an artist made by the rule with the rule's output for it
      changes nothing. */
  lemma NewArtistIdempotent(doc: Doc)
    ensures NewArtistDoc(NewArtistDoc(doc)) == NewArtistDoc(doc)
  {
    var d1 := NewArtistDoc(doc);
    forall s ensures Get(NewArtistDoc(d1), s) == Get(d1, s) {
      if f :| Name(f) == s {
        Lookup(d1, f);
        Lookup(doc, f);
        SameField(doc, f);
      } else {
        Unnamed(d1, s);
        Unnamed(doc, s);
      }
    }
    DocExtensional(NewArtistDoc(d1), d1);
  }

  /** The literal gives each field of the new document what it already holds. */
  lemma SameField(doc: Doc, f: ArtistField)
    ensures FieldValue(NewArtistDoc(doc), f) == FieldValue(doc, f)
  {
    var d1 := NewArtistDoc(doc);
    Lookup(doc, f);
    Lookup(doc, Id);
  }
}
