/** The scripted person → artist reclassification: every person document is
    deleted and re-created as an artist document (a document's type cannot be
    changed in place), its social-media list becomes an object keyed by
    platform, and the run counts successes and failures without stopping at
    the first failure. The store client is replaced by an oracle that says
    whether each commit succeeds. */
module PersonToArtistScript {
  import opened Text
  import opened Json

  // ---------------------------------------------------------------------
  // Social media: a list of {platform, url} becomes one url per platform.
  // ---------------------------------------------------------------------

  /** The slot of a lower-cased platform name: the first keyword it contains,
      in the order instagram, vimeo, facebook, twitter or "x.com", else other. */
  function PlatformSlot(platform: string): (k: string)
    ensures k in {"instagram", "vimeo", "facebook", "twitter", "other"}
    ensures Contains(platform, "instagram") <==> k == "instagram"
    ensures k == "vimeo" ==> !Contains(platform, "instagram") && Contains(platform, "vimeo")
    ensures k == "facebook" ==>
      !Contains(platform, "instagram") && !Contains(platform, "vimeo") && Contains(platform, "facebook")
    ensures k == "twitter" ==>
      && !Contains(platform, "instagram") && !Contains(platform, "vimeo") && !Contains(platform, "facebook")
      && (Contains(platform, "twitter") || Contains(platform, "x.com"))
    ensures k == "other" <==>
      && !Contains(platform, "instagram") && !Contains(platform, "vimeo") && !Contains(platform, "facebook")
      && !Contains(platform, "twitter") && !Contains(platform, "x.com")
  {
    if Contains(platform, "instagram") then "instagram"
    else if Contains(platform, "vimeo") then "vimeo"
    else if Contains(platform, "facebook") then "facebook"
    else if Contains(platform, "twitter") || Contains(platform, "x.com") then "twitter"
    else "other"
  }

  /** What one `forEach` step does with a list item. */
  datatype ItemEffect = Skip | Fail | Slot(key: string, url: Value)

  /** `item.platform?.toLowerCase()` throws on a null item and on a platform
      that is neither a string nor null/undefined; an item without a
      platform or url (falsy) is skipped. */
  function ItemEffectOf(item: Value): (e: ItemEffect)
    ensures e.Fail? <==>
      || item.Null?
      || (item.Obj? && "platform" in item.fields
          && !item.fields["platform"].Str? && !item.fields["platform"].Null?)
    ensures e.Slot? ==>
      && item.Obj? && "platform" in item.fields && item.fields["platform"].Str?
      && item.fields["platform"].s != "" && Truthy(Get(item.fields, "url"))
      && e.url == item.fields["url"]
      && e.key == PlatformSlot(Lower(item.fields["platform"].s))
    ensures (&& item.Obj? && "platform" in item.fields && item.fields["platform"].Str?
             && item.fields["platform"].s != "" && Truthy(Get(item.fields, "url")))
      ==> e == Slot(PlatformSlot(Lower(item.fields["platform"].s)), item.fields["url"])
  {
    match Prop(Some(item), "platform")
    case TypeError => Fail
    case Undefined => Skip
    case Present(p) =>
      if p.Null? then Skip
      else if !p.Str? then Fail
      else
        var platform := Lower(p.s);
        var url := AsOption(Prop(Some(item), "url"));
        if platform == "" || !Truthy(url) then Skip
        else Slot(PlatformSlot(platform), url.value)
  }

  /** The effect of every item, in order. */
  function EffectsOf(items: seq<Value>): (r: seq<ItemEffect>)
    ensures |r| == |items|
    ensures forall i :: 0 <= i < |items| ==> r[i] == ItemEffectOf(items[i])
  {
    seq(|items|, i requires 0 <= i < |items| => ItemEffectOf(items[i]))
  }

  /** The `forEach` over the remaining effects, starting from `acc`: a
      throwing item ends it, a slot item overwrites its slot. */
  function ApplyEffects(effects: seq<ItemEffect>, acc: map<string, Value>): Result<map<string, Value>>
    decreases |effects|
  {
    if effects == [] then Ok(acc)
    else
      match effects[0]
      case Fail => Thrown
      case Skip => ApplyEffects(effects[1..], acc)
      case Slot(k, url) => ApplyEffects(effects[1..], acc[k := url])
  }

  /** `convertSocialMedia(old)`: an empty object for a missing or non-array
      input, otherwise the items folded in order. */
  function SocialMediaOf(entries: Option<Value>): Result<map<string, Value>> {
    if !Truthy(entries) || !entries.value.Arr? then Ok(map[])
    else ApplyEffects(EffectsOf(entries.value.items), map[])
  }

  /** Effect `j` writes slot `k`. */
  predicate LandsIn(effects: seq<ItemEffect>, j: int, k: string) {
    0 <= j < |effects| && effects[j].Slot? && effects[j].key == k
  }

  /** Effect `j` is the last one that writes slot `k`. */
  predicate LastIn(effects: seq<ItemEffect>, j: int, k: string) {
    LandsIn(effects, j, k) && forall j' :: j < j' < |effects| ==> !LandsIn(effects, j', k)
  }

  /** The effect after the first one lands where it landed in the whole list. */
  lemma LandsInTail(effects: seq<ItemEffect>, j: int, k: string)
    requires effects != [] && 0 <= j
    ensures LandsIn(effects[1..], j, k) <==> LandsIn(effects, j + 1, k)
  {
    if 0 <= j < |effects| - 1 {
      assert effects[1..][j] == effects[j + 1];
    }
  }

  lemma {:induction false} ApplyEffectsFails(effects: seq<ItemEffect>, acc: map<string, Value>)
    ensures ApplyEffects(effects, acc).Thrown? <==> exists j :: 0 <= j < |effects| && effects[j].Fail?
    decreases |effects|
  {
    if effects != [] && !effects[0].Fail? {
      var e := effects[0];
      var tail := effects[1..];
      ApplyEffectsFails(tail, if e.Slot? then acc[e.key := e.url] else acc);
      if exists j :: 0 <= j < |effects| && effects[j].Fail? {
        var j :| 0 <= j < |effects| && effects[j].Fail?;
        assert tail[j - 1] == effects[j];
      }
      if exists j :: 0 <= j < |tail| && tail[j].Fail? {
        var j :| 0 <= j < |tail| && tail[j].Fail?;
        assert effects[j + 1] == tail[j];
      }
    }
  }

  lemma {:induction false} ApplyEffectsKeys(effects: seq<ItemEffect>, acc: map<string, Value>, m: map<string, Value>)
    requires ApplyEffects(effects, acc) == Ok(m)
    ensures forall k :: k in m <==> k in acc || exists j :: LandsIn(effects, j, k)
    decreases |effects|
  {
    if effects != [] {
      var e := effects[0];
      var acc' := if e.Slot? then acc[e.key := e.url] else acc;
      ApplyEffectsKeys(effects[1..], acc', m);
      forall k
        ensures k in m <==> k in acc || exists j :: LandsIn(effects, j, k)
      {
        if exists j :: LandsIn(effects[1..], j, k) {
          var j :| LandsIn(effects[1..], j, k);
          LandsInTail(effects, j, k);
        }
        if k in acc' && k !in acc {
          assert LandsIn(effects, 0, k);
        }
        if exists j :: LandsIn(effects, j, k) {
          var j :| LandsIn(effects, j, k);
          if j > 0 { LandsInTail(effects, j - 1, k); }
          else { assert k in acc'; }
        }
      }
    }
  }

  lemma {:induction false} ApplyEffectsLastWins(effects: seq<ItemEffect>, acc: map<string, Value>, m: map<string, Value>, j: int, k: string)
    requires ApplyEffects(effects, acc) == Ok(m)
    requires LastIn(effects, j, k)
    ensures k in m && m[k] == effects[j].url
    decreases |effects|
  {
    var e := effects[0];
    var acc' := if e.Slot? then acc[e.key := e.url] else acc;
    var tail := effects[1..];
    if j > 0 {
      LandsInTail(effects, j - 1, k);
      forall j' | j - 1 < j' < |tail| ensures !LandsIn(tail, j', k) {
        LandsInTail(effects, j', k);
      }
      ApplyEffectsLastWins(tail, acc', m, j - 1, k);
    } else {
      forall j' | 0 <= j' < |tail| ensures !LandsIn(tail, j', k) {
        LandsInTail(effects, j', k);
      }
      ApplyEffectsUntouched(tail, acc', m, k);
    }
  }

  lemma {:induction false} ApplyEffectsUntouched(effects: seq<ItemEffect>, acc: map<string, Value>, m: map<string, Value>, k: string)
    requires ApplyEffects(effects, acc) == Ok(m)
    requires k in acc
    requires forall j :: 0 <= j < |effects| ==> !LandsIn(effects, j, k)
    ensures k in m && m[k] == acc[k]
    decreases |effects|
  {
    if effects != [] {
      var e := effects[0];
      var acc' := if e.Slot? then acc[e.key := e.url] else acc;
      assert !LandsIn(effects, 0, k);
      forall j | 0 <= j < |effects[1..]| ensures !LandsIn(effects[1..], j, k) {
        LandsInTail(effects, j, k);
      }
      ApplyEffectsUntouched(effects[1..], acc', m, k);
    }
  }

  /** The converted object, stated without the fold: it throws exactly when
      some item makes `toLowerCase` throw; otherwise a slot is present exactly
      when some item lands in it, and holds the url of the last such item. */
  lemma SocialMediaCharacterised(items: seq<Value>)
    ensures SocialMediaOf(Some(Arr(items))).Thrown?
      <==> exists j :: 0 <= j < |items| && ItemEffectOf(items[j]).Fail?
    ensures SocialMediaOf(Some(Arr(items))).Ok? ==>
      var m := SocialMediaOf(Some(Arr(items))).value;
      && (forall k :: k in m <==> exists j :: LandsIn(EffectsOf(items), j, k))
      && (forall k, j :: LastIn(EffectsOf(items), j, k) ==> k in m && m[k] == ItemEffectOf(items[j]).url)
  {
    var effects := EffectsOf(items);
    ApplyEffectsFails(effects, map[]);
    if SocialMediaOf(Some(Arr(items))).Ok? {
      var m := SocialMediaOf(Some(Arr(items))).value;
      ApplyEffectsKeys(effects, map[], m);
      forall k, j | LastIn(effects, j, k) ensures k in m && m[k] == ItemEffectOf(items[j]).url {
        ApplyEffectsLastWins(effects, map[], m, j, k);
      }
    }
  }

  /** The `forEach` that fills `newSocialMedia` one item at a time. */
  method ConvertSocialMedia(entries: Option<Value>) returns (r: Result<map<string, Value>>)
    ensures r == SocialMediaOf(entries)
    ensures !Truthy(entries) || !entries.value.Arr? ==> r == Ok(map[])
  {
    if !Truthy(entries) || !entries.value.Arr? {
      return Ok(map[]);
    }
    var items := entries.value.items;
    ghost var effects := EffectsOf(items);
    var newSocialMedia: map<string, Value> := map[];
    var i := 0;
    while i < |items|
      invariant 0 <= i <= |items|
      invariant ApplyEffects(effects[i..], newSocialMedia) == ApplyEffects(effects, map[])
    {
      assert effects[i..][1..] == effects[i + 1..];
      var effect := ItemEffectOf(items[i]);
      if effect.Fail? {
        return Thrown;
      } else if effect.Slot? {
        newSocialMedia := newSocialMedia[effect.key := effect.url];
      }
      i := i + 1;
    }
    return Ok(newSocialMedia);
  }

  // ---------------------------------------------------------------------
  // Core artists.
  // ---------------------------------------------------------------------

  /** `name?.toLowerCase()`: undefined for null or undefined, a TypeError
      for anything that is not a string. */
  function LowerOrUndefined(name: Option<Value>): (r: Result<Option<string>>)
    ensures r.Ok? && r.value.Some? ==> name.Some? && name.value.Str? && r.value.value == Lower(name.value.s)
    ensures r.Thrown? <==> name.Some? && !name.value.Str? && !name.value.Null?
    ensures name.Some? && name.value.Str? ==> r == Ok(Some(Lower(name.value.s)))
    ensures (name.None? || name.value.Null?) ==> r == Ok(None)
  {
    match name
    case None => Ok(None)
    case Some(Null) => Ok(None)
    case Some(Str(s)) => Ok(Some(Lower(s)))
    case Some(_) => Thrown
  }

  /** The two substring tests on the lower-cased "first last". */
  predicate NameMentionsSchork(first: Option<Value>, last: Option<Value>) {
    var fullName := Lower(JsText(first) + " " + JsText(last));
    Contains(fullName, "francisco schork") || Contains(fullName, "markus schork")
  }

  /** `isCoreArtist(firstName, lastName)`, disjunct by disjunct, including
      the TypeError the exact-match disjuncts throw for a non-string name. */
  function IsCoreArtist(first: Option<Value>, last: Option<Value>): Result<bool> {
    if NameMentionsSchork(first, last) then Ok(true)
    else
      match LowerOrUndefined(first)
      case Thrown => Thrown
      case Ok(f) =>
        var third :=
          if f == Some("francisco") then
            match LowerOrUndefined(last)
            case Thrown => Thrown
            case Ok(l) => Ok(l == Some("schork"))
          else Ok(false);
        if third.Thrown? then Thrown
        else if third.value then Ok(true)
        else if f == Some("markus") then
          match LowerOrUndefined(last)
          case Thrown => Thrown
          case Ok(l) => Ok(l == Some("schork"))
        else Ok(false)
  }

  /** Lower-casing "first last" lower-cases each name. */
  lemma LowerFullName(first: string, last: string)
    ensures Lower(first + " " + last) == Lower(first) + " " + Lower(last)
  {
    LowerConcat(first + " ", last);
    LowerConcat(first, " ");
    assert Lower(" ") == " ";
  }

  /** A full name equal to a searched name mentions it. */
  lemma FullNameMentions(first: string, last: string, target: string)
    requires Lower(first + " " + last) == target
    requires target == "francisco schork" || target == "markus schork"
    ensures NameMentionsSchork(Some(Str(first)), Some(Str(last)))
  {
    assert OccursAt(target, target, 0) by {
      assert target[0..|target|] == target;
    }
  }

  /** The searched names are the exact-match names joined by a space. */
  lemma JoinedName(f: string, l: string)
    requires l == "schork"
    requires f == "francisco" || f == "markus"
    ensures f + " " + l == "francisco schork" || f + " " + l == "markus schork"
  {
    if f == "francisco" {
      assert f + " " + l == "francisco schork";
    } else {
      assert f + " " + l == "markus schork";
    }
  }

  /** A name that passes an exact-match disjunct also passes a substring test. */
  lemma ExactMatchMentions(first: string, last: string)
    requires Lower(last) == "schork"
    requires Lower(first) == "francisco" || Lower(first) == "markus"
    ensures NameMentionsSchork(Some(Str(first)), Some(Str(last)))
  {
    LowerFullName(first, last);
    JoinedName(Lower(first), Lower(last));
    FullNameMentions(first, last, Lower(first) + " " + Lower(last));
  }

  /** The exact-match disjuncts add nothing: whenever `isCoreArtist` returns,
      its answer is the substring test, and for two strings it always returns. */
  lemma IsCoreArtistIsSubstringTest(first: Option<Value>, last: Option<Value>)
    ensures IsCoreArtist(first, last).Ok? ==>
      IsCoreArtist(first, last).value == NameMentionsSchork(first, last)
    ensures IsCoreArtist(first, last).Thrown? ==>
      || (first.Some? && !first.value.Str? && !first.value.Null?)
      || (last.Some? && !last.value.Str? && !last.value.Null?)
    ensures first.Some? && first.value.Str? && last.Some? && last.value.Str? ==>
      IsCoreArtist(first, last) == Ok(NameMentionsSchork(first, last))
  {
    if !NameMentionsSchork(first, last) {
      NoExactMatch(first, last, "francisco");
      NoExactMatch(first, last, "markus");
    }
  }

  /** Names that fail the substring tests fail each exact-match disjunct. */
  lemma NoExactMatch(first: Option<Value>, last: Option<Value>, given: string)
    requires !NameMentionsSchork(first, last)
    requires given == "francisco" || given == "markus"
    ensures !(LowerOrUndefined(first) == Ok(Some(given)) && LowerOrUndefined(last) == Ok(Some("schork")))
  {
    if LowerOrUndefined(first) == Ok(Some(given)) && LowerOrUndefined(last) == Ok(Some("schork")) {
      ExactMatchMentions(first.value.s, last.value.s);
    }
  }

  // ---------------------------------------------------------------------
  // The artist document and the per-person transaction.
  // ---------------------------------------------------------------------

  /** Fields the script names explicitly; all others come from `...rest`. */
  const Destructured: set<string> := {"_id", "_rev", "socialMedia", "firstName", "lastName"}
  const Overridden: set<string> :=
    {"_type", "socialMedia", "isCoreArtist", "isActive", "education", "personalProjects", "interests"}

  /** Copies `f` when the person has it: an undefined property is dropped
      when the document is serialised. */
  function CopyIfDefined(person: Doc, f: string): map<string, Value> {
    if f in person then map[f := person[f]] else map[]
  }

  /** `{...rest, _type: 'artist', firstName, lastName, socialMedia, isCoreArtist,
      isActive: true, education: [], personalProjects: [], interests: []}`. */
  function ArtistDoc(person: Doc, socialMedia: map<string, Value>, isCore: bool): (d: Doc)
    ensures Get(d, "_type") == Some(Str("artist")) && Get(d, "isActive") == Some(Bool(true))
    ensures Get(d, "isCoreArtist") == Some(Bool(isCore)) && Get(d, "socialMedia") == Some(Obj(socialMedia))
    ensures Get(d, "education") == Some(Arr([])) && Get(d, "personalProjects") == Some(Arr([]))
    ensures Get(d, "interests") == Some(Arr([]))
    ensures "_id" !in d && "_rev" !in d
    ensures Get(d, "firstName") == Get(person, "firstName") && Get(d, "lastName") == Get(person, "lastName")
    ensures forall f :: f !in Destructured && f !in Overridden ==> Get(d, f) == Get(person, f)
  {
    var rest := person - Destructured;
    (rest + CopyIfDefined(person, "firstName") + CopyIfDefined(person, "lastName"))
      ["_type" := Str("artist")]
      ["socialMedia" := Obj(socialMedia)]
      ["isCoreArtist" := Bool(isCore)]
      ["isActive" := Bool(true)]
      ["education" := Arr([])]
      ["personalProjects" := Arr([])]
      ["interests" := Arr([])]
  }

  datatype Mutation = Delete(id: string) | Create(doc: Doc)

  const DraftPrefix: string := "drafts."

  /** The mutations of one person's transaction: delete the old id, create
      the artist under the id with the first "drafts." removed, and, for a
      draft, create it again under the draft id. */
  function Mutations(id: string, artist: Doc): seq<Mutation> {
    [Delete(id), Create(artist["_id" := Str(ReplaceFirst(id, DraftPrefix, ""))])]
    + (if StartsWith(id, DraftPrefix) then [Create(artist["_id" := Str(id)])] else [])
  }

  /** What the `try` block builds for one person before it commits, or the
      exception it throws first. */
  function PersonPlan(person: Doc): Result<seq<Mutation>> {
    var social := SocialMediaOf(Get(person, "socialMedia"));
    var isCore := IsCoreArtist(Get(person, "firstName"), Get(person, "lastName"));
    var id := Get(person, "_id");
    if social.Thrown? || isCore.Thrown? || !(id.Some? && id.value.Str?) then Thrown
    else Ok(Mutations(id.value.s, ArtistDoc(person, social.value, isCore.value)))
  }

  /** The shape of a person's transaction: a delete of the old id, a create
      under the published id, and a third create only for a draft, whose
      content equals the published copy apart from `_id`. */
  lemma PlanShape(person: Doc)
    requires PersonPlan(person).Ok?
    ensures var ms := PersonPlan(person).value;
      var id := person["_id"].s;
      && (|ms| == 3 <==> StartsWith(id, DraftPrefix))
      && (|ms| == 2 <==> !StartsWith(id, DraftPrefix))
      && ms[0] == Delete(id)
      && ms[1].Create? && Get(ms[1].doc, "_type") == Some(Str("artist"))
      && (StartsWith(id, DraftPrefix) ==> ms[1].doc["_id"] == Str(id[|DraftPrefix|..]))
      && (!Contains(id, DraftPrefix) ==> ms[1].doc["_id"] == Str(id))
      && (|ms| == 3 ==> ms[2] == Create(ms[1].doc["_id" := Str(id)]))
  {
    var id := person["_id"].s;
    if StartsWith(id, DraftPrefix) {
      StripLeadingPattern(id, DraftPrefix);
    }
    if !Contains(id, DraftPrefix) {
      ReplaceAbsent(id, DraftPrefix, "");
    }
  }

  /** The store's transaction builder. */
  class Transaction {
    var mutations: seq<Mutation>

    constructor ()
      ensures mutations == []
    {
      mutations := [];
    }

    method Delete(id: string)
      modifies this
      ensures mutations == old(mutations) + [Mutation.Delete(id)]
    {
      mutations := mutations + [Mutation.Delete(id)];
    }

    method Create(doc: Doc)
      modifies this
      ensures mutations == old(mutations) + [Mutation.Create(doc)]
    {
      mutations := mutations + [Mutation.Create(doc)];
    }
  }

  /** The body of the `try` block up to the commit: the transaction it
      builds, or `Thrown`. */
  method PrepareTransaction(person: Doc) returns (r: Result<Transaction>)
    ensures r.Ok? <==> PersonPlan(person).Ok?
    ensures r.Ok? ==> fresh(r.value) && r.value.mutations == PersonPlan(person).value
  {
    var social := ConvertSocialMedia(Get(person, "socialMedia"));
    var isCore := IsCoreArtist(Get(person, "firstName"), Get(person, "lastName"));
    var id := Get(person, "_id");
    if social.Thrown? || isCore.Thrown? || !(id.Some? && id.value.Str?) {
      return Thrown;
    }
    var artist := ArtistDoc(person, social.value, isCore.value);
    var t := new Transaction();
    t.Delete(id.value.s);
    var newId := ReplaceFirst(id.value.s, DraftPrefix, "");
    t.Create(artist["_id" := Str(newId)]);
    if StartsWith(id.value.s, DraftPrefix) {
      t.Create(artist["_id" := Str(id.value.s)]);
    }
    return Ok(t);
  }

  // ---------------------------------------------------------------------
  // The run.
  // ---------------------------------------------------------------------

  /** A person is migrated when its transaction can be built and the
      commit succeeds. */
  predicate Migrated(person: Doc, commitOk: bool) {
    PersonPlan(person).Ok? && commitOk
  }

  function CountMigrated(persons: seq<Doc>, commitOk: seq<bool>): nat
    requires |commitOk| == |persons|
  {
    if persons == [] then 0
    else
      var n := |persons| - 1;
      CountMigrated(persons[..n], commitOk[..n]) + (if Migrated(persons[n], commitOk[n]) then 1 else 0)
  }

  /** The transactions handed to `commit`, in order. */
  function Submitted(persons: seq<Doc>): seq<seq<Mutation>> {
    if persons == [] then []
    else
      var plan := PersonPlan(persons[|persons| - 1]);
      Submitted(persons[..|persons| - 1]) + (if plan.Ok? then [plan.value] else [])
  }

  lemma CountMigratedStep(persons: seq<Doc>, commitOk: seq<bool>, i: nat)
    requires |commitOk| == |persons| && i < |persons|
    ensures CountMigrated(persons[..i + 1], commitOk[..i + 1])
      == CountMigrated(persons[..i], commitOk[..i]) + (if Migrated(persons[i], commitOk[i]) then 1 else 0)
  {
    assert persons[..i + 1][..i] == persons[..i];
    assert commitOk[..i + 1][..i] == commitOk[..i];
  }

  lemma SubmittedStep(persons: seq<Doc>, i: nat)
    requires i < |persons|
    ensures Submitted(persons[..i + 1]) == Submitted(persons[..i])
      + (if PersonPlan(persons[i]).Ok? then [PersonPlan(persons[i]).value] else [])
  {
    assert persons[..i + 1][..i] == persons[..i];
  }

  /** How `migratePerson` ends: an early return on an empty fetch, or the
      summary counts, with `threw` when it throws "Migration completed with
      N errors". */
  datatype RunOutcome =
    | NothingToMigrate
    | Finished(successCount: nat, errorCount: nat, threw: bool)

  /** `migratePerson` after the fetch: each person is attempted once and a
      failure is counted without stopping the loop. `commitOk[i]` is the
      store's answer to the commit of person `i`. */
  method MigratePersons(persons: seq<Doc>, commitOk: seq<bool>)
    returns (outcome: RunOutcome, committed: seq<seq<Mutation>>)
    requires |commitOk| == |persons|
    ensures persons == [] <==> outcome.NothingToMigrate?
    ensures outcome.Finished? ==>
      && outcome.successCount + outcome.errorCount == |persons|
      && outcome.successCount == CountMigrated(persons, commitOk)
      && (outcome.threw <==> outcome.errorCount > 0)
    ensures committed == Submitted(persons)
  {
    if |persons| == 0 {
      return NothingToMigrate, [];
    }
    var successCount, errorCount := 0, 0;
    committed := [];
    for i := 0 to |persons|
      invariant successCount + errorCount == i
      invariant successCount == CountMigrated(persons[..i], commitOk[..i])
      invariant committed == Submitted(persons[..i])
    {
      CountMigratedStep(persons, commitOk, i);
      SubmittedStep(persons, i);
      var t := PrepareTransaction(persons[i]);
      if t.Ok? {
        committed := committed + [t.value.mutations];
        if commitOk[i] {
          successCount := successCount + 1;
        } else {
          errorCount := errorCount + 1;
        }
      } else {
        errorCount := errorCount + 1;
      }
    }
    assert persons[..|persons|] == persons;
    assert commitOk[..|persons|] == commitOk;
    outcome := Finished(successCount, errorCount, errorCount > 0);
  }

  /** The persons whose transaction cannot be built. */
  function Unbuildable(persons: seq<Doc>): nat {
    if persons == [] then 0
    else Unbuildable(persons[..|persons| - 1]) + if PersonPlan(persons[|persons| - 1]).Thrown? then 1 else 0
  }

  /** Partial-failure isolation: with every commit succeeding, every
      transaction handed to `commit` migrates its person, and the only
      persons not migrated are those whose transaction cannot be built. */
  lemma {:induction false} AllCommitsSucceed(persons: seq<Doc>, commitOk: seq<bool>)
    requires |commitOk| == |persons|
    requires forall i :: 0 <= i < |persons| ==> commitOk[i]
    ensures CountMigrated(persons, commitOk) == |Submitted(persons)|
    ensures CountMigrated(persons, commitOk) + Unbuildable(persons) == |persons|
    decreases |persons|
  {
    if persons != [] {
      var n := |persons| - 1;
      AllCommitsSucceed(persons[..n], commitOk[..n]);
    }
  }
}
