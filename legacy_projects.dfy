/** The rule that brings legacy project documents to the current project
    schema: years extracted from the old date strings, an `isOngoing` flag,
    `mainImage` renamed to `coverImage`, and the old fields removed. */
module LegacyProjects {
  import opened Text
  import opened Json
  import opened Patches

  /** `parseInt(date.substring(0, 4))`; NaN is written as null when the
      patch is serialised. */
  function Year(date: string): (v: Value)
    ensures v.Num? || v.Null?
    ensures var prefix := if |date| < 4 then date else date[..4];
      && (v.Null? <==> ParseInt(prefix).None?)
      && (v.Num? ==> ParseInt(prefix) == Some(v.n))
  {
    var prefix := if |date| < 4 then date else date[..4];
    match ParseInt(prefix)
    case Some(n) => Num(n)
    case None => Null
  }

  /** An ISO date string yields its four-digit year. */
  lemma IsoYear(date: string)
    requires |date| >= 4 && forall i :: 0 <= i < 4 ==> IsDecimalDigit(date[i])
    ensures Year(date) == Num(1000 * DecimalValue(date[0]) + 100 * DecimalValue(date[1])
                              + 10 * DecimalValue(date[2]) + DecimalValue(date[3]))
  {
    var y := date[..4];
    assert forall i :: 0 <= i < 4 ==> y[i] == date[i];
    ParseFourDigits(y);
  }

  /** The steps of the rule, one per field it may touch. */
  datatype Step =
    | StartYear | EndYear | IsOngoing | CoverImage | MainImage
    | StartDate | EndDate | Videos | Documents | Categories | RelatedProjects

  /** The field a step touches. */
  function Name(s: Step): string {
    match s
    case StartYear => "startYear"
    case EndYear => "endYear"
    case IsOngoing => "isOngoing"
    case CoverImage => "coverImage"
    case MainImage => "mainImage"
    case StartDate => "startDate"
    case EndDate => "endDate"
    case Videos => "videos"
    case Documents => "documents"
    case Categories => "categories"
    case RelatedProjects => "relatedProjects"
  }

  /** Distinct steps touch distinct fields. */
  lemma NameInjective(s: Step, t: Step)
    ensures Name(s) == Name(t) ==> s == t
  {
  }

  /** The order in which the rule emits its operations. */
  const Order: seq<Step> := [
    StartYear, EndYear, IsOngoing, CoverImage, MainImage,
    StartDate, EndDate, Videos, Documents, Categories, RelatedProjects
  ]

  /** A `setIfMissing` of the year when the date is a non-empty string. */
  function YearOp(date: Option<Value>): Option<Op> {
    if Truthy(date) && date.value.Str? then Some(SetIfMissing(Year(date.value.s))) else None
  }

  /** `unset` of a legacy field when it is truthy. */
  function UnsetOp(doc: Doc, f: string): Option<Op> {
    if Truthy(Get(doc, f)) then Some(Unset) else None
  }

  /** The operation the rule emits for a step, if any. */
  function StepOp(doc: Doc, s: Step): (r: Option<Op>)
    ensures r.Some? ==> !r.value.Callback? && !r.value.Set?
  {
    match s
    case StartYear => YearOp(Get(doc, "startDate"))
    case EndYear => YearOp(Get(doc, "endDate"))
    case IsOngoing => Some(SetIfMissing(Bool(Get(doc, "status") != Some(Str("completed")))))
    case CoverImage =>
      if Truthy(Get(doc, "mainImage")) then Some(SetIfMissing(doc["mainImage"])) else None
    case _ => UnsetOp(doc, Name(s))
  }

  /** The operation of a step as a list of at most one patch. */
  function Slot(doc: Doc, s: Step): (ps: seq<Patch>)
    ensures |ps| <= 1
    ensures |ps| == 1 ==> ps[0].field == Name(s) && StepOp(doc, s) == Some(ps[0].op)
    ensures |ps| == 0 <==> StepOp(doc, s).None?
  {
    match StepOp(doc, s)
    case Some(op) => [At(Name(s), op)]
    case None => []
  }

  /** The operations after the first `k` steps of the rule. */
  function EmitUpTo(doc: Doc, k: nat): (ps: seq<Patch>)
    requires k <= |Order|
  {
    if k == 0 then [] else EmitUpTo(doc, k - 1) + Slot(doc, Order[k - 1])
  }

  lemma EmitStep(doc: Doc, k: nat)
    requires k < |Order|
    ensures EmitUpTo(doc, k + 1) == EmitUpTo(doc, k) + Slot(doc, Order[k])
  {
  }

  /** No emitted operation is a callback. */
  lemma {:induction false} EmitPlain(doc: Doc, k: nat)
    requires k <= |Order|
    ensures Plain(EmitUpTo(doc, k))
  {
    if k > 0 {
      EmitPlain(doc, k - 1);
      var prefix: seq<Patch>, slot: seq<Patch> := EmitUpTo(doc, k - 1), Slot(doc, Order[k - 1]);
      forall i | 0 <= i < |prefix + slot| ensures !(prefix + slot)[i].op.Callback? {
        if i < |prefix| {
          assert (prefix + slot)[i] == prefix[i];
        } else {
          assert (prefix + slot)[i] == slot[i - |prefix|];
        }
      }
    }
  }

  /** The operation list of `document(doc)`: every step's slot, in order. */
  function LegacyOps(doc: Doc): seq<Patch> {
    Slot(doc, StartYear) + Slot(doc, EndYear) + Slot(doc, IsOngoing) + Slot(doc, CoverImage)
    + Slot(doc, MainImage) + Slot(doc, StartDate) + Slot(doc, EndDate) + Slot(doc, Videos)
    + Slot(doc, Documents) + Slot(doc, Categories) + Slot(doc, RelatedProjects)
  }

  /** The operation list is the steps of `Order` emitted one after another. */
  lemma LegacyOpsInOrder(doc: Doc)
    ensures LegacyOps(doc) == EmitUpTo(doc, |Order|)
  {
    assert EmitUpTo(doc, 1) == Slot(doc, StartYear);
    EmitStep(doc, 1);
    EmitStep(doc, 2);
    EmitStep(doc, 3);
    EmitStep(doc, 4);
    EmitStep(doc, 5);
    EmitStep(doc, 6);
    EmitStep(doc, 7);
    EmitStep(doc, 8);
    EmitStep(doc, 9);
    EmitStep(doc, 10);
  }

  /** Pushes `setIfMissing` of the year of the step's date field when that
      date is a non-empty string. */
  method PushYear(doc: Doc, operations: seq<Patch>, s: Step) returns (ops: seq<Patch>)
    requires s == StartYear || s == EndYear
    ensures ops == operations + Slot(doc, s)
  {
    var dateField, yearField := "startDate", "startYear";
    if s == EndYear {
      dateField, yearField := "endDate", "endYear";
    }
    ops := operations;
    var date := Get(doc, dateField);
    if Truthy(date) && date.value.Str? {
      var year := Year(date.value.s);
      ops := ops + [At(yearField, SetIfMissing(year))];
    }
  }

  /** Pushes `setIfMissing` of `mainImage` on `coverImage`, then the removal of
      `mainImage`, when `mainImage` is truthy. */
  method PushRename(doc: Doc, operations: seq<Patch>) returns (ops: seq<Patch>)
    ensures ops == operations + Slot(doc, CoverImage) + Slot(doc, MainImage)
  {
    ops := operations;
    if Truthy(Get(doc, "mainImage")) {
      ops := ops + [At("coverImage", SetIfMissing(doc["mainImage"]))];
      ops := ops + [At("mainImage", Unset)];
    }
  }

  /** Pushes the removal of the step's legacy field when it is truthy. */
  method PushUnset(doc: Doc, operations: seq<Patch>, s: Step) returns (ops: seq<Patch>)
    requires s in {StartDate, EndDate, Videos, Documents, Categories, RelatedProjects}
    ensures ops == operations + Slot(doc, s)
  {
    ops := operations;
    var f := Name(s);
    if Truthy(Get(doc, f)) {
      ops := ops + [At(f, Unset)];
    }
  }

  /** `document(doc)`: the operations pushed one by one in the source's order. */
  method MigrateLegacyProject(doc: Doc) returns (operations: seq<Patch>)
    ensures operations == LegacyOps(doc)
  {
    operations := [];
    operations := PushYear(doc, operations, StartYear);
    assert operations == Slot(doc, StartYear);
    operations := PushYear(doc, operations, EndYear);
    var isOngoing := Get(doc, "status") != Some(Str("completed"));
    assert [At("isOngoing", SetIfMissing(Bool(isOngoing)))] == Slot(doc, IsOngoing);
    operations := operations + [At("isOngoing", SetIfMissing(Bool(isOngoing)))];
    operations := PushRename(doc, operations);
    operations := PushUnset(doc, operations, StartDate);
    operations := PushUnset(doc, operations, EndDate);
    operations := PushUnset(doc, operations, Videos);
    operations := PushUnset(doc, operations, Documents);
    operations := PushUnset(doc, operations, Categories);
    operations := PushUnset(doc, operations, RelatedProjects);
  }

  /** The operation on field `f` among the first `k` steps. */
  function OpAmong(doc: Doc, f: string, k: nat): (r: Option<Op>)
    requires k <= |Order|
    ensures r.Some? ==> !r.value.Callback?
  {
    if k == 0 then None
    else if Name(Order[k - 1]) == f then StepOp(doc, Order[k - 1])
    else OpAmong(doc, f, k - 1)
  }

  lemma {:induction false} OpAmongAbsent(doc: Doc, f: string, k: nat)
    requires k <= |Order|
    requires forall i :: 0 <= i < k ==> Name(Order[i]) != f
    ensures OpAmong(doc, f, k) == None
  {
    if k > 0 {
      OpAmongAbsent(doc, f, k - 1);
    }
  }

  /** Every step occurs once in `Order`, at `Position(s)`. */
  function Position(s: Step): (i: nat)
    ensures i < |Order| && Order[i] == s
    ensures forall j :: 0 <= j < |Order| && Order[j] == s ==> j == i
  {
    match s
    case StartYear => 0
    case EndYear => 1
    case IsOngoing => 2
    case CoverImage => 3
    case MainImage => 4
    case StartDate => 5
    case EndDate => 6
    case Videos => 7
    case Documents => 8
    case Categories => 9
    case RelatedProjects => 10
  }

  lemma {:induction false} OpAmongStep(doc: Doc, s: Step, k: nat)
    requires Position(s) < k <= |Order|
    ensures OpAmong(doc, Name(s), k) == StepOp(doc, s)
  {
    NameInjective(Order[k - 1], s);
    if k - 1 != Position(s) {
      OpAmongStep(doc, s, k - 1);
    }
  }

  /** One slot changes only its own field, as its operation says. */
  lemma SlotEffect(d: Doc, doc: Doc, s: Step, f: string)
    ensures Plain(Slot(doc, s))
    ensures Get(ApplyPatches(d, Slot(doc, s)), f)
      == if Name(s) == f then Effect(Get(d, f), StepOp(doc, s)) else Get(d, f)
  {
    var slot := Slot(doc, s);
    if slot != [] {
      ApplySingle(d, slot[0]);
      assert slot == [slot[0]];
    }
  }

  /** After the first `k` steps, a field holds what its own operation (if it
      is among those steps) makes of its earlier value: the steps touch
      distinct fields, so neither their order nor the other steps matter. */
  lemma {:induction false} ApplyEmit(d: Doc, doc: Doc, k: nat, f: string)
    requires k <= |Order|
    ensures Plain(EmitUpTo(doc, k))
    ensures Get(ApplyPatches(d, EmitUpTo(doc, k)), f) == Effect(Get(d, f), OpAmong(doc, f, k))
  {
    EmitPlain(doc, k);
    if k > 0 {
      var prefix := EmitUpTo(doc, k - 1);
      var slot := Slot(doc, Order[k - 1]);
      EmitPlain(doc, k - 1);
      ApplyEmit(d, doc, k - 1, f);
      SlotEffect(ApplyPatches(d, prefix), doc, Order[k - 1], f);
      ApplyConcat(d, prefix, slot);
      if Name(Order[k - 1]) == f {
        forall i | 0 <= i < k - 1 ensures Name(Order[i]) != f {
          NameInjective(Order[i], Order[k - 1]);
          assert Position(Order[k - 1]) == k - 1;
        }
        OpAmongAbsent(doc, f, k - 1);
      }
    }
  }

  /** The document after the rule's operations. */
  function Migrated(doc: Doc): Doc {
    EmitPlain(doc, |Order|);
    ApplyPatches(doc, EmitUpTo(doc, |Order|))
  }

  /** `Migrated` applies exactly the operations that `document(doc)` returns. */
  lemma MigratedApplies(doc: Doc)
    ensures Plain(LegacyOps(doc))
    ensures Migrated(doc) == ApplyPatches(doc, LegacyOps(doc))
  {
    EmitPlain(doc, |Order|);
    LegacyOpsInOrder(doc);
  }

  /** Each step's field ends up as that step's operation makes it. */
  lemma StepEffect(doc: Doc, s: Step)
    ensures Get(Migrated(doc), Name(s)) == Effect(Get(doc, Name(s)), StepOp(doc, s))
  {
    ApplyEmit(doc, doc, |Order|, Name(s));
    OpAmongStep(doc, s, |Order|);
  }

  /** A field that no step touches is left alone. */
  lemma LegacyUntouched(doc: Doc, f: string)
    requires forall s: Step :: Name(s) != f
    ensures Get(Migrated(doc), f) == Get(doc, f)
  {
    ApplyEmit(doc, doc, |Order|, f);
    OpAmongAbsent(doc, f, |Order|);
  }

  /** `doc[dateField]` is a non-empty string. */
  predicate HasDate(doc: Doc, dateField: string) {
    Truthy(Get(doc, dateField)) && Get(doc, dateField).value.Str?
  }

  /** Years are set from a non-empty date string unless already present. */
  lemma LegacyYears(doc: Doc)
    ensures HasDate(doc, "startDate") && Missing(doc, "startYear") ==>
      Get(Migrated(doc), "startYear") == Some(Year(doc["startDate"].s))
    ensures HasDate(doc, "endDate") && Missing(doc, "endYear") ==>
      Get(Migrated(doc), "endYear") == Some(Year(doc["endDate"].s))
    ensures !Missing(doc, "startYear") || !HasDate(doc, "startDate") ==>
      Get(Migrated(doc), "startYear") == Get(doc, "startYear")
    ensures !Missing(doc, "endYear") || !HasDate(doc, "endDate") ==>
      Get(Migrated(doc), "endYear") == Get(doc, "endYear")
  {
    StepEffect(doc, StartYear);
    StepEffect(doc, EndYear);
  }

  /** `isOngoing` is present and not null afterwards, false only for a
      completed project, and an existing value is kept. */
  lemma LegacyIsOngoing(doc: Doc)
    ensures Get(Migrated(doc), "isOngoing").Some? && Get(Migrated(doc), "isOngoing") != Some(Null)
    ensures Missing(doc, "isOngoing") ==>
      Get(Migrated(doc), "isOngoing") == Some(Bool(Get(doc, "status") != Some(Str("completed"))))
    ensures !Missing(doc, "isOngoing") ==> Get(Migrated(doc), "isOngoing") == Get(doc, "isOngoing")
  {
    StepEffect(doc, IsOngoing);
  }

  /** `coverImage` is never overwritten; it is filled from a truthy
      `mainImage`, which is then removed. */
  lemma LegacyCoverImage(doc: Doc)
    ensures !Missing(doc, "coverImage") ==> Get(Migrated(doc), "coverImage") == Get(doc, "coverImage")
    ensures Missing(doc, "coverImage") && Truthy(Get(doc, "mainImage")) ==>
      Get(Migrated(doc), "coverImage") == Get(doc, "mainImage")
    ensures !Truthy(Get(doc, "mainImage")) ==> Get(Migrated(doc), "coverImage") == Get(doc, "coverImage")
    ensures Truthy(Get(doc, "mainImage")) ==> "mainImage" !in Migrated(doc)
  {
    StepEffect(doc, CoverImage);
    StepEffect(doc, MainImage);
  }

  /** The old fields are removed when truthy and left alone otherwise. */
  lemma LegacyRemoved(doc: Doc, s: Step)
    requires s in {MainImage, StartDate, EndDate, Videos, Documents, Categories, RelatedProjects}
    ensures Truthy(Get(doc, Name(s))) ==> Name(s) !in Migrated(doc)
    ensures !Truthy(Get(doc, Name(s))) ==> Get(Migrated(doc), Name(s)) == Get(doc, Name(s))
  {
    StepEffect(doc, s);
  }

  /** After the rule, the operation it would emit for a step leaves that
      step's field as it is. */
  lemma {:induction false} LegacySettled(doc: Doc, s: Step)
    ensures Effect(Get(Migrated(doc), Name(s)), StepOp(Migrated(doc), s)) == Get(Migrated(doc), Name(s))
  {
    if s == StartYear || s == EndYear {
      YearSettled(doc, s);
    } else if s == IsOngoing {
      StepEffect(doc, IsOngoing);
    } else {
      UnsetSettled(doc, s);
    }
  }

  /** After the rule no date is left to extract a year from. */
  lemma YearSettled(doc: Doc, s: Step)
    requires s == StartYear || s == EndYear
    ensures StepOp(Migrated(doc), s) == None
  {
    var d1 := Migrated(doc);
    if s == StartYear {
      LegacyRemoved(doc, StartDate);
      assert !Truthy(Get(d1, "startDate"));
      assert StepOp(d1, s) == YearOp(Get(d1, "startDate"));
    } else {
      LegacyRemoved(doc, EndDate);
      assert !Truthy(Get(d1, "endDate"));
      assert StepOp(d1, s) == YearOp(Get(d1, "endDate"));
    }
  }

  /** After the rule `mainImage` and the legacy fields are no longer truthy. */
  lemma UnsetSettled(doc: Doc, s: Step)
    requires s != StartYear && s != EndYear && s != IsOngoing
    ensures StepOp(Migrated(doc), s) == None
  {
    var u := if s == CoverImage then MainImage else s;
    LegacyRemoved(doc, u);
    assert !Truthy(Get(Migrated(doc), Name(u)));
  }

  /** Applying the rule, recomputing its operations on the result and applying
      them again gives the same document. */
  lemma LegacyIdempotent(doc: Doc)
    ensures Migrated(Migrated(doc)) == Migrated(doc)
  {
    var d1 := Migrated(doc);
    forall f ensures Get(Migrated(d1), f) == Get(d1, f) {
      if s: Step :| Name(s) == f {
        StepEffect(d1, s);
        LegacySettled(doc, s);
      } else {
        LegacyUntouched(d1, f);
      }
    }
    DocExtensional(Migrated(d1), d1);
  }

  /** The rule always emits the `isOngoing` operation. */
  lemma LegacyEmitsIsOngoing(doc: Doc)
    ensures exists i :: (0 <= i < |LegacyOps(doc)|
      && LegacyOps(doc)[i] == At("isOngoing", SetIfMissing(Bool(Get(doc, "status") != Some(Str("completed"))))))
  {
    var op := At("isOngoing", SetIfMissing(Bool(Get(doc, "status") != Some(Str("completed")))));
    var p2, p3 := EmitUpTo(doc, 2), EmitUpTo(doc, 3);
    assert p3 == p2 + [op] by {
      EmitStep(doc, 2);
      assert Slot(doc, IsOngoing) == [op];
    }
    PrefixOfOps(doc, 3);
    var i := |p2|;
    assert p3[i] == op;
    assert i < |LegacyOps(doc)| && LegacyOps(doc)[i] == op;
  }

  /** The operations of the first `k` steps begin the operation list. */
  lemma PrefixOfOps(doc: Doc, k: nat)
    requires k <= |Order|
    ensures EmitUpTo(doc, k) <= LegacyOps(doc)
  {
    EmitPrefix(doc, k, |Order|);
    LegacyOpsInOrder(doc);
  }

  /** When `mainImage` is truthy, its `setIfMissing` on `coverImage` comes
      right before its unset. */
  lemma LegacyRenameOrder(doc: Doc)
    requires Truthy(Get(doc, "mainImage"))
    ensures exists i :: (0 <= i && i + 1 < |LegacyOps(doc)|
      && LegacyOps(doc)[i] == At("coverImage", SetIfMissing(Get(doc, "mainImage").value))
      && LegacyOps(doc)[i + 1] == At("mainImage", Unset))
  {
    EmitStep(doc, 3);
    EmitStep(doc, 4);
    var p3 := EmitUpTo(doc, 3);
    var p5 := EmitUpTo(doc, 5);
    var cover := At("coverImage", SetIfMissing(Get(doc, "mainImage").value));
    assert Slot(doc, CoverImage) == [cover];
    assert Slot(doc, MainImage) == [At("mainImage", Unset)];
    assert p5 == p3 + [cover] + [At("mainImage", Unset)];
    PrefixOfOps(doc, 5);
    assert LegacyOps(doc)[|p3|] == p5[|p3|];
    assert LegacyOps(doc)[|p3| + 1] == p5[|p3| + 1];
  }

  /** Earlier steps' operations are a prefix of later ones'. */
  lemma {:induction false} EmitPrefix(doc: Doc, j: nat, k: nat)
    requires j <= k <= |Order|
    ensures EmitUpTo(doc, j) <= EmitUpTo(doc, k)
    decreases k
  {
    if j < k {
      EmitPrefix(doc, j, k - 1);
    }
  }
}
