/** Field patches and what a migration's `document` function returns.

    The `sanity/migrate` runner that applies patches is not part of this
    model; `ApplyPatches` gives the meaning the migrations rely on: `set`
    overwrites a field, `setIfMissing` writes it only when it is absent or
    null, `unset` removes it, and the patches of one list are applied in
    order. */
module Patches {
  import opened Text
  import opened Json

  /** The operation of `at(field, op)`. `Callback(result)` is the function
      value `prev => result` that a locally defined `set` helper returns in
      place of an operation; the store's treatment of it is not modelled. */
  datatype Op =
    | Set(value: Value)
    | SetIfMissing(value: Value)
    | Unset
    | Callback(result: Value)

  datatype Patch = At(field: string, op: Op)

  /** The result of a migration's `document(doc)` function: nothing
      (`return` with no value), a list of patches, a whole replacement
      (`createOrReplace`), or an exception. */
  datatype Migration =
    | NoChange
    | Edits(patches: seq<Patch>)
    | CreateOrReplace(doc: Doc)
    | Throws

  /** The value `at(path, set(v))` evaluates to, a patch object
      `{path: [path], op: {type: "set", value: v}}`, when it is used as data. */
  function SetPatchValue(path: string, v: Value): (r: Value)
    ensures r.Obj? && r.fields.Keys == {"path", "op"}
    ensures r.fields["op"].Obj? && r.fields["op"].fields.Keys == {"type", "value"}
    ensures r.fields["op"].fields["value"] == v
  {
    Obj(map["path" := Arr([Str(path)]), "op" := Obj(map["type" := Str("set"), "value" := v])])
  }

  /** Calling the function value held by a callback. */
  function Invoke(op: Op, prev: Value): Value
    requires op.Callback?
  {
    op.result
  }

  /** The field is absent or null, so `setIfMissing` writes it. */
  predicate Missing(doc: Doc, f: string) {
    f !in doc || doc[f] == Null
  }

  function ApplyPatch(doc: Doc, p: Patch): (r: Doc)
    requires !p.op.Callback?
    ensures forall g :: g != p.field ==> Get(r, g) == Get(doc, g)
    ensures p.op.Set? ==> Get(r, p.field) == Some(p.op.value)
    ensures p.op.SetIfMissing? && Missing(doc, p.field) ==> Get(r, p.field) == Some(p.op.value)
    ensures p.op.SetIfMissing? && !Missing(doc, p.field) ==> r == doc
    ensures p.op.Unset? ==> p.field !in r
  {
    match p.op
    case Set(v) => doc[p.field := v]
    case SetIfMissing(v) => if Missing(doc, p.field) then doc[p.field := v] else doc
    case Unset => doc - {p.field}
  }

  /** No patch of the list is a callback. */
  predicate Plain(ps: seq<Patch>) {
    forall i :: 0 <= i < |ps| ==> !ps[i].op.Callback?
  }

  function ApplyPatches(doc: Doc, ps: seq<Patch>): Doc
    requires Plain(ps)
    decreases |ps|
  {
    if ps == [] then doc else ApplyPatches(ApplyPatch(doc, ps[0]), ps[1..])
  }

  /** A list of one patch applies that patch. */
  lemma ApplySingle(doc: Doc, p: Patch)
    requires !p.op.Callback?
    ensures ApplyPatches(doc, [p]) == ApplyPatch(doc, p)
  {
    assert [p][1..] == [];
  }

  /** Applying a concatenation applies the first list, then the second. */
  lemma {:induction false} ApplyConcat(doc: Doc, a: seq<Patch>, b: seq<Patch>)
    requires Plain(a) && Plain(b)
    ensures Plain(a + b)
    ensures ApplyPatches(doc, a + b) == ApplyPatches(ApplyPatches(doc, a), b)
    decreases |a|
  {
    assert Plain(a + b) by {
      forall i | 0 <= i < |a + b| ensures !(a + b)[i].op.Callback? {
        if i < |a| { assert (a + b)[i] == a[i]; } else { assert (a + b)[i] == b[i - |a|]; }
      }
    }
    if a == [] {
      assert a + b == b;
    } else {
      assert (a + b)[0] == a[0];
      assert (a + b)[1..] == a[1..] + b;
      ApplyConcat(ApplyPatch(doc, a[0]), a[1..], b);
    }
  }

  /** The value of a field after one optional operation on it. */
  function Effect(cur: Option<Value>, op: Option<Op>): Option<Value>
    requires op.Some? ==> !op.value.Callback?
  {
    match op
    case None => cur
    case Some(Set(v)) => Some(v)
    case Some(SetIfMissing(v)) => if cur.None? || cur == Some(Null) then Some(v) else cur
    case Some(Unset) => None
  }

  /** Fields that no patch of the list targets keep their value. */
  lemma {:induction false} ApplyUntouched(doc: Doc, ps: seq<Patch>, f: string)
    requires Plain(ps)
    requires forall i :: 0 <= i < |ps| ==> ps[i].field != f
    ensures Get(ApplyPatches(doc, ps), f) == Get(doc, f)
    decreases |ps|
  {
    if ps != [] {
      ApplyUntouched(ApplyPatch(doc, ps[0]), ps[1..], f);
    }
  }

  /** Every patch of the list is a `setIfMissing`. */
  predicate OnlySetIfMissing(ps: seq<Patch>) {
    forall i :: 0 <= i < |ps| ==> ps[i].op.SetIfMissing?
  }

  /** After `setIfMissing(v)` on `f`, a later `setIfMissing(v)` on `f` changes nothing. */
  predicate Settled(doc: Doc, f: string, v: Value) {
    f in doc && (doc[f] != Null || v == Null)
  }

  predicate Saturated(doc: Doc, ps: seq<Patch>)
    requires OnlySetIfMissing(ps)
  {
    forall i :: 0 <= i < |ps| ==> Settled(doc, ps[i].field, ps[i].op.value)
  }

  lemma {:induction false} SettledPreserved(doc: Doc, f: string, v: Value, ps: seq<Patch>)
    requires OnlySetIfMissing(ps)
    requires Settled(doc, f, v)
    ensures Settled(ApplyPatches(doc, ps), f, v)
    decreases |ps|
  {
    if ps != [] {
      SettledPreserved(ApplyPatch(doc, ps[0]), f, v, ps[1..]);
    }
  }

  lemma {:induction false} ApplySaturates(doc: Doc, ps: seq<Patch>)
    requires OnlySetIfMissing(ps)
    ensures Saturated(ApplyPatches(doc, ps), ps)
    decreases |ps|
  {
    if ps != [] {
      var d1 := ApplyPatch(doc, ps[0]);
      var r := ApplyPatches(d1, ps[1..]);
      ApplySaturates(d1, ps[1..]);
      SettledPreserved(d1, ps[0].field, ps[0].op.value, ps[1..]);
      forall i | 0 <= i < |ps|
        ensures Settled(r, ps[i].field, ps[i].op.value)
      {
        if i > 0 {
          assert ps[i] == ps[1..][i - 1];
        }
      }
    }
  }

  lemma {:induction false} SaturatedFixed(doc: Doc, ps: seq<Patch>)
    requires OnlySetIfMissing(ps)
    requires Saturated(doc, ps)
    ensures ApplyPatches(doc, ps) == doc
  {
    if ps != [] {
      var f := ps[0].field;
      assert Settled(doc, f, ps[0].op.value);
      assert ApplyPatch(doc, ps[0]) == doc by {
        if Missing(doc, f) {
          assert doc[f := ps[0].op.value] == doc;
        }
      }
      assert Saturated(doc, ps[1..]) by {
        forall i | 0 <= i < |ps[1..]|
          ensures Settled(doc, ps[1..][i].field, ps[1..][i].op.value)
        {
          assert ps[1..][i] == ps[i + 1];
        }
      }
      SaturatedFixed(doc, ps[1..]);
    }
  }

  /** A list made only of `setIfMissing` patches is idempotent: applying it
      a second time changes nothing. */
  lemma SetIfMissingIdempotent(doc: Doc, ps: seq<Patch>)
    requires OnlySetIfMissing(ps)
    ensures ApplyPatches(ApplyPatches(doc, ps), ps) == ApplyPatches(doc, ps)
  {
    ApplySaturates(doc, ps);
    SaturatedFixed(ApplyPatches(doc, ps), ps);
  }

  /** A `setIfMissing` list never overwrites a field that is already set. */
  lemma {:induction false} SetIfMissingKeepsPresent(doc: Doc, ps: seq<Patch>, f: string)
    requires OnlySetIfMissing(ps)
    requires !Missing(doc, f)
    ensures Get(ApplyPatches(doc, ps), f) == Get(doc, f)
    decreases |ps|
  {
    if ps != [] {
      SetIfMissingKeepsPresent(ApplyPatch(doc, ps[0]), ps[1..], f);
    }
  }
}
