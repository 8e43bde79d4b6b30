/** Documents of the content store as JavaScript sees them: JSON values,
    property access that yields `undefined` for an absent key, truthiness and
    the conversion of a value to text inside a template literal. */
module Json {
  import opened Text

  datatype Value =
    | Str(s: string)
    | Num(n: int)
    | Bool(b: bool)
    | Null
    | Arr(items: seq<Value>)
    | Obj(fields: map<string, Value>)

  /** The outcome of a JavaScript computation that may throw (a TypeError
      from reading a property of null or calling a missing method). */
  datatype Result<+T> = Ok(value: T) | Thrown

  /** A document: its fields by name. An absent name is `undefined`. */
  type Doc = map<string, Value>

  /** `doc.f`: `None` stands for `undefined`. */
  function Get(doc: Doc, f: string): Option<Value> {
    if f in doc then Some(doc[f]) else None
  }

  /** Two documents with the same fields are equal. */
  lemma DocExtensional(a: Doc, b: Doc)
    requires forall f :: Get(a, f) == Get(b, f)
    ensures a == b
  {
    assert forall f :: f in a <==> Get(a, f).Some?;
    assert a.Keys == b.Keys;
  }

  /** JavaScript truthiness of a possibly-undefined value. */
  predicate Truthy(o: Option<Value>) {
    match o
    case None => false
    case Some(v) =>
      match v
      case Str(s) => s != ""
      case Num(n) => n != 0
      case Bool(b) => b
      case Null => false
      case Arr(_) => true
      case Obj(_) => true
  }

  /** `o || fallback`. */
  function Or(o: Option<Value>, fallback: Value): (r: Value)
    ensures Truthy(o) ==> r == o.value
    ensures !Truthy(o) ==> r == fallback
  {
    if Truthy(o) then o.value else fallback
  }

  /** The outcome of reading property `f` of a value: reading a property of
      `null` or `undefined` throws a TypeError; strings, numbers, booleans
      and arrays have none of the document property names used here. */
  datatype Access = Undefined | Present(v: Value) | TypeError

  function Prop(o: Option<Value>, f: string): (r: Access)
    ensures r.TypeError? <==> (o.None? || o.value.Null?)
    ensures r.Present? ==> o.Some? && o.value.Obj? && f in o.value.fields && r.v == o.value.fields[f]
    ensures o.Some? && o.value.Obj? && f in o.value.fields ==> r == Present(o.value.fields[f])
  {
    match o
    case None => TypeError
    case Some(Null) => TypeError
    case Some(Obj(m)) => if f in m then Present(m[f]) else Undefined
    case Some(_) => Undefined
  }

  /** The access outcome as a possibly-undefined value (throwing is handled by the caller). */
  function AsOption(a: Access): Option<Value> {
    if a.Present? then Some(a.v) else None
  }

  /** `String(v)` for a value that is not undefined: what a template literal
      `${v}` inserts. Arrays join their elements with ",", writing null and
      undefined elements as the empty string. */
  function ValueText(v: Value): string
    decreases v
  {
    match v
    case Str(s) => s
    case Num(n) => IntText(n)
    case Bool(b) => if b then "true" else "false"
    case Null => "null"
    case Arr(items) =>
      Join(seq(|items|, i requires 0 <= i < |items| =>
        if items[i].Null? then "" else ValueText(items[i])), ",")
    case Obj(_) => "[object Object]"
  }

  /** `${o}` for a possibly-undefined value. */
  function JsText(o: Option<Value>): (r: string)
    ensures o.None? ==> r == "undefined"
    ensures o.Some? && o.value.Str? ==> r == o.value.s
    ensures o == Some(Null) ==> r == "null"
    ensures o.Some? && o.value.Bool? ==> r == if o.value.b then "true" else "false"
    ensures o.Some? && o.value.Num? ==> r == IntText(o.value.n)
    ensures o.Some? && o.value.Obj? ==> r == "[object Object]"
  {
    match o
    case None => "undefined"
    case Some(v) => ValueText(v)
  }

  /** `{f: doc.f}` in an object literal: an undefined value is dropped when
      the object is serialised, so the field is kept only when present. */
  function Pick(doc: Doc, f: string): (m: map<string, Value>)
    ensures m.Keys <= {f}
    ensures Get(m, f) == Get(doc, f)
  {
    if f in doc then map[f := doc[f]] else map[]
  }

  /** `xs.map(f)` with a callback that may throw: the first throwing element
      ends the map with that exception. */
  function MapArray(xs: seq<Value>, f: Value -> Result<Value>): (r: Result<seq<Value>>)
    ensures r.Ok? <==> forall i :: 0 <= i < |xs| ==> f(xs[i]).Ok?
    ensures r.Ok? ==> |r.value| == |xs| && forall i :: 0 <= i < |xs| ==> r.value[i] == f(xs[i]).value
  {
    if xs == [] then Ok([])
    else
      match f(xs[0])
      case Thrown => Thrown
      case Ok(y) =>
        var rest := MapArray(xs[1..], f);
        if rest.Thrown? then Thrown else Ok([y] + rest.value)
  }
}
