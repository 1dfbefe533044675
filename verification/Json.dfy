/**
 JSON values as the service sees them. An object keeps its fields in insertion
 order, as a Python dict does; looking a key up finds its first field.
 */
module Json {
  import opened Text

  datatype Value =
    | Null
    | Bool(b: bool)
    | Int(n: int)
    | Real(x: real)
    | Str(s: string)
    | Arr(items: seq<Value>)
    | Obj(fields: seq<Field>)

  datatype Field = Field(key: string, value: Value)

  function Lookup(fields: seq<Field>, key: string): (r: Option<Value>)
    ensures r.Some? <==> exists i :: 0 <= i < |fields| && fields[i].key == key
    ensures r.Some? ==> exists i :: 0 <= i < |fields| && fields[i] == Field(key, r.value)
  {
    if fields == [] then None
    else if fields[0].key == key then
      assert fields[0] == Field(key, fields[0].value);
      Some(fields[0].value)
    else
      var rest := fields[1..];
      var r := Lookup(rest, key);
      assert forall i :: 0 <= i < |rest| ==> rest[i] == fields[i + 1];
      assert forall i :: 0 < i < |fields| ==> fields[i] == rest[i - 1];
      r
  }

  /** `key in dict` */
  predicate Has(fields: seq<Field>, key: string) {
    Lookup(fields, key).Some?
  }

  /** `dict.get(key, default)` */
  function GetOr(fields: seq<Field>, key: string, default: Value): Value {
    var r := Lookup(fields, key);
    if r.Some? then r.value else default
  }

  /** `dict[key] = value`: replaces in place, or appends a new field. */
  function Put(fields: seq<Field>, key: string, value: Value): (r: seq<Field>)
    ensures Lookup(r, key) == Some(value)
    ensures forall k :: k != key ==> Lookup(r, k) == Lookup(fields, k)
    ensures forall f :: f in r ==> f in fields || f == Field(key, value)
  {
    if fields == [] then [Field(key, value)]
    else if fields[0].key == key then
      var r := [Field(key, value)] + fields[1..];
      assert r[1..] == fields[1..];
      r
    else
      var r := [fields[0]] + Put(fields[1..], key, value);
      assert r[1..] == Put(fields[1..], key, value);
      r
  }

  /** `dict.pop(key, None)`: a dict holds at most one field of a key. */
  function Remove(fields: seq<Field>, key: string): (r: seq<Field>)
    ensures Lookup(r, key) == None
    ensures forall k :: k != key ==> Lookup(r, k) == Lookup(fields, k)
    ensures forall f :: f in r ==> f in fields
  {
    if fields == [] then []
    else if fields[0].key == key then Remove(fields[1..], key)
    else
      var r := [fields[0]] + Remove(fields[1..], key);
      assert r[1..] == Remove(fields[1..], key);
      r
  }

  /** Python truthiness. */
  predicate Truthy(v: Value) {
    match v
    case Null => false
    case Bool(b) => b
    case Int(n) => n != 0
    case Real(x) => x != 0.0
    case Str(s) => s != ""
    case Arr(items) => items != []
    case Obj(fields) => fields != []
  }

  /** The values that count as false. */
  predicate IsFalsy(v: Value) {
    || v == Null || v == Bool(false) || v == Int(0) || v == Real(0.0) || v == Str("") || v == Arr([]) || v == Obj([])
  }

  lemma {:induction false} TruthyMeans(v: Value)
    ensures Truthy(v) <==> !IsFalsy(v)
  {
  }

  /** `a or b` */
  function Or(a: Value, b: Value): Value {
    if Truthy(a) then a else b
  }
}
