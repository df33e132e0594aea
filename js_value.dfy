/** The loosely typed JSON values a telemetry record carries, as the
    components see them after `JSON.parse`. Numbers are idealised as reals
    (JSON has no NaN or Infinity); an object keeps its own keys in
    enumeration order. */
module JsValue {

  datatype Value =
    | Undefined
    | Null
    | Bool(b: bool)
    | Num(x: real)
    | Str(s: string)
    | Arr(items: seq<Value>)
    | Obj(fields: seq<Entry>)

  /** One own property of an object: what `Object.entries` lists. */
  datatype Entry = Entry(key: string, value: Value)

  /** A telemetry record is an object given by its entries. */
  type Record = seq<Entry>

  /** JavaScript truthiness: what `x || y` and `if (x)` test. */
  predicate Truthy(v: Value) {
    match v
    case Undefined => false
    case Null => false
    case Bool(b) => b
    case Num(x) => x != 0.0
    case Str(s) => s != ""
    case Arr(_) => true
    case Obj(_) => true
  }

  /** `typeof v === "number"`. */
  predicate IsNumber(v: Value) {
    v.Num?
  }

  /** `r[name]`: the value stored under `name`, `undefined` when there is none.
      A JavaScript object holds each key once, so the first entry is the one. */
  function Get(r: Record, name: string): Value {
    if r == [] then Undefined
    else if r[0].key == name then r[0].value
    else Get(r[1..], name)
  }

  /** `Object.keys(r)`. */
  function Keys(r: Record): (ks: seq<string>)
    ensures |ks| == |r|
    ensures forall i :: 0 <= i < |r| ==> ks[i] == r[i].key
  {
    if r == [] then [] else [r[0].key] + Keys(r[1..])
  }

  /** The value `Get` returns for a key that is present is that key's entry. */
  lemma {:induction false} GetPresent(r: Record, i: nat)
    requires i < |r|
    requires forall j :: 0 <= j < i ==> r[j].key != r[i].key
    ensures Get(r, r[i].key) == r[i].value
  {
    if i > 0 {
      GetPresent(r[1..], i - 1);
    }
  }
}
