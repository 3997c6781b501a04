/** The engine's values as the two converters see them, and JSON as the host sees it. */
module EngineValues {
  import opened Prelude

  const MAX_SAFE_INTEGER := 0x1F_FFFF_FFFF_FFFF

  const MAX_U32 := 0xFFFF_FFFF

  type Int32 = i: int | -0x8000_0000 <= i < 0x8000_0000

  /** A 64-bit float; `Finite` holds every finite one but negative zero. */
  datatype Double = NaN | Infinite(negative: bool) | NegativeZero | Finite(value: real)

  type Ref = nat

  datatype Val =
    | Null | Undefined | Symbol
    | Bool(b: bool)
    | Int(i: Int32)
    | Float(f: Double)
    | Str(text: string)
    | Obj(at: Ref)

  /** An own, enumerable, string-keyed property. */
  type Prop = (string, Val)

  /** An object whose reads run no script. A hole of an array reads as `Undefined`. */
  datatype Node = Array(items: seq<Val>) | Plain(props: seq<Prop>) | Callable(props: seq<Prop>)

  type Heap = map<Ref, Node>

  datatype Json =
    | JNull
    | JBool(b: bool)
    | JInt(n: int)
    | JFloat(f: Double)
    | JStr(text: string)
    | JArr(items: seq<Json>)
    | JObj(fields: map<string, Json>)

  /** One value with every path below it spelled out: sharing is gone, order is kept. */
  datatype Tree = Leaf(json: Json) | Items(trees: seq<Tree>) | Entries(fields: seq<Field>)

  datatype Field = Field(key: string, tree: Tree)

  function ToJson(t: Tree): Json {
    match t
    case Leaf(json) => json
    case Items(trees) => JArr(seq(|trees|, i requires 0 <= i < |trees| => ToJson(trees[i])))
    case Entries(fields) => JObj(Collect(fields))
  }

  function Collect(fields: seq<Field>): map<string, Json> {
    if fields == [] then map[]
    else
      var n := |fields| - 1;
      Collect(fields[..n])[fields[n].key := ToJson(fields[n].tree)]
  }

  predicate InHeap(h: Heap, v: Val) {
    v.Obj? ==> v.at in h
  }

  function Props(node: Node): seq<Prop>
    requires !node.Array?
  {
    node.props
  }

  ghost predicate Closed(h: Heap) {
    forall r :: r in h ==>
      (h[r].Array? ==> forall i :: 0 <= i < |h[r].items| ==> InHeap(h, h[r].items[i])) &&
      (!h[r].Array? ==> forall i :: 0 <= i < |Props(h[r])| ==> InHeap(h, Props(h[r])[i].1))
  }

  /** What JSON keeps; the rest is null in an array and absent from an object. */
  predicate Supported(h: Heap, v: Val)
    requires InHeap(h, v)
  {
    match v
    case Undefined => false
    case Symbol => false
    case Obj(at) => !h[at].Callable?
    case _ => true
  }

  predicate Whole(r: real) {
    r == r.Floor as real
  }

  predicate SafeWhole(f: Double) {
    f.NegativeZero? ||
      (f.Finite? && Whole(f.value) && -(MAX_SAFE_INTEGER as real) <= f.value <= MAX_SAFE_INTEGER as real)
  }

  /** A number read out of the engine: whole ones in the safe range are integers, non-finite ones are null. */
  function Number(f: Double): Json {
    match f
    case NaN => JNull
    case Infinite(_) => JNull
    case NegativeZero => JInt(0)
    case Finite(r) =>
      if Whole(r) && 0.0 <= r <= MAX_U32 as real then JInt(r.Floor)
      else if Whole(r) && -(MAX_SAFE_INTEGER as real) <= r <= MAX_SAFE_INTEGER as real then JInt(r.Floor)
      else JFloat(f)
  }

  /** A value that is no object, as JSON; a symbol has none. */
  function Primitive(v: Val): Option<Json>
    requires !v.Obj?
  {
    match v
    case Null => Some(JNull)
    case Undefined => Some(JNull)
    case Bool(b) => Some(JBool(b))
    case Int(i) => Some(JInt(i))
    case Float(f) => Some(Number(f))
    case Str(text) => Some(JStr(text))
    case Symbol => None
  }
}
