/** JSON built into the engine: a heap that grows, atoms taken and given back, one table of cached keys. */
module Builders {
  import opened Prelude
  import opened EngineValues
  import opened Walk
  import opened Walkers

  // ---- What building makes of each number ----------------------------------

  /** The nearest double of an integer; past the safe range it stays past it. */
  ghost predicate Rounds(round: int -> real) {
    forall n: int :: (n > MAX_SAFE_INTEGER ==> round(n) > MAX_SAFE_INTEGER as real) &&
                     (n < -MAX_SAFE_INTEGER ==> round(n) < -(MAX_SAFE_INTEGER as real))
  }

  function AsDouble(n: int, round: int -> real): Double {
    if -MAX_SAFE_INTEGER <= n <= MAX_SAFE_INTEGER then Finite(n as real) else Finite(round(n))
  }

  /** An exact 32-bit integer, when the double is one. */
  function ExactInt32(f: Double): Option<Int32> {
    match f
    case NegativeZero => Some(0)
    case Finite(r) =>
      if Whole(r) && -0x8000_0000 as real <= r <= 0x7FFF_FFFF as real then Some(r.Floor) else None
    case _ => None
  }

  function NumberIn(f: Double): Val {
    match ExactInt32(f)
    case Some(i) => Int(i)
    case None => Float(f)
  }

  /** A double becomes an integer of the engine exactly when it is one of 32 bits; negative zero becomes zero. */
  lemma NumbersAreBuiltAs(f: Double, i: Int32)
    ensures NumberIn(f) == Int(i) <==>
      (f == NegativeZero && i == 0) || (f.Finite? && f.value == i as real)
    ensures NumberIn(f).Float? <==>
      f.NaN? || f.Infinite? ||
      (f.Finite? && !(f.value == f.value.Floor as real && -2147483648.0 <= f.value <= 2147483647.0))
    ensures NumberIn(f).Float? ==> NumberIn(f) == Float(f)
    ensures NumberIn(f).Int? || NumberIn(f).Float?
  {
  }

  /** What comes back of a tree that goes through the engine. */
  function Normal(j: Json, round: int -> real): Json {
    match j
    case JInt(n) => Number(AsDouble(n, round))
    case JFloat(f) => Number(f)
    case JArr(items) => JArr(seq(|items|, i requires 0 <= i < |items| => Normal(items[i], round)))
    case JObj(fields) => JObj(map k | k in fields :: Normal(fields[k], round))
    case _ => j
  }

  /** Integers in the safe range, and doubles that are not safe integers in disguise. */
  predicate SafeNumbers(j: Json) {
    match j
    case JInt(n) => -MAX_SAFE_INTEGER <= n <= MAX_SAFE_INTEGER
    case JFloat(f) => f.Finite? && !SafeWhole(f)
    case JArr(items) => forall i :: 0 <= i < |items| ==> SafeNumbers(items[i])
    case JObj(fields) => forall k :: k in fields ==> SafeNumbers(fields[k])
    case _ => true
  }

  /** The trip through the engine is the identity on exactly the trees whose numbers are all safe. */
  lemma {:induction false} NormalIsIdentityOnSafeNumbers(j: Json, round: int -> real)
    requires Rounds(round)
    ensures Normal(j, round) == j <==> SafeNumbers(j)
    decreases j
  {
    match j
    case JInt(n) =>
      assert (n as real).Floor == n;
    case JArr(items) =>
      forall i | 0 <= i < |items| ensures Normal(items[i], round) == items[i] <==> SafeNumbers(items[i]) {
        NormalIsIdentityOnSafeNumbers(items[i], round);
      }
      var through := Normal(j, round).items;
      assert forall i :: 0 <= i < |items| ==> through[i] == Normal(items[i], round);
    case JObj(fields) =>
      forall k | k in fields ensures Normal(fields[k], round) == fields[k] <==> SafeNumbers(fields[k]) {
        NormalIsIdentityOnSafeNumbers(fields[k], round);
      }
      var through := Normal(j, round).fields;
      assert forall k :: k in fields ==> through[k] == Normal(fields[k], round);
    case _ =>
  }

  // ---- Heaps that grow ------------------------------------------------------

  /** The part of a heap allocated since an earlier one. */
  function Since(before: Heap, now: Heap): Heap {
    map r | r in now && r !in before :: now[r]
  }

  ghost predicate Grown(before: Heap, now: Heap) {
    forall r :: r in before ==> r in now && now[r] == before[r]
  }

  lemma KeptPropsGrow(h: Heap, k: Heap, props: seq<Prop>)
    requires Grown(h, k) && forall i :: 0 <= i < |props| ==> InHeap(h, props[i].1)
    ensures KeptProps(h, props) == KeptProps(k, props)
  {
  }

  /** A value unfolds the same in any larger heap. */
  lemma {:induction false} UnfoldingSurvivesGrowth(h: Heap, k: Heap, v: Val, t: Tree)
    requires Closed(h) && Closed(k) && Grown(h, k) && Unfolds(h, v, t)
    ensures Unfolds(k, v, t)
    decreases t
  {
    match t
    case Leaf(_) =>
    case Items(trees) =>
      var items := h[v.at].items;
      forall i | 0 <= i < |trees| ensures Unfolds(k, Shown(k, items[i]), trees[i]) {
        UnfoldingSurvivesGrowth(h, k, Shown(h, items[i]), trees[i]);
      }
    case Entries(fields) =>
      var kept := KeptProps(h, Props(h[v.at]));
      KeptPropsGrow(h, k, Props(h[v.at]));
      forall i | 0 <= i < |fields| ensures Unfolds(k, kept[i].1, fields[i].tree) {
        UnfoldingSurvivesGrowth(h, k, kept[i].1, fields[i].tree);
      }
  }

  /** A built value: it lives in a part of the heap that refers to nothing outside itself, and unfolds to `t`. */
  ghost predicate BuiltIn(part: Heap, v: Val, t: Tree) {
    Closed(part) && InHeap(part, v) && Supported(part, v) && Unfolds(part, v, t)
  }

  lemma BuiltSurvivesGrowth(part: Heap, larger: Heap, v: Val, t: Tree)
    requires BuiltIn(part, v, t) && Closed(larger) && Grown(part, larger)
    ensures BuiltIn(larger, v, t)
  {
    UnfoldingSurvivesGrowth(part, larger, v, t);
  }

  ghost predicate AllBuiltIn(part: Heap, vals: seq<Val>, trees: seq<Tree>) {
    |vals| == |trees| && forall i :: 0 <= i < |vals| ==> BuiltIn(part, vals[i], trees[i])
  }

  ghost predicate FieldsBuiltIn(part: Heap, props: seq<Prop>, fields: seq<Field>) {
    |props| == |fields| &&
    forall i :: 0 <= i < |props| ==> fields[i].key == props[i].0 && BuiltIn(part, props[i].1, fields[i].tree)
  }

  lemma ArrayIsBuilt(part: Heap, r: Ref, items: seq<Val>, trees: seq<Tree>)
    requires Closed(part) && r !in part && AllBuiltIn(part, items, trees)
    ensures BuiltIn(part[r := Array(items)], Obj(r), Items(trees))
  {
    var whole := part[r := Array(items)];
    forall i | 0 <= i < |items| ensures InHeap(whole, items[i]) {
      assert BuiltIn(part, items[i], trees[i]);
    }
    forall i | 0 <= i < |items| ensures Unfolds(whole, Shown(whole, items[i]), trees[i]) {
      BuiltSurvivesGrowth(part, whole, items[i], trees[i]);
    }
  }

  lemma {:induction false} AllKept(h: Heap, props: seq<Prop>)
    requires forall i :: 0 <= i < |props| ==> InHeap(h, props[i].1) && Supported(h, props[i].1)
    ensures KeptProps(h, props) == props
  {
    if props != [] {
      AllKept(h, props[1..]);
    }
  }

  lemma ObjectIsBuilt(part: Heap, r: Ref, props: seq<Prop>, fields: seq<Field>)
    requires Closed(part) && r !in part && FieldsBuiltIn(part, props, fields)
    ensures BuiltIn(part[r := Plain(props)], Obj(r), Entries(fields))
  {
    var whole := part[r := Plain(props)];
    forall i | 0 <= i < |props| ensures InHeap(whole, props[i].1) {
      assert BuiltIn(part, props[i].1, fields[i].tree);
    }
    forall i | 0 <= i < |props| ensures BuiltIn(whole, props[i].1, fields[i].tree) {
      BuiltSurvivesGrowth(part, whole, props[i].1, fields[i].tree);
    }
    AllKept(whole, props);
  }

  lemma {:induction false} CollectDistinct(fields: seq<Field>, k: nat)
    requires forall i, j :: 0 <= i < j < |fields| ==> fields[i].key != fields[j].key
    requires k < |fields|
    ensures fields[k].key in Collect(fields) && Collect(fields)[fields[k].key] == ToJson(fields[k].tree)
  {
    if k < |fields| - 1 {
      CollectDistinct(fields[..|fields| - 1], k);
    }
  }

  lemma {:induction false} CollectedKeys(fields: seq<Field>, key: string)
    ensures key in Collect(fields) <==> exists i :: 0 <= i < |fields| && fields[i].key == key
  {
    if fields != [] {
      CollectedKeys(fields[..|fields| - 1], key);
    }
  }

  lemma ElementJoins(part: Heap, added: Heap, items: seq<Val>, trees: seq<Tree>, v: Val, t: Tree)
    requires Closed(part) && part.Keys !! added.Keys && AllBuiltIn(part, items, trees) && BuiltIn(added, v, t)
    ensures Closed(part + added) && AllBuiltIn(part + added, items + [v], trees + [t])
  {
    var whole := part + added;
    forall i | 0 <= i < |items| ensures BuiltIn(whole, items[i], trees[i]) {
      BuiltSurvivesGrowth(part, whole, items[i], trees[i]);
    }
    BuiltSurvivesGrowth(added, whole, v, t);
  }

  function InsertAt<T>(s: seq<T>, at: nat, x: T): (inserted: seq<T>)
    requires at <= |s|
    ensures |inserted| == |s| + 1
    ensures forall i :: 0 <= i < at ==> inserted[i] == s[i]
    ensures inserted[at] == x
    ensures forall i :: at <= i < |s| ==> inserted[i + 1] == s[i]
  {
    s[..at] + [x] + s[at..]
  }

  lemma FieldJoins(
    part: Heap, added: Heap, props: seq<Prop>, fields: seq<Field>, place: nat, key: string, v: Val, t: Tree)
    requires Closed(part) && part.Keys !! added.Keys && FieldsBuiltIn(part, props, fields) && BuiltIn(added, v, t)
    requires place <= |props|
    ensures Closed(part + added)
    ensures FieldsBuiltIn(part + added, InsertAt(props, place, (key, v)), InsertAt(fields, place, Field(key, t)))
  {
    var whole := part + added;
    assert Closed(added) && Closed(whole) && Grown(part, whole) && Grown(added, whole);
    hide BuiltIn, Closed, Grown;
    forall i | 0 <= i < |props| ensures BuiltIn(whole, props[i].1, fields[i].tree) {
      BuiltSurvivesGrowth(part, whole, props[i].1, fields[i].tree);
    }
    BuiltSurvivesGrowth(added, whole, v, t);
    var props', fields' := InsertAt(props, place, (key, v)), InsertAt(fields, place, Field(key, t));
    forall i | 0 <= i < |props'|
      ensures fields'[i].key == props'[i].0 && BuiltIn(whole, props'[i].1, fields'[i].tree)
    {
      var k := if i < place then i else i - 1;
      if i != place {
        assert props'[i] == props[k] && fields'[i] == fields[k];
      }
    }
  }

  /** The fields built so far: each key once, each with its own value, and none of those still to come. */
  ghost predicate Listed(all: map<string, Json>, remaining: set<string>, fields: seq<Field>, round: int -> real) {
    (forall i, j :: 0 <= i < j < |fields| ==> fields[i].key != fields[j].key) &&
    (forall i :: 0 <= i < |fields| ==>
      fields[i].key in all && fields[i].key !in remaining &&
        ToJson(fields[i].tree) == Normal(all[fields[i].key], round)) &&
    forall k :: k in all && k !in remaining ==> exists i :: 0 <= i < |fields| && fields[i].key == k
  }

  lemma ListOneMore(
    all: map<string, Json>, remaining: set<string>, fields: seq<Field>, place: nat, key: string, t: Tree,
    round: int -> real)
    requires Listed(all, remaining, fields, round) && place <= |fields|
    requires key in remaining && key in all && ToJson(t) == Normal(all[key], round)
    ensures Listed(all, remaining - {key}, InsertAt(fields, place, Field(key, t)), round)
  {
    hide ToJson, Normal, InsertAt;
    var more := InsertAt(fields, place, Field(key, t));
    forall k | k in all && k !in remaining - {key} ensures exists i :: 0 <= i < |more| && more[i].key == k {
      StillListed(fields, place, Field(key, t), k);
    }
    StillDistinct(fields, place, Field(key, t));
    forall i | 0 <= i < |more|
      ensures more[i].key in all && more[i].key !in remaining - {key} &&
        ToJson(more[i].tree) == Normal(all[more[i].key], round)
    {
      Inserted(fields, place, Field(key, t), i);
    }
  }

  lemma Inserted(fields: seq<Field>, place: nat, field: Field, i: nat)
    requires place <= |fields| && i <= |fields|
    ensures InsertAt(fields, place, field)[i] ==
      if i == place then field else fields[if i < place then i else i - 1]
  {
  }

  lemma StillDistinct(fields: seq<Field>, place: nat, field: Field)
    requires place <= |fields| && forall i :: 0 <= i < |fields| ==> fields[i].key != field.key
    requires forall i, j :: 0 <= i < j < |fields| ==> fields[i].key != fields[j].key
    ensures
      var more := InsertAt(fields, place, field);
      forall i, j :: 0 <= i < j < |more| ==> more[i].key != more[j].key
  {
    var more := InsertAt(fields, place, field);
    hide InsertAt;
    forall i, j | 0 <= i < j < |more| ensures more[i].key != more[j].key {
      Inserted(fields, place, field, i);
      Inserted(fields, place, field, j);
    }
  }

  lemma StillListed(fields: seq<Field>, place: nat, field: Field, k: string)
    requires place <= |fields| && (k == field.key || exists i :: 0 <= i < |fields| && fields[i].key == k)
    ensures exists i :: 0 <= i < |InsertAt(fields, place, field)| && InsertAt(fields, place, field)[i].key == k
  {
    hide InsertAt;
    var more := InsertAt(fields, place, field);
    if k == field.key {
      assert more[place].key == k;
    } else {
      var i :| 0 <= i < |fields| && fields[i].key == k;
      assert more[if i < place then i else i + 1] == fields[i];
    }
  }

  lemma ListedAll(all: map<string, Json>, fields: seq<Field>, round: int -> real)
    requires Listed(all, {}, fields, round)
    ensures ToJson(Entries(fields)) == Normal(JObj(all), round)
  {
    var collected := Collect(fields);
    forall k ensures k in collected <==> k in all {
      CollectedKeys(fields, k);
    }
    forall k | k in all ensures collected[k] == Normal(all[k], round) {
      var i :| 0 <= i < |fields| && fields[i].key == k;
      CollectDistinct(fields, i);
    }
  }

  // ---- The engine ----------------------------------------------------------

  lemma BoundOf(s: set<nat>) returns (n: nat)
    ensures forall x :: x in s ==> x < n
  {
    if s == {} {
      n := 0;
    } else {
      var x :| x in s;
      var rest := BoundOf(s - {x});
      n := if x < rest then rest else x + 1;
      assert forall y :: y in s ==> y == x || y in s - {x};
    }
  }

  /** The engine's objects. Every call may run out of memory. */
  class Arena {
    var heap: Heap

    constructor ()
      ensures heap == map[]
    {
      heap := map[];
    }

    method Allocate(node: Node) returns (r: Option<Ref>)
      modifies this
      ensures r.None? ==> heap == old(heap)
      ensures r.Some? ==> r.value !in old(heap) && heap == old(heap)[r.value := node]
    {
      if * {
        return None;
      }
      ghost var bound := BoundOf(heap.Keys);
      assert bound !in heap;
      var unused: Ref :| unused !in heap;
      heap := heap[unused := node];
      r := Some(unused);
    }

    method SetIndex(at: Ref, index: nat, v: Val) returns (stored: bool)
      requires at in heap && heap[at].Array? && |heap[at].items| == index && InHeap(heap, v)
      modifies this
      ensures heap == if stored then old(heap)[at := Array(old(heap)[at].items + [v])] else old(heap)
    {
      stored := *;
      if stored {
        heap := heap[at := Array(heap[at].items + [v])];
      }
    }

    /** A new own data property; where it enumerates is the engine's business. */
    method Define(at: Ref, name: string, v: Val) returns (defined: bool, ghost place: nat)
      requires at in heap && heap[at].Plain? && InHeap(heap, v)
      requires forall p :: p in heap[at].props ==> p.0 != name
      modifies this
      ensures place <= |old(heap)[at].props|
      ensures heap ==
        if defined then old(heap)[at := Plain(InsertAt(old(heap)[at].props, place, (name, v)))] else old(heap)
    {
      var props := heap[at].props;
      var here: nat :| here <= |props|;
      place := here;
      defined := *;
      if defined {
        heap := heap[at := Plain(InsertAt(props, here, (name, v)))];
      }
    }
  }

  /** One reference the host took to an atom: the engine counts them, here each is told apart. */
  type Hold = nat

  datatype AtomRef = AtomRef(number: Atom, name: string)

  /** The references out, and the builder's table of cached keys. */
  datatype Ledger = Ledger(out: map<Hold, AtomRef>, next: Hold, cached: map<string, Hold>)

  /** While they are out, one number means one name. */
  ghost predicate Interned(out: map<Hold, AtomRef>) {
    forall g, h :: g in out && h in out ==> (out[g].number == out[h].number <==> out[g].name == out[h].name)
  }

  /** What is out is what the frames above hold (`base`) and one reference per cached key. */
  ghost predicate Balanced(l: Ledger, base: map<Hold, AtomRef>) {
    Interned(l.out) && (forall h :: h in l.out ==> h < l.next) &&
    (forall h :: h in base ==> h in l.out && l.out[h] == base[h]) &&
    (forall k :: k in l.cached ==> l.cached[k] in l.out && l.cached[k] !in base && l.out[l.cached[k]].name == k) &&
    forall h :: h in l.out && h !in base ==> l.out[h].name in l.cached && l.cached[l.out[h].name] == h
  }

  /** The table of cached keys only grows while a conversion runs. */
  ghost predicate Grew(before: Ledger, after: Ledger) {
    forall k :: k in before.cached ==> k in after.cached && after.cached[k] == before.cached[k]
  }

  predicate Unused(out: map<Hold, AtomRef>, number: Atom) {
    forall g :: g in out ==> out[g].number != number
  }

  lemma UnusedNumber(out: map<Hold, AtomRef>) returns (number: Atom)
    ensures Unused(out, number)
  {
    var numbers := set g | g in out :: out[g].number;
    number := BoundOf(numbers);
    forall g | g in out ensures out[g].number != number {
      assert out[g].number in numbers;
    }
  }

  /** A number for a name: the one it has, or one no other name has. */
  predicate NumberFor(out: map<Hold, AtomRef>, name: string, number: Atom) {
    forall g :: g in out ==> (out[g].number == number <==> out[g].name == name)
  }

  lemma InternedOnceMore(out: map<Hold, AtomRef>, h: Hold, name: string, number: Atom)
    requires Interned(out) && h !in out && NumberFor(out, name, number)
    ensures Interned(out[h := AtomRef(number, name)])
  {
  }

  lemma CachingBalances(before: Ledger, after: Ledger, base: map<Hold, AtomRef>, key: string, h: Hold)
    requires Balanced(before, base) && key !in before.cached && h == before.next
    requires Interned(after.out) && h in after.out && after.out[h].name == key
    requires after.out == before.out[h := after.out[h]] && after.next == h + 1 && after.cached == before.cached
    ensures Balanced(after.(cached := after.cached[key := h]), base)
  {
  }

  lemma ReleasingBalances(l: Ledger, base: map<Hold, AtomRef>, key: string)
    requires Balanced(l, base) && key in l.cached
    ensures Balanced(l.(out := l.out - {l.cached[key]}, cached := l.cached - {key}), base)
  {
    forall h, g | h in l.out && g in l.out && h !in base && g !in base && l.out[h].name == l.out[g].name
      ensures h == g
    {
    }
  }

  /** A reference held over a conversion is still out after it, for the same name. */
  lemma HoldKeepsItsName(before: Ledger, after: Ledger, base: map<Hold, AtomRef>, key: string, h: Hold, cached: bool)
    requires h in before.out && before.out[h].name == key && Grew(before, after)
    requires cached ==> key in before.cached && before.cached[key] == h
    requires Balanced(after, if cached then base else base[h := before.out[h]])
    ensures h in after.out && after.out[h].name == key && (!cached ==> after.out[h] == before.out[h])
  {
    if !cached {
      assert h in base[h := before.out[h]];
    }
  }

  lemma FreeingBalances(l: Ledger, base: map<Hold, AtomRef>, h: Hold)
    requires h in l.out && h !in base && Balanced(l, base[h := l.out[h]])
    ensures Balanced(l.(out := l.out - {h}), base)
  {
    forall g | g in base ensures g in l.out - {h} && l.out[g] == base[g] {
      assert g in base[h := l.out[h]];
    }
    forall k | k in l.cached ensures l.cached[k] in l.out - {h} && l.cached[k] !in base {
      assert l.cached[k] !in base[h := l.out[h]];
    }
  }

  class Keys {
    var ledger: Ledger

    constructor ()
      ensures Balanced(ledger, map[])
    {
      ledger := Ledger(map[], 0, map[]);
    }

    /** Another reference to the one atom of a name; a new atom takes any number not in use. */
    method New(name: string) returns (h: Option<Hold>)
      requires Interned(ledger.out) && forall h :: h in ledger.out ==> h < ledger.next
      modifies this
      ensures h.None? ==> ledger == old(ledger)
      ensures h.Some? ==>
        Interned(ledger.out) && h.value == old(ledger.next) && ledger.next == h.value + 1 &&
        ledger.cached == old(ledger.cached) && h.value in ledger.out && ledger.out[h.value].name == name &&
        ledger.out == old(ledger.out)[h.value := ledger.out[h.value]]
    {
      if * {
        return None;
      }
      var out := ledger.out;
      var number: Atom := 0;
      if exists g :: g in out && out[g].name == name {
        var known :| known in out && out[known].name == name;
        number := out[known].number;
        assert NumberFor(out, name, number);
      } else {
        ghost var unused := UnusedNumber(out);
        number :| Unused(out, number);
        forall g | g in out ensures out[g].number != number && out[g].name != name {
          assert Unused(out, number);
        }
      }
      InternedOnceMore(out, ledger.next, name, number);
      h := Some(ledger.next);
      ledger := ledger.(out := out[ledger.next := AtomRef(number, name)], next := ledger.next + 1);
    }

    /** A reference is given back once: it must still be out. */
    method Free(h: Hold)
      requires h in ledger.out
      modifies this
      ensures ledger == old(ledger).(out := old(ledger.out) - {h})
    {
      ledger := ledger.(out := ledger.out - {h});
    }

    /** The reference for a key: the cached one, or a new one, which the table keeps from the second object on. */
    method Intern(key: string, cache: bool, ghost base: map<Hold, AtomRef>) returns (h: Option<Hold>)
      requires Balanced(ledger, base)
      modifies this
      ensures Grew(old(ledger), ledger)
      ensures h.None? ==> Balanced(ledger, base)
      ensures h.Some? ==>
        h.value in ledger.out && ledger.out[h.value].name == key && h.value !in base &&
        if cache then Balanced(ledger, base) && key in ledger.cached && ledger.cached[key] == h.value
        else Balanced(ledger, base[h.value := ledger.out[h.value]])
    {
      if cache && key in ledger.cached {
        return Some(ledger.cached[key]);
      }
      h := New(key);
      if h.Some? && cache {
        CachingBalances(old(ledger), ledger, base, key, h.value);
        ledger := ledger.(cached := ledger.cached[key := h.value]);
      }
    }

    /** The end of the conversion: every cached reference is given back. */
    method Release(ghost base: map<Hold, AtomRef>)
      requires Balanced(ledger, base)
      modifies this
      ensures ledger.out == base && ledger.cached == map[]
    {
      while ledger.cached != map[]
        invariant Balanced(ledger, base)
        decreases ledger.cached.Keys
      {
        var key :| key in ledger.cached;
        ReleasingBalances(ledger, base, key);
        Free(ledger.cached[key]);
        ledger := ledger.(cached := ledger.cached - {key});
      }
    }
  }

  // ---- The builder ---------------------------------------------------------

  /** Since `start` only `r` and a self-contained part were allocated. */
  ghost predicate Growing(start: Heap, now: Heap, r: Ref, part: Heap) {
    Grown(start, now) && Closed(part) && r !in part && r !in start && r in now &&
    Since(start, now) == part[r := now[r]]
  }

  lemma UnionIsClosed(a: Heap, b: Heap)
    requires Closed(a) && Closed(b)
    ensures a.Keys !! b.Keys ==> Closed(a + b)
  {
  }

  /** All allocated since `start` is `r`, the part so far, and what has just been added. */
  lemma SinceInTwoSteps(start: Heap, before: Heap, after: Heap, r: Ref, part: Heap)
    requires r !in part && r !in start && r in before
    requires Grown(start, before) && Grown(before, after) && Since(start, before) == part[r := before[r]]
    ensures Since(start, after) == (part + Since(before, after))[r := after[r]]
    ensures part.Keys !! Since(before, after).Keys && r !in Since(before, after)
  {
    assert forall x :: x in Since(start, before) <==> x in part || x == r;
    forall x | x in part ensures x in before && before[x] == part[x] && x !in start {
      assert x in Since(start, before);
    }
    forall x | x in before && x !in start && x != r ensures x in part && part[x] == before[x] {
      assert x in Since(start, before);
    }
  }

  lemma Rewriting(start: Heap, now: Heap, r: Ref, part: Heap, node: Node)
    requires r in now && r !in start && Since(start, now) == part[r := now[r]]
    ensures Since(start, now[r := node]) == part[r := node]
  {
    var written := now[r := node];
    forall x | x in written && x !in start && x != r ensures x in part && part[x] == written[x] {
      assert x in Since(start, now);
    }
    forall x | x in part && x != r ensures x in written && x !in start {
      assert x in Since(start, now);
    }
  }

  lemma GrowingOn(start: Heap, before: Heap, after: Heap, r: Ref, part: Heap, node: Node)
    requires Growing(start, before, r, part) && Grown(before, after) && Closed(Since(before, after))
    ensures var added := Since(before, after);
            part.Keys !! added.Keys && Closed(part + added) &&
            Growing(start, after[r := node], r, part + added)
  {
    UnionIsClosed(part, Since(before, after));
    hide Closed, Since;
    SinceInTwoSteps(start, before, after, r, part);
    Rewriting(start, after, r, part + Since(before, after), node);
  }

  ghost predicate ArraySoFar(
    start: Heap, now: Heap, r: Ref, part: Heap, items: seq<Json>, trees: seq<Tree>, round: int -> real)
  {
    Growing(start, now, r, part) && now[r].Array? && AllBuiltIn(part, now[r].items, trees) &&
    |trees| == |items| && forall i :: 0 <= i < |items| ==> ToJson(trees[i]) == Normal(items[i], round)
  }

  lemma ArrayGrowsOn(
    start: Heap, before: Heap, after: Heap, r: Ref, part: Heap, items: seq<Json>, index: nat, trees: seq<Tree>,
    v: Val, t: Tree, round: int -> real)
    requires index < |items| && ArraySoFar(start, before, r, part, items[..index], trees, round)
    requires Grown(before, after) && BuiltIn(Since(before, after), v, t) && ToJson(t) == Normal(items[index], round)
    ensures ArraySoFar(
      start, after[r := Array(after[r].items + [v])], r, part + Since(before, after), items[..index + 1],
      trees + [t], round)
  {
    GrowingOn(start, before, after, r, part, Array(after[r].items + [v]));
    ElementJoins(part, Since(before, after), before[r].items, trees, v, t);
  }

  ghost predicate ObjectSoFar(
    start: Heap, now: Heap, r: Ref, part: Heap, all: map<string, Json>, remaining: set<string>, fields: seq<Field>,
    round: int -> real)
  {
    Growing(start, now, r, part) && now[r].Plain? && FieldsBuiltIn(part, now[r].props, fields) &&
    Listed(all, remaining, fields, round)
  }

  lemma KeyIsNew(
    props: seq<Prop>, all: map<string, Json>, remaining: set<string>, fields: seq<Field>, key: string,
    round: int -> real)
    requires Listed(all, remaining, fields, round) && key in remaining
    requires |props| == |fields| && forall i :: 0 <= i < |props| ==> fields[i].key == props[i].0
    ensures forall p :: p in props ==> p.0 != key
  {
  }

  lemma ObjectGrowsOn(
    start: Heap, before: Heap, after: Heap, r: Ref, part: Heap, all: map<string, Json>, remaining: set<string>,
    fields: seq<Field>, place: nat, key: string, v: Val, t: Tree, round: int -> real)
    requires ObjectSoFar(start, before, r, part, all, remaining, fields, round)
    requires Grown(before, after) && BuiltIn(Since(before, after), v, t)
    requires key in remaining && key in all && ToJson(t) == Normal(all[key], round) && place <= |before[r].props|
    ensures ObjectSoFar(
      start, after[r := Plain(InsertAt(before[r].props, place, (key, v)))], r, part + Since(before, after), all,
      remaining - {key}, InsertAt(fields, place, Field(key, t)), round)
  {
    GrowingOn(start, before, after, r, part, Plain(InsertAt(before[r].props, place, (key, v))));
    FieldJoins(part, Since(before, after), before[r].props, fields, place, key, v, t);
    ListOneMore(all, remaining, fields, place, key, t, round);
  }

  class Builder {
    const arena: Arena
    const keys: Keys
    const round: int -> real
    var objects: nat

    constructor (arena: Arena, keys: Keys, round: int -> real)
      ensures this.arena == arena && this.keys == keys && this.round == round
    {
      this.arena, this.keys, this.round := arena, keys, round;
      objects := 0;
    }

    method Value(j: Json, ghost base: map<Hold, AtomRef>) returns (v: Option<Val>, ghost t: Tree)
      requires Balanced(keys.ledger, base)
      modifies this, arena, keys
      ensures Balanced(keys.ledger, base) && Grew(old(keys.ledger), keys.ledger)
      ensures Grown(old(arena.heap), arena.heap)
      ensures v.Some? ==> BuiltIn(Since(old(arena.heap), arena.heap), v.value, t) && ToJson(t) == Normal(j, round)
      decreases j, 2
    {
      match j
      case JNull => v, t := Some(Null), Leaf(JNull);
      case JBool(b) => v, t := Some(Bool(b)), Leaf(j);
      case JStr(text) => v, t := Some(Str(text)), Leaf(j);
      case JInt(n) => v, t := Some(NumberIn(AsDouble(n, round))), Leaf(Number(AsDouble(n, round)));
      case JFloat(f) => v, t := Some(NumberIn(f)), Leaf(Number(f));
      case JArr(items) => v, t := ArrayValue(items, base);
      case JObj(_) => v, t := ObjectValue(j, base);
    }

    method ArrayValue(items: seq<Json>, ghost base: map<Hold, AtomRef>) returns (v: Option<Val>, ghost t: Tree)
      requires Balanced(keys.ledger, base)
      modifies this, arena, keys
      ensures Balanced(keys.ledger, base) && Grew(old(keys.ledger), keys.ledger)
      ensures Grown(old(arena.heap), arena.heap)
      ensures v.Some? ==>
        BuiltIn(Since(old(arena.heap), arena.heap), v.value, t) && ToJson(t) == Normal(JArr(items), round)
      decreases items, 0
    {
      ghost var start := arena.heap;
      t := Leaf(JNull);
      var made := arena.Allocate(Array([]));
      if made.None? {
        return None, t;
      }
      var r := made.value;
      ghost var trees: seq<Tree> := [];
      ghost var part: Heap := map[];
      for index := 0 to |items|
        invariant Balanced(keys.ledger, base) && Grew(old(keys.ledger), keys.ledger)
        invariant ArraySoFar(start, arena.heap, r, part, items[..index], trees, round)
      {
        ghost var before := arena.heap;
        var element, tree := Value(items[index], base);
        if element.None? {
          return None, t;
        }
        ghost var after := arena.heap;
        var stored := arena.SetIndex(r, index, element.value);
        if !stored {
          return None, t;
        }
        ArrayGrowsOn(start, before, after, r, part, items, index, trees, element.value, tree, round);
        part, trees := part + Since(before, after), trees + [tree];
      }
      t := Items(trees);
      assert items[..|items|] == items;
      ArrayIsBuilt(part, r, arena.heap[r].items, trees);
      v := Some(Obj(r));
    }

    /** One field: its atom, its value, its definition. `after` is the heap once the field's value is built. */
    method FieldValue(j: Json, key: string, r: Ref, cached: bool, ghost base: map<Hold, AtomRef>)
      returns (stored: bool, ghost after: Heap, ghost v: Val, ghost t: Tree, ghost place: nat)
      requires Balanced(keys.ledger, base) && j.JObj? && key in j.fields && r in arena.heap && arena.heap[r].Plain?
      requires forall p :: p in arena.heap[r].props ==> p.0 != key
      modifies this, arena, keys
      ensures Balanced(keys.ledger, base) && Grew(old(keys.ledger), keys.ledger)
      ensures Grown(old(arena.heap), after)
      ensures !stored ==> arena.heap == after
      ensures stored ==>
        place <= |old(arena.heap)[r].props| &&
        arena.heap == after[r := Plain(InsertAt(old(arena.heap)[r].props, place, (key, v)))] &&
        BuiltIn(Since(old(arena.heap), after), v, t) && ToJson(t) == Normal(j.fields[key], round)
      decreases j, 0
    {
      hide Closed, Unfolds, ToJson, Normal, InsertAt, Balanced;
      stored, after, v, t, place := false, arena.heap, Null, Leaf(JNull), 0;
      var hold := keys.Intern(key, cached, base);
      if hold.None? {
        return;
      }
      ghost var before := keys.ledger;
      ghost var inner := if cached then base else base[hold.value := keys.ledger.out[hold.value]];
      var field, tree := Value(j.fields[key], inner);
      HoldKeepsItsName(before, keys.ledger, base, key, hold.value, cached);
      after := arena.heap;
      if field.Some? {
        stored, place := arena.Define(r, keys.ledger.out[hold.value].name, field.value);
        v, t := field.value, tree;
      }
      if !cached {
        FreeingBalances(keys.ledger, base, hold.value);
        keys.Free(hold.value);
      }
    }

    method ObjectValue(j: Json, ghost base: map<Hold, AtomRef>) returns (v: Option<Val>, ghost t: Tree)
      requires Balanced(keys.ledger, base) && j.JObj?
      modifies this, arena, keys
      ensures Balanced(keys.ledger, base) && Grew(old(keys.ledger), keys.ledger)
      ensures Grown(old(arena.heap), arena.heap)
      ensures v.Some? ==> BuiltIn(Since(old(arena.heap), arena.heap), v.value, t) && ToJson(t) == Normal(j, round)
      decreases j, 1
    {
      ghost var start := arena.heap;
      t := Leaf(JNull);
      var made := arena.Allocate(Plain([]));
      if made.None? {
        return None, t;
      }
      var r := made.value;
      objects := objects + 1;
      var cached := objects > 1;
      var remaining := j.fields.Keys;
      ghost var fields: seq<Field> := [];
      ghost var part: Heap := map[];
      while remaining != {}
        invariant Balanced(keys.ledger, base) && Grew(old(keys.ledger), keys.ledger)
        invariant remaining <= j.fields.Keys
        invariant ObjectSoFar(start, arena.heap, r, part, j.fields, remaining, fields, round)
      {
        var key :| key in remaining;
        ghost var before := arena.heap;
        KeyIsNew(before[r].props, j.fields, remaining, fields, key, round);
        var stored, after, field, tree, place := FieldValue(j, key, r, cached, base);
        if !stored {
          return None, t;
        }
        ObjectGrowsOn(start, before, after, r, part, j.fields, remaining, fields, place, key, field, tree, round);
        part, fields := part + Since(before, after), InsertAt(fields, place, Field(key, tree));
        remaining := remaining - {key};
      }
      t := Entries(fields);
      ListedAll(j.fields, fields, round);
      ObjectIsBuilt(part, r, arena.heap[r].props, fields);
      v := Some(Obj(r));
    }
  }

  lemma GrownClosed(start: Heap, now: Heap)
    requires Closed(start) && Grown(start, now) && Closed(Since(start, now))
    ensures Closed(now)
  {
    forall r | r in now && r !in start ensures r in Since(start, now) && Since(start, now)[r] == now[r] {
    }
  }

  /** A whole conversion. However it ends, every reference it took to an atom is given back. */
  method ToEngine(j: Json, arena: Arena, keys: Keys, round: int -> real) returns (v: Option<Val>, ghost t: Tree)
    requires Balanced(keys.ledger, keys.ledger.out)
    modifies arena, keys
    ensures keys.ledger.out == old(keys.ledger.out) && Grown(old(arena.heap), arena.heap)
    ensures v.Some? ==> BuiltIn(Since(old(arena.heap), arena.heap), v.value, t) && ToJson(t) == Normal(j, round)
  {
    ghost var base := keys.ledger.out;
    var builder := new Builder(arena, keys, round);
    v, t := builder.Value(j, base);
    keys.Release(base);
  }

  /** There and back: what was built reads back as the same JSON, safe numbers kept as they were. */
  method ThereAndBack(
    j: Json, arena: Arena, keys: Keys, round: int -> real, atomOf: string -> Atom, nameOf: Atom -> string)
    returns (built: bool, out: Option<Json>)
    requires Balanced(keys.ledger, keys.ledger.out) && Closed(arena.heap) && Rounds(round)
    requires forall s: string :: nameOf(atomOf(s)) == s
    modifies arena, keys
    ensures built ==> out == Some(Normal(j, round))
    ensures built ==> (out == Some(j) <==> SafeNumbers(j))
  {
    ghost var start := arena.heap;
    var v, t := ToEngine(j, arena, keys, round);
    built, out := v.Some?, None;
    if built {
      GrownClosed(start, arena.heap);
      UnfoldingSurvivesGrowth(Since(start, arena.heap), arena.heap, v.value, t);
      out := ToHost(arena.heap, v.value, atomOf, nameOf);
      WalkIsTheUnfolding(arena.heap, v.value, t);
      WalkFailsOnlyOnCycles(arena.heap, v.value);
      ghost var back :| Unfolds(arena.heap, v.value, back) && out.value == ToJson(back);
      UnfoldingIsUnique(arena.heap, v.value, t, back);
      NormalIsIdentityOnSafeNumbers(j, round);
    }
  }
}
