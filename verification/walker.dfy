/** The walker itself: one object that pushes and pops its stack and fills its key table as it goes. */
module Walkers {
  import opened Prelude
  import opened EngineValues
  import opened Walk

  type Atom = nat

  function Rendered(tree: Option<Tree>): Option<Json> {
    if tree.Some? then Some(ToJson(tree.value)) else None
  }

  function After<T>(done: seq<T>, rest: Option<seq<T>>): Option<seq<T>> {
    if rest.Some? then Some(done + rest.value) else None
  }

  /** The walk of a whole array, split at an index into the trees done and the rest. */
  ghost predicate ItemsSoFar(h: Heap, items: seq<Val>, index: nat, stack: seq<Ref>, trees: seq<Tree>)
    requires Closed(h) && index <= |items| && forall i :: 0 <= i < |items| ==> InHeap(h, items[i])
  {
    AnyItems(h, items, stack) == After(trees, AnyItems(h, items[index..], stack))
  }

  lemma NoItemsYet(h: Heap, items: seq<Val>, stack: seq<Ref>)
    requires Closed(h) && forall i :: 0 <= i < |items| ==> InHeap(h, items[i])
    ensures ItemsSoFar(h, items, 0, stack, [])
  {
    var all := AnyItems(h, items, stack);
    assert items[0..] == items;
    assert all.Some? ==> [] + all.value == all.value;
  }

  lemma ArrayOfItems(done: seq<Json>, trees: seq<Tree>)
    requires |done| == |trees| && forall i :: 0 <= i < |done| ==> done[i] == ToJson(trees[i])
    ensures JArr(done) == ToJson(Items(trees))
  {
  }

  lemma OneMoreItem(h: Heap, items: seq<Val>, index: nat, stack: seq<Ref>, trees: seq<Tree>)
    requires Closed(h) && index < |items| && forall i :: 0 <= i < |items| ==> InHeap(h, items[i])
    requires ItemsSoFar(h, items, index, stack, trees)
    ensures
      var item := Shown(h, items[index]);
      if OnStack(item, stack) || Any(h, item, stack).None? then AnyItems(h, items, stack).None?
      else ItemsSoFar(h, items, index + 1, stack, trees + [Any(h, item, stack).value])
  {
    var item, rest := Shown(h, items[index]), AnyItems(h, items[index + 1..], stack);
    assert items[index..][1..] == items[index + 1..];
    if !OnStack(item, stack) && Any(h, item, stack).Some? && rest.Some? {
      var tree := Any(h, item, stack).value;
      assert trees + ([tree] + rest.value) == trees + [tree] + rest.value;
    }
  }

  lemma AllItemsDone(h: Heap, items: seq<Val>, stack: seq<Ref>, trees: seq<Tree>)
    requires Closed(h) && forall i :: 0 <= i < |items| ==> InHeap(h, items[i])
    requires ItemsSoFar(h, items, |items|, stack, trees)
    ensures AnyItems(h, items, stack) == Some(trees)
  {
    assert items[|items|..] == [] && trees + [] == trees;
  }

  /** The same for an object's properties. */
  ghost predicate EntriesSoFar(h: Heap, props: seq<Prop>, index: nat, stack: seq<Ref>, fields: seq<Field>)
    requires Closed(h) && index <= |props| && forall i :: 0 <= i < |props| ==> InHeap(h, props[i].1)
  {
    AnyEntries(h, props, stack) == After(fields, AnyEntries(h, props[index..], stack))
  }

  lemma NoEntriesYet(h: Heap, props: seq<Prop>, stack: seq<Ref>)
    requires Closed(h) && forall i :: 0 <= i < |props| ==> InHeap(h, props[i].1)
    ensures EntriesSoFar(h, props, 0, stack, []) && Collect([]) == map[]
  {
    var all := AnyEntries(h, props, stack);
    assert props[0..] == props;
    assert all.Some? ==> [] + all.value == all.value;
  }

  lemma ObjectOfEntries(fields: seq<Field>)
    ensures JObj(Collect(fields)) == ToJson(Entries(fields))
  {
  }

  lemma OneMoreEntry(h: Heap, props: seq<Prop>, index: nat, stack: seq<Ref>, fields: seq<Field>)
    requires Closed(h) && index < |props| && forall i :: 0 <= i < |props| ==> InHeap(h, props[i].1)
    requires EntriesSoFar(h, props, index, stack, fields)
    ensures
      var (name, v) := props[index];
      if !Supported(h, v) then EntriesSoFar(h, props, index + 1, stack, fields)
      else if OnStack(v, stack) || Any(h, v, stack).None? then AnyEntries(h, props, stack).None?
      else
        var more := fields + [Field(name, Any(h, v, stack).value)];
        EntriesSoFar(h, props, index + 1, stack, more) &&
        Collect(more) == Collect(fields)[name := ToJson(Any(h, v, stack).value)]
  {
    var (name, v) := props[index];
    var rest := AnyEntries(h, props[index + 1..], stack);
    assert props[index..][1..] == props[index + 1..];
    if Supported(h, v) && !OnStack(v, stack) && Any(h, v, stack).Some? {
      var field := Field(name, Any(h, v, stack).value);
      assert (fields + [field])[..|fields|] == fields;
      if rest.Some? {
        assert fields + ([field] + rest.value) == fields + [field] + rest.value;
      }
    }
  }

  lemma AllEntriesDone(h: Heap, props: seq<Prop>, stack: seq<Ref>, fields: seq<Field>)
    requires Closed(h) && forall i :: 0 <= i < |props| ==> InHeap(h, props[i].1)
    requires EntriesSoFar(h, props, |props|, stack, fields)
    ensures AnyEntries(h, props, stack) == Some(fields)
  {
    assert props[|props|..] == [] && fields + [] == fields;
  }

  class Walker {
    const heap: Heap
    /** The engine's atom table, fixed while the walk holds its atoms. */
    const atomOf: string -> Atom
    const nameOf: Atom -> string
    /** The arrays and objects being walked. */
    var stack: seq<Ref>
    /** Each key converted once per walk. */
    var keys: map<Atom, string>

    constructor (heap: Heap, atomOf: string -> Atom, nameOf: Atom -> string)
      requires Closed(heap) && forall s: string :: nameOf(atomOf(s)) == s
      ensures Valid() && stack == [] && this.heap == heap
    {
      this.heap, this.atomOf, this.nameOf := heap, atomOf, nameOf;
      stack, keys := [], map[];
    }

    ghost predicate Valid()
      reads this
    {
      Closed(heap) && (forall s: string :: nameOf(atomOf(s)) == s) && forall a :: a in keys ==> keys[a] == nameOf(a)
    }

    method Key(atom: Atom) returns (key: string)
      requires Valid()
      modifies this`keys
      ensures Valid() && key == nameOf(atom)
      ensures keys == old(keys)[atom := key]
    {
      if atom in keys {
        return keys[atom];
      }
      key := nameOf(atom);
      keys := keys[atom := key];
    }

    /** The loop behind the check: innermost ancestor first. */
    method CheckCycles(v: Val) returns (free: bool)
      ensures free <==> !OnStack(v, stack)
    {
      free := true;
      var i := |stack|;
      while i > 0
        invariant 0 <= i <= |stack|
        invariant free && !OnStack(v, stack[i..])
      {
        i := i - 1;
        assert stack[i..] == [stack[i]] + stack[i + 1..];
        if Obj(stack[i]) == v {
          return false;
        }
      }
    }

    method Convert(v: Val) returns (out: Option<Json>)
      requires Valid() && InHeap(heap, v) && !OnStack(v, stack)
      modifies this
      ensures Valid() && stack == old(stack)
      ensures out == Rendered(Any(heap, v, old(stack)))
      decreases Unvisited(heap, stack), 3
    {
      if !v.Obj? {
        return Primitive(v);
      }
      if heap[v.at].Array? {
        out := Sequence(v.at);
      } else {
        out := Mapping(v.at);
      }
    }

    method Sequence(r: Ref) returns (out: Option<Json>)
      requires Valid() && r in heap && heap[r].Array? && r !in stack
      modifies this
      ensures Valid() && stack == old(stack)
      ensures out == Rendered(Any(heap, Obj(r), old(stack)))
      decreases Unvisited(heap, stack), 2
    {
      PushingVisits(heap, stack, r);
      stack := stack + [r];
      out := SequenceItems(heap[r].items);
      stack := stack[..|stack| - 1];
    }

    method SequenceItems(items: seq<Val>) returns (out: Option<Json>)
      requires Valid() && forall i :: 0 <= i < |items| ==> InHeap(heap, items[i])
      modifies this
      ensures Valid() && stack == old(stack)
      ensures
        var trees := AnyItems(heap, items, old(stack));
        out == Rendered(if trees.Some? then Some(Items(trees.value)) else None)
      decreases Unvisited(heap, stack), 4
    {
      hide Any, AnyItems, Supported, ItemsSoFar;
      var done: seq<Json> := [];
      ghost var trees: seq<Tree> := [];
      NoItemsYet(heap, items, stack);
      for index := 0 to |items|
        invariant Valid() && stack == old(stack)
        invariant |done| == |trees| == index
        invariant forall i :: 0 <= i < index ==> done[i] == ToJson(trees[i])
        invariant ItemsSoFar(heap, items, index, stack, trees)
      {
        OneMoreItem(heap, items, index, stack, trees);
        var item := if Supported(heap, items[index]) then items[index] else Null;
        var free := CheckCycles(item);
        if !free {
          return None;
        }
        ghost var tree := Any(heap, item, stack);
        var json := Convert(item);
        if json.None? {
          return None;
        }
        done, trees := done + [json.value], trees + [tree.value];
      }
      ArrayOfItems(done, trees);
      AllItemsDone(heap, items, stack, trees);
      out := Some(JArr(done));
    }

    method Mapping(r: Ref) returns (out: Option<Json>)
      requires Valid() && r in heap && !heap[r].Array? && r !in stack
      modifies this
      ensures Valid() && stack == old(stack)
      ensures out == Rendered(Any(heap, Obj(r), old(stack)))
      decreases Unvisited(heap, stack), 2
    {
      PushingVisits(heap, stack, r);
      stack := stack + [r];
      out := MappingEntries(Props(heap[r]));
      stack := stack[..|stack| - 1];
    }

    method MappingEntries(props: seq<Prop>) returns (out: Option<Json>)
      requires Valid() && forall i :: 0 <= i < |props| ==> InHeap(heap, props[i].1)
      modifies this
      ensures Valid() && stack == old(stack)
      ensures
        var fields := AnyEntries(heap, props, old(stack));
        out == Rendered(if fields.Some? then Some(Entries(fields.value)) else None)
      decreases Unvisited(heap, stack), 4
    {
      hide Any, AnyEntries, Supported, EntriesSoFar, Collect, ToJson, Closed, InHeap, Unvisited, OnStack;
      var done: map<string, Json> := map[];
      ghost var fields: seq<Field> := [];
      NoEntriesYet(heap, props, stack);
      for index := 0 to |props|
        invariant Valid() && stack == old(stack)
        invariant done == Collect(fields)
        invariant EntriesSoFar(heap, props, index, stack, fields)
      {
        OneMoreEntry(heap, props, index, stack, fields);
        var (name, value) := props[index];
        if !Supported(heap, value) {
          continue;
        }
        var key := Key(atomOf(name));
        var free := CheckCycles(value);
        if !free {
          return None;
        }
        ghost var tree := Any(heap, value, stack);
        var json := Convert(value);
        if json.None? {
          return None;
        }
        done, fields := done[key := json.value], fields + [Field(key, tree.value)];
      }
      ObjectOfEntries(fields);
      AllEntriesDone(heap, props, stack, fields);
      out := Some(JObj(done));
    }
  }

  /** A whole conversion: the stack comes back empty, and the answer is none exactly on a symbol or a cycle. */
  method ToHost(heap: Heap, v: Val, atomOf: string -> Atom, nameOf: Atom -> string) returns (out: Option<Json>)
    requires Closed(heap) && InHeap(heap, v) && forall s: string :: nameOf(atomOf(s)) == s
    ensures out.None? <==> v.Symbol? || CycleFrom(heap, v)
    ensures out.Some? ==> exists t :: Unfolds(heap, v, t) && out.value == ToJson(t)
  {
    var walker := new Walker(heap, atomOf, nameOf);
    out := walker.Convert(v);
    assert walker.stack == [];
    WalkFailsOnlyOnCycles(heap, v);
    if out.Some? {
      WalkIsTheUnfolding(heap, v, Any(heap, v, []).value);
    }
  }
}
