/** A script's value as JSON: a depth-first walk of the heap with an ancestor stack for the cycle check. */
module Walk {
  import opened Prelude
  import opened EngineValues

  // ---- The walk, as a function of the stack -------------------------------

  function Unvisited(h: Heap, stack: seq<Ref>): nat {
    |h.Keys - set r | r in stack|
  }

  lemma PushingVisits(h: Heap, stack: seq<Ref>, r: Ref)
    requires r in h && r !in stack
    ensures Unvisited(h, stack + [r]) < Unvisited(h, stack)
  {
    var before := h.Keys - set s | s in stack;
    assert h.Keys - (set s | s in stack + [r]) == before - {r};
  }

  /** An element that JSON drops stands as null. */
  function Shown(h: Heap, v: Val): Val
    requires InHeap(h, v)
  {
    if Supported(h, v) then v else Null
  }

  predicate OnStack(v: Val, stack: seq<Ref>) {
    v.Obj? && v.at in stack
  }

  function Any(h: Heap, v: Val, stack: seq<Ref>): Option<Tree>
    requires Closed(h) && InHeap(h, v) && !OnStack(v, stack)
    decreases Unvisited(h, stack), 0, 0
  {
    if !v.Obj? then
      match Primitive(v)
      case Some(json) => Some(Leaf(json))
      case None => None
    else
      PushingVisits(h, stack, v.at);
      if h[v.at].Array? then
        match AnyItems(h, h[v.at].items, stack + [v.at])
        case Some(trees) => Some(Items(trees))
        case None => None
      else
        match AnyEntries(h, Props(h[v.at]), stack + [v.at])
        case Some(fields) => Some(Entries(fields))
        case None => None
  }

  function AnyItems(h: Heap, items: seq<Val>, stack: seq<Ref>): Option<seq<Tree>>
    requires Closed(h) && forall i :: 0 <= i < |items| ==> InHeap(h, items[i])
    decreases Unvisited(h, stack), 1, |items|
  {
    if items == [] then Some([])
    else if OnStack(Shown(h, items[0]), stack) then None
    else
      var first := Any(h, Shown(h, items[0]), stack);
      var rest := AnyItems(h, items[1..], stack);
      if first.Some? && rest.Some? then Some([first.value] + rest.value) else None
  }

  function AnyEntries(h: Heap, props: seq<Prop>, stack: seq<Ref>): Option<seq<Field>>
    requires Closed(h) && forall i :: 0 <= i < |props| ==> InHeap(h, props[i].1)
    decreases Unvisited(h, stack), 1, |props|
  {
    if props == [] then Some([])
    else if !Supported(h, props[0].1) then AnyEntries(h, props[1..], stack)
    else if OnStack(props[0].1, stack) then None
    else
      var first := Any(h, props[0].1, stack);
      var rest := AnyEntries(h, props[1..], stack);
      if first.Some? && rest.Some? then Some([Field(props[0].0, first.value)] + rest.value) else None
  }

  // ---- What the answer should be, without a stack --------------------------

  function KeptProps(h: Heap, props: seq<Prop>): (kept: seq<Prop>)
    requires forall i :: 0 <= i < |props| ==> InHeap(h, props[i].1)
    ensures forall p :: p in kept <==> p in props && Supported(h, p.1)
  {
    if props == [] then []
    else if Supported(h, props[0].1) then [props[0]] + KeptProps(h, props[1..])
    else KeptProps(h, props[1..])
  }

  /** `t` is the tree unfolding of `v`: level by level, by looking at the heap alone. */
  ghost predicate Unfolds(h: Heap, v: Val, t: Tree)
    requires Closed(h)
    decreases t
  {
    InHeap(h, v) &&
    match t
    case Leaf(json) => !v.Obj? && Primitive(v) == Some(json)
    case Items(trees) => v.Obj? && h[v.at].Array? && ItemsUnfold(h, h[v.at].items, trees)
    case Entries(fields) => v.Obj? && !h[v.at].Array? && FieldsUnfold(h, KeptProps(h, Props(h[v.at])), fields)
  }

  ghost predicate ItemsUnfold(h: Heap, items: seq<Val>, trees: seq<Tree>)
    requires Closed(h) && forall i :: 0 <= i < |items| ==> InHeap(h, items[i])
    decreases trees
  {
    |trees| == |items| && forall i :: 0 <= i < |trees| ==> Unfolds(h, Shown(h, items[i]), trees[i])
  }

  ghost predicate FieldsUnfold(h: Heap, kept: seq<Prop>, fields: seq<Field>)
    requires Closed(h)
    decreases fields
  {
    |fields| == |kept| &&
    forall i :: 0 <= i < |fields| ==> fields[i].key == kept[i].0 && Unfolds(h, kept[i].1, fields[i].tree)
  }

  function Size(t: Tree): nat {
    match t
    case Leaf(_) => 1
    case Items(trees) => 1 + SizeOfAll(trees)
    case Entries(fields) => 1 + SizeOfFields(fields)
  }

  function SizeOfAll(trees: seq<Tree>): (n: nat)
    ensures forall i :: 0 <= i < |trees| ==> Size(trees[i]) <= n
  {
    if trees == [] then 0 else Size(trees[0]) + SizeOfAll(trees[1..])
  }

  function SizeOfFields(fields: seq<Field>): (n: nat)
    ensures forall i :: 0 <= i < |fields| ==> Size(fields[i].tree) <= n
  {
    if fields == [] then 0 else Size(fields[0].tree) + SizeOfFields(fields[1..])
  }

  lemma {:induction false} UnfoldingIsUnique(h: Heap, v: Val, s: Tree, t: Tree)
    requires Closed(h) && Unfolds(h, v, s) && Unfolds(h, v, t)
    ensures s == t
    decreases s
  {
    match s
    case Leaf(_) =>
    case Items(trees) =>
      forall i | 0 <= i < |trees| ensures trees[i] == t.trees[i] {
        UnfoldingIsUnique(h, Shown(h, h[v.at].items[i]), trees[i], t.trees[i]);
      }
    case Entries(fields) =>
      var kept := KeptProps(h, Props(h[v.at]));
      forall i | 0 <= i < |fields| ensures fields[i] == t.fields[i] {
        UnfoldingIsUnique(h, kept[i].1, fields[i].tree, t.fields[i].tree);
      }
  }

  // ---- A walk that succeeds answers the unfolding --------------------------

  lemma {:induction false} AnyUnfolds(h: Heap, v: Val, stack: seq<Ref>)
    requires Closed(h) && InHeap(h, v) && !OnStack(v, stack)
    requires Any(h, v, stack).Some?
    ensures Unfolds(h, v, Any(h, v, stack).value)
    decreases Unvisited(h, stack), 0, 0
  {
    if v.Obj? {
      PushingVisits(h, stack, v.at);
      if h[v.at].Array? {
        AnyItemsUnfold(h, h[v.at].items, stack + [v.at]);
      } else {
        AnyEntriesUnfold(h, Props(h[v.at]), stack + [v.at]);
      }
    }
  }

  lemma {:induction false} AnyItemsUnfold(h: Heap, items: seq<Val>, stack: seq<Ref>)
    requires Closed(h) && forall i :: 0 <= i < |items| ==> InHeap(h, items[i])
    requires AnyItems(h, items, stack).Some?
    ensures ItemsUnfold(h, items, AnyItems(h, items, stack).value)
    decreases Unvisited(h, stack), 1, |items|
  {
    if items != [] {
      AnyUnfolds(h, Shown(h, items[0]), stack);
      AnyItemsUnfold(h, items[1..], stack);
    }
  }

  lemma NoFieldsUnfold(h: Heap)
    requires Closed(h)
    ensures FieldsUnfold(h, [], [])
  {
  }

  lemma FieldsUnfoldWithAnother(h: Heap, first: Prop, kept: seq<Prop>, t: Tree, fields: seq<Field>)
    requires Closed(h) && Unfolds(h, first.1, t) && FieldsUnfold(h, kept, fields)
    ensures FieldsUnfold(h, [first] + kept, [Field(first.0, t)] + fields)
  {
    hide Unfolds;
  }

  lemma {:induction false} AnyEntriesUnfold(h: Heap, props: seq<Prop>, stack: seq<Ref>)
    requires Closed(h) && forall i :: 0 <= i < |props| ==> InHeap(h, props[i].1)
    requires AnyEntries(h, props, stack).Some?
    ensures FieldsUnfold(h, KeptProps(h, props), AnyEntries(h, props, stack).value)
    decreases Unvisited(h, stack), 1, |props|
  {
    hide Any, Unfolds, FieldsUnfold, Supported;
    if props == [] {
      NoFieldsUnfold(h);
    } else {
      AnyEntriesUnfold(h, props[1..], stack);
      if Supported(h, props[0].1) {
        AnyUnfolds(h, props[0].1, stack);
        FieldsUnfoldWithAnother(h, props[0], KeptProps(h, props[1..]), Any(h, props[0].1, stack).value,
                                AnyEntries(h, props[1..], stack).value);
      }
    }
  }

  // ---- A walk of something that unfolds succeeds ---------------------------

  /** `r` unfolds to a tree larger than `n`. */
  ghost predicate Above(h: Heap, r: Ref, n: nat)
    requires Closed(h)
  {
    exists t :: Unfolds(h, Obj(r), t) && Size(t) > n
  }

  /** Nothing on the stack can be met again below a value that unfolds. */
  lemma NotOnStack(h: Heap, v: Val, t: Tree, stack: seq<Ref>)
    requires Closed(h) && Unfolds(h, v, t)
    requires forall r :: r in stack ==> Above(h, r, Size(t))
    ensures !OnStack(v, stack)
  {
    if OnStack(v, stack) {
      var larger :| Unfolds(h, Obj(v.at), larger) && Size(larger) > Size(t);
      UnfoldingIsUnique(h, v, larger, t);
    }
  }

  lemma {:induction false} UnfoldedIsAnswered(h: Heap, v: Val, t: Tree, stack: seq<Ref>)
    requires Closed(h) && Unfolds(h, v, t)
    requires forall r :: r in stack ==> Above(h, r, Size(t))
    ensures !OnStack(v, stack) && Any(h, v, stack) == Some(t)
    decreases t, 0
  {
    NotOnStack(h, v, t, stack);
    if v.Obj? {
      assert Above(h, v.at, Size(t) - 1);
      if h[v.at].Array? {
        UnfoldedItems(h, h[v.at].items, t.trees, stack + [v.at], Size(t) - 1, t);
      } else {
        UnfoldedEntries(h, Props(h[v.at]), t.fields, stack + [v.at], Size(t) - 1, t);
      }
    }
  }

  lemma {:induction false} UnfoldedItems(
    h: Heap, items: seq<Val>, trees: seq<Tree>, stack: seq<Ref>, n: nat, whole: Tree)
    requires Closed(h) && forall i :: 0 <= i < |items| ==> InHeap(h, items[i])
    requires ItemsUnfold(h, items, trees)
    requires forall i :: 0 <= i < |trees| ==> Size(trees[i]) <= n && trees[i] < whole
    requires forall r :: r in stack ==> Above(h, r, n)
    ensures AnyItems(h, items, stack) == Some(trees)
    decreases whole, 0, |items|
  {
    if items != [] {
      UnfoldedIsAnswered(h, Shown(h, items[0]), trees[0], stack);
      UnfoldedItems(h, items[1..], trees[1..], stack, n, whole);
      assert trees == [trees[0]] + trees[1..];
    }
  }

  lemma FieldsUnfoldOneByOne(h: Heap, first: Prop, rest: seq<Prop>, fields: seq<Field>)
    requires Closed(h) && FieldsUnfold(h, [first] + rest, fields)
    ensures fields == [fields[0]] + fields[1..] && fields[0].key == first.0
    ensures Unfolds(h, first.1, fields[0].tree) && FieldsUnfold(h, rest, fields[1..])
  {
    var kept := [first] + rest;
    forall i | 0 <= i < |rest| ensures fields[1..][i].key == rest[i].0 && Unfolds(h, rest[i].1, fields[1..][i].tree) {
      assert fields[1..][i] == fields[i + 1] && rest[i] == kept[i + 1];
    }
  }

  lemma {:induction false} UnfoldedEntries(
    h: Heap, props: seq<Prop>, fields: seq<Field>, stack: seq<Ref>, n: nat, whole: Tree)
    requires Closed(h) && forall i :: 0 <= i < |props| ==> InHeap(h, props[i].1)
    requires FieldsUnfold(h, KeptProps(h, props), fields)
    requires forall i :: 0 <= i < |fields| ==> Size(fields[i].tree) <= n && fields[i].tree < whole
    requires forall r :: r in stack ==> Above(h, r, n)
    ensures AnyEntries(h, props, stack) == Some(fields)
    decreases whole, 0, |props|
  {
    if props != [] {
      if Supported(h, props[0].1) {
        var rest := fields[1..];
        FieldsUnfoldOneByOne(h, props[0], KeptProps(h, props[1..]), fields);
        UnfoldedIsAnswered(h, props[0].1, fields[0].tree, stack);
        UnfoldedEntries(h, props[1..], rest, stack, n, whole);
      } else {
        UnfoldedEntries(h, props[1..], fields, stack, n, whole);
      }
    }
  }

  /** The walk answers exactly the tree unfolding, sharing allowed. */
  lemma WalkIsTheUnfolding(h: Heap, v: Val, t: Tree)
    requires Closed(h) && InHeap(h, v)
    ensures Any(h, v, []) == Some(t) <==> Unfolds(h, v, t)
  {
    if Unfolds(h, v, t) {
      UnfoldedIsAnswered(h, v, t, []);
    }
    if Any(h, v, []) == Some(t) {
      AnyUnfolds(h, v, []);
    }
  }

  // ---- The walk fails on exactly the cycles --------------------------------

  function Children(h: Heap, r: Ref): seq<Val>
    requires Closed(h) && r in h
  {
    if h[r].Array? then
      seq(|h[r].items|, i requires 0 <= i < |h[r].items| => Shown(h, h[r].items[i]))
    else
      var kept := KeptProps(h, Props(h[r]));
      seq(|kept|, i requires 0 <= i < |kept| => kept[i].1)
  }

  ghost predicate Path(h: Heap, p: seq<Ref>)
    requires Closed(h)
  {
    (forall i :: 0 <= i < |p| ==> p[i] in h) &&
    forall i :: 0 < i < |p| ==> Obj(p[i]) in Children(h, p[i - 1])
  }

  /** A path from `v` comes back to an object it has already been through. */
  ghost predicate CycleFrom(h: Heap, v: Val)
    requires Closed(h)
  {
    v.Obj? && exists p: seq<Ref>, i: nat, j: nat ::
      i < j < |p| && p[0] == v.at && Path(h, p) && p[i] == p[j]
  }

  ghost predicate Reenters(h: Heap, prefix: seq<Ref>, p: seq<Ref>)
    requires Closed(h)
  {
    Path(h, p) && prefix <= p && exists i: nat, j: nat :: i < j < |p| && p[i] == p[j]
  }

  lemma {:induction false} FailingWalkFindsACycle(h: Heap, r: Ref, stack: seq<Ref>) returns (p: seq<Ref>)
    requires Closed(h) && r in h && r !in stack && Path(h, stack + [r])
    requires Any(h, Obj(r), stack).None?
    ensures Reenters(h, stack + [r], p)
    decreases Unvisited(h, stack), 0, 0
  {
    PushingVisits(h, stack, r);
    if h[r].Array? {
      ItemsAreChildren(h, r);
      p := FailingItemsFindACycle(h, h[r].items, r, stack + [r]);
    } else {
      KeptPropsAreChildren(h, r);
      p := FailingEntriesFindACycle(h, Props(h[r]), r, stack + [r]);
    }
  }

  lemma PathGoesOn(h: Heap, p: seq<Ref>, r: Ref)
    requires Closed(h) && Path(h, p) && |p| > 0 && r in h && Obj(r) in Children(h, p[|p| - 1])
    ensures Path(h, p + [r])
  {
    hide Children;
    var next := p + [r];
    forall i | 0 < i < |next| ensures Obj(next[i]) in Children(h, next[i - 1]) {
      assert next[i - 1] == p[i - 1];
    }
  }

  lemma ItemsAreChildren(h: Heap, r: Ref)
    requires Closed(h) && r in h && h[r].Array?
    ensures forall i :: 0 <= i < |h[r].items| ==> Shown(h, h[r].items[i]) in Children(h, r)
  {
    forall i | 0 <= i < |h[r].items| ensures Shown(h, h[r].items[i]) in Children(h, r) {
      assert Children(h, r)[i] == Shown(h, h[r].items[i]);
    }
  }

  lemma KeptPropsAreChildren(h: Heap, r: Ref)
    requires Closed(h) && r in h && !h[r].Array?
    ensures forall p :: p in Props(h[r]) && Supported(h, p.1) ==> p.1 in Children(h, r)
  {
    var kept := KeptProps(h, Props(h[r]));
    forall p | p in Props(h[r]) && Supported(h, p.1) ensures p.1 in Children(h, r) {
      var i :| 0 <= i < |kept| && kept[i] == p;
      assert Children(h, r)[i] == p.1;
    }
  }

  /** The child is on the stack, or its own walk failed: either way the path goes on. */
  lemma {:induction false} FailingChild(h: Heap, v: Val, stack: seq<Ref>) returns (p: seq<Ref>)
    requires Closed(h) && InHeap(h, v) && v.Obj? && |stack| > 0 && Path(h, stack)
    requires v in Children(h, stack[|stack| - 1])
    requires OnStack(v, stack) || Any(h, v, stack).None?
    ensures Reenters(h, stack, p)
    decreases Unvisited(h, stack), 1, 0, 0
  {
    p := stack + [v.at];
    PathGoesOn(h, stack, v.at);
    if OnStack(v, stack) {
      var i: nat :| i < |stack| && stack[i] == v.at;
      assert p[i] == p[|stack|];
    } else {
      p := FailingWalkFindsACycle(h, v.at, stack);
    }
  }

  lemma {:induction false} FailingItemsFindACycle(
    h: Heap, items: seq<Val>, r: Ref, stack: seq<Ref>) returns (p: seq<Ref>)
    requires Closed(h) && |stack| > 0 && stack[|stack| - 1] == r && Path(h, stack)
    requires forall i :: 0 <= i < |items| ==> InHeap(h, items[i]) && Shown(h, items[i]) in Children(h, r)
    requires AnyItems(h, items, stack).None?
    ensures Reenters(h, stack, p)
    decreases Unvisited(h, stack), 1, 1, |items|
  {
    var first := Shown(h, items[0]);
    if OnStack(first, stack) || Any(h, first, stack).None? {
      p := FailingChild(h, first, stack);
    } else {
      p := FailingItemsFindACycle(h, items[1..], r, stack);
    }
  }

  lemma {:induction false} FailingEntriesFindACycle(
    h: Heap, props: seq<Prop>, r: Ref, stack: seq<Ref>) returns (p: seq<Ref>)
    requires Closed(h) && |stack| > 0 && stack[|stack| - 1] == r && Path(h, stack)
    requires forall i :: 0 <= i < |props| ==>
      InHeap(h, props[i].1) && (Supported(h, props[i].1) ==> props[i].1 in Children(h, r))
    requires AnyEntries(h, props, stack).None?
    ensures Reenters(h, stack, p)
    decreases Unvisited(h, stack), 1, 1, |props|
  {
    var first := props[0].1;
    if Supported(h, first) && (OnStack(first, stack) || Any(h, first, stack).None?) {
      p := FailingChild(h, first, stack);
    } else {
      p := FailingEntriesFindACycle(h, props[1..], r, stack);
    }
  }

  /** An object's child unfolds to a part of its tree. */
  lemma ChildUnfolds(h: Heap, r: Ref, child: Ref, above: Tree) returns (below: Tree)
    requires Closed(h) && r in h && Obj(child) in Children(h, r) && Unfolds(h, Obj(r), above)
    ensures Unfolds(h, Obj(child), below) && Size(below) < Size(above)
  {
    var children := Children(h, r);
    var i :| 0 <= i < |children| && children[i] == Obj(child);
    below := if above.Items? then above.trees[i] else above.fields[i].tree;
  }

  /** Down any path from a value that unfolds, the trees shrink. */
  lemma {:induction false} TreesShrinkDownAPath(h: Heap, p: seq<Ref>, t: Tree, k: nat) returns (below: Tree)
    requires Closed(h) && Path(h, p) && k < |p| && Unfolds(h, Obj(p[0]), t)
    ensures Unfolds(h, Obj(p[k]), below) && Size(below) + k <= Size(t)
  {
    hide Unfolds, Children, Size;
    if k == 0 {
      below := t;
    } else {
      var above := TreesShrinkDownAPath(h, p, t, k - 1);
      below := ChildUnfolds(h, p[k - 1], p[k], above);
    }
  }

  lemma CycleHasNoUnfolding(h: Heap, v: Val, t: Tree)
    requires Closed(h) && CycleFrom(h, v)
    ensures !Unfolds(h, v, t)
  {
    hide Unfolds, Children, Size;
    if Unfolds(h, v, t) {
      var p: seq<Ref>, i: nat, j: nat :| i < j < |p| && p[0] == v.at && Path(h, p) && p[i] == p[j];
      var upper := TreesShrinkDownAPath(h, p, t, i);
      assert Path(h, p[i..]) && p[i..][j - i] == p[j];
      var lower := TreesShrinkDownAPath(h, p[i..], upper, j - i);
      UnfoldingIsUnique(h, Obj(p[i]), upper, lower);
    }
  }

  /** The walk fails on a symbol and on values from which a cycle can be reached, and on nothing else. */
  lemma WalkFailsOnlyOnCycles(h: Heap, v: Val)
    requires Closed(h) && InHeap(h, v)
    ensures Any(h, v, []).None? <==> v.Symbol? || CycleFrom(h, v)
  {
    if v.Obj? {
      if Any(h, v, []).None? {
        assert [] + [v.at] == [v.at];
        var p := FailingWalkFindsACycle(h, v.at, []);
        assert p[0] == v.at;
      } else if CycleFrom(h, v) {
        AnyUnfolds(h, v, []);
        CycleHasNoUnfolding(h, v, Any(h, v, []).value);
      }
    }
  }

  // ---- What is rendered, in the values' own terms -----------------------------

  /** What JSON has room for: neither undefined, nor a symbol, nor a function. */
  predicate InJson(h: Heap, v: Val)
    requires InHeap(h, v)
  {
    v != Undefined && v != Symbol && (v.Obj? ==> h[v.at].Array? || h[v.at].Plain?)
  }

  /** A kept property stands in the list of those kept, and those kept after it come after it. */
  lemma {:induction false} KeptAt(h: Heap, props: seq<Prop>, k: nat) returns (j: nat)
    requires forall i :: 0 <= i < |props| ==> InHeap(h, props[i].1)
    requires k < |props| && Supported(h, props[k].1)
    ensures j < |KeptProps(h, props)| && KeptProps(h, props)[j] == props[k]
    ensures forall i :: j < i < |KeptProps(h, props)| ==> KeptProps(h, props)[i] in props[k + 1..]
  {
    hide Supported;
    var kept, rest := KeptProps(h, props), props[1..];
    var front := if Supported(h, props[0].1) then [props[0]] else [];
    var behind := KeptProps(h, rest);
    assert kept == front + behind;
    if k == 0 {
      j := 0;
      forall i | 0 < i < |kept| ensures kept[i] in rest {
        assert kept[i] == behind[i - 1] && behind[i - 1] in behind;
      }
    } else {
      var below := KeptAt(h, rest, k - 1);
      j := |front| + below;
      assert rest[k - 1 + 1..] == props[k + 1..];
      forall i | j < i < |kept| ensures kept[i] in props[k + 1..] {
        assert kept[i] == behind[i - |front|];
      }
    }
  }

  lemma {:induction false} CollectedLast(fields: seq<Field>, i: nat)
    requires i < |fields| && forall j :: i < j < |fields| ==> fields[j].key != fields[i].key
    ensures fields[i].key in Collect(fields) && Collect(fields)[fields[i].key] == ToJson(fields[i].tree)
    decreases |fields|
  {
    var n := |fields| - 1;
    if i < n {
      assert fields[..n][i] == fields[i];
      CollectedLast(fields[..n], i);
    }
  }

  lemma {:induction false} CollectedKeys(fields: seq<Field>, key: string)
    ensures key in Collect(fields) <==> exists i :: 0 <= i < |fields| && fields[i].key == key
  {
    if fields != [] {
      var n := |fields| - 1;
      CollectedKeys(fields[..n], key);
      assert forall i :: 0 <= i < n ==> fields[..n][i] == fields[i];
    }
  }

  lemma KeptNames(h: Heap, props: seq<Prop>, key: string)
    requires forall i :: 0 <= i < |props| ==> InHeap(h, props[i].1)
    ensures (exists i :: 0 <= i < |KeptProps(h, props)| && KeptProps(h, props)[i].0 == key) <==>
      exists k :: 0 <= k < |props| && props[k].0 == key && InJson(h, props[k].1)
  {
    var kept := KeptProps(h, props);
    if i :| 0 <= i < |kept| && kept[i].0 == key {
      assert kept[i] in kept;
      var k :| 0 <= k < |props| && props[k] == kept[i];
    }
    if k :| 0 <= k < |props| && props[k].0 == key && InJson(h, props[k].1) {
      var j := KeptAt(h, props, k);
    }
  }

  /** An object renders with a key for exactly the names of properties that JSON has room for. */
  lemma RenderedKeys(h: Heap, at: Ref, t: Tree, key: string)
    requires Closed(h) && at in h && !h[at].Array? && Unfolds(h, Obj(at), t)
    ensures ToJson(t).JObj?
    ensures key in ToJson(t).fields <==>
      exists k :: 0 <= k < |h[at].props| && h[at].props[k].0 == key && InJson(h, h[at].props[k].1)
  {
    var kept, fields := KeptProps(h, Props(h[at])), t.fields;
    KeptNames(h, Props(h[at]), key);
    CollectedKeys(fields, key);
    hide KeptProps, Collect;
    assert forall i :: 0 <= i < |fields| ==> fields[i].key == kept[i].0;
    if i :| 0 <= i < |kept| && kept[i].0 == key {
      assert fields[i].key == key;
    }
  }

  /** The last of them under a name has its value there. */
  lemma RenderedProperty(h: Heap, at: Ref, t: Tree, k: nat) returns (below: Tree)
    requires Closed(h) && at in h && !h[at].Array? && Unfolds(h, Obj(at), t)
    requires k < |h[at].props| && InJson(h, h[at].props[k].1)
    requires forall l :: k < l < |h[at].props| ==> h[at].props[l].0 != h[at].props[k].0
    ensures Unfolds(h, h[at].props[k].1, below)
    ensures ToJson(t).JObj? && h[at].props[k].0 in ToJson(t).fields
    ensures ToJson(t).fields[h[at].props[k].0] == ToJson(below)
  {
    var props, fields := Props(h[at]), t.fields;
    var kept := KeptProps(h, props);
    var j := KeptAt(h, props, k);
    below := fields[j].tree;
    assert forall i :: 0 <= i < |fields| ==> fields[i].key == kept[i].0;
    LaterNamesDiffer(props, k, kept, j);
    hide KeptProps, Collect;
    CollectedLast(fields, j);
  }

  lemma LaterNamesDiffer(props: seq<Prop>, k: nat, kept: seq<Prop>, j: nat)
    requires k < |props| && j < |kept| && kept[j] == props[k]
    requires forall i :: j < i < |kept| ==> kept[i] in props[k + 1..]
    requires forall l :: k < l < |props| ==> props[l].0 != props[k].0
    ensures forall i :: j < i < |kept| ==> kept[i].0 != kept[j].0
  {
    forall i | j < i < |kept| ensures kept[i].0 != kept[j].0 {
      var later := props[k + 1..];
      var l :| 0 <= l < |later| && later[l] == kept[i];
      assert props[k + 1 + l] == later[l];
    }
  }

  /**
   * An element of an array renders as null exactly when it is null, has no room in JSON or is a number that is not
   * finite, and otherwise as it would by itself.
   */
  lemma RenderedElement(h: Heap, at: Ref, t: Tree, i: nat)
    requires Closed(h) && at in h && h[at].Array? && Unfolds(h, Obj(at), t) && i < |h[at].items|
    ensures ToJson(t).JArr? && |ToJson(t).items| == |h[at].items|
    ensures ToJson(t).items[i] == JNull <==>
      var v := h[at].items[i];
      v == Null || !InJson(h, v) || (v.Float? && (v.f.NaN? || v.f.Infinite?))
    ensures InJson(h, h[at].items[i]) ==>
      exists below :: Unfolds(h, h[at].items[i], below) && ToJson(t).items[i] == ToJson(below)
  {
    var v, tree := h[at].items[i], t.trees[i];
    assert Unfolds(h, Shown(h, v), tree);
    assert ToJson(t).items[i] == ToJson(tree);
    if !Shown(h, v).Obj? {
      RenderedLeaf(h, Shown(h, v), tree, 0);
    } else {
      assert tree.Items? || tree.Entries?;
    }
  }

  /**
   * What is no object: a number that is not finite renders as null, negative zero as zero, a whole one of the safe
   * range as that integer and any other as it is.
   */
  lemma RenderedLeaf(h: Heap, v: Val, t: Tree, n: int)
    requires Closed(h) && !v.Obj? && Unfolds(h, v, t)
    ensures ToJson(t) == JNull <==> v == Null || v == Undefined || (v.Float? && (v.f.NaN? || v.f.Infinite?))
    ensures forall b: bool :: ToJson(t) == JBool(b) <==> v == Bool(b)
    ensures forall text: string :: ToJson(t) == JStr(text) <==> v == Str(text)
    ensures ToJson(t) == JInt(n) <==>
      || (v.Int? && v.i as int == n)
      || (v.Float? && v.f.NegativeZero? && n == 0)
      || (v.Float? && v.f.Finite? && v.f.value == n as real && -9007199254740991 <= n <= 9007199254740991)
    ensures forall f: Double :: ToJson(t) == JFloat(f) <==>
      v == Float(f) && f.Finite? &&
      !(f.value == f.value.Floor as real && -9007199254740991.0 <= f.value <= 9007199254740991.0)
  {
  }

  /** Every value that is no object renders, but a symbol does not. */
  lemma EveryLeafRenders(h: Heap, v: Val)
    requires Closed(h) && !v.Obj?
    ensures v != Symbol ==> exists t :: Unfolds(h, v, t)
    ensures v == Symbol ==> forall t :: !Unfolds(h, v, t)
  {
    if v != Symbol {
      var t := Leaf(Primitive(v).value);
      assert Unfolds(h, v, t);
    }
  }
}
