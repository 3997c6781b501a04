/** Event listeners: lists under keys, snapshots taken by each emit, and registrations that fire once. */
module Emitters {
  import opened Prelude

  datatype Key = Symbol(id: nat) | Named(text: string)

  /** A registration. The number tells it from every other, which the callback alone does not. */
  datatype Item = Item(callback: nat, once: bool, id: nat)

  datatype Entry = Entry(key: Key, items: seq<Item>)

  // ---- The simple table: listeners under each key ---------------------------

  function Listeners(events: seq<Entry>, key: Key): seq<Item> {
    if events == [] then [] else if events[0].key == key then events[0].items else Listeners(events[1..], key)
  }

  /** Each key once, and none without listeners. */
  ghost predicate WellFormed(events: seq<Entry>) {
    && (forall i, j :: 0 <= i < j < |events| ==> events[i].key != events[j].key)
    && forall i :: 0 <= i < |events| ==> events[i].items != []
  }

  /** Without the first registration of the callback. */
  function WithoutFirst(items: seq<Item>, callback: nat): seq<Item> {
    if items == [] then []
    else if items[0].callback == callback then items[1..]
    else [items[0]] + WithoutFirst(items[1..], callback)
  }

  function Lasting(items: seq<Item>): seq<Item> {
    if items == [] then [] else (if items[0].once then [] else [items[0]]) + Lasting(items[1..])
  }

  function Placed(items: seq<Item>, item: Item, prepend: bool): seq<Item> {
    if prepend then [item] + items else items + [item]
  }

  /** The list with other items under one key: in its place, at the end, or gone when there are none. */
  function With(events: seq<Entry>, key: Key, items: seq<Item>): seq<Entry> {
    if events == [] then (if items == [] then [] else [Entry(key, items)])
    else if events[0].key == key then (if items == [] then [] else [Entry(key, items)]) + events[1..]
    else [events[0]] + With(events[1..], key, items)
  }

  function WithoutKey(events: seq<Entry>, key: Key): seq<Entry> {
    if events == [] then []
    else (if events[0].key == key then [] else [events[0]]) + WithoutKey(events[1..], key)
  }

  /** The pass over a key's listeners: each to be called, and those not registered once kept. */
  method TakeAll(items: seq<Item>) returns (taken: seq<Item>, kept: seq<Item>)
    ensures taken == items && kept == Lasting(items)
  {
    taken, kept := [], [];
    for i := 0 to |items|
      invariant taken == items[..i] && kept + Lasting(items[i..]) == Lasting(items)
    {
      LastingFrom(items, i);
      KeepingOne(kept, items[i], Lasting(items[i + 1..]));
      taken := taken + [items[i]];
      if !items[i].once {
        kept := kept + [items[i]];
      }
    }
    LastingFromEnd(items, kept);
  }

  class Emitter {
    var events: seq<Entry>

    constructor ()
      ensures events == [] && WellFormed(events)
    {
      events := [];
    }

    method PositionOf(key: Key) returns (at: Option<nat>)
      ensures match at
              case Some(i) => i < |events| && events[i].key == key && forall k :: 0 <= k < i ==> events[k].key != key
              case None => forall k :: 0 <= k < |events| ==> events[k].key != key
    {
      for i := 0 to |events|
        invariant forall k :: 0 <= k < i ==> events[k].key != key
      {
        if events[i].key == key {
          return Some(i);
        }
      }
      return None;
    }

    /** Answers whether the key is new. */
    method AddListener(key: Key, item: Item, prepend: bool) returns (isNew: bool)
      requires WellFormed(events)
      modifies this
      ensures WellFormed(events) && isNew == (Listeners(old(events), key) == [])
      ensures Listeners(events, key) ==
        if prepend then [item] + Listeners(old(events), key) else Listeners(old(events), key) + [item]
      ensures forall other :: other != key ==> Listeners(events, other) == Listeners(old(events), other)
      ensures events == With(old(events), key, Placed(Listeners(old(events), key), item, prepend))
    {
      var at := PositionOf(key);
      isNew := at.None?;
      WithListeners(events, key, Placed(Listeners(events, key), item, prepend));
      if at.None? {
        WithAtEnd(events, key, Placed([], item, prepend));
        events := events + [Entry(key, Placed([], item, prepend))];
      } else {
        WithAt(events, key, at.value, Placed(events[at.value].items, item, prepend));
        events := events[at.value := Entry(key, Placed(events[at.value].items, item, prepend))];
      }
    }

    /** Takes the first registration of the callback, and the key with the last of its listeners. */
    method RemoveListener(key: Key, callback: nat)
      requires WellFormed(events)
      modifies this
      ensures WellFormed(events)
      ensures Listeners(events, key) == WithoutFirst(Listeners(old(events), key), callback)
      ensures forall other :: other != key ==> Listeners(events, other) == Listeners(old(events), other)
      ensures events == With(old(events), key, WithoutFirst(Listeners(old(events), key), callback))
    {
      hide Listeners, With;
      var at := PositionOf(key);
      WithListeners(events, key, WithoutFirst(Listeners(events, key), callback));
      if at.None? {
        WithAtEnd(events, key, []);
        return;
      }
      var index := at.value;
      var items := events[index].items;
      WithAt(events, key, index, WithoutFirst(items, callback));
      for i := 0 to |items|
        invariant forall k :: 0 <= k < i ==> items[k].callback != callback
      {
        if items[i].callback == callback {
          RemovingAt(items, callback, i);
          items := items[..i] + items[i + 1..];
          if items == [] {
            events := events[..index] + events[index + 1..];
          } else {
            events := events[index := Entry(key, items)];
          }
          return;
        }
      }
      NothingToRemove(items, callback);
      assert events[index := Entry(key, items)] == events;
    }

    /**
     * The callbacks an emit is going to call, in order; those registered once are registered no more before any is
     * called.
     */
    method TakeListeners(key: Key) returns (found: bool, taken: seq<Item>)
      requires WellFormed(events)
      modifies this
      ensures WellFormed(events) && taken == Listeners(old(events), key) && found == (taken != [])
      ensures Listeners(events, key) == Lasting(taken)
      ensures forall other :: other != key ==> Listeners(events, other) == Listeners(old(events), other)
      ensures events == With(old(events), key, Lasting(taken))
    {
      hide Listeners, With;
      var at := PositionOf(key);
      found := at.Some?;
      WithListeners(events, key, Lasting(Listeners(events, key)));
      if at.None? {
        WithAtEnd(events, key, []);
        return false, [];
      }
      var index := at.value;
      var items := events[index].items;
      assert items != [];
      WithAt(events, key, index, Lasting(items));
      var kept: seq<Item>;
      taken, kept := TakeAll(items);
      if kept == [] {
        events := events[..index] + events[index + 1..];
      } else {
        events := events[index := Entry(key, kept)];
      }
    }

    method RemoveAllListeners(key: Option<Key>)
      requires WellFormed(events)
      modifies this
      ensures WellFormed(events)
      ensures forall k :: Listeners(events, k) == if key.None? || key.value == k then [] else Listeners(old(events), k)
      ensures events == if key.None? then [] else WithoutKey(old(events), key.value)
    {
      if key.None? {
        events := [];
        return;
      }
      hide WellFormed;
      var kept: seq<Entry> := [];
      for i := 0 to |events|
        invariant events == old(events) && kept + WithoutKey(events[i..], key.value) == WithoutKey(events, key.value)
      {
        assert events[i..][1..] == events[i + 1..];
        KeepingOne(kept, events[i], WithoutKey(events[i + 1..], key.value));
        if events[i].key != key.value {
          kept := kept + [events[i]];
        }
      }
      assert events[|events|..] == [] && kept + [] == kept;
      ClearedListeners(events, key.value);
      events := kept;
    }
  }

  // ---- The loops above against the table ------------------------------------

  lemma LastingFrom(items: seq<Item>, i: nat)
    requires i < |items|
    ensures Lasting(items[i..]) == (if items[i].once then [] else [items[i]]) + Lasting(items[i + 1..])
  {
    assert items[i..][1..] == items[i + 1..];
  }

  lemma LastingFromEnd(items: seq<Item>, kept: seq<Item>)
    ensures kept + Lasting(items[|items|..]) == kept
  {
  }

  lemma {:induction false} RemovingAt(items: seq<Item>, callback: nat, i: nat)
    requires i < |items| && items[i].callback == callback && forall k :: 0 <= k < i ==> items[k].callback != callback
    ensures WithoutFirst(items, callback) == items[..i] + items[i + 1..]
  {
    if i > 0 {
      RemovingAt(items[1..], callback, i - 1);
      assert items[..i] + items[i + 1..] == [items[0]] + (items[1..][..i - 1] + items[1..][i..]);
    }
  }

  lemma {:induction false} NothingToRemove(items: seq<Item>, callback: nat)
    requires forall k :: 0 <= k < |items| ==> items[k].callback != callback
    ensures WithoutFirst(items, callback) == items
  {
    if items != [] {
      NothingToRemove(items[1..], callback);
    }
  }

  lemma {:induction false} WithAtEnd(events: seq<Entry>, key: Key, items: seq<Item>)
    requires forall k :: 0 <= k < |events| ==> events[k].key != key
    ensures With(events, key, items) == events + if items == [] then [] else [Entry(key, items)]
    ensures Listeners(events, key) == []
  {
    if events != [] {
      WithAtEnd(events[1..], key, items);
    }
  }

  lemma BehindTheFirst(events: seq<Entry>, at: nat, e: Entry)
    requires 0 < at < |events|
    ensures events[..at] + events[at + 1..] == [events[0]] + (events[1..][..at - 1] + events[1..][at..])
    ensures events[at := e] == [events[0]] + events[1..][at - 1 := e]
  {
  }

  lemma {:induction false} WithAt(events: seq<Entry>, key: Key, at: nat, items: seq<Item>)
    requires at < |events| && events[at].key == key && forall k :: 0 <= k < at ==> events[k].key != key
    ensures Listeners(events, key) == events[at].items
    ensures With(events, key, items) ==
      if items == [] then events[..at] + events[at + 1..] else events[at := Entry(key, items)]
  {
    if at > 0 {
      WithAt(events[1..], key, at - 1, items);
      BehindTheFirst(events, at, Entry(key, items));
    } else {
      assert events[..0] + events[1..] == events[1..];
      assert events[0 := Entry(key, items)] == [Entry(key, items)] + events[1..];
    }
  }

  lemma RestIsWellFormed(events: seq<Entry>)
    requires WellFormed(events) && events != []
    ensures WellFormed(events[1..]) && forall e :: e in events[1..] ==> e in events && e.key != events[0].key
  {
    var rest := events[1..];
    forall e | e in rest ensures e in events && e.key != events[0].key {
      var i :| 0 <= i < |rest| && rest[i] == e;
      assert events[i + 1] == e;
    }
  }

  lemma {:induction false} ListenersWith(events: seq<Entry>, key: Key, items: seq<Item>, k: Key)
    requires WellFormed(events)
    ensures Listeners(With(events, key, items), k) == if k == key then items else Listeners(events, k)
  {
    if events != [] {
      var rest := events[1..];
      RestIsWellFormed(events);
      if events[0].key == key {
        NoneUnder(rest, key);
        FrontListeners(if items == [] then [] else [Entry(key, items)], rest, k);
      } else {
        ListenersWith(rest, key, items, k);
        assert ([events[0]] + With(rest, key, items))[1..] == With(rest, key, items);
      }
    }
  }

  lemma {:induction false} WithIsWellFormed(events: seq<Entry>, key: Key, items: seq<Item>)
    requires WellFormed(events)
    ensures WellFormed(With(events, key, items))
    ensures forall e :: e in With(events, key, items) ==> e.key == key || e in events
  {
    if events != [] {
      var rest := events[1..];
      RestIsWellFormed(events);
      if events[0].key == key {
        FrontIsWellFormed(if items == [] then [] else [Entry(key, items)], rest);
      } else {
        WithIsWellFormed(rest, key, items);
        FrontIsWellFormed([events[0]], With(rest, key, items));
      }
    }
  }

  /** Writing one key keeps the list well formed, and is what the next look under each key finds. */
  lemma WithListeners(events: seq<Entry>, key: Key, items: seq<Item>)
    requires WellFormed(events)
    ensures WellFormed(With(events, key, items))
    ensures forall k :: Listeners(With(events, key, items), k) == if k == key then items else Listeners(events, k)
    ensures forall e :: e in With(events, key, items) ==> e.key == key || e in events
  {
    hide With, Listeners, WellFormed;
    WithIsWellFormed(events, key, items);
    forall k ensures Listeners(With(events, key, items), k) == if k == key then items else Listeners(events, k) {
      ListenersWith(events, key, items, k);
    }
  }

  lemma FrontListeners(front: seq<Entry>, rest: seq<Entry>, k: Key)
    requires |front| <= 1
    ensures Listeners(front + rest, k) ==
      if front != [] && front[0].key == k then front[0].items else Listeners(rest, k)
  {
    if front == [] {
      assert front + rest == rest;
    } else {
      assert (front + rest)[1..] == rest;
    }
  }

  lemma FrontIsWellFormed(front: seq<Entry>, rest: seq<Entry>)
    requires |front| <= 1 && WellFormed(rest)
    requires front != [] ==> front[0].items != [] && forall e :: e in rest ==> e.key != front[0].key
    ensures WellFormed(front + rest)
  {
    if front == [] {
      assert front + rest == rest;
    } else {
      assert forall i :: 0 <= i < |rest| ==> rest[i] in rest;
    }
  }

  lemma {:induction false} NoneUnder(events: seq<Entry>, key: Key)
    requires forall k :: 0 <= k < |events| ==> events[k].key != key
    ensures Listeners(events, key) == [] && WithoutKey(events, key) == events
  {
    if events != [] {
      NoneUnder(events[1..], key);
    }
  }

  lemma {:induction false} ListenersWithoutKey(events: seq<Entry>, key: Key, k: Key)
    requires WellFormed(events)
    ensures Listeners(WithoutKey(events, key), k) == if k == key then [] else Listeners(events, k)
  {
    if events != [] {
      RestIsWellFormed(events);
      ListenersWithoutKey(events[1..], key, k);
      FrontListeners(if events[0].key == key then [] else [events[0]], WithoutKey(events[1..], key), k);
    }
  }

  lemma {:induction false} WithoutKeyIsWellFormed(events: seq<Entry>, key: Key)
    requires WellFormed(events)
    ensures WellFormed(WithoutKey(events, key)) && forall e :: e in WithoutKey(events, key) ==> e in events
  {
    if events != [] {
      RestIsWellFormed(events);
      WithoutKeyIsWellFormed(events[1..], key);
      FrontIsWellFormed(if events[0].key == key then [] else [events[0]], WithoutKey(events[1..], key));
    }
  }

  lemma ClearedListeners(events: seq<Entry>, key: Key)
    requires WellFormed(events)
    ensures WellFormed(WithoutKey(events, key)) && forall e :: e in WithoutKey(events, key) ==> e in events
    ensures forall k :: Listeners(WithoutKey(events, key), k) == if k == key then [] else Listeners(events, k)
  {
    hide WithoutKey, Listeners, WellFormed;
    WithoutKeyIsWellFormed(events, key);
    forall k ensures Listeners(WithoutKey(events, key), k) == if k == key then [] else Listeners(events, k) {
      ListenersWithoutKey(events, key, k);
    }
  }

  // ---- Nested emits ---------------------------------------------------------

  /**
   * The emitter under a script: its lists, the calls that emits in progress or deferred still have to make, and the
   * calls made. A step may come while any number of emits are waiting for their listeners to return.
   */
  datatype State = State(events: seq<Entry>, next: nat, pending: seq<Item>, called: seq<nat>, onces: set<nat>)

  datatype Step =
    | On(key: Key, callback: nat, prepend: bool, once: bool)
    | Off(key: Key, callback: nat)
    | Emit(key: Key)
    | Clear(only: Option<Key>)
    | Call(index: nat)
    | Abort(index: nat)

  function After(s: State, step: Step): State {
    match step
    case On(key, callback, prepend, once) =>
      var item := Item(callback, once, s.next);
      s.(events := With(s.events, key, Placed(Listeners(s.events, key), item, prepend)), next := s.next + 1,
         onces := if once then s.onces + {s.next} else s.onces)
    case Off(key, callback) => s.(events := With(s.events, key, WithoutFirst(Listeners(s.events, key), callback)))
    case Emit(key) =>
      var taken := Listeners(s.events, key);
      s.(events := With(s.events, key, Lasting(taken)), pending := s.pending + taken)
    case Clear(key) => s.(events := if key.None? then [] else WithoutKey(s.events, key.value))
    case Call(i) =>
      if i < |s.pending| then
        s.(pending := s.pending[..i] + s.pending[i + 1..], called := s.called + [s.pending[i].id])
      else s
    case Abort(i) =>
      if i < |s.pending| then s.(pending := s.pending[..i] + s.pending[i + 1..]) else s
  }

  const NOTHING := State([], 0, [], [], {})

  function Run(steps: seq<Step>): State
    decreases |steps|
  {
    if steps == [] then NOTHING else After(Run(steps[..|steps| - 1]), steps[|steps| - 1])
  }

  function Count(items: seq<Item>, id: nat): nat {
    if items == [] then 0 else (if items[0].id == id then 1 else 0) + Count(items[1..], id)
  }

  function CountAll(events: seq<Entry>, id: nat): nat {
    if events == [] then 0 else Count(events[0].items, id) + CountAll(events[1..], id)
  }

  function Calls(called: seq<nat>, id: nat): nat
    decreases |called|
  {
    if called == [] then 0 else Calls(called[..|called| - 1], id) + if called[|called| - 1] == id then 1 else 0
  }

  /** How often a registration is in the lists, about to be called, or has been called. */
  function Uses(s: State, id: nat): nat {
    CountAll(s.events, id) + Count(s.pending, id) + Calls(s.called, id)
  }

  ghost predicate Honest(items: seq<Item>, onces: set<nat>) {
    forall i :: 0 <= i < |items| ==> (items[i].once <==> items[i].id in onces)
  }

  ghost predicate Inv(s: State) {
    && WellFormed(s.events)
    && (forall e :: e in s.events ==> Honest(e.items, s.onces))
    && Honest(s.pending, s.onces)
    && (forall id :: id in s.onces ==> id < s.next && Uses(s, id) <= 1)
    && (forall id :: id >= s.next ==> Uses(s, id) == 0)
  }

  lemma {:induction false} CountJoins(a: seq<Item>, b: seq<Item>, id: nat)
    ensures Count(a + b, id) == Count(a, id) + Count(b, id)
  {
    if a == [] {
      assert a + b == b;
    } else {
      assert (a + b)[1..] == a[1..] + b;
      CountJoins(a[1..], b, id);
    }
  }

  lemma {:induction false} CountWith(events: seq<Entry>, key: Key, items: seq<Item>, id: nat)
    ensures CountAll(With(events, key, items), id) + Count(Listeners(events, key), id) ==
      CountAll(events, id) + Count(items, id)
  {
    if events != [] {
      var rest := events[1..];
      if events[0].key == key {
        if items != [] {
          assert ([Entry(key, items)] + rest)[1..] == rest;
        } else {
          assert [] + rest == rest;
        }
      } else {
        CountWith(rest, key, items, id);
        assert ([events[0]] + With(rest, key, items))[1..] == With(rest, key, items);
      }
    } else if items != [] {
      assert [Entry(key, items)][1..] == [];
    }
  }

  lemma {:induction false} CountWithoutFirst(items: seq<Item>, callback: nat, id: nat)
    ensures Count(WithoutFirst(items, callback), id) <= Count(items, id)
  {
    if items != [] && items[0].callback != callback {
      CountWithoutFirst(items[1..], callback, id);
    }
  }

  lemma {:induction false} CountWithoutKey(events: seq<Entry>, key: Key, id: nat)
    ensures CountAll(WithoutKey(events, key), id) <= CountAll(events, id)
  {
    if events != [] {
      CountWithoutKey(events[1..], key, id);
      if events[0].key == key {
        assert [] + WithoutKey(events[1..], key) == WithoutKey(events[1..], key);
      }
    }
  }

  /** An emit takes a once registration out of the lists, every time it takes it. */
  lemma {:induction false} LastingCount(items: seq<Item>, onces: set<nat>, id: nat)
    requires Honest(items, onces)
    ensures Count(Lasting(items), id) == if id in onces then 0 else Count(items, id)
  {
    if items != [] {
      LastingCount(items[1..], onces, id);
      assert Honest(items[1..], onces);
      if items[0].once {
        assert [] + Lasting(items[1..]) == Lasting(items[1..]);
      } else {
        assert ([items[0]] + Lasting(items[1..]))[1..] == Lasting(items[1..]);
      }
    }
  }

  lemma CountTaken(items: seq<Item>, i: nat, id: nat)
    requires i < |items|
    ensures Count(items[..i] + items[i + 1..], id) + (if items[i].id == id then 1 else 0) == Count(items, id)
  {
    assert items == items[..i] + ([items[i]] + items[i + 1..]);
    CountJoins(items[..i], [items[i]] + items[i + 1..], id);
    CountJoins([items[i]], items[i + 1..], id);
    CountJoins(items[..i], items[i + 1..], id);
    assert [items[i]][1..] == [];
  }

  lemma UsesAfterEmit(s: State, key: Key, id: nat)
    requires Inv(s) && (id in s.onces || Uses(s, id) == 0)
    ensures Uses(After(s, Emit(key)), id) == Uses(s, id)
  {
    var taken := Listeners(s.events, key);
    CountWith(s.events, key, Lasting(taken), id);
    ListenersAreThere(s.events, key);
    if taken != [] {
      var e :| e in s.events && e.items == taken;
      CountOfEntry(s.events, e, id);
    }
    LastingCount(taken, s.onces, id);
    CountJoins(s.pending, taken, id);
  }

  lemma UsesAfter(s: State, step: Step, id: nat)
    requires Inv(s)
    ensures step.On? && id == s.next ==> Uses(After(s, step), id) == Uses(s, id) + 1
    ensures step.On? && id != s.next ==> Uses(After(s, step), id) == Uses(s, id)
    ensures step.Off? || step.Clear? || step.Abort? ==> Uses(After(s, step), id) <= Uses(s, id)
    ensures step.Call? ==> Uses(After(s, step), id) == Uses(s, id)
    ensures step.Emit? && (id in s.onces || Uses(s, id) == 0) ==> Uses(After(s, step), id) == Uses(s, id)
  {
    match step
    case On(key, callback, prepend, once) =>
      var item, items := Item(callback, once, s.next), Listeners(s.events, key);
      CountWith(s.events, key, Placed(items, item, prepend), id);
      CountJoins([item], items, id);
      CountJoins(items, [item], id);
      assert [item][1..] == [];
    case Off(key, callback) =>
      var items := Listeners(s.events, key);
      CountWith(s.events, key, WithoutFirst(items, callback), id);
      CountWithoutFirst(items, callback, id);
    case Emit(key) =>
      if id in s.onces || Uses(s, id) == 0 {
        UsesAfterEmit(s, key, id);
      }
    case Clear(key) =>
      if key.Some? {
        CountWithoutKey(s.events, key.value, id);
      }
    case Call(i) =>
      if i < |s.pending| {
        CountTaken(s.pending, i, id);
        var called := s.called + [s.pending[i].id];
        assert called[..|called| - 1] == s.called;
      }
    case Abort(i) =>
      if i < |s.pending| {
        CountTaken(s.pending, i, id);
      }
  }

  lemma {:induction false} ListenersAreThere(events: seq<Entry>, key: Key)
    ensures Listeners(events, key) == [] || exists e :: e in events && e.items == Listeners(events, key)
  {
    if events != [] {
      ListenersAreThere(events[1..], key);
      if events[0].key == key {
        assert events[0] in events;
      } else if Listeners(events[1..], key) != [] {
        var e :| e in events[1..] && e.items == Listeners(events[1..], key);
        assert e in events;
      }
    }
  }

  lemma {:induction false} WithoutFirstIsPart(items: seq<Item>, callback: nat)
    ensures forall x :: x in WithoutFirst(items, callback) ==> x in items
  {
    if items != [] {
      WithoutFirstIsPart(items[1..], callback);
    }
  }

  lemma {:induction false} LastingIsPart(items: seq<Item>)
    ensures forall x :: x in Lasting(items) ==> x in items
  {
    if items != [] {
      LastingIsPart(items[1..]);
    }
  }

  lemma HonestParts(items: seq<Item>, part: seq<Item>, onces: set<nat>)
    requires Honest(items, onces) && forall x :: x in part ==> x in items
    ensures Honest(part, onces)
  {
    forall i | 0 <= i < |part| ensures part[i].once <==> part[i].id in onces {
      assert part[i] in items;
    }
  }

  /** Every step keeps the keys apart, the lists filled, and each once registration in one place at most. */
  lemma StepKeepsInv(s: State, step: Step)
    requires Inv(s)
    ensures Inv(After(s, step))
  {
    var t := After(s, step);
    forall id ensures id in t.onces ==> id < t.next && Uses(t, id) <= 1 {
      if id in t.onces {
        UsesAfter(s, step, id);
        assert Uses(s, s.next) == 0;
      }
    }
    forall id | id >= t.next ensures Uses(t, id) == 0 {
      assert Uses(s, id) == 0;
      UsesAfter(s, step, id);
    }
    ShapeIsKept(s, step);
  }

  lemma ShapeIsKept(s: State, step: Step)
    requires Inv(s)
    ensures
      var t := After(s, step);
      WellFormed(t.events) && (forall e :: e in t.events ==> Honest(e.items, t.onces)) && Honest(t.pending, t.onces)
  {
    var t := After(s, step);
    match step
    case On(key, callback, prepend, once) =>
      OnIsHonest(s, step);
      WithListeners(s.events, key, Placed(Listeners(s.events, key), Item(callback, once, s.next), prepend));
      EntryUnder(t.events, key);
    case Off(key, callback) =>
      var items := Listeners(s.events, key);
      ListenersAreThere(s.events, key);
      WithoutFirstIsPart(items, callback);
      HonestParts(items, WithoutFirst(items, callback), s.onces);
      WithListeners(s.events, key, WithoutFirst(items, callback));
      EntryUnder(t.events, key);
    case Emit(key) =>
      var items := Listeners(s.events, key);
      ListenersAreThere(s.events, key);
      LastingIsPart(items);
      HonestParts(items, Lasting(items), s.onces);
      WithListeners(s.events, key, Lasting(items));
      EntryUnder(t.events, key);
    case Clear(key) =>
      if key.Some? {
        ClearedListeners(s.events, key.value);
      }
    case Call(i) =>
    case Abort(i) =>
  }

  lemma EntryUnder(events: seq<Entry>, key: Key)
    requires WellFormed(events)
    ensures forall e :: e in events && e.key == key ==> e.items == Listeners(events, key)
  {
    forall e | e in events && e.key == key ensures e.items == Listeners(events, key) {
      var k :| 0 <= k < |events| && events[k] == e;
      WithAt(events, key, k, []);
    }
  }

  lemma OnIsHonest(s: State, step: Step)
    requires Inv(s) && step.On?
    ensures
      var t := After(s, step);
      && Honest(Placed(Listeners(s.events, step.key), Item(step.callback, step.once, s.next), step.prepend), t.onces)
      && (forall e :: e in s.events ==> Honest(e.items, t.onces)) && Honest(t.pending, t.onces)
  {
    var t := After(s, step);
    assert s.next !in s.onces && Uses(s, s.next) == 0;
    forall e | e in s.events ensures Honest(e.items, t.onces) {
      NewIsElsewhere(s, e);
    }
    forall i | 0 <= i < |s.pending| ensures s.pending[i].id != s.next {
      CountTaken(s.pending, i, s.next);
    }
    ListenersAreThere(s.events, step.key);
  }

  lemma NewIsElsewhere(s: State, e: Entry)
    requires Inv(s) && e in s.events
    ensures forall i :: 0 <= i < |e.items| ==> e.items[i].id != s.next
  {
    assert Uses(s, s.next) == 0;
    CountOfEntry(s.events, e, s.next);
    forall i | 0 <= i < |e.items| ensures e.items[i].id != s.next {
      CountTaken(e.items, i, s.next);
    }
  }

  lemma {:induction false} CountOfEntry(events: seq<Entry>, e: Entry, id: nat)
    requires e in events
    ensures Count(e.items, id) <= CountAll(events, id)
  {
    if events[0] != e {
      CountOfEntry(events[1..], e, id);
    }
  }

  lemma {:induction false} EveryRunKeepsInv(steps: seq<Step>)
    ensures Inv(Run(steps))
    decreases |steps|
  {
    if steps != [] {
      EveryRunKeepsInv(steps[..|steps| - 1]);
      StepKeepsInv(Run(steps[..|steps| - 1]), steps[|steps| - 1]);
    }
  }

  /** Whatever listeners do while they are called, a once registration is called at most once. */
  lemma OnceMeansOnce(steps: seq<Step>, id: nat)
    requires id in Run(steps).onces
    ensures Calls(Run(steps).called, id) <= 1
    ensures Calls(Run(steps).called, id) == 1 ==>
      CountAll(Run(steps).events, id) == 0 && Count(Run(steps).pending, id) == 0
  {
    EveryRunKeepsInv(steps);
  }

  // ---- Every call comes from an emit -----------------------------------------

  /** How often an emit finds the registration among its listeners. */
  function FoundBy(s: State, step: Step, id: nat): nat {
    if step.Emit? then Count(Listeners(s.events, step.key), id) else 0
  }

  /** The call is dropped, as the listener before it threw. */
  function DroppedBy(s: State, step: Step, id: nat): nat {
    if step.Abort? && step.index < |s.pending| && s.pending[step.index].id == id then 1 else 0
  }

  function Found(steps: seq<Step>, id: nat): nat
    decreases |steps|
  {
    if steps == [] then 0
    else
      var before, last := steps[..|steps| - 1], steps[|steps| - 1];
      Found(before, id) + FoundBy(Run(before), last, id)
  }

  function Dropped(steps: seq<Step>, id: nat): nat
    decreases |steps|
  {
    if steps == [] then 0
    else
      var before, last := steps[..|steps| - 1], steps[|steps| - 1];
      Dropped(before, id) + DroppedBy(Run(before), last, id)
  }

  lemma CallsMove(s: State, step: Step, id: nat)
    ensures
      var t := After(s, step);
      Calls(t.called, id) + Count(t.pending, id) + DroppedBy(s, step, id) ==
      Calls(s.called, id) + Count(s.pending, id) + FoundBy(s, step, id)
  {
    hide With, WithoutKey, Listeners, WithoutFirst, Lasting, Placed;
    match step
    case Emit(key) => CountJoins(s.pending, Listeners(s.events, key), id);
    case Call(i) =>
      if i < |s.pending| {
        CountTaken(s.pending, i, id);
        var called := s.called + [s.pending[i].id];
        assert called[..|called| - 1] == s.called;
      }
    case Abort(i) =>
      if i < |s.pending| {
        CountTaken(s.pending, i, id);
      }
    case _ =>
  }

  /** A listener is called as often as emits have found it, but for the calls dropped and those still to come. */
  lemma {:induction false} CallsComeFromEmits(steps: seq<Step>, id: nat)
    ensures Found(steps, id) == Calls(Run(steps).called, id) + Dropped(steps, id) + Count(Run(steps).pending, id)
    decreases |steps|
  {
    hide After, FoundBy, DroppedBy, Count, Calls;
    if steps == [] {
      NothingCalled(id);
    } else {
      CallsComeFromEmits(steps[..|steps| - 1], id);
      CallsMove(Run(steps[..|steps| - 1]), steps[|steps| - 1], id);
    }
  }

  lemma NothingCalled(id: nat)
    ensures Calls(NOTHING.called, id) == 0 && Count(NOTHING.pending, id) == 0
  {
  }

  /** A script's steps on an emitter, the calls of its emits made in whatever order and depth they come. */
  method Play(steps: seq<Step>) returns (called: seq<nat>)
    ensures called == Run(steps).called
  {
    hide With, WithoutKey, Listeners, WithoutFirst, Lasting, Placed;
    var emitter := new Emitter();
    var pending: seq<Item>, next := [], 0;
    called := [];
    for i := 0 to |steps|
      invariant fresh(emitter) && WellFormed(emitter.events)
      invariant
        var s := Run(steps[..i]);
        emitter.events == s.events && pending == s.pending && called == s.called && next == s.next
    {
      OneMoreStep(steps, i);
      match steps[i] {
        case On(key, callback, prepend, once) =>
          var _ := emitter.AddListener(key, Item(callback, once, next), prepend);
          next := next + 1;
        case Off(key, callback) =>
          emitter.RemoveListener(key, callback);
        case Emit(key) =>
          var _, taken := emitter.TakeListeners(key);
          pending := pending + taken;
        case Clear(only) =>
          emitter.RemoveAllListeners(only);
        case Call(index) =>
          if index < |pending| {
            called := called + [pending[index].id];
            pending := pending[..index] + pending[index + 1..];
          }
        case Abort(index) =>
          if index < |pending| {
            pending := pending[..index] + pending[index + 1..];
          }
      }
    }
    assert steps[..|steps|] == steps;
  }

  lemma OneMoreStep(steps: seq<Step>, i: nat)
    requires i < |steps|
    ensures Run(steps[..i + 1]) == After(Run(steps[..i]), steps[i])
  {
    assert steps[..i + 1][..i] == steps[..i];
  }
}
