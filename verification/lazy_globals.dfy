/** Globals installed on first touch, against a realm that installs them all at the start. */
module LazyGlobals {
  import opened Prelude

  type Name = string

  type Value = nat

  /** What an install does: it may read globals on its way, and defines its own names. */
  datatype InstallStep = Touch(name: Name) | Define(name: Name)

  datatype Group = Group(names: seq<Name>, values: map<Name, Value>, install: seq<InstallStep>)

  /** A plain property, or the accessor of a group that has not installed. */
  datatype Prop = Data(value: Value) | Lazy(index: nat)

  /**
   * Every name once, each with a value that depends on nothing the script can reach; an install defines all of its own.
   */
  ghost predicate Sound(g: Group) {
    && (forall n :: n in g.names <==> n in g.values)
    && (forall i, j :: 0 <= i < j < |g.names| ==> g.names[i] != g.names[j])
    && (forall n :: n in g.names ==> Define(n) in g.install)
    && (forall s :: s in g.install && s.Define? ==> s.name in g.names)
  }

  ghost predicate Disjoint(groups: seq<Group>) {
    forall a, b, n :: 0 <= a < |groups| && 0 <= b < |groups| && n in groups[a].names && n in groups[b].names ==> a == b
  }

  ghost predicate AllSound(groups: seq<Group>) {
    Disjoint(groups) && forall i :: 0 <= i < |groups| ==> Sound(groups[i])
  }

  // ---- The eager realm ------------------------------------------------------

  type Globals = map<Name, Value>

  datatype Op =
    | Read(name: Name)
    | Assign(name: Name, value: Value)
    | Delete(name: Name)
    | Ensure(name: Name)
    | EnsureAll

  /** Every group installed over what was there. */
  function EagerStart(base: Globals, groups: seq<Group>): Globals {
    if groups == [] then base else EagerStart(base, groups[..|groups| - 1]) + groups[|groups| - 1].values
  }

  function EagerAfter(globals: Globals, op: Op): Globals {
    match op
    case Assign(name, value) => globals[name := value]
    case Delete(name) => globals - {name}
    case _ => globals
  }

  function Lookup(globals: Globals, name: Name): Option<Value> {
    if name in globals then Some(globals[name]) else None
  }

  /** What the reads of a script answer. */
  function EagerAnswers(globals: Globals, ops: seq<Op>): seq<Option<Value>>
    decreases |ops|
  {
    if ops == [] then []
    else
      (if ops[0].Read? then [Lookup(globals, ops[0].name)] else []) +
        EagerAnswers(EagerAfter(globals, ops[0]), ops[1..])
  }

  // ---- The lazy realm -------------------------------------------------------

  /** An accessor is always that of a group still to install, under one of its names. */
  ghost predicate AccessorsWait(groups: seq<Group>, props: map<Name, Prop>, waiting: set<nat>) {
    && (forall i :: i in waiting ==> i < |groups|)
    && forall n :: n in props && props[n].Lazy? ==> props[n].index in waiting && n in groups[props[n].index].names
  }

  /** A name means the same in both realms. */
  ghost predicate Agrees(groups: seq<Group>, props: map<Name, Prop>, eager: Globals, n: Name) {
    if n !in props then n !in eager
    else
      n in eager &&
      match props[n]
      case Data(v) => eager[n] == v
      case Lazy(index) => index < |groups| && n in groups[index].values && eager[n] == groups[index].values[n]
  }

  /** All names but those of the installs in progress do. */
  ghost predicate AgreesBut(groups: seq<Group>, props: map<Name, Prop>, eager: Globals, busy: set<Name>) {
    forall n :: n !in busy ==> Agrees(groups, props, eager, n)
  }

  ghost predicate Once(log: seq<nat>, waiting: set<nat>) {
    && (forall i :: 0 <= i < |log| ==> log[i] !in waiting)
    && forall i, j :: 0 <= i < j < |log| ==> log[i] != log[j]
  }

  /** What a script left under a name before its group installed. */
  datatype Before = Accessor | Absent | Defined(value: Value)

  function BeforeOf(props: map<Name, Prop>, n: Name): Before {
    if n !in props then Absent
    else
      match props[n]
      case Lazy(_) => Accessor
      case Data(v) => Defined(v)
  }

  /** What was there before is what the eager realm has: its install's value, nothing, or the script's own. */
  predicate MayPutBack(eager: Globals, n: Name, installed: Value, before: Before) {
    match before
    case Accessor => n in eager && eager[n] == installed
    case Absent => n !in eager
    case Defined(v) => n in eager && eager[n] == v
  }

  /** No name of a group still to install is being installed. */
  ghost predicate Apart(groups: seq<Group>, waiting: set<nat>, busy: set<Name>) {
    forall i, n :: i in waiting && i < |groups| && n in groups[i].names ==> n !in busy
  }

  ghost predicate SameAt(before: map<Name, Prop>, after: map<Name, Prop>, n: Name) {
    (n in before <==> n in after) && (n in before ==> before[n] == after[n])
  }

  lemma SameBefore(before: map<Name, Prop>, after: map<Name, Prop>, n: Name)
    requires SameAt(before, after, n)
    ensures BeforeOf(before, n) == BeforeOf(after, n)
  {
  }

  lemma SameThroughout(start: map<Name, Prop>, installed: map<Name, Prop>, props: map<Name, Prop>, busy: set<Name>)
    requires forall n :: n in busy ==> SameAt(start, installed, n) && SameAt(installed, props, n)
    ensures forall n :: n in busy ==> SameAt(start, props, n)
  {
  }

  lemma TakingIsOnce(log: seq<nat>, waiting: set<nat>, index: nat)
    requires Once(log, waiting) && index in waiting
    ensures Once(log + [index], waiting - {index})
  {
  }

  lemma DefiningAgrees(groups: seq<Group>, before: map<Name, Prop>, waiting: set<nat>, eager: Globals, i: nat)
    requires i < |groups| && AllSound(groups) && AccessorsWait(groups, before, waiting) &&
      AgreesBut(groups, before, eager, {})
    ensures
      var after := before + (map n | n in groups[i].values :: Lazy(i));
      AccessorsWait(groups, after, waiting + {i}) && AgreesBut(groups, after, eager + groups[i].values, {})
  {
    var after := before + (map n | n in groups[i].values :: Lazy(i));
    forall n ensures Agrees(groups, after, eager + groups[i].values, n) {
      assert Agrees(groups, before, eager, n);
    }
  }

  /** What an install finds under its own names is what the eager realm has there. */
  lemma BeforeAgrees(
    groups: seq<Group>, props: map<Name, Prop>, waiting: set<nat>, eager: Globals, busy: set<Name>, index: nat)
    requires AllSound(groups) && index < |groups| && AccessorsWait(groups, props, waiting)
    requires AgreesBut(groups, props, eager, busy) && forall n :: n in groups[index].names ==> n !in busy
    ensures forall n :: n in groups[index].names ==>
      n in groups[index].values && MayPutBack(eager, n, groups[index].values[n], BeforeOf(props, n))
  {
    assert Sound(groups[index]);
    forall n | n in groups[index].names
      ensures n in groups[index].values && MayPutBack(eager, n, groups[index].values[n], BeforeOf(props, n))
    {
      assert Agrees(groups, props, eager, n);
    }
  }

  lemma SettingAside(groups: seq<Group>, start: map<Name, Prop>, props: map<Name, Prop>, index: nat, waiting: set<nat>,
                     busy: set<Name>, own: set<Name>, eager: Globals)
    requires AllSound(groups) && index in waiting && AccessorsWait(groups, start, waiting)
    requires AgreesBut(groups, start, eager, busy) && Apart(groups, waiting, busy)
    requires own == (set n | n in groups[index].names)
    requires forall n :: if n in own then n !in props else SameAt(start, props, n)
    ensures AccessorsWait(groups, props, waiting - {index}) && AgreesBut(groups, props, eager, busy + own)
    ensures Apart(groups, waiting - {index}, busy + own)
  {
    forall n | n !in busy + own ensures Agrees(groups, props, eager, n) {
      assert Agrees(groups, start, eager, n) && SameAt(start, props, n);
    }
    forall n | n in props && props[n].Lazy?
      ensures props[n].index in waiting - {index} && n in groups[props[n].index].names
    {
      assert n !in own && SameAt(start, props, n);
    }
  }

  lemma AllPutBack(
    groups: seq<Group>, installed: map<Name, Prop>, props: map<Name, Prop>, eager: Globals, busy: set<Name>,
                   own: set<Name>)
    requires AgreesBut(groups, installed, eager, busy + own)
    requires forall n :: if n in own then Agrees(groups, props, eager, n) else SameAt(installed, props, n)
    ensures AgreesBut(groups, props, eager, busy)
  {
    forall n | n !in busy ensures Agrees(groups, props, eager, n) {
      if n !in own {
        assert SameAt(installed, props, n) && Agrees(groups, installed, eager, n);
      }
    }
  }

  // ---- Nothing installs untouched --------------------------------------------

  /** Somebody asks for the name: the script or its host, or an install that has begun. */
  ghost predicate CalledFor(groups: seq<Group>, log: seq<nat>, asked: set<Name>, n: Name) {
    n in asked || exists k :: 0 <= k < |log| && log[k] < |groups| && Touch(n) in groups[log[k]].install
  }

  /** The install was of a group one of whose names had been asked for, unless all are to be installed. */
  ghost predicate TouchedAt(groups: seq<Group>, log: seq<nat>, k: nat, asked: set<Name>, all: bool)
    requires k < |log|
  {
    log[k] < |groups| && (all || exists n :: n in groups[log[k]].names && CalledFor(groups, log[..k], asked, n))
  }

  ghost predicate OnlyTouched(groups: seq<Group>, log: seq<nat>, asked: set<Name>, all: bool) {
    forall k :: 0 <= k < |log| ==> TouchedAt(groups, log, k, asked, all)
  }

  lemma OneMoreTouched(groups: seq<Group>, log: seq<nat>, asked: set<Name>, all: bool, index: nat, n: Name)
    requires OnlyTouched(groups, log, asked, all) && index < |groups|
    requires all || (n in groups[index].names && CalledFor(groups, log, asked, n))
    ensures OnlyTouched(groups, log + [index], asked, all)
  {
    hide CalledFor;
    var more := log + [index];
    forall k | 0 <= k < |more| ensures TouchedAt(groups, more, k, asked, all) {
      if k < |log| {
        assert TouchedAt(groups, log, k, asked, all);
        assert more[k] == log[k] && more[..k] == log[..k];
      } else {
        assert more[k] == index && more[..k] == log;
      }
    }
  }

  lemma InstallsTouch(groups: seq<Group>, log: seq<nat>, asked: set<Name>, k: nat, n: Name)
    requires k < |log| && log[k] < |groups| && Touch(n) in groups[log[k]].install
    ensures CalledFor(groups, log, asked, n)
  {
  }

  class Realm {
    const groups: seq<Group>
    var props: map<Name, Prop>
    /** The groups whose install has not been taken. */
    var waiting: set<nat>
    /** The installs run, in order. */
    var log: seq<nat>

    ghost predicate Valid()
      reads this
    {
      AllSound(groups) && AccessorsWait(groups, props, waiting) && Once(log, waiting)
    }

    constructor (base: Globals, groups: seq<Group>)
      requires AllSound(groups)
      ensures Valid() && this.groups == groups && log == []
      ensures AgreesBut(groups, props, EagerStart(base, groups), {})
    {
      this.groups := groups;
      var start: map<Name, Prop> := map n | n in base :: Data(base[n]);
      var all: set<nat> := {};
      for i := 0 to |groups|
        invariant AccessorsWait(groups, start, all) && forall k :: k in all ==> k < i
        invariant AgreesBut(groups, start, EagerStart(base, groups[..i]), {})
      {
        assert groups[..i + 1][..i] == groups[..i];
        DefiningAgrees(groups, start, all, EagerStart(base, groups[..i]), i);
        start := start + (map n | n in groups[i].values :: Lazy(i));
        all := all + {i};
      }
      assert groups[..|groups|] == groups;
      props, waiting, log := start, all, [];
    }

    method InstallGroup(index: nat, ghost name: Name, ghost busy: set<Name>, ghost eager: Globals,
                        ghost asked: set<Name>, ghost all: bool)
      requires Valid() && index < |groups| && AgreesBut(groups, props, eager, busy) && Apart(groups, waiting, busy)
      requires OnlyTouched(groups, log, asked, all)
      requires all || (name in groups[index].names && CalledFor(groups, log, asked, name))
      modifies this
      ensures Valid() && AgreesBut(groups, props, eager, busy) && OnlyTouched(groups, log, asked, all)
      ensures index !in old(waiting) ==> props == old(props) && waiting == old(waiting) && log == old(log)
      ensures forall n :: n in busy ==> SameAt(old(props), props, n)
      ensures waiting <= old(waiting) - {index} && old(log) <= log
      decreases waiting, 0
    {
      if index !in waiting {
        return;
      }
      hide Agrees, AgreesBut, AllSound, SameAt, AccessorsWait, OnlyTouched, CalledFor, BeforeOf, MayPutBack;
      ghost var start, was := props, waiting;
      OneMoreTouched(groups, log, asked, all, index, name);
      ghost var own := set n | n in groups[index].names;
      TakingIsOnce(log, waiting, index);
      waiting := waiting - {index};
      log := log + [index];
      BeforeAgrees(groups, start, was, eager, busy, index);
      var before := SetAside(index);
      SettingAside(groups, start, props, index, was, busy, own, eager);
      RunInstall(index, busy + own, eager, |log| - 1, asked, all);
      ghost var installed := props;
      PutBack(index, before, eager);
      AllPutBack(groups, installed, props, eager, busy, own);
      SameThroughout(start, installed, props, busy);
    }

    /** The group's names, moved out of its install's way. */
    method SetAside(index: nat) returns (before: seq<Before>)
      requires index < |groups| && AllSound(groups)
      modifies this`props
      ensures |before| == |groups[index].names|
      ensures forall k :: 0 <= k < |before| ==> before[k] == BeforeOf(old(props), groups[index].names[k])
      ensures forall n :: if n in groups[index].names then n !in props else SameAt(old(props), props, n)
    {
      hide BeforeOf;
      var names := groups[index].names;
      NamesAreDistinct(groups, index);
      before := [];
      for i := 0 to |names|
        invariant |before| == i && forall k :: 0 <= k < i ==> before[k] == BeforeOf(old(props), names[k])
        invariant forall n :: if n in names[..i] then n !in props else SameAt(old(props), props, n)
      {
        assert names[i] !in names[..i];
        assert forall n :: n in names[..i + 1] <==> n in names[..i] || n == names[i];
        SameBefore(old(props), props, names[i]);
        before := before + [BeforeOf(props, names[i])];
        props := props - {names[i]};
      }
      assert names[..|names|] == names;
    }

    /** What the script had left under the group's names, over what its install defined there. */
    method PutBack(index: nat, before: seq<Before>, ghost eager: Globals)
      requires index < |groups| && AllSound(groups) && |before| == |groups[index].names|
      requires AccessorsWait(groups, props, waiting)
      requires forall n :: n in groups[index].names ==> n in props && props[n] == Data(groups[index].values[n])
      requires forall k :: 0 <= k < |before| ==>
        var n := groups[index].names[k];
        MayPutBack(eager, n, groups[index].values[n], before[k])
      modifies this`props
      ensures AccessorsWait(groups, props, waiting)
      ensures forall n ::
        if n in groups[index].names then Agrees(groups, props, eager, n) else SameAt(old(props), props, n)
    {
      hide Agrees, AllSound;
      var names := groups[index].names;
      NamesAreDistinct(groups, index);
      for i := 0 to |names|
        invariant AccessorsWait(groups, props, waiting)
        invariant forall n :: n !in names[..i] ==> SameAt(old(props), props, n)
        invariant forall k :: 0 <= k < i ==> Agrees(groups, props, eager, names[k])
      {
        assert names[i] !in names[..i] && SameAt(old(props), props, names[i]);
        assert forall n :: n in names[..i + 1] <==> n in names[..i] || n == names[i];
        ghost var now := props;
        match before[i] {
          case Accessor =>
          case Absent => props := props - {names[i]};
          case Defined(v) => props := props[names[i] := Data(v)];
        }
        PutBackOne(groups, now, props, eager, names, i, groups[index].values[names[i]], before[i]);
        forall n | n !in names[..i + 1] ensures SameAt(old(props), props, n) {
          assert n !in names[..i] && n != names[i] && SameAt(old(props), now, n) && SameAt(now, props, n);
        }
      }
      assert names[..|names|] == names;
    }

    /** The group's own code: what it reads may install others, and it defines its names. */
    method RunInstall(index: nat, ghost busy: set<Name>, ghost eager: Globals,
                      ghost place: nat, ghost asked: set<Name>, ghost all: bool)
      requires Valid() && index < |groups| && AgreesBut(groups, props, eager, busy) && Apart(groups, waiting, busy)
      requires forall n :: n in groups[index].names ==> n in busy
      requires OnlyTouched(groups, log, asked, all) && place < |log| && log[place] == index
      modifies this
      ensures Valid() && AgreesBut(groups, props, eager, busy) && OnlyTouched(groups, log, asked, all)
      ensures forall n :: n in busy && n !in groups[index].names ==> SameAt(old(props), props, n)
      ensures forall n :: n in groups[index].names ==> n in props && props[n] == Data(groups[index].values[n])
      ensures waiting <= old(waiting) && old(log) <= log
      decreases waiting, 2
    {
      hide Agrees, Disjoint, OnlyTouched, CalledFor;
      assert Sound(groups[index]);
      var steps := groups[index].install;
      for i := 0 to |steps|
        invariant Valid() && AgreesBut(groups, props, eager, busy) && OnlyTouched(groups, log, asked, all)
        invariant forall n :: n in busy && n !in groups[index].names ==> SameAt(old(props), props, n)
        invariant forall n :: Define(n) in steps[..i] ==> n in props && props[n] == Data(groups[index].values[n])
        invariant waiting <= old(waiting) && old(log) <= log
      {
        assert steps[..i + 1] == steps[..i] + [steps[i]];
        assert steps[i] in steps;
        forall n | Define(n) in steps[..i] ensures n in groups[index].names {
          assert Define(n) in steps;
        }
        match steps[i] {
          case Touch(n) =>
            assert old(log)[place] == log[place];
            InstallsTouch(groups, log, asked, place, n);
            var _ := Get(n, busy, eager, asked, all);
          case Define(n) =>
            DefiningABusyName(groups, props, eager, busy, n, groups[index].values[n]);
            props := props[n := Data(groups[index].values[n])];
        }
      }
      assert steps[..|steps|] == steps;
    }

    /** What a host calls before it builds on what a group's install sets up. */
    method Ensure(name: Name, ghost eager: Globals, ghost asked: set<Name>, ghost all: bool)
      requires Valid() && AgreesBut(groups, props, eager, {})
      requires OnlyTouched(groups, log, asked, all) && name in asked
      modifies this
      ensures Valid() && AgreesBut(groups, props, eager, {}) && OnlyTouched(groups, log, asked, all)
      ensures (forall i :: i in old(waiting) && i < |groups| ==> name !in groups[i].names) ==>
        props == old(props) && waiting == old(waiting) && log == old(log)
      ensures forall i :: 0 <= i < |groups| && name in groups[i].names ==> i !in waiting
    {
      for i := 0 to |groups|
        invariant Valid() && AgreesBut(groups, props, eager, {}) && OnlyTouched(groups, log, asked, all)
        invariant props == old(props) && waiting == old(waiting) && log == old(log)
        invariant forall k :: 0 <= k < i && name in groups[k].names ==> k !in waiting
      {
        if i in waiting && name in groups[i].names {
          InstallGroup(i, name, {}, eager, asked, all);
          assert Disjoint(groups);
          return;
        }
      }
    }

    method EnsureAll(ghost eager: Globals, ghost asked: set<Name>)
      requires Valid() && AgreesBut(groups, props, eager, {}) && OnlyTouched(groups, log, asked, true)
      modifies this
      ensures Valid() && AgreesBut(groups, props, eager, {}) && OnlyTouched(groups, log, asked, true) && waiting == {}
    {
      for i := 0 to |groups|
        invariant Valid() && AgreesBut(groups, props, eager, {}) && OnlyTouched(groups, log, asked, true)
        invariant forall k :: k in waiting ==> i <= k
      {
        InstallGroup(i, "", {}, eager, asked, true);
      }
    }

    /** A read, from a script or from an install: an accessor installs its group and reads again. */
    method Get(name: Name, ghost busy: set<Name>, ghost eager: Globals, ghost asked: set<Name>, ghost all: bool)
      returns (value: Option<Value>)
      requires Valid() && AgreesBut(groups, props, eager, busy) && Apart(groups, waiting, busy)
      requires OnlyTouched(groups, log, asked, all) && CalledFor(groups, log, asked, name)
      modifies this
      ensures Valid() && AgreesBut(groups, props, eager, busy) && OnlyTouched(groups, log, asked, all)
      ensures !(name in old(props) && old(props)[name].Lazy?) ==>
        props == old(props) && waiting == old(waiting) && log == old(log)
      ensures forall n :: n in busy ==> SameAt(old(props), props, n)
      ensures waiting <= old(waiting) && old(log) <= log
      ensures name !in busy ==> value == Lookup(eager, name)
      decreases waiting, 1
    {
      if name in props && props[name].Lazy? {
        InstallGroup(props[name].index, name, busy, eager, asked, all);
        InstalledIsPlain(groups, props, waiting, old(props[name].index), name);
      }
      assert name !in busy ==> Agrees(groups, props, eager, name);
      if name in props && props[name].Data? {
        return Some(props[name].value);
      }
      return None;
    }
  }

  lemma NamesAreDistinct(groups: seq<Group>, index: nat)
    requires AllSound(groups) && index < |groups|
    ensures
      var names := groups[index].names;
      && (forall i, j :: 0 <= i < j < |names| ==> names[i] != names[j])
      && forall n :: n in names ==> n in groups[index].values
  {
    assert Sound(groups[index]);
  }

  lemma PutBackOne(
    groups: seq<Group>, now: map<Name, Prop>, props: map<Name, Prop>, eager: Globals, names: seq<Name>, i: nat,
                   value: Value, before: Before)
    requires i < |names| && forall a, b :: 0 <= a < b < |names| ==> names[a] != names[b]
    requires forall k :: 0 <= k < i ==> Agrees(groups, now, eager, names[k])
    requires names[i] in now && now[names[i]] == Data(value)
    requires MayPutBack(eager, names[i], value, before)
    requires props == match before
                      case Accessor => now
                      case Absent => now - {names[i]}
                      case Defined(v) => now[names[i] := Data(v)]
    ensures forall k :: 0 <= k < i + 1 ==> Agrees(groups, props, eager, names[k])
  {
    forall k | 0 <= k < i ensures Agrees(groups, props, eager, names[k]) {
      assert Agrees(groups, now, eager, names[k]) && names[k] != names[i];
    }
  }

  lemma DefiningABusyName(
    groups: seq<Group>, props: map<Name, Prop>, eager: Globals, busy: set<Name>, n: Name, value: Value)
    requires AgreesBut(groups, props, eager, busy) && n in busy
    ensures AgreesBut(groups, props[n := Data(value)], eager, busy)
  {
    forall m | m !in busy ensures Agrees(groups, props[n := Data(value)], eager, m) {
      assert Agrees(groups, props, eager, m);
    }
  }

  lemma InstalledIsPlain(groups: seq<Group>, props: map<Name, Prop>, waiting: set<nat>, index: nat, name: Name)
    requires AllSound(groups) && AccessorsWait(groups, props, waiting)
    requires index < |groups| && name in groups[index].names && index !in waiting
    ensures name in props ==> props[name].Data?
  {
  }

  // ---- A script sees no difference ------------------------------------------

  lemma WritingAgrees(
    groups: seq<Group>, props: map<Name, Prop>, waiting: set<nat>, eager: Globals, n: Name, value: Value)
    requires AgreesBut(groups, props, eager, {}) && AccessorsWait(groups, props, waiting)
    ensures AgreesBut(groups, props[n := Data(value)], eager[n := value], {})
    ensures AccessorsWait(groups, props[n := Data(value)], waiting)
    ensures AgreesBut(groups, props - {n}, eager - {n}, {}) && AccessorsWait(groups, props - {n}, waiting)
  {
    forall m
      ensures Agrees(groups, props[n := Data(value)], eager[n := value], m) &&
        Agrees(groups, props - {n}, eager - {n}, m)
    {
      assert Agrees(groups, props, eager, m);
    }
  }

  ghost function Asked(ops: seq<Op>): set<Name> {
    set op | op in ops && (op.Read? || op.Ensure?) :: op.name
  }

  lemma AskedFor(groups: seq<Group>, log: seq<nat>, ops: seq<Op>, name: Name)
    requires Read(name) in ops || Ensure(name) in ops
    ensures name in Asked(ops) && CalledFor(groups, log, Asked(ops), name)
  {
    var op := if Read(name) in ops then Read(name) else Ensure(name);
    assert op in ops && op.name == name;
  }

  lemma NothingTouched(groups: seq<Group>, asked: set<Name>, all: bool)
    ensures OnlyTouched(groups, [], asked, all)
  {
  }

  /**
   * Whatever globals a script reads, assigns and deletes, and whatever its host installs ahead of time, every read
   * answers as in a realm that installed everything at the start. No install runs twice, however reads nest; and none
   * runs of a group nobody touched.
   */
  method RunLazily(base: Globals, groups: seq<Group>, ops: seq<Op>) returns (answers: seq<Option<Value>>, log: seq<nat>)
    requires AllSound(groups)
    ensures answers == EagerAnswers(EagerStart(base, groups), ops)
    ensures forall i, j :: 0 <= i < j < |log| ==> log[i] != log[j]
    ensures OnlyTouched(groups, log, Asked(ops), EnsureAll in ops)
  {
    hide AllSound, AccessorsWait, AgreesBut, OnlyTouched, CalledFor;
    ghost var asked, all := Asked(ops), EnsureAll in ops;
    var realm := new Realm(base, groups);
    NothingTouched(groups, asked, all);
    ghost var eager := EagerStart(base, groups);
    answers := [];
    for i := 0 to |ops|
      invariant fresh(realm) && realm.groups == groups
      invariant realm.Valid() && AgreesBut(groups, realm.props, eager, {})
      invariant OnlyTouched(groups, realm.log, asked, all)
      invariant answers + EagerAnswers(eager, ops[i..]) == EagerAnswers(EagerStart(base, groups), ops)
    {
      assert ops[i..][1..] == ops[i + 1..] && ops[i] in ops;
      match ops[i] {
        case Read(name) =>
          AskedFor(groups, realm.log, ops, name);
          var value := realm.Get(name, {}, eager, asked, all);
          KeepingOne(answers, value, EagerAnswers(eager, ops[i + 1..]));
          answers := answers + [value];
        case Assign(name, value) =>
          WritingAgrees(groups, realm.props, realm.waiting, eager, name, value);
          realm.props := realm.props[name := Data(value)];
        case Delete(name) =>
          WritingAgrees(groups, realm.props, realm.waiting, eager, name, 0);
          realm.props := realm.props - {name};
        case Ensure(name) =>
          AskedFor(groups, realm.log, ops, name);
          realm.Ensure(name, eager, asked, all);
        case EnsureAll => realm.EnsureAll(eager, asked);
      }
      KeepingNone(answers, EagerAnswers(EagerAfter(eager, ops[i]), ops[i + 1..]));
      eager := EagerAfter(eager, ops[i]);
    }
    log := realm.log;
  }
}
