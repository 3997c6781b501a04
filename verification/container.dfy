/** The one container of a realm: a policy that only ever narrows, the host's hook, and the audit. */
module Containers {
  import opened Prelude
  import opened NetRules
  import opened Permissions

  /** What a denial names, already parsed; `Unparsed` is a `net` rule or `sys` name that did not parse. */
  datatype Resource =
    | ReadRoot(root: Located)
    | WriteRoot(root: Located)
    | HostRule(rule: NetRule)
    | VariableName(name: string)
    | FactItem(item: SysInfo)
    | Unparsed

  function WithDenied(policy: Policy, resource: Resource): Policy {
    var deny := policy.deny;
    policy.(deny :=
      match resource
      case ReadRoot(root) => deny.(read := deny.read + [root])
      case WriteRoot(root) => deny.(write := deny.write + [root])
      case HostRule(rule) => deny.(net := deny.net + [rule])
      case VariableName(name) => deny.(env := deny.env + [name])
      case FactItem(item) => deny.(sys := deny.sys + [item])
      case Unparsed => deny)
  }

  function WithoutKind(policy: Policy, kind: Kind): Policy {
    match kind
    case Read => policy.(read := Nothing)
    case Write => policy.(write := Nothing)
    case Net => policy.(net := Nothing)
    case Env => policy.(env := Nothing)
    case Sys => policy.(sys := Nothing)
  }

  class Container {
    var policy: Policy
    var audit: seq<(Request, bool)>
    /** A host's say in what the policy refused; a host with none refuses everything. */
    const hook: Request -> bool

    constructor (policy: Policy, hook: Request -> bool)
      ensures this.policy == policy && this.hook == hook && audit == []
    {
      this.policy := policy;
      this.hook := hook;
      audit := [];
    }

    method Revoke(remaining: Policy)
      modifies this`policy
      ensures policy == Intersect(old(policy), remaining)
      ensures forall r: Request :: (r.Connect? ==> KeptFits(old(policy), remaining)) && Check(policy, r) ==>
                Check(old(policy), r) && Check(remaining, r)
      ensures forall r: Request ::
        KeepsCommon(old(policy), remaining, r) && Check(old(policy), r) && Check(remaining, r) ==> Check(policy, r)
    {
      ghost var was := policy;
      policy := Intersect(policy, remaining);
      forall r: Request | (r.Connect? ==> KeptFits(was, remaining)) && Check(policy, r)
        ensures Check(was, r) && Check(remaining, r)
      {
        IntersectNeverWidens(was, remaining, r);
      }
      forall r: Request | KeepsCommon(was, remaining, r) && Check(was, r) && Check(remaining, r)
        ensures Check(policy, r)
      {
        IntersectKeepsTheCommonGrant(was, remaining, r);
      }
    }

    method Deny(resource: Resource) returns (parsed: bool)
      modifies this`policy
      ensures parsed == !resource.Unparsed?
      ensures policy == WithDenied(old(policy), resource)
      ensures !parsed ==> policy == old(policy)
      ensures forall r: Request :: Check(policy, r) <==> Check(old(policy), r) && !Denies(resource, r)
    {
      forall r: Request
        ensures Check(WithDenied(policy, resource), r) <==> Check(policy, r) && !Denies(resource, r)
      {
        DenyingIsExact(policy, resource, r);
      }
      if resource.Unparsed? {
        return false;
      }
      policy := WithDenied(policy, resource);
      parsed := true;
    }

    /** Give up a whole kind: what remains is the policy in force less that kind. */
    method Drop(kind: Kind)
      modifies this`policy
      ensures forall r: Request :: Check(policy, r) <==> Check(old(policy), r) && r.Kind() != kind
    {
      var remaining := WithoutKind(policy, kind);
      forall r: Request
        ensures Check(Intersect(policy, remaining), r) <==> Check(policy, r) && r.Kind() != kind
      {
        DroppingAKind(policy, kind, r);
      }
      Revoke(remaining);
    }

    method Ask(request: Request) returns (granted: bool)
      modifies this`audit
      ensures granted <==> Check(policy, request) || hook(request)
      ensures audit == old(audit) + [(request, granted)]
    {
      granted := Check(policy, request);
      if !granted {
        granted := hook(request);
      }
      audit := audit + [(request, granted)];
    }
  }

  // ---- One step -----------------------------------------------------------

  lemma IntersectingWithItself<T(!new)>(xs: seq<T>, subsumes: (T, T) -> bool)
    requires forall x :: x in xs ==> subsumes(x, x)
    ensures IntersectLists(xs, xs, subsumes) == xs
  {
    KeepsEverySubsumed(xs, xs, subsumes);
    AddsNothingPresent(xs, xs, xs, subsumes);
  }

  lemma {:induction false} KeepsEverySubsumed<T(!new)>(mine: seq<T>, theirs: seq<T>, subsumes: (T, T) -> bool)
    requires forall x :: x in mine ==> x in theirs && subsumes(x, x)
    ensures Subsumed(mine, theirs, subsumes) == mine
  {
    if mine != [] {
      var n := |mine| - 1;
      KeepsEverySubsumed(mine[..n], theirs, subsumes);
      assert mine[n] in mine && mine[..n] + [mine[n]] == mine;
      var i :| 0 <= i < |theirs| && theirs[i] == mine[n];
      assert subsumes(theirs[i], mine[n]);
    }
  }

  lemma {:induction false} AddsNothingPresent<T(!new)>(
    kept: seq<T>, mine: seq<T>, theirs: seq<T>, subsumes: (T, T) -> bool)
    requires forall x :: x in theirs ==> x in kept
    ensures WithSubsumed(kept, mine, theirs, subsumes) == kept
  {
    if theirs != [] {
      var n := |theirs| - 1;
      assert theirs[n] in theirs;
      AddsNothingPresent(kept, mine, theirs[..n], subsumes);
    }
  }

  lemma IntersectionWithItself(policy: Policy)
    ensures Intersect(policy, policy) == policy
  {
    IntersectingWithItself(Entries(policy.read), Holds);
    IntersectingWithItself(Entries(policy.write), Holds);
    IntersectingWithItself(Entries(policy.net), Subsumes);
    IntersectingWithItself(Entries(policy.env), Same);
    IntersectingWithItself(Entries(policy.sys), Same);
  }

  /** Dropping a kind refuses all of it and leaves every other decision as it was. */
  lemma DroppingAKind(policy: Policy, kind: Kind, request: Request)
    ensures Check(Intersect(policy, WithoutKind(policy, kind)), request) <==>
            Check(policy, request) && request.Kind() != kind
  {
    IntersectionWithItself(policy);
    hide IntersectLists, Union, Holds, Covers, AnyCovers, CanonicalHost;
  }

  predicate Denies(resource: Resource, request: Request) {
    match (resource, request)
    case (ReadRoot(root), ReadOf(path)) => Holds(root, path)
    case (WriteRoot(root), WriteOf(path)) => Holds(root, path)
    case (HostRule(rule), Connect(host, port)) => Covers(rule, CanonicalHost(host), port)
    case (VariableName(denied), Variable(name)) => denied == name
    case (FactItem(denied), Fact(item)) => denied == item
    case _ => false
  }

  /** A denial takes away exactly the requests it names. */
  lemma DenyingIsExact(policy: Policy, resource: Resource, request: Request)
    ensures Check(WithDenied(policy, resource), request) <==> Check(policy, request) && !Denies(resource, request)
  {
    match (resource, request)
    case (ReadRoot(root), ReadOf(path)) => DeniedLast(policy.deny.read, root, Holds, path);
    case (WriteRoot(root), WriteOf(path)) => DeniedLast(policy.deny.write, root, Holds, path);
    case (HostRule(rule), Connect(host, port)) =>
      DeniedLast(policy.deny.net, rule, CoversEndpoint, (CanonicalHost(host), port));
    case (VariableName(denied), Variable(name)) => DeniedLast(policy.deny.env, denied, Same, name);
    case (FactItem(denied), Fact(item)) => DeniedLast(policy.deny.sys, denied, Same, item);
    case _ =>
  }

  lemma DeniedLast<T, X>(deny: seq<T>, last: T, covers: (T, X) -> bool, x: X)
    ensures AnyCovers(deny + [last], covers, x) <==> AnyCovers(deny, covers, x) || covers(last, x)
  {
    var all := deny + [last];
    assert all[|deny|] == last;
    forall i | 0 <= i < |deny| && covers(deny[i], x) ensures AnyCovers(all, covers, x) {
      assert all[i] == deny[i];
    }
  }

  // ---- A whole life -------------------------------------------------------

  datatype Op = Revoking(remaining: Policy) | Denying(resource: Resource) | Dropping(kind: Kind)

  function Apply(policy: Policy, op: Op): Policy {
    match op
    case Revoking(remaining) => Intersect(policy, remaining)
    case Denying(resource) => WithDenied(policy, resource)
    case Dropping(kind) => Intersect(policy, WithoutKind(policy, kind))
  }

  function Live(policy: Policy, ops: seq<Op>): Policy
    decreases |ops|
  {
    if ops == [] then policy else Live(Apply(policy, ops[0]), ops[1..])
  }

  /** Every revocation along the way keeps only rules that fit both sides. */
  predicate NeverWidens(policy: Policy, ops: seq<Op>)
    decreases |ops|
  {
    ops != [] ==>
      (ops[0].Revoking? ==> KeptFits(policy, ops[0].remaining)) &&
      NeverWidens(Apply(policy, ops[0]), ops[1..])
  }

  lemma StepOnlyNarrows(policy: Policy, op: Op, request: Request)
    requires op.Revoking? && request.Connect? ==> KeptFits(policy, op.remaining)
    requires Check(Apply(policy, op), request)
    ensures Check(policy, request)
  {
    match op
    case Revoking(remaining) => IntersectNeverWidens(policy, remaining, request);
    case Denying(resource) => DenyingIsExact(policy, resource, request);
    case Dropping(kind) => DroppingAKind(policy, kind, request);
  }

  /** Over its whole life a container only narrows. */
  lemma {:induction false} LifeOnlyNarrows(policy: Policy, ops: seq<Op>, request: Request)
    requires NeverWidens(policy, ops)
    requires Check(Live(policy, ops), request)
    ensures Check(policy, request)
    decreases |ops|
  {
    if ops != [] {
      LifeOnlyNarrows(Apply(policy, ops[0]), ops[1..], request);
      StepOnlyNarrows(policy, ops[0], request);
    }
  }

  /** Every wildcard of a grant has a suffix that is not a wildcard. */
  predicate Plain(allow: Allow<NetRule>) {
    forall r :: r in Entries(allow) ==> !("*.*." <= r.host)
  }

  lemma PlainNeverWidens(a: Allow<NetRule>, b: Allow<NetRule>)
    requires Plain(a) && Plain(b)
    ensures !Widens(a, b) && Plain(IntersectWith(a, b, Subsumes))
  {
    forall s, t | s in Entries(a) + Entries(b) && t in Entries(a) + Entries(b) ensures !Doubled(s, t) {
      assert "*.*." <= "*." + t.host || !("*." <= t.host);
    }
  }

  lemma PlainStep(policy: Policy, op: Op)
    requires Plain(policy.net) && (op.Revoking? ==> Plain(op.remaining.net))
    ensures NeverWidens(policy, [op]) && Plain(Apply(policy, op).net)
  {
    if op.Revoking? {
      PlainNeverWidens(policy.net, op.remaining.net);
      NarrowGrantsFit(policy, op.remaining);
    } else if op.Dropping? {
      PlainNeverWidens(policy.net, WithoutKind(policy, op.kind).net);
    }
  }

  /** A host that never writes a wildcard of a wildcard needs no check at all. */
  lemma {:induction false} PlainLifeOnlyNarrows(policy: Policy, ops: seq<Op>, request: Request)
    requires Plain(policy.net)
    requires forall op :: op in ops && op.Revoking? ==> Plain(op.remaining.net)
    requires Check(Live(policy, ops), request)
    ensures Check(policy, request)
    decreases |ops|
  {
    hide Check, Plain, IntersectWith;
    if ops != [] {
      var op := ops[0];
      PlainStep(policy, op);
      PlainLifeOnlyNarrows(Apply(policy, op), ops[1..], request);
      StepOnlyNarrows(policy, op, request);
    }
  }

  const NOBODY := Policy(Nothing, Nothing, Nothing, Nothing, Nothing, Deny([], [], [], [], []))

  /** Revoking down to `*.x` hands out `x`, which `*.*.x` never granted. */
  lemma ADoubledWildcardWidensARevocation()
    ensures
      var policy := NOBODY.(net := Only([NetRule("*.*.x", None)]));
      var remaining := NOBODY.(net := Only([NetRule("*.x", None)]));
      var request := Connect("x", Some(443));
      !Check(policy, request) && Check(Intersect(policy, remaining), request)
  {
    var wide, narrow := NetRule("*.*.x", None), NetRule("*.x", None);
    assert narrow.host[2..] == "x" && wide.host == "*." + narrow.host;
    DoubledMissesTheBareHost(wide, narrow);
    assert Lower("x") == "x";
    assert CanonicalHost("x") == "x";
    KeptWhenSubsumed(wide, narrow, ("x", Some(443)));
  }

  lemma KeptWhenSubsumed(a: NetRule, b: NetRule, to: Endpoint)
    requires Subsumes(a, b) && CoversEndpoint(b, to)
    ensures Admits(IntersectWith(Only([a]), Only([b]), Subsumes), CoversEndpoint, to)
  {
    var kept := IntersectLists([a], [b], Subsumes);
    assert [a][0] == a && b in kept;
    var k :| 0 <= k < |kept| && kept[k] == b;
  }

  /** A kind reported as granted in full refuses no request of it. */
  lemma HavingAKindGrantsAllOfIt(policy: Policy, request: Request)
    requires HasKind(policy, request.Kind())
    ensures Check(policy, request)
  {
  }

  /** The other way is not promised. What grants all of a kind without being reported as the kind: */
  predicate GrantsAll(policy: Policy, kind: Kind) {
    match kind
    case Read => policy.deny.read == [] && (policy.read.All? || HoldsTheTop(Entries(policy.read)))
    case Write => policy.deny.write == [] && (policy.write.All? || HoldsTheTop(Entries(policy.write)))
    case Net => policy.net.All? && forall d :: d in policy.deny.net ==> CanonicalHost(d.host) != d.host
    case Env => HasKind(policy, Env)
    case Sys => policy.deny.sys == [] && (policy.sys.All? || forall item: SysInfo :: item in Entries(policy.sys))
  }

  predicate HoldsTheTop(roots: seq<Located>) {
    Located([], []) in roots
  }

  ghost predicate NothingRefused(policy: Policy, kind: Kind) {
    forall r: Request :: r.Kind() == kind ==> Check(policy, r)
  }

  lemma PathsAllPassIff(allow: Allow<Located>, deny: seq<Located>)
    ensures (forall path: Located :: Passes(allow, deny, Holds, path)) <==>
            deny == [] && (allow.All? || HoldsTheTop(Entries(allow)))
  {
    if forall path: Located :: Passes(allow, deny, Holds, path) {
      if deny != [] {
        assert Holds(deny[0], deny[0]);
        assert !Passes(allow, deny, Holds, deny[0]);
      } else {
        assert Passes(allow, deny, Holds, Located([], []));
      }
    }
    if allow.Only? && HoldsTheTop(allow.entries) {
      var k :| 0 <= k < |allow.entries| && allow.entries[k] == Located([], []);
      assert forall path: Located :: Holds(allow.entries[k], path);
    }
  }

  lemma FactsAllPassIff(allow: Allow<SysInfo>, deny: seq<SysInfo>)
    ensures (forall item: SysInfo :: Passes(allow, deny, Same, item)) <==>
            deny == [] && (allow.All? || forall item: SysInfo :: item in Entries(allow))
  {
    if forall item: SysInfo :: Passes(allow, deny, Same, item) {
      if deny != [] {
        assert Same(deny[0], deny[0]);
        assert !Passes(allow, deny, Same, deny[0]);
      } else if allow.Only? {
        forall item: SysInfo ensures item in allow.entries {
          assert Passes(allow, deny, Same, item);
        }
      }
    }
    assert allow.Nothing? ==> !Passes(allow, deny, Same, Hostname) && Hostname !in Entries(allow);
    if deny == [] && allow.Only? && forall item: SysInfo :: item in allow.entries {
      forall item: SysInfo ensures Passes(allow, deny, Same, item) {
        assert item in allow.entries;
        var k :| 0 <= k < |allow.entries| && allow.entries[k] == item;
      }
    }
  }

  function Longest(names: seq<string>): (n: nat)
    ensures forall name :: name in names ==> |name| <= n
  {
    if names == [] then 0 else if |names[0]| > Longest(names[1..]) then |names[0]| else Longest(names[1..])
  }

  lemma NamesAllPassIff(allow: Allow<string>, deny: seq<string>)
    ensures (forall name: string :: Passes(allow, deny, Same, name)) <==> allow.All? && deny == []
  {
    if forall name: string :: Passes(allow, deny, Same, name) {
      if deny != [] {
        assert Same(deny[0], deny[0]);
        assert !Passes(allow, deny, Same, deny[0]);
      } else if allow.Only? {
        var another := LongLabel(Longest(allow.entries) + 1);
        forall k | 0 <= k < |allow.entries| ensures !Same(allow.entries[k], another) {
          assert allow.entries[k] in allow.entries;
        }
        assert !Passes(allow, deny, Same, another);
      }
    }
    assert allow.Nothing? ==> !Passes(allow, deny, Same, "");
  }

  /** What a host is written like once it is canonical. */
  predicate Canonical(host: string) {
    && (forall i :: 0 <= i < |host| ==> !('A' <= host[i] <= 'Z'))
    && (host != [] ==> host[0] != '[' && host[|host| - 1] != ']')
  }

  lemma {:induction false} StartTrims(host: string)
    ensures
      var t := TrimStart(host, '[');
      && |t| <= |host| && t == host[|host| - |t|..] && (t != [] ==> t[0] != '[')
      && (host == [] || host[0] != '[' ==> t == host)
  {
    if host != [] && host[0] == '[' {
      StartTrims(host[1..]);
    }
  }

  lemma {:induction false} EndTrims(host: string)
    ensures
      var t := TrimEnd(host, ']');
      && t <= host && (t != [] ==> t[|t| - 1] != ']')
      && (host == [] || host[|host| - 1] != ']' ==> t == host)
  {
    if host != [] && host[|host| - 1] == ']' {
      EndTrims(host[..|host| - 1]);
    }
  }

  lemma LowerIsLower(host: string)
    ensures forall i :: 0 <= i < |Lower(host)| ==> !('A' <= Lower(host)[i] <= 'Z')
    ensures Canonical(host) ==> Lower(host) == host
  {
  }

  lemma CanonicalHostsAre(host: string)
    ensures Canonical(CanonicalHost(host))
  {
    var lower := Lower(host);
    LowerIsLower(host);
    hide Lower, TrimStart, TrimEnd, Canonical;
    var open := TrimStart(lower, '[');
    var bare := TrimEnd(open, ']');
    StartTrims(lower);
    EndTrims(open);
    assert Canonical(bare) by {
      TrimmedIsCanonical(lower, open, bare);
    }
  }

  lemma TrimmedIsCanonical(lower: string, open: string, bare: string)
    requires forall i :: 0 <= i < |lower| ==> !('A' <= lower[i] <= 'Z')
    requires |open| <= |lower| && open == lower[|lower| - |open|..] && (open != [] ==> open[0] != '[')
    requires bare <= open && (bare != [] ==> bare[|bare| - 1] != ']')
    ensures Canonical(bare)
  {
  }

  lemma CanonicalIs(host: string)
    ensures Canonical(CanonicalHost(host)) && (Canonical(host) <==> CanonicalHost(host) == host)
  {
    CanonicalHostsAre(host);
    LowerIsLower(host);
    hide Lower, TrimStart, TrimEnd;
    if Canonical(host) {
      StartTrims(host);
      EndTrims(host);
    }
  }

  /** A rule that covers a canonical host is written canonically itself. */
  lemma CoveringRulesAreCanonical(rule: string, host: string)
    requires Canonical(host) && CoversHost(rule, host)
    ensures Canonical(rule)
  {
    if rule != host {
      var suffix := rule[2..];
      assert rule == "*." + suffix;
      if host != suffix {
        UnderIffDotted(host, suffix);
        assert suffix == (host[|host| - |suffix| - 1..])[1..];
      }
      assert forall i :: 0 <= i < |suffix| ==> suffix[i] in host;
      assert suffix != [] ==> suffix[|suffix| - 1] == host[|host| - 1];
    }
  }

  /** No rule of a list covers a label longer than all of them. */
  lemma LongLabelIsUncovered(rule: string, n: nat)
    requires |rule| < n
    ensures !CoversHost(rule, LongLabel(n)) && CanonicalHost(LongLabel(n)) == LongLabel(n)
  {
    var long := LongLabel(n);
    CanonicalIs(long);
    if "*." <= rule {
      UnderIffDotted(long, rule[2..]);
      assert long[n - |rule| + 1] == 'a';
    }
  }

  lemma HostsAllPassIff(policy: Policy)
    ensures NothingRefused(policy, Net) <==> GrantsAll(policy, Net)
  {
    var deny := policy.deny.net;
    if NothingRefused(policy, Net) {
      forall d | d in deny ensures CanonicalHost(d.host) != d.host {
        var k :| 0 <= k < |deny| && deny[k] == d;
        assert Check(policy, Connect(d.host, d.port));
        assert CoversEndpoint(deny[k], (d.host, d.port));
      }
      SomeHostIsRefused(policy);
    }
    if GrantsAll(policy, Net) {
      forall host: string, port: Option<Port> ensures Check(policy, Connect(host, port)) {
        var to: Endpoint := (CanonicalHost(host), port);
        CanonicalIs(host);
        forall k | 0 <= k < |deny| ensures !CoversEndpoint(deny[k], to) {
          assert deny[k] in deny;
          CanonicalIs(deny[k].host);
          if CoversHost(deny[k].host, to.0) {
            CoveringRulesAreCanonical(deny[k].host, to.0);
          }
        }
      }
    }
  }

  lemma SomeHostIsRefused(policy: Policy)
    requires NothingRefused(policy, Net)
    ensures policy.net.All?
  {
    if !policy.net.All? {
      var rules := Entries(policy.net);
      var long := LongLabel(LongestHost(rules) + 1);
      CanonicalIs(long);
      assert Check(policy, Connect(long, None));
      var k :| 0 <= k < |rules| && CoversEndpoint(rules[k], (long, None));
      assert rules[k] in rules;
      LongLabelIsUncovered(rules[k].host, |long|);
    }
  }

  /**
   * Every request of a kind passes, without the kind being reported as granted, exactly where a root at the top, every
   * fact by name, or denials no canonical host can meet make up for it; for names there is no such case.
   */
  lemma EveryRequestPassesIff(policy: Policy, kind: Kind)
    ensures NothingRefused(policy, kind) <==> GrantsAll(policy, kind)
    ensures HasKind(policy, kind) ==> GrantsAll(policy, kind)
  {
    match kind
    case Read =>
      PathsAllPassIff(policy.read, policy.deny.read);
      assert forall path: Located :: Check(policy, ReadOf(path)) <==>
        Passes(policy.read, policy.deny.read, Holds, path);
    case Write =>
      PathsAllPassIff(policy.write, policy.deny.write);
      assert forall path: Located :: Check(policy, WriteOf(path)) <==>
        Passes(policy.write, policy.deny.write, Holds, path);
    case Net => HostsAllPassIff(policy);
    case Env =>
      NamesAllPassIff(policy.env, policy.deny.env);
      assert forall name: string :: Check(policy, Variable(name)) <==> Passes(policy.env, policy.deny.env, Same, name);
    case Sys =>
      FactsAllPassIff(policy.sys, policy.deny.sys);
      assert forall item: SysInfo :: Check(policy, Fact(item)) <==> Passes(policy.sys, policy.deny.sys, Same, item);
  }

  /** A grant that lists every fact is one. */
  lemma AllFactsListedIsNotHavingTheKind(policy: Policy)
    requires policy.sys == Only([Hostname, OsRelease, OsUptime, LoadAvg, NetworkInterfaces, SystemMemory,
                                 Uid, Gid, Username, Cpus, HomeDir, Priority])
    requires policy.deny.sys == []
    ensures !HasKind(policy, Sys) && forall item: SysInfo :: Check(policy, Fact(item))
  {
    forall item: SysInfo ensures Check(policy, Fact(item)) {
      var all := policy.sys.entries;
      var at := match item
        case Hostname => 0 case OsRelease => 1 case OsUptime => 2 case LoadAvg => 3
        case NetworkInterfaces => 4 case SystemMemory => 5 case Uid => 6 case Gid => 7
        case Username => 8 case Cpus => 9 case HomeDir => 10 case Priority => 11;
      assert all[at] == item && Same(all[at], item);
    }
  }
}
