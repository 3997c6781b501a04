/** The policy of one realm: what it grants, how two policies intersect, and how a container narrows. */
module Permissions {
  import opened Prelude
  import opened NetRules

  datatype Kind = Read | Write | Net | Env | Sys

  datatype SysInfo =
    | Hostname | OsRelease | OsUptime | LoadAvg | NetworkInterfaces | SystemMemory
    | Uid | Gid | Username | Cpus | HomeDir | Priority

  /** A path in both spellings, as components: as written, and as the filesystem resolves it. */
  datatype Located = Located(lexical: seq<string>, resolved: seq<string>)

  datatype Allow<T> = Nothing | All | Only(entries: seq<T>)

  datatype Deny = Deny(read: seq<Located>, write: seq<Located>, net: seq<NetRule>, env: seq<string>, sys: seq<SysInfo>)

  datatype Policy = Policy(
    read: Allow<Located>, write: Allow<Located>, net: Allow<NetRule>, env: Allow<string>, sys: Allow<SysInfo>,
    deny: Deny)

  /** A request, its path already resolved or its host as the caller spelled it. */
  datatype Request =
    | ReadOf(path: Located)
    | WriteOf(path: Located)
    | Connect(host: string, port: Option<Port>)
    | Variable(name: string)
    | Fact(item: SysInfo)
  {
    function Kind(): Kind {
      match this
      case ReadOf(_) => Read
      case WriteOf(_) => Write
      case Connect(_, _) => Net
      case Variable(_) => Env
      case Fact(_) => Sys
    }
  }

  // ---- Deciding a request -------------------------------------------------

  /** A rule covers a path, and subsumes a rule, only when both spellings lie under it. */
  predicate Holds(root: Located, path: Located) {
    root.lexical <= path.lexical && root.resolved <= path.resolved
  }

  predicate Same<T(==)>(a: T, b: T) {
    a == b
  }

  function TrimStart(s: string, c: char): string {
    if s != [] && s[0] == c then TrimStart(s[1..], c) else s
  }

  function TrimEnd(s: string, c: char): string {
    if s != [] && s[|s| - 1] == c then TrimEnd(s[..|s| - 1], c) else s
  }

  /** The host as rules see it: lower case, without the brackets of an IPv6 literal. */
  function CanonicalHost(host: string): string {
    TrimEnd(TrimStart(Lower(host), '['), ']')
  }

  predicate AnyCovers<T, X>(rules: seq<T>, covers: (T, X) -> bool, x: X) {
    exists i :: 0 <= i < |rules| && covers(rules[i], x)
  }

  predicate Admits<T, X>(allow: Allow<T>, covers: (T, X) -> bool, x: X) {
    match allow
    case Nothing => false
    case All => true
    case Only(entries) => AnyCovers(entries, covers, x)
  }

  predicate Passes<T, X>(allow: Allow<T>, deny: seq<T>, covers: (T, X) -> bool, x: X) {
    !AnyCovers(deny, covers, x) && Admits(allow, covers, x)
  }

  type Endpoint = (string, Option<Port>)

  predicate CoversEndpoint(rule: NetRule, to: Endpoint) {
    Covers(rule, to.0, to.1)
  }

  predicate Check(policy: Policy, request: Request) {
    match request
    case ReadOf(path) => Passes(policy.read, policy.deny.read, Holds, path)
    case WriteOf(path) => Passes(policy.write, policy.deny.write, Holds, path)
    case Connect(host, port) => Passes(policy.net, policy.deny.net, CoversEndpoint, (CanonicalHost(host), port))
    case Variable(name) => Passes(policy.env, policy.deny.env, Same, name)
    case Fact(item) => Passes(policy.sys, policy.deny.sys, Same, item)
  }

  /** The answer to a question about a kind as a whole. */
  predicate HasKind(policy: Policy, kind: Kind) {
    match kind
    case Read => policy.read.All? && policy.deny.read == []
    case Write => policy.write.All? && policy.deny.write == []
    case Net => policy.net.All? && policy.deny.net == []
    case Env => policy.env.All? && policy.deny.env == []
    case Sys => policy.sys.All? && policy.deny.sys == []
  }

  // ---- Intersecting two policies ------------------------------------------

  predicate SomeSubsumes<T>(rules: seq<T>, subsumes: (T, T) -> bool, e: T) {
    exists i :: 0 <= i < |rules| && subsumes(rules[i], e)
  }

  function Subsumed<T(!new)>(mine: seq<T>, theirs: seq<T>, subsumes: (T, T) -> bool): (kept: seq<T>)
    ensures forall e :: e in kept <==> e in mine && SomeSubsumes(theirs, subsumes, e)
  {
    if mine == [] then []
    else
      var n := |mine| - 1;
      var rest := Subsumed(mine[..n], theirs, subsumes);
      assert forall e :: e in mine <==> e in mine[..n] || e == mine[n];
      if SomeSubsumes(theirs, subsumes, mine[n]) then rest + [mine[n]] else rest
  }

  function WithSubsumed<T(==,!new)>(kept: seq<T>, mine: seq<T>, theirs: seq<T>, subsumes: (T, T) -> bool): (all: seq<T>)
    ensures forall e :: e in all <==> e in kept || (e in theirs && SomeSubsumes(mine, subsumes, e))
  {
    if theirs == [] then kept
    else
      var n := |theirs| - 1;
      var rest := WithSubsumed(kept, mine, theirs[..n], subsumes);
      assert forall e :: e in theirs <==> e in theirs[..n] || e == theirs[n];
      if SomeSubsumes(mine, subsumes, theirs[n]) && theirs[n] !in rest then rest + [theirs[n]] else rest
  }

  function IntersectLists<T(==,!new)>(mine: seq<T>, theirs: seq<T>, subsumes: (T, T) -> bool): seq<T> {
    WithSubsumed(Subsumed(mine, theirs, subsumes), mine, theirs, subsumes)
  }

  method IntersectInto<T(==,!new)>(mine: seq<T>, theirs: seq<T>, subsumes: (T, T) -> bool) returns (kept: seq<T>)
    ensures kept == IntersectLists(mine, theirs, subsumes)
    ensures forall e :: e in kept <==>
      (e in mine && SomeSubsumes(theirs, subsumes, e)) || (e in theirs && SomeSubsumes(mine, subsumes, e))
  {
    kept := [];
    for i := 0 to |mine|
      invariant kept == Subsumed(mine[..i], theirs, subsumes)
    {
      assert mine[..i + 1][..i] == mine[..i];
      if SomeSubsumes(theirs, subsumes, mine[i]) {
        kept := kept + [mine[i]];
      }
    }
    assert mine[..|mine|] == mine;
    ghost var own := kept;
    for i := 0 to |theirs|
      invariant kept == WithSubsumed(own, mine, theirs[..i], subsumes)
    {
      assert theirs[..i + 1][..i] == theirs[..i];
      if SomeSubsumes(mine, subsumes, theirs[i]) && theirs[i] !in kept {
        kept := kept + [theirs[i]];
      }
    }
    assert theirs[..|theirs|] == theirs;
  }

  function IntersectWith<T(==,!new)>(a: Allow<T>, b: Allow<T>, subsumes: (T, T) -> bool): Allow<T> {
    match (a, b)
    case (Nothing, _) => Nothing
    case (_, Nothing) => Nothing
    case (All, _) => b
    case (_, All) => a
    case (Only(mine), Only(theirs)) => Only(IntersectLists(mine, theirs, subsumes))
  }

  function Union<T(==,!new)>(a: seq<T>, b: seq<T>): (all: seq<T>)
    ensures forall e :: e in all <==> e in a || e in b
    ensures (forall e :: e in b ==> e in a) ==> all == a
  {
    if b == [] then a
    else
      var n := |b| - 1;
      assert forall e :: e in b <==> e in b[..n] || e == b[n];
      var rest := Union(a, b[..n]);
      if b[n] in rest then rest else rest + [b[n]]
  }

  method UnionInto<T(==,!new)>(a: seq<T>, b: seq<T>) returns (all: seq<T>)
    ensures all == Union(a, b)
  {
    all := a;
    for i := 0 to |b|
      invariant all == Union(a, b[..i])
    {
      assert b[..i + 1][..i] == b[..i];
      if b[i] !in all {
        all := all + [b[i]];
      }
    }
    assert b[..|b|] == b;
  }

  function Merge(a: Deny, b: Deny): Deny {
    Deny(Union(a.read, b.read), Union(a.write, b.write), Union(a.net, b.net), Union(a.env, b.env), Union(a.sys, b.sys))
  }

  function Intersect(a: Policy, b: Policy): Policy {
    Policy(
      IntersectWith(a.read, b.read, Holds),
      IntersectWith(a.write, b.write, Holds),
      IntersectWith(a.net, b.net, Subsumes),
      IntersectWith(a.env, b.env, Same),
      IntersectWith(a.sys, b.sys, Same),
      Merge(a.deny, b.deny))
  }

  // ---- When an intersection is no wider than either side ------------------

  /** A side keeps an entry of the other that only its doubled wildcards subsume. */
  predicate AdmitsDoubled(rules: seq<NetRule>, e: NetRule) {
    SomeSubsumes(rules, Subsumes, e) && forall i :: 0 <= i < |rules| && Subsumes(rules[i], e) ==> Doubled(rules[i], e)
  }

  predicate Widens(a: Allow<NetRule>, b: Allow<NetRule>) {
    a.Only? && b.Only? &&
    ((exists i :: 0 <= i < |b.entries| && AdmitsDoubled(a.entries, b.entries[i])) ||
     (exists i :: 0 <= i < |a.entries| && AdmitsDoubled(b.entries, a.entries[i])))
  }

  ghost predicate NoWider(narrow: Allow<NetRule>, wide: Allow<NetRule>) {
    forall to: Endpoint :: Admits(narrow, CoversEndpoint, to) ==> Admits(wide, CoversEndpoint, to)
  }

  /** A subsumed entry adds nothing, unless every rule subsuming it is its doubled wildcard. */
  lemma SubsumedEntryIsIncluded(rules: seq<NetRule>, e: NetRule)
    requires SomeSubsumes(rules, Subsumes, e)
    ensures ListIncludes(rules, e) <==> !AdmitsDoubled(rules, e)
  {
    NoJointCover(rules, e);
    forall i | 0 <= i < |rules|
      ensures Includes(rules[i], e) <==> Subsumes(rules[i], e) && !Doubled(rules[i], e)
    {
      InclusionIsDecidable(rules[i], e);
    }
  }

  lemma KeptIsCoveredByBoth(mine: seq<NetRule>, theirs: seq<NetRule>, to: Endpoint)
    requires !Widens(Only(mine), Only(theirs))
    requires AnyCovers(IntersectLists(mine, theirs, Subsumes), CoversEndpoint, to)
    ensures AnyCovers(mine, CoversEndpoint, to) && AnyCovers(theirs, CoversEndpoint, to)
  {
    var kept := IntersectLists(mine, theirs, Subsumes);
    var k :| 0 <= k < |kept| && CoversEndpoint(kept[k], to);
    var e := kept[k];
    assert e in kept;
    if e in mine && SomeSubsumes(theirs, Subsumes, e) {
      SubsumedEntryIsIncluded(theirs, e);
      assert ListCovers(theirs, to.0, to.1);
    } else {
      SubsumedEntryIsIncluded(mine, e);
      assert ListCovers(mine, to.0, to.1);
    }
  }

  lemma DoubledEntryEscapes(rules: seq<NetRule>, kept: seq<NetRule>, e: NetRule)
    requires e in kept && AdmitsDoubled(rules, e)
    ensures !NoWider(Only(kept), Only(rules))
  {
    SubsumedEntryIsIncluded(rules, e);
    var host: string, port: Option<Port> :| Covers(e, host, port) && !ListCovers(rules, host, port);
    var to: Endpoint := (host, port);
    var k :| 0 <= k < |kept| && kept[k] == e;
    assert CoversEndpoint(kept[k], to);
    assert Admits(Only(kept), CoversEndpoint, to);
    assert !Admits(Only(rules), CoversEndpoint, to);
  }

  /** Intersecting two `net` grants is no wider than both sides on exactly the pairs the syntactic check passes. */
  lemma NetIntersectionNarrows(a: Allow<NetRule>, b: Allow<NetRule>)
    ensures NoWider(IntersectWith(a, b, Subsumes), a) && NoWider(IntersectWith(a, b, Subsumes), b) <==> !Widens(a, b)
  {
    if a.Only? && b.Only? {
      var mine, theirs := a.entries, b.entries;
      var kept := IntersectLists(mine, theirs, Subsumes);
      if Widens(a, b) {
        if i :| 0 <= i < |theirs| && AdmitsDoubled(mine, theirs[i]) {
          DoubledEntryEscapes(mine, kept, theirs[i]);
        } else {
          var j :| 0 <= j < |mine| && AdmitsDoubled(theirs, mine[j]);
          DoubledEntryEscapes(theirs, kept, mine[j]);
        }
      } else {
        forall to: Endpoint | Admits(Only(kept), CoversEndpoint, to)
          ensures Admits(a, CoversEndpoint, to) && Admits(b, CoversEndpoint, to)
        {
          KeptIsCoveredByBoth(mine, theirs, to);
        }
      }
    }
  }

  /** Some one rule of the list covers all the rule does. */
  predicate IncludedByOne(rules: seq<NetRule>, rule: NetRule) {
    exists i :: 0 <= i < |rules| && Subsumes(rules[i], rule) && !Doubled(rules[i], rule)
  }

  lemma IncludedByOneIff(rules: seq<NetRule>, rule: NetRule)
    ensures IncludedByOne(rules, rule) <==> ListIncludes(rules, rule)
  {
    NoJointCover(rules, rule);
    forall i | 0 <= i < |rules| ensures Includes(rules[i], rule) <==>
      Subsumes(rules[i], rule) && !Doubled(rules[i], rule) {
      InclusionIsDecidable(rules[i], rule);
    }
  }

  /** The entry lets nothing through that the grant does not, but what the denials refuse. */
  predicate AtMost(e: NetRule, allow: Allow<NetRule>, deny: seq<NetRule>) {
    allow.All? || IncludedByOne(Entries(allow) + deny, e)
  }

  /** So does every rule the intersection keeps, for both sides and under the denials of both. */
  predicate KeptFits(a: Policy, b: Policy) {
    var deny := Union(a.deny.net, b.deny.net);
    forall e :: e in Entries(IntersectWith(a.net, b.net, Subsumes)) ==> AtMost(e, a.net, deny) && AtMost(e, b.net, deny)
  }

  predicate PassesNet(policy: Policy, to: Endpoint) {
    Passes(policy.net, policy.deny.net, CoversEndpoint, to)
  }

  ghost predicate NoneNewPasses(a: Policy, b: Policy) {
    forall to: Endpoint :: PassesNet(Intersect(a, b), to) ==> PassesNet(a, to) && PassesNet(b, to)
  }

  lemma AtMostLetsThrough(e: NetRule, allow: Allow<NetRule>, deny: seq<NetRule>, to: Endpoint)
    requires AtMost(e, allow, deny) && CoversEndpoint(e, to) && !AnyCovers(deny, CoversEndpoint, to) && !allow.Nothing?
    ensures Admits(allow, CoversEndpoint, to)
  {
    if allow.Only? {
      var rules := allow.entries + deny;
      IncludedByOneIff(rules, e);
      assert ListCovers(rules, to.0, to.1);
      var r :| r in rules && Covers(r, to.0, to.1);
      var k :| 0 <= k < |rules| && rules[k] == r;
      forall j | |allow.entries| <= j < |rules| ensures !CoversEndpoint(rules[j], to) {
        assert rules[j] == deny[j - |allow.entries|];
      }
      assert CoversEndpoint(allow.entries[k], to);
    }
  }

  lemma LettingNothingThroughIsAtMost(e: NetRule, allow: Allow<NetRule>, deny: seq<NetRule>)
    requires forall to: Endpoint :: CoversEndpoint(e, to) && !AnyCovers(deny, CoversEndpoint, to) ==>
               Admits(allow, CoversEndpoint, to)
    ensures AtMost(e, allow, deny)
  {
    if !allow.All? {
      var rules := Entries(allow) + deny;
      forall host: string, port: Option<Port> | Covers(e, host, port) ensures ListCovers(rules, host, port) {
        var to: Endpoint := (host, port);
        assert CoversEndpoint(e, to);
        if k :| 0 <= k < |deny| && CoversEndpoint(deny[k], to) {
          assert rules[|Entries(allow)| + k] == deny[k];
        } else if allow.Only? {
          assert !AnyCovers(deny, CoversEndpoint, to);
          var k :| 0 <= k < |allow.entries| && CoversEndpoint(allow.entries[k], to);
          assert rules[k] == allow.entries[k];
        }
      }
      IncludedByOneIff(rules, e);
    }
  }

  /**
   * With denials counted: no connection passes the intersection that a side refuses exactly when every kept rule fits.
   */
  lemma NetPolicyNarrowsIff(a: Policy, b: Policy)
    ensures NoneNewPasses(a, b) <==> KeptFits(a, b)
  {
    var kept, deny := IntersectWith(a.net, b.net, Subsumes), Union(a.deny.net, b.deny.net);
    forall to: Endpoint
      ensures AnyCovers(deny, CoversEndpoint, to) <==>
              AnyCovers(a.deny.net, CoversEndpoint, to) || AnyCovers(b.deny.net, CoversEndpoint, to)
    {
      DenialsAccumulate(a.deny.net, b.deny.net, CoversEndpoint, to);
    }
    if KeptFits(a, b) {
      forall to: Endpoint | PassesNet(Intersect(a, b), to) ensures PassesNet(a, to) && PassesNet(b, to) {
        FittingPasses(a, b, to);
      }
    }
    if NoneNewPasses(a, b) {
      forall e | e in Entries(kept) ensures AtMost(e, a.net, deny) && AtMost(e, b.net, deny) {
        PassingFits(a, b, e);
      }
    }
  }

  lemma FittingPasses(a: Policy, b: Policy, to: Endpoint)
    requires KeptFits(a, b) && PassesNet(Intersect(a, b), to)
    ensures PassesNet(a, to) && PassesNet(b, to)
  {
    var kept, deny := IntersectWith(a.net, b.net, Subsumes), Union(a.deny.net, b.deny.net);
    DenialsAccumulate(a.deny.net, b.deny.net, CoversEndpoint, to);
    if kept.Only? {
      var k :| 0 <= k < |kept.entries| && CoversEndpoint(kept.entries[k], to);
      assert kept.entries[k] in Entries(kept);
      AtMostLetsThrough(kept.entries[k], a.net, deny, to);
      AtMostLetsThrough(kept.entries[k], b.net, deny, to);
    }
  }

  lemma PassingFits(a: Policy, b: Policy, e: NetRule)
    requires NoneNewPasses(a, b) && e in Entries(IntersectWith(a.net, b.net, Subsumes))
    ensures
      var deny := Union(a.deny.net, b.deny.net);
      AtMost(e, a.net, deny) && AtMost(e, b.net, deny)
  {
    var kept, deny := IntersectWith(a.net, b.net, Subsumes), Union(a.deny.net, b.deny.net);
    var k :| 0 <= k < |kept.entries| && kept.entries[k] == e;
    forall to: Endpoint | CoversEndpoint(e, to) && !AnyCovers(deny, CoversEndpoint, to)
      ensures Admits(a.net, CoversEndpoint, to) && Admits(b.net, CoversEndpoint, to)
    {
      assert CoversEndpoint(kept.entries[k], to);
      assert PassesNet(Intersect(a, b), to);
      assert PassesNet(a, to) && PassesNet(b, to);
    }
    LettingNothingThroughIsAtMost(e, a.net, deny);
    LettingNothingThroughIsAtMost(e, b.net, deny);
  }

  /** Grants that are narrow by themselves fit under any denials. */
  lemma NarrowGrantsFit(a: Policy, b: Policy)
    requires !Widens(a.net, b.net)
    ensures KeptFits(a, b)
  {
    NetIntersectionNarrows(a.net, b.net);
    forall to: Endpoint | PassesNet(Intersect(a, b), to) ensures PassesNet(a, to) && PassesNet(b, to) {
      DenialsAccumulate(a.deny.net, b.deny.net, CoversEndpoint, to);
    }
    NetPolicyNarrowsIff(a, b);
  }

  /** A list whose every kept entry is included on the other side admits no more than either side. */
  lemma ListIntersectionNarrows<T(!new), X>(
    a: Allow<T>, b: Allow<T>, subsumes: (T, T) -> bool, covers: (T, X) -> bool, x: X)
    requires forall s, t: T :: subsumes(s, t) && covers(t, x) ==> covers(s, x)
    requires Admits(IntersectWith(a, b, subsumes), covers, x)
    ensures Admits(a, covers, x) && Admits(b, covers, x)
  {
    if a.Only? && b.Only? {
      var kept := IntersectLists(a.entries, b.entries, subsumes);
      var k :| 0 <= k < |kept| && covers(kept[k], x);
      assert kept[k] in kept;
    }
  }

  /** Nothing both sides admit is lost when the rules admitting it are nested. */
  lemma NestedIntersectionKeeps<T(!new), X>(
    a: Allow<T>, b: Allow<T>, subsumes: (T, T) -> bool, covers: (T, X) -> bool, x: X)
    requires forall s, t: T :: covers(s, x) && covers(t, x) && s in Entries(a) && t in Entries(b)
                               ==> subsumes(s, t) || subsumes(t, s)
    requires Admits(a, covers, x) && Admits(b, covers, x)
    ensures Admits(IntersectWith(a, b, subsumes), covers, x)
  {
    if a.Only? && b.Only? {
      var kept := IntersectLists(a.entries, b.entries, subsumes);
      var i :| 0 <= i < |a.entries| && covers(a.entries[i], x);
      var j :| 0 <= j < |b.entries| && covers(b.entries[j], x);
      var e := if subsumes(a.entries[i], b.entries[j]) then b.entries[j] else a.entries[i];
      assert e in kept;
      var k :| 0 <= k < |kept| && kept[k] == e;
    }
  }

  function Entries<T>(allow: Allow<T>): seq<T> {
    if allow.Only? then allow.entries else []
  }

  /** One rule names a port on every host of another that names none: neither subsumes the other. */
  predicate PortsCross(a: NetRule, b: NetRule) {
    (a.port.Some? && b.port.None? && SubsumesHost(a.host, b.host) && !SubsumesHost(b.host, a.host)) ||
    (b.port.Some? && a.port.None? && SubsumesHost(b.host, a.host) && !SubsumesHost(a.host, b.host))
  }

  /** What the two rules both cover: the hosts of the narrow one, at the port of the wide one. */
  function Meeting(a: NetRule, b: NetRule): NetRule {
    if a.port.Some? then NetRule(b.host, a.port) else NetRule(a.host, b.port)
  }

  lemma CrossFreeRulesAreNested(a: NetRule, b: NetRule, to: Endpoint)
    requires CoversEndpoint(a, to) && CoversEndpoint(b, to) && !PortsCross(a, b)
    ensures Subsumes(a, b) || Subsumes(b, a)
  {
    RulesOnOneHostAreNested(a.host, b.host, to.0);
  }

  lemma CrossingRulesMeet(a: NetRule, b: NetRule, to: Endpoint)
    requires PortsCross(a, b)
    ensures CoversEndpoint(a, to) && CoversEndpoint(b, to) <==> CoversEndpoint(Meeting(a, b), to)
  {
    hide SubsumesHost, CoversHost;
    var wide, narrow := if a.port.Some? then a else b, if a.port.Some? then b else a;
    if "*." <= narrow.host && wide.host == "*." + narrow.host {
      TheDoubledIsSubsumed(narrow.host);
    } else if CoversHost(narrow.host, to.0) {
      SubsumedHostsAreCovered(wide.host, narrow.host, to.0);
    }
  }

  lemma TheDoubledIsSubsumed(wildcard: string)
    requires "*." <= wildcard
    ensures SubsumesHost(wildcard, "*." + wildcard)
  {
    var doubled, suffix := "*." + wildcard, wildcard[2..];
    assert doubled[4..] == suffix && doubled[3..] == "." + suffix;
    UnderIffDotted(doubled, suffix);
  }

  /** An entry one of the two lists brings and the other subsumes keeps what it covers. */
  lemma NestedPairIsKept<T(!new), X>(
    mine: seq<T>, theirs: seq<T>, s: T, t: T, subsumes: (T, T) -> bool, covers: (T, X) -> bool, x: X)
    requires s in mine && t in theirs && covers(s, x) && covers(t, x) && (subsumes(s, t) || subsumes(t, s))
    ensures AnyCovers(IntersectLists(mine, theirs, subsumes), covers, x)
  {
    var kept := IntersectLists(mine, theirs, subsumes);
    var i :| 0 <= i < |mine| && mine[i] == s;
    var j :| 0 <= j < |theirs| && theirs[j] == t;
    var e := if subsumes(s, t) then t else s;
    assert e in kept;
    var k :| 0 <= k < |kept| && kept[k] == e;
  }

  /** The meeting of every two rules that cross, one from each side, is kept by some rule. */
  predicate MeetingsKept(a: Allow<NetRule>, b: Allow<NetRule>) {
    forall s, t :: s in Entries(a) && t in Entries(b) && PortsCross(s, t) ==>
      IncludedByOne(Entries(IntersectWith(a, b, Subsumes)), Meeting(s, t))
  }

  ghost predicate NoEndpointLost(a: Allow<NetRule>, b: Allow<NetRule>) {
    forall to: Endpoint :: Admits(a, CoversEndpoint, to) && Admits(b, CoversEndpoint, to) ==>
      Admits(IntersectWith(a, b, Subsumes), CoversEndpoint, to)
  }

  lemma KeptMeetingKeepsTheEndpoint(mine: seq<NetRule>, theirs: seq<NetRule>, s: NetRule, t: NetRule, to: Endpoint)
    requires s in mine && t in theirs && CoversEndpoint(s, to) && CoversEndpoint(t, to)
    requires MeetingsKept(Only(mine), Only(theirs))
    ensures AnyCovers(IntersectLists(mine, theirs, Subsumes), CoversEndpoint, to)
  {
    var kept := IntersectLists(mine, theirs, Subsumes);
    if PortsCross(s, t) {
      assert IncludedByOne(kept, Meeting(s, t));
      IncludedByOneIff(kept, Meeting(s, t));
      CrossingRulesMeet(s, t, to);
      assert ListCovers(kept, to.0, to.1);
      var r :| r in kept && Covers(r, to.0, to.1);
      var k :| 0 <= k < |kept| && kept[k] == r;
      assert CoversEndpoint(kept[k], to);
    } else {
      CrossFreeRulesAreNested(s, t, to);
      NestedPairIsKept(mine, theirs, s, t, Subsumes, CoversEndpoint, to);
    }
  }

  lemma KeepingAllKeepsTheMeeting(mine: seq<NetRule>, theirs: seq<NetRule>, s: NetRule, t: NetRule)
    requires s in mine && t in theirs && PortsCross(s, t) && NoEndpointLost(Only(mine), Only(theirs))
    ensures IncludedByOne(IntersectLists(mine, theirs, Subsumes), Meeting(s, t))
  {
    hide Covers, Subsumes, SubsumesHost, IntersectLists, PortsCross, Meeting;
    var kept, m := IntersectLists(mine, theirs, Subsumes), Meeting(s, t);
    forall host: string, port: Option<Port> | Covers(m, host, port) ensures ListCovers(kept, host, port) {
      var to: Endpoint := (host, port);
      CrossingRulesMeet(s, t, to);
      var i :| 0 <= i < |mine| && mine[i] == s;
      var j :| 0 <= j < |theirs| && theirs[j] == t;
      assert Admits(Only(mine), CoversEndpoint, to) && Admits(Only(theirs), CoversEndpoint, to);
      var k :| 0 <= k < |kept| && CoversEndpoint(kept[k], to);
      assert kept[k] in kept;
    }
    IncludedByOneIff(kept, m);
  }

  /**
   * No endpoint both grants admit is lost exactly when, for every two rules of theirs that cross by port, one rule that
   * is kept covers all the two have in common.
   */
  lemma NetIntersectionKeepsIff(a: Allow<NetRule>, b: Allow<NetRule>)
    ensures NoEndpointLost(a, b) <==> MeetingsKept(a, b)
  {
    if a.Only? && b.Only? {
      if MeetingsKept(a, b) {
        forall to: Endpoint | Admits(a, CoversEndpoint, to) && Admits(b, CoversEndpoint, to)
          ensures Admits(IntersectWith(a, b, Subsumes), CoversEndpoint, to)
        {
          var i :| 0 <= i < |a.entries| && CoversEndpoint(a.entries[i], to);
          var j :| 0 <= j < |b.entries| && CoversEndpoint(b.entries[j], to);
          KeptMeetingKeepsTheEndpoint(a.entries, b.entries, a.entries[i], b.entries[j], to);
        }
      }
      if NoEndpointLost(a, b) {
        forall s, t | s in Entries(a) && t in Entries(b) && PortsCross(s, t)
          ensures IncludedByOne(Entries(IntersectWith(a, b, Subsumes)), Meeting(s, t))
        {
          KeepingAllKeepsTheMeeting(a.entries, b.entries, s, t);
        }
      }
    }
  }

  lemma NeitherSubsumesKeepsNothing<T(!new)>(a: T, b: T, subsumes: (T, T) -> bool)
    requires !subsumes(a, b) && !subsumes(b, a)
    ensures IntersectLists([a], [b], subsumes) == []
  {
    assert !SomeSubsumes([a], subsumes, b) && !SomeSubsumes([b], subsumes, a);
    assert [a][..0] == [] && [b][..0] == [];
    assert Subsumed([a], [b], subsumes) == Subsumed([], [b], subsumes) == [];
    assert WithSubsumed([], [a], [b], subsumes) == WithSubsumed([], [a], [], subsumes) == [];
  }

  /** Between two single rules that is: exactly when they do not cross. */
  lemma CrossingLosesAnEndpoint(a: NetRule, b: NetRule)
    ensures NoEndpointLost(Only([a]), Only([b])) <==> !PortsCross(a, b)
  {
    NetIntersectionKeepsIff(Only([a]), Only([b]));
    if PortsCross(a, b) {
      NeitherSubsumesKeepsNothing(a, b, Subsumes);
      assert a in [a] && b in [b];
    }
  }

  /** One side grants a port on every subdomain, the other one subdomain on any port: that port there is lost. */
  lemma TheSharedPortIsLost()
    ensures !NoEndpointLost(Only([NetRule("*.x", Some(443))]), Only([NetRule("a.x", None)]))
  {
    var wide, narrow := NetRule("*.x", Some(443)), NetRule("a.x", None);
    assert wide.host[2..] == "x" && narrow.host[2..] == "x" && narrow.host[..2] == "a." && "a."[1..] == ".";
    assert Under("a.x", "x");
    assert narrow.host[0] == 'a' && !("*." <= narrow.host);
    CrossingLosesAnEndpoint(wide, narrow);
  }

  /** Of two roots one lies above the other as written, and below it as the filesystem resolves it. */
  predicate LinksCross(a: Located, b: Located) {
    (a.lexical < b.lexical && b.resolved < a.resolved) || (b.lexical < a.lexical && a.resolved < b.resolved)
  }

  /** What lies under both: under the longer path as written and the longer as resolved. */
  function MeetingRoot(a: Located, b: Located): Located {
    if a.lexical < b.lexical then Located(b.lexical, a.resolved) else Located(a.lexical, b.resolved)
  }

  lemma PrefixesNest(a: seq<string>, b: seq<string>, path: seq<string>)
    requires a <= path && b <= path
    ensures a == b || a < b || b < a
  {
    if |a| <= |b| {
      assert b[..|a|] == path[..|a|] == a;
    } else {
      assert a[..|b|] == path[..|b|] == b;
    }
  }

  lemma CrossFreeRootsAreNested(a: Located, b: Located, path: Located)
    requires Holds(a, path) && Holds(b, path) && !LinksCross(a, b)
    ensures Holds(a, b) || Holds(b, a)
  {
    PrefixesNest(a.lexical, b.lexical, path.lexical);
    PrefixesNest(a.resolved, b.resolved, path.resolved);
  }

  predicate KeepsRoot(kept: seq<Located>, m: Located) {
    exists i :: 0 <= i < |kept| && Holds(kept[i], m)
  }

  /** The meeting of every two roots that cross, one from each side, lies under some kept root. */
  predicate RootsKept(a: Allow<Located>, b: Allow<Located>) {
    forall s, t :: s in Entries(a) && t in Entries(b) && LinksCross(s, t) ==>
      KeepsRoot(Entries(IntersectWith(a, b, Holds)), MeetingRoot(s, t))
  }

  ghost predicate NoPathLost(a: Allow<Located>, b: Allow<Located>) {
    forall path: Located :: Admits(a, Holds, path) && Admits(b, Holds, path) ==>
      Admits(IntersectWith(a, b, Holds), Holds, path)
  }

  lemma KeptRootKeepsThePath(mine: seq<Located>, theirs: seq<Located>, s: Located, t: Located, path: Located)
    requires s in mine && t in theirs && Holds(s, path) && Holds(t, path) && RootsKept(Only(mine), Only(theirs))
    ensures AnyCovers(IntersectLists(mine, theirs, Holds), Holds, path)
  {
    var kept := IntersectLists(mine, theirs, Holds);
    if LinksCross(s, t) {
      assert KeepsRoot(kept, MeetingRoot(s, t));
      var k :| 0 <= k < |kept| && Holds(kept[k], MeetingRoot(s, t));
      assert Holds(kept[k], path);
    } else {
      CrossFreeRootsAreNested(s, t, path);
      NestedPairIsKept(mine, theirs, s, t, Holds, Holds, path);
    }
  }

  /**
   * No path under both grants is lost exactly when, for every two roots of theirs whose links cross, some kept root
   * holds all that lies under the two.
   */
  lemma PathIntersectionKeepsIff(a: Allow<Located>, b: Allow<Located>)
    ensures NoPathLost(a, b) <==> RootsKept(a, b)
  {
    if a.Only? && b.Only? {
      if RootsKept(a, b) {
        forall path: Located | Admits(a, Holds, path) && Admits(b, Holds, path)
          ensures Admits(IntersectWith(a, b, Holds), Holds, path)
        {
          var i :| 0 <= i < |a.entries| && Holds(a.entries[i], path);
          var j :| 0 <= j < |b.entries| && Holds(b.entries[j], path);
          KeptRootKeepsThePath(a.entries, b.entries, a.entries[i], b.entries[j], path);
        }
      }
      if NoPathLost(a, b) {
        forall s, t | s in Entries(a) && t in Entries(b) && LinksCross(s, t)
          ensures KeepsRoot(Entries(IntersectWith(a, b, Holds)), MeetingRoot(s, t))
        {
          var i :| 0 <= i < |a.entries| && a.entries[i] == s;
          var j :| 0 <= j < |b.entries| && b.entries[j] == t;
          var path := MeetingRoot(s, t);
          assert Admits(a, Holds, path) && Admits(b, Holds, path);
        }
      }
    }
  }

  /** Between two single roots that is: exactly when their links do not cross. */
  lemma CrossingLinksLoseAPath(a: Located, b: Located)
    ensures NoPathLost(Only([a]), Only([b])) <==> !LinksCross(a, b)
  {
    PathIntersectionKeepsIff(Only([a]), Only([b]));
    if LinksCross(a, b) {
      NeitherSubsumesKeepsNothing(a, b, Holds);
      assert a in [a] && b in [b];
    }
  }

  /** `/a/b` is a link to `/` itself: what lies under both `/a` and `/a/b` is lost. */
  lemma TheLinkedPathIsLost()
    ensures !NoPathLost(Only([Located(["a"], ["a"])]), Only([Located(["a", "b"], [])]))
  {
    CrossingLinksLoseAPath(Located(["a"], ["a"]), Located(["a", "b"], []));
  }

  /** An intersected policy grants nothing either side refuses, of any kind. */
  lemma IntersectNeverWidens(a: Policy, b: Policy, request: Request)
    requires request.Connect? ==> KeptFits(a, b)
    requires Check(Intersect(a, b), request)
    ensures Check(a, request) && Check(b, request)
  {
    match request
    case ReadOf(path) =>
      ListIntersectionNarrows(a.read, b.read, Holds, Holds, path);
      DenialsAccumulate(a.deny.read, b.deny.read, Holds, path);
    case WriteOf(path) =>
      ListIntersectionNarrows(a.write, b.write, Holds, Holds, path);
      DenialsAccumulate(a.deny.write, b.deny.write, Holds, path);
    case Connect(host, port) =>
      FittingPasses(a, b, (CanonicalHost(host), port));
    case Variable(name) =>
      ListIntersectionNarrows(a.env, b.env, Same, Same, name);
      DenialsAccumulate(a.deny.env, b.deny.env, Same, name);
    case Fact(item) =>
      ListIntersectionNarrows(a.sys, b.sys, Same, Same, item);
      DenialsAccumulate(a.deny.sys, b.deny.sys, Same, item);
  }

  /** The grants of a request's kind lose nothing between them. */
  predicate KeepsCommon(a: Policy, b: Policy, request: Request) {
    match request
    case ReadOf(_) => RootsKept(a.read, b.read)
    case WriteOf(_) => RootsKept(a.write, b.write)
    case Connect(_, _) => MeetingsKept(a.net, b.net)
    case Variable(_) => true
    case Fact(_) => true
  }

  /** A request both sides grant survives, unless its kind's rules cross and nothing kept makes up for it. */
  lemma IntersectKeepsTheCommonGrant(a: Policy, b: Policy, request: Request)
    requires KeepsCommon(a, b, request)
    requires Check(a, request) && Check(b, request)
    ensures Check(Intersect(a, b), request)
  {
    match request
    case ReadOf(path) =>
      PathIntersectionKeepsIff(a.read, b.read);
      DenialsAccumulate(a.deny.read, b.deny.read, Holds, path);
    case WriteOf(path) =>
      PathIntersectionKeepsIff(a.write, b.write);
      DenialsAccumulate(a.deny.write, b.deny.write, Holds, path);
    case Connect(host, port) =>
      var to: Endpoint := (CanonicalHost(host), port);
      NetIntersectionKeepsIff(a.net, b.net);
      DenialsAccumulate(a.deny.net, b.deny.net, CoversEndpoint, to);
    case Variable(name) =>
      NestedIntersectionKeeps(a.env, b.env, Same, Same, name);
      DenialsAccumulate(a.deny.env, b.deny.env, Same, name);
    case Fact(item) =>
      NestedIntersectionKeeps(a.sys, b.sys, Same, Same, item);
      DenialsAccumulate(a.deny.sys, b.deny.sys, Same, item);
  }

  lemma DenialsAccumulate<T(!new), X>(a: seq<T>, b: seq<T>, covers: (T, X) -> bool, x: X)
    ensures AnyCovers(Union(a, b), covers, x) <==> AnyCovers(a, covers, x) || AnyCovers(b, covers, x)
  {
    var all := Union(a, b);
    forall i | 0 <= i < |all| && covers(all[i], x) ensures AnyCovers(a, covers, x) || AnyCovers(b, covers, x) {
      assert all[i] in all;
    }
    forall i | 0 <= i < |a| && covers(a[i], x) ensures AnyCovers(all, covers, x) {
      assert a[i] in all;
    }
    forall i | 0 <= i < |b| && covers(b[i], x) ensures AnyCovers(all, covers, x) {
      assert b[i] in all;
    }
  }
}
