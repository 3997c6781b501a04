/** What a policy decides, in terms of what it was told to grant and to deny. */
module Decisions {
  import opened Prelude
  import opened NetRules
  import opened Permissions
  import opened Containers

  // ---- The host a request is decided on ---------------------------------------

  function Brackets(bracket: char, n: nat): string {
    seq(n, _ => bracket)
  }

  predicate Bare(host: string) {
    host != [] ==> host[0] != '[' && host[|host| - 1] != ']'
  }

  /** The text itself, in small letters. */
  predicate IsInSmall(host: string, small: string) {
    |small| == |host| && forall i :: 0 <= i < |host| ==> InSmall(host[i], small[i])
  }

  lemma {:induction false} TrimsItsBrackets(c: char, n: nat, host: string)
    requires host != [] ==> host[0] != c
    ensures TrimStart(Brackets(c, n) + host, c) == host
  {
    if n == 0 {
      assert Brackets(c, 0) + host == host;
    } else {
      TrimsItsBrackets(c, n - 1, host);
      assert (Brackets(c, n) + host)[1..] == Brackets(c, n - 1) + host;
    }
  }

  lemma {:induction false} TrimsItsEndBrackets(c: char, n: nat, host: string)
    requires host != [] ==> host[|host| - 1] != c
    ensures TrimEnd(host + Brackets(c, n), c) == host
  {
    if n == 0 {
      assert host + Brackets(c, 0) == host;
    } else {
      var whole := host + Brackets(c, n);
      TrimsItsEndBrackets(c, n - 1, host);
      assert whole[..|whole| - 1] == host + Brackets(c, n - 1);
    }
  }

  lemma LowerOfJoined(a: string, b: string)
    ensures Lower(a + b) == Lower(a) + Lower(b)
  {
  }

  lemma LowerOfBrackets(c: char, n: nat)
    requires c == '[' || c == ']'
    ensures Lower(Brackets(c, n)) == Brackets(c, n)
  {
  }

  lemma BareInSmall(host: string)
    requires Bare(host)
    ensures Bare(Lower(host))
  {
  }

  /** However many brackets are around it, a host is decided on as it is written between them, in small letters. */
  lemma HostsAreDecidedBare(host: string, opens: nat, closes: nat)
    requires Bare(host)
    ensures IsInSmall(host, CanonicalHost(Brackets('[', opens) + host + Brackets(']', closes)))
  {
    var before, after := Brackets('[', opens), Brackets(']', closes);
    var small := Lower(host);
    LowersLetterByLetter(host);
    BareInSmall(host);
    LowerOfJoined(before + host, after);
    LowerOfJoined(before, host);
    LowerOfBrackets('[', opens);
    LowerOfBrackets(']', closes);
    hide Lower, InSmall, TrimStart, TrimEnd;
    assert before + small + after == before + (small + after);
    if small != [] || after == [] {
      TrimsItsBrackets('[', opens, small + after);
    } else {
      assert small + after == after && after[0] == ']';
      TrimsItsBrackets('[', opens, after);
    }
    TrimsItsEndBrackets(']', closes, small);
  }

  /** Every host is such a one. */
  lemma {:induction false} EveryHostHasItsBrackets(host: string) returns (bare: string, opens: nat, closes: nat)
    ensures Bare(bare) && host == Brackets('[', opens) + bare + Brackets(']', closes)
    decreases |host|
  {
    if host != [] && host[0] == '[' {
      bare, opens, closes := EveryHostHasItsBrackets(host[1..]);
      opens := opens + 1;
      assert Brackets('[', opens) == ['['] + Brackets('[', opens - 1);
    } else if host != [] && host[|host| - 1] == ']' {
      bare, opens, closes := EveryHostHasItsBrackets(host[..|host| - 1]);
      closes := closes + 1;
      assert Brackets(']', closes) == Brackets(']', closes - 1) + [']'];
    } else {
      bare, opens, closes := host, 0, 0;
    }
  }

  // ---- What is granted --------------------------------------------------------

  predicate LiesUnder(path: Located, root: Located) {
    && |root.lexical| <= |path.lexical| && path.lexical[..|root.lexical|] == root.lexical
    && |root.resolved| <= |path.resolved| && path.resolved[..|root.resolved|] == root.resolved
  }

  /** The host itself, or with a wildcard the rest of it and everything dotted onto that. */
  ghost predicate MatchesHost(rule: string, host: string) {
    || rule == host
    || exists rest: string :: rule == "*." + rest && (host == rest || exists part: string :: host == part + "." + rest)
  }

  ghost predicate MatchesRule(rule: NetRule, host: string, port: Option<Port>) {
    MatchesHost(rule.host, host) && (rule.port == None || rule.port == port)
  }

  /** Something granted meets the request, and nothing denied does. */
  ghost predicate Granted<T(!new)>(allow: Allow<T>, deny: seq<T>, meets: T -> bool) {
    && (allow.All? || (allow.Only? && exists e :: e in allow.entries && meets(e)))
    && forall d :: d in deny ==> !meets(d)
  }

  ghost predicate IsGranted(policy: Policy, request: Request) {
    match request
    case ReadOf(path) => Granted(policy.read, policy.deny.read, root => LiesUnder(path, root))
    case WriteOf(path) => Granted(policy.write, policy.deny.write, root => LiesUnder(path, root))
    case Connect(host, port) =>
      Granted(policy.net, policy.deny.net, (rule: NetRule) => MatchesRule(rule, CanonicalHost(host), port))
    case Variable(name) => Granted(policy.env, policy.deny.env, (granted: string) => granted == name)
    case Fact(item) => Granted(policy.sys, policy.deny.sys, (granted: SysInfo) => granted == item)
  }

  lemma AnyIsSome<T(!new), X>(rules: seq<T>, covers: (T, X) -> bool, x: X, meets: T -> bool)
    requires forall e :: covers(e, x) == meets(e)
    ensures AnyCovers(rules, covers, x) <==> exists e :: e in rules && meets(e)
  {
    if AnyCovers(rules, covers, x) {
      var i :| 0 <= i < |rules| && covers(rules[i], x);
      assert rules[i] in rules && meets(rules[i]);
    }
    if e :| e in rules && meets(e) {
      var i :| 0 <= i < |rules| && rules[i] == e;
      assert covers(rules[i], x);
    }
  }

  lemma PassesWhatIsGranted<T(!new), X>(
    allow: Allow<T>, deny: seq<T>, covers: (T, X) -> bool, x: X, meets: T -> bool)
    requires forall e :: covers(e, x) == meets(e)
    ensures Passes(allow, deny, covers, x) <==> Granted(allow, deny, meets)
  {
    AnyIsSome(deny, covers, x, meets);
    if allow.Only? {
      AnyIsSome(allow.entries, covers, x, meets);
    }
  }

  lemma CoversWhatItMatches(rule: string, host: string)
    ensures CoversHost(rule, host) <==> MatchesHost(rule, host)
  {
    if "*." <= rule {
      var rest := rule[2..];
      assert rule == "*." + rest;
      UnderIffDotted(host, rest);
      if Under(host, rest) {
        assert host == host[..|host| - |rest| - 1] + "." + rest;
      }
    }
    if other: string :| rule == "*." + other && (host == other || exists part: string :: host == part + "." + other) {
      assert rule[2..] == other;
      if part: string :| host == part + "." + other {
        assert host[|part|..] == "." + other;
      }
    }
  }

  /** A request is granted exactly when something granted meets it and nothing denied does, kind by kind. */
  lemma ChecksWhatIsGranted(policy: Policy, request: Request)
    ensures Check(policy, request) <==> IsGranted(policy, request)
  {
    match request
    case ReadOf(path) =>
      PassesWhatIsGranted(policy.read, policy.deny.read, Holds, path, root => LiesUnder(path, root));
    case WriteOf(path) =>
      PassesWhatIsGranted(policy.write, policy.deny.write, Holds, path, root => LiesUnder(path, root));
    case Connect(host, port) =>
      var to: Endpoint := (CanonicalHost(host), port);
      var meets := (rule: NetRule) => MatchesRule(rule, CanonicalHost(host), port);
      forall rule: NetRule ensures CoversEndpoint(rule, to) == meets(rule) {
        CoversWhatItMatches(rule.host, to.0);
      }
      PassesWhatIsGranted(policy.net, policy.deny.net, CoversEndpoint, to, meets);
    case Variable(name) =>
      PassesWhatIsGranted(policy.env, policy.deny.env, Same, name, (granted: string) => granted == name);
    case Fact(item) =>
      PassesWhatIsGranted(policy.sys, policy.deny.sys, Same, item, (granted: SysInfo) => granted == item);
  }

  /** A denial names the paths under its root, the hosts and ports its rule matches, its variable or its fact. */
  lemma DeniesWhatItNames(resource: Resource, request: Request)
    ensures Denies(resource, request) <==>
      || (resource.ReadRoot? && request.ReadOf? && LiesUnder(request.path, resource.root))
      || (resource.WriteRoot? && request.WriteOf? && LiesUnder(request.path, resource.root))
      || (resource.HostRule? && request.Connect? &&
          MatchesRule(resource.rule, CanonicalHost(request.host), request.port))
      || (resource.VariableName? && request.Variable? && resource.name == request.name)
      || (resource.FactItem? && request.Fact? && resource.item == request.item)
  {
    if resource.HostRule? && request.Connect? {
      CoversWhatItMatches(resource.rule.host, CanonicalHost(request.host));
    }
  }

  lemma LoopbackIsDecidedBare()
    ensures CanonicalHost("[::1]") == "::1"
  {
    HostsAreDecidedBare("::1", 1, 1);
    assert Brackets('[', 1) + "::1" + Brackets(']', 1) == "[::1]";
    hide CanonicalHost;
    SmallAlready("::1", CanonicalHost("[::1]"));
  }

  lemma SmallAlready(host: string, small: string)
    requires IsInSmall(host, small) && forall c :: c in host ==> !('A' <= c <= 'Z')
    ensures small == host
  {
    forall i | 0 <= i < |host| ensures small[i] == host[i] {
      assert host[i] in host;
    }
  }

  /** With the IPv6 loopback denied, a request for it in brackets is refused. */
  lemma BracketsHideNothing(policy: Policy, port: Option<Port>)
    requires NetRule("::1", None) in policy.deny.net
    ensures !Check(policy, Connect("[::1]", port))
  {
    LoopbackIsDecidedBare();
    ChecksWhatIsGranted(policy, Connect("[::1]", port));
    hide CanonicalHost, Check;
    assert MatchesRule(NetRule("::1", None), "::1", port);
  }

  // ---- A kind as a whole ------------------------------------------------------

  /** A kind is reported as granted exactly when it is so in full, and no request of it is refused. */
  lemma HasKindIff(policy: Policy)
    ensures HasKind(policy, Read) <==> NothingRefused(policy, Read) && policy.read == All
    ensures HasKind(policy, Write) <==> NothingRefused(policy, Write) && policy.write == All
    ensures HasKind(policy, Net) <==> NothingRefused(policy, Net) && policy.net == All && policy.deny.net == []
    ensures HasKind(policy, Env) <==> NothingRefused(policy, Env)
    ensures HasKind(policy, Sys) <==> NothingRefused(policy, Sys) && policy.sys == All
  {
    hide NothingRefused;
    EveryRequestPassesIff(policy, Read);
    EveryRequestPassesIff(policy, Write);
    EveryRequestPassesIff(policy, Net);
    EveryRequestPassesIff(policy, Env);
    EveryRequestPassesIff(policy, Sys);
  }
}
