/** Host rules of a `net` grant, and when one rule grants all another does. */
module NetRules {
  import opened Prelude

  type Port = p: nat | p < 0x1_0000

  /** No port means any port. */
  datatype NetRule = NetRule(host: string, port: Option<Port>)

  function StripPrefix(s: string, prefix: string): Option<string> {
    if prefix <= s then Some(s[|prefix|..]) else None
  }

  function StripSuffix(s: string, suffix: string): Option<string> {
    if |suffix| <= |s| && s[|s| - |suffix|..] == suffix then Some(s[..|s| - |suffix|]) else None
  }

  /** `host` is a proper subdomain of `suffix`: the text before the suffix ends with a dot. */
  predicate Under(host: string, suffix: string) {
    var prefix := StripSuffix(host, suffix);
    prefix.Some? && StripSuffix(prefix.value, ".").Some?
  }

  predicate CoversHost(rule: string, host: string) {
    rule == host ||
    match StripPrefix(rule, "*.")
    case Some(suffix) => host == suffix || Under(host, suffix)
    case None => false
  }

  predicate CoversPort(rule: Option<Port>, port: Option<Port>) {
    rule.None? || port == rule
  }

  predicate Covers(rule: NetRule, host: string, port: Option<Port>) {
    CoversHost(rule.host, host) && CoversPort(rule.port, port)
  }

  predicate SubsumesHost(a: string, b: string) {
    a == b ||
    match StripPrefix(a, "*.")
    case Some(suffix) =>
      b == suffix || Under(b, suffix) ||
      (match StripPrefix(b, "*.")
       case Some(other) => other == suffix || Under(other, suffix)
       case None => false)
    case None => false
  }

  /** The syntactic test that decides which entries of two lists survive an intersection. */
  predicate Subsumes(a: NetRule, b: NetRule) {
    SubsumesHost(a.host, b.host) && (a.port.None? || a.port == b.port)
  }

  /** What the test stands for: every host and port `b` covers, `a` covers too. */
  ghost predicate Includes(a: NetRule, b: NetRule) {
    forall host: string, port: Option<Port> :: Covers(b, host, port) ==> Covers(a, host, port)
  }

  /** `a` is the wildcard of the wildcard `b`, as `*.*.x` is of `*.x`. */
  predicate Doubled(a: NetRule, b: NetRule) {
    "*." <= b.host && a.host == "*." + b.host && (a.port.None? || a.port == b.port)
  }

  lemma UnderIffDotted(host: string, suffix: string)
    ensures Under(host, suffix) <==> |suffix| < |host| && host[|host| - |suffix| - 1..] == "." + suffix
  {
    if |suffix| < |host| {
      var at := |host| - |suffix| - 1;
      assert host[at..] == [host[at]] + host[at + 1..];
      assert host[..at + 1][at..] == [host[at]];
    }
  }

  lemma UnderTransitive(host: string, middle: string, suffix: string)
    requires Under(host, middle) && Under(middle, suffix)
    ensures Under(host, suffix)
  {
    UnderIffDotted(host, middle);
    UnderIffDotted(middle, suffix);
    UnderIffDotted(host, suffix);
    var at := |host| - |middle|;
    assert host[at..] == middle;
    assert host[|host| - |suffix| - 1..] == middle[|middle| - |suffix| - 1..];
  }

  /** Of two suffixes of one host, each cut at a dot, the longer lies under the shorter. */
  lemma UnderNested(host: string, longer: string, shorter: string)
    requires Under(host, longer) && Under(host, shorter)
    requires |shorter| <= |longer|
    ensures longer == shorter || Under(longer, shorter)
  {
    UnderIffDotted(host, longer);
    UnderIffDotted(host, shorter);
    UnderIffDotted(longer, shorter);
    assert host[|host| - |longer|..] == longer;
    assert host[|host| - |shorter|..] == shorter;
    if |shorter| < |longer| {
      assert host[|host| - |shorter| - 1..] == longer[|longer| - |shorter| - 1..];
    }
  }

  /** A rule covers its own text, so covering another rule's text is half of subsuming it. */
  lemma CoveringTheTextSubsumes(a: string, b: string)
    requires CoversHost(a, b)
    ensures SubsumesHost(a, b)
  {
  }

  lemma WildcardIsUnder(wildcard: string, suffix: string)
    requires "*." <= wildcard && (wildcard[2..] == suffix || Under(wildcard[2..], suffix))
    ensures Under(wildcard, suffix)
  {
    hide Under;
    var other := wildcard[2..];
    UnderIffDotted(wildcard, suffix);
    if other == suffix {
      assert wildcard[1..] == [wildcard[1]] + suffix;
    } else {
      UnderIffDotted(other, suffix);
      var at := |wildcard| - |suffix| - 1;
      assert wildcard[at..] == other[at - 2..];
    }
  }

  lemma SubsumedHostsAreCovered(a: string, b: string, host: string)
    requires SubsumesHost(a, b) && CoversHost(b, host)
    requires !("*." <= b && a == "*." + b)
    ensures CoversHost(a, host)
  {
    hide Under;
    if a != b {
      var suffix := a[2..];
      assert a == "*." + suffix;
      if host == b {
        if "*." <= b && (b[2..] == suffix || Under(b[2..], suffix)) {
          WildcardIsUnder(b, suffix);
        }
      } else {
        var other := b[2..];
        if Under(b, suffix) {
          WildcardUnder(b, suffix);
        }
        if Under(host, other) && Under(other, suffix) {
          UnderTransitive(host, other, suffix);
        }
      }
    }
  }

  /** When the text of a wildcard lies under a suffix, its own suffix equals that one or lies under it. */
  lemma WildcardUnder(wildcard: string, suffix: string)
    requires "*." <= wildcard && Under(wildcard, suffix)
    ensures wildcard[2..] == suffix || Under(wildcard[2..], suffix)
  {
    var other, at := wildcard[2..], |wildcard| - |suffix| - 1;
    UnderIffDotted(wildcard, suffix);
    UnderIffDotted(other, suffix);
    assert wildcard[at] == (wildcard[at..])[0] == '.';
    assert wildcard[0] == '*';
    if at == 1 {
      assert other == (wildcard[at..])[1..];
    } else {
      assert wildcard[at..] == other[at - 2..];
    }
  }

  lemma DoubledMissesTheBareHost(a: NetRule, b: NetRule)
    requires Doubled(a, b)
    ensures Subsumes(a, b) && Covers(b, b.host[2..], b.port) && !Covers(a, b.host[2..], b.port)
  {
    assert StripPrefix(a.host, "*.") == Some(b.host);
    UnderIffDotted(b.host[2..], b.host);
  }

  /** The syntactic test is set inclusion, except on exactly the doubled wildcards. */
  lemma SubsumesIsInclusion(a: NetRule, b: NetRule)
    ensures (Subsumes(a, b) <==> Includes(a, b)) <==> !Doubled(a, b)
  {
    if Doubled(a, b) {
      DoubledMissesTheBareHost(a, b);
    } else {
      if Subsumes(a, b) {
        forall host: string, port: Option<Port> | Covers(b, host, port)
          ensures Covers(a, host, port)
        {
          SubsumedHostsAreCovered(a.host, b.host, host);
        }
      }
      if Includes(a, b) {
        assert Covers(b, b.host, b.port);
        CoveringTheTextSubsumes(a.host, b.host);
      }
    }
  }

  lemma InclusionIsDecidable(a: NetRule, b: NetRule)
    ensures Includes(a, b) <==> Subsumes(a, b) && !Doubled(a, b)
  {
    SubsumesIsInclusion(a, b);
    if Doubled(a, b) {
      DoubledMissesTheBareHost(a, b);
    }
  }

  /** Any two rules covering one host are nested. */
  lemma RulesOnOneHostAreNested(a: string, b: string, host: string)
    requires CoversHost(a, host) && CoversHost(b, host)
    ensures SubsumesHost(a, b) || SubsumesHost(b, a)
  {
    hide Under;
    if host == a {
      CoveringTheTextSubsumes(b, a);
    } else if host == b {
      CoveringTheTextSubsumes(a, b);
    } else {
      var x, y := a[2..], b[2..];
      if Under(host, x) && Under(host, y) {
        if |x| <= |y| {
          UnderNested(host, y, x);
        } else {
          UnderNested(host, x, y);
        }
      }
    }
  }

  ghost predicate ListCovers(rules: seq<NetRule>, host: string, port: Option<Port>) {
    exists r :: r in rules && Covers(r, host, port)
  }

  ghost predicate ListIncludes(rules: seq<NetRule>, rule: NetRule) {
    forall host: string, port: Option<Port> :: Covers(rule, host, port) ==> ListCovers(rules, host, port)
  }

  function LongestHost(rules: seq<NetRule>): (n: nat)
    ensures forall r :: r in rules ==> |r.host| <= n
  {
    if rules == [] then 0
    else
      var rest := LongestHost(rules[1..]);
      if |rules[0].host| > rest then |rules[0].host| else rest
  }

  /** A label no rule of a list can be cut inside of. */
  function LongLabel(n: nat): string {
    seq(n, _ => 'a')
  }

  lemma FreshSubdomainNeedsAWiderRule(r: string, wildcard: string, host: string, n: nat)
    requires |r| <= n && "*." <= wildcard
    requires host == LongLabel(n) + "." + wildcard[2..]
    requires CoversHost(r, host)
    ensures SubsumesHost(r, wildcard) && r != "*." + wildcard
  {
    var suffix := wildcard[2..];
    var s := r[2..];
    var at := |host| - |s| - 1;
    UnderIffDotted(host, s);
    UnderIffDotted(suffix, s);
    assert host[at] == (host[at..])[0] == '.';
    assert forall i :: 0 <= i < n ==> host[i] == 'a';
    assert host[n + 1..] == suffix;
    if at == n {
      assert s == (host[at..])[1..] == suffix;
    } else {
      assert host[at..] == suffix[at - n - 1..];
    }
  }

  /** A host only the listed rules that include the rule cover. */
  function Witness(rules: seq<NetRule>, rule: NetRule): (host: string)
    ensures CoversHost(rule.host, host)
  {
    if "*." <= rule.host then
      var suffix := rule.host[2..];
      var host := LongLabel(LongestHost(rules)) + "." + suffix;
      UnderIffDotted(host, suffix);
      assert host[|host| - |suffix| - 1..] == "." + suffix;
      host
    else rule.host
  }

  lemma CoveringTheWitnessIncludes(rules: seq<NetRule>, rule: NetRule, r: NetRule)
    requires r in rules && Covers(r, Witness(rules, rule), rule.port)
    ensures Includes(r, rule)
  {
    if "*." <= rule.host {
      FreshSubdomainNeedsAWiderRule(r.host, rule.host, Witness(rules, rule), LongestHost(rules));
    } else {
      CoveringTheTextSubsumes(r.host, rule.host);
    }
    InclusionIsDecidable(r, rule);
  }

  /** A finite list grants everything a rule grants only when one of its rules does so alone. */
  lemma NoJointCover(rules: seq<NetRule>, rule: NetRule)
    ensures ListIncludes(rules, rule) <==> exists r :: r in rules && Includes(r, rule)
  {
    if ListIncludes(rules, rule) {
      assert Covers(rule, Witness(rules, rule), rule.port);
      var r :| r in rules && Covers(r, Witness(rules, rule), rule.port);
      CoveringTheWitnessIncludes(rules, rule, r);
    }
  }
}
