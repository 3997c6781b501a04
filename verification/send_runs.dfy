/**
 * What every run of the send loop keeps to, whatever the server answers (HTTP-redirect fetch of the WHATWG standard).
 */
module SendRuns {
  import opened Prelude
  import opened HeaderLists
  import opened Sending

  function Last(hops: seq<Hop>): Hop
    requires hops != []
  {
    hops[|hops| - 1]
  }

  function Before(hops: seq<Hop>): seq<Hop>
    requires hops != []
  {
    hops[..|hops| - 1]
  }

  predicate Redirects(hop: Hop) {
    hop.reply.Ok? && IsRedirect(hop.reply.value.status) && hop.leg.remaining.Some?
  }

  /** `leg` goes on from `hop` at the place its redirect names. */
  predicate Follows(hop: Hop, leg: Leg) {
    && Redirects(hop) && hop.leg.remaining.value > 0
    && leg == Redirected(hop.leg, hop.reply.value.status, leg.url)
  }

  /** `leg` asks `hop` again with the answer to its challenge. */
  predicate Answers(world: World, hop: Hop, leg: Leg) {
    && hop.reply.Ok? && hop.reply.value.status == 401 && Values(hop.sent, AUTHORIZATION) == []
    && world.answer(hop.leg.url).Some?
    && leg == hop.leg.(headers := Put(hop.leg.headers, AUTHORIZATION, world.answer(hop.leg.url).value),
                       body := Spent(hop.leg.body))
  }

  lemma GoingOn(world: World, req: Request, hops: seq<Hop>)
    requires Chain(world, req, hops) && |hops| >= 2
    ensures Chain(world, req, Before(hops))
    ensures Follows(Last(Before(hops)), Last(hops).leg) || Answers(world, Last(Before(hops)), Last(hops).leg)
  {
  }

  lemma {:induction false} EveryPrefixIsARun(world: World, req: Request, hops: seq<Hop>, k: nat)
    requires Chain(world, req, hops) && k <= |hops|
    ensures Chain(world, req, hops[..k])
  {
    if k < |hops| {
      EveryPrefixIsARun(world, req, Before(hops), k);
      assert Before(hops)[..k] == hops[..k];
    } else {
      assert hops[..k] == hops;
    }
  }

  // ---- What a redirect leaves of the headers --------------------------------

  predicate Names(names: seq<string>, name: string) {
    names != [] && (Same(names[0], name) || Names(names[1..], name))
  }

  lemma {:induction false} ValuesWithoutAll(entries: seq<Entry>, names: seq<string>, name: string)
    ensures Values(WithoutAll(entries, names), name) == if Names(names, name) then [] else Values(entries, name)
    decreases |names|
  {
    if names != [] {
      RemovedIsGone(entries, names[0], name);
      ValuesWithoutAll(Without(entries, names[0]), names[1..], name);
    }
  }

  lemma RewrittenValues(status: nat, from: Url, next: Url, verb: string, headers: seq<Entry>, name: string)
    ensures Values(RewrittenHeaders(status, from, next, verb, headers), name) ==
      if Same(COOKIE, name) || (RewritesToGet(status, verb) && Names(CONTENT, name)) ||
         (!SameOrigin(next, from) && Same(AUTHORIZATION, name))
      then [] else Values(headers, name)
  {
    hide Names, WithoutAll, Values, Same;
    var content := if RewritesToGet(status, verb) then WithoutAll(headers, CONTENT) else headers;
    ValuesWithoutAll(headers, CONTENT, name);
    RemovedIsGone(content, COOKIE, name);
    RemovedIsGone(Without(content, COOKIE), AUTHORIZATION, name);
  }

  // ---- Termination and the budget -------------------------------------------

  /** How many redirects a run follows at most. */
  function Most(req: Request): nat {
    if !req.redirect.Follow? then 0 else if req.maxRedirects.Some? then req.maxRedirects.value else 20
  }

  lemma BudgetIsTheMost(req: Request)
    ensures Budget(req) == Most(req)
    ensures FollowBudget(req.redirect, req.maxRedirects) == if Most(req) == 0 then None else Some(Most(req))
  {
  }

  /** Redirects followed and redirects left always add up to the budget. */
  lemma {:induction false} BudgetIsConserved(world: World, req: Request, hops: seq<Hop>)
    requires Chain(world, req, hops) && hops != []
    ensures
      var leg := Last(hops).leg;
      if Most(req) == 0 then leg.remaining.None? && leg.followed == 0 && leg.url == req.url
      else leg.remaining.Some? && leg.followed + leg.remaining.value == Most(req)
  {
    if |hops| >= 2 {
      GoingOn(world, req, hops);
      BudgetIsConserved(world, req, Before(hops));
    }
  }

  lemma {:induction false} EveryHopIsProgress(world: World, req: Request, hops: seq<Hop>)
    requires Chain(world, req, hops) && hops != []
    ensures |hops| + Measure(Last(hops).leg) <= 1 + Measure(Start(req))
  {
    if |hops| >= 2 {
      var prev, leg := Last(Before(hops)), Last(hops).leg;
      GoingOn(world, req, hops);
      EveryHopIsProgress(world, req, Before(hops));
      if !Follows(prev, leg) {
        AnsweringIsProgress(world, req, Log(Before(Before(hops))), prev.leg, prev.sent,
          world.answer(prev.leg.url).value);
      }
    }
  }

  lemma {:induction false} AttemptsAreBounded(world: World, req: Request, hops: seq<Hop>)
    requires Chain(world, req, hops)
    ensures |Log(hops)| <= |hops| * (req.maxRetries + 1)
  {
    if hops != [] {
      AttemptsAreBounded(world, req, Before(hops));
      assert |hops| * (req.maxRetries + 1) == (|hops| - 1) * (req.maxRetries + 1) + req.maxRetries + 1;
    }
  }

  /** No server can keep the loop going: at most two hops a redirect, and one more pair; and so many attempts each. */
  lemma RunsAreBounded(world: World, req: Request, hops: seq<Hop>)
    requires Chain(world, req, hops)
    ensures |hops| <= 2 * (Most(req) + 1)
    ensures |Log(hops)| <= 2 * (Most(req) + 1) * (req.maxRetries + 1)
  {
    if hops != [] {
      EveryHopIsProgress(world, req, hops);
    }
    AttemptsAreBounded(world, req, hops);
    Scaled(|hops|, 2 * (Most(req) + 1), req.maxRetries + 1);
  }

  lemma Scaled(a: nat, b: nat, n: nat)
    requires a <= b
    ensures a * n <= b * n
  {
    assert (b - a) * n == b * n - a * n;
  }

  // ---- Credentials ----------------------------------------------------------

  /** Where credentials for `a` may go. */
  predicate Home(a: Url, b: Url) {
    || a == b
    || (&& a.origin.Tuple? && b.origin.Tuple?
        && a.origin.scheme == b.origin.scheme && a.origin.host == b.origin.host && a.origin.port == b.origin.port)
  }

  /** The hop whose credentials `value` is: the request's own, or a challenge's answer. */
  predicate AttachedFor(world: World, req: Request, hop: Hop, index: nat, value: string) {
    || (index == 0 && value in Values(req.headers, AUTHORIZATION))
    || (hop.reply.Ok? && hop.reply.value.status == 401 && world.answer(hop.leg.url) == Some(value))
  }

  lemma {:induction false} AuthorizationHasAHome(
    world: World, req: Request, hops: seq<Hop>, value: string) returns (j: nat)
    requires Chain(world, req, hops) && hops != [] && value in Values(Last(hops).leg.headers, AUTHORIZATION)
    ensures j < |hops| && AttachedFor(world, req, hops[j], j, value) && Home(hops[j].leg.url, Last(hops).leg.url)
  {
    j := |hops| - 1;
    if |hops| >= 2 {
      var prev, leg := Last(Before(hops)), Last(hops).leg;
      GoingOn(world, req, hops);
      if Follows(prev, leg) {
        RewrittenValues(prev.reply.value.status, prev.leg.url, leg.url, prev.leg.verb, prev.leg.headers, AUTHORIZATION);
        j := AuthorizationHasAHome(world, req, Before(hops), value);
      } else {
        SetReplaces(prev.leg.headers, AUTHORIZATION, world.answer(prev.leg.url).value, AUTHORIZATION);
        j := |hops| - 2;
      }
    }
  }

  /** An `Authorization` value on the wire is at the origin it was attached for. */
  lemma AuthorizationStaysHome(world: World, req: Request, hops: seq<Hop>, k: nat, value: string) returns (j: nat)
    requires Chain(world, req, hops) && hops != [] && k < |Last(hops).wire|
    requires value in Values(Last(hops).wire[k].headers, AUTHORIZATION)
    ensures j < |hops| && AttachedFor(world, req, hops[j], j, value) && Home(hops[j].leg.url, Last(hops).wire[k].url)
  {
    var hop := Last(hops);
    CookieIsNot(AUTHORIZATION);
    OnlyCookiesDiffer(world, req, Log(Before(hops)), hop.leg, hop.sent, AUTHORIZATION);
    j := AuthorizationHasAHome(world, req, hops, value);
  }

  lemma CookieIsNot(name: string)
    requires |name| > |COOKIE|
    ensures !Same(COOKIE, name)
  {
    assert |Lower(COOKIE)| != |Lower(name)|;
  }

  // ---- The method and the body ----------------------------------------------

  /** Some redirect of the run turned it into a `GET`. */
  predicate Rewritten(hops: seq<Hop>) {
    hops != [] &&
    (Rewritten(Before(hops)) ||
      (Redirects(Last(hops)) && RewritesToGet(Last(hops).reply.value.status, Last(hops).leg.verb)))
  }

  /**
   * Until a redirect rewrites the request, every hop carries its method and buffered body; from then on every hop is a
   * `GET` without a body. Nothing but a POST's 301 or 302, or a 303 to neither GET nor HEAD, rewrites.
   */
  lemma {:induction false} MethodAndBody(world: World, req: Request, hops: seq<Hop>)
    requires Chain(world, req, hops) && hops != []
    ensures
      var leg := Last(hops).leg;
      if Rewritten(Before(hops)) then leg.verb == GET && leg.body == Nothing
      else leg.verb == req.verb && leg.body == if |hops| == 1 then req.body else Spent(req.body)
    ensures forall k :: 0 <= k < |Last(hops).wire| ==>
      Last(hops).wire[k].verb == Last(hops).leg.verb && Last(hops).wire[k].payload == Last(hops).leg.body
  {
    if |hops| >= 2 {
      GoingOn(world, req, hops);
      MethodAndBody(world, req, Before(hops));
    }
  }

  /** Every other header is sent with the request's own values on every hop; those of a body go with the body. */
  lemma {:induction false} HeadersTravel(world: World, req: Request, hops: seq<Hop>, name: string)
    requires Chain(world, req, hops) && hops != []
    requires !Same(COOKIE, name) && !Same(AUTHORIZATION, name)
    ensures Values(Last(hops).leg.headers, name) ==
      if Names(CONTENT, name) && Rewritten(Before(hops)) then [] else Values(req.headers, name)
    ensures Values(Last(hops).sent, name) == Values(Last(hops).leg.headers, name)
  {
    hide Names, Values, Same;
    var hop := Last(hops);
    OnlyCookiesDiffer(world, req, Log(Before(hops)), hop.leg, hop.sent, name);
    if |hops| >= 2 {
      var prev := Last(Before(hops));
      GoingOn(world, req, hops);
      HeadersTravel(world, req, Before(hops), name);
      if Follows(prev, hop.leg) {
        RewrittenValues(prev.reply.value.status, prev.leg.url, hop.leg.url, prev.leg.verb, prev.leg.headers, name);
      } else {
        SetReplaces(prev.leg.headers, AUTHORIZATION, world.answer(prev.leg.url).value, name);
      }
    }
  }

  /** A stream goes on the wire with the very first attempt of the run, or never. */
  lemma {:induction false} StreamedOnce(world: World, req: Request, hops: seq<Hop>, k: nat)
    requires Chain(world, req, hops) && k < |Log(hops)| && Log(hops)[k].payload.Streamed?
    ensures k == 0 && req.body.Streamed? && Log(hops)[k] == Attempt(req.verb, req.url, hops[0].sent, req.body)
  {
    var before := Log(Before(hops));
    if k < |before| {
      StreamedOnce(world, req, Before(hops), k);
    } else {
      assert Last(hops).wire[k - |before|] == Log(hops)[k];
      if |hops| >= 2 {
        GoingOn(world, req, hops);
      }
    }
  }

  // ---- Cookies --------------------------------------------------------------

  /** After a redirect the loop's own headers hold no cookie, and before it they hold the request's. */
  lemma {:induction false} CookiesAreDerivedAgain(world: World, req: Request, hops: seq<Hop>)
    requires Chain(world, req, hops) && hops != []
    ensures
      var leg := Last(hops).leg;
      && leg.first == (leg.followed == 0)
      && Values(leg.headers, COOKIE) == (if leg.first then Values(req.headers, COOKIE) else [])
      && (leg.first ==> leg.url == req.url)
  {
    hide Values;
    if |hops| >= 2 {
      var prev, leg := Last(Before(hops)), Last(hops).leg;
      GoingOn(world, req, hops);
      CookiesAreDerivedAgain(world, req, Before(hops));
      if Follows(prev, leg) {
        RewrittenValues(prev.reply.value.status, prev.leg.url, leg.url, prev.leg.verb, prev.leg.headers, COOKIE);
      } else {
        CookieIsNot(AUTHORIZATION);
        SetReplaces(prev.leg.headers, AUTHORIZATION, world.answer(prev.leg.url).value, COOKIE);
      }
    }
  }

  /**
   * The cookies of a hop: none when credentials are left out; else the request's own until it is redirected, when there
   * is no jar or the request has some; else what the jar holds for this very URL.
   */
  lemma CookiesOnTheWire(world: World, req: Request, hops: seq<Hop>)
    requires Chain(world, req, hops) && hops != []
    ensures
      var hop, own := Last(hops), Values(req.headers, COOKIE);
      Values(hop.sent, COOKIE) ==
      if req.omit then []
      else if hop.leg.followed == 0 && (!world.cookies || own != []) then own
      else if !world.cookies then []
      else
        match world.jar(Log(Before(hops)), hop.leg.url)
        case Some(text) => if text == "" then [] else [text]
        case None => []
  {
    hide Values;
    var hop := Last(hops);
    CookiesAreDerivedAgain(world, req, hops);
    RemovedIsGone(hop.leg.headers, COOKIE, COOKIE);
    var text := world.jar(Log(Before(hops)), hop.leg.url);
    if text.Some? {
      SetReplaces(Without(hop.leg.headers, COOKIE), COOKIE, text.value, COOKIE);
    }
  }

  // ---- Where a run goes, and how it ends -------------------------------------

  /** Nothing goes to a URL the guard refuses. */
  lemma {:induction false} OnlyAllowedUrls(world: World, req: Request, hops: seq<Hop>, k: nat)
    requires Chain(world, req, hops) && k < |Log(hops)|
    ensures world.allowed(Log(hops)[k].url)
  {
    var before := Log(Before(hops));
    if k < |before| {
      OnlyAllowedUrls(world, req, Before(hops), k);
    } else {
      assert Last(hops).wire[k - |before|] == Log(hops)[k];
    }
  }

  /**
   * A response handed back is the last received, at the URL it came from, within the budget; no redirect was missed.
   */
  lemma ResponsesAreFinal(world: World, req: Request, hops: seq<Hop>, final: Final)
    requires Chain(world, req, hops) && Ended(world, req, hops, Ok(final))
    ensures hops != [] && Last(hops).reply == Ok(final.response) && final.url == Last(hops).leg.url
    ensures final.followed <= Most(req)
    ensures IsRedirect(final.response.status) ==>
      req.redirect.Manual? || (req.redirect.Follow? && (req.maxRedirects == Some(0) || final.response.location.None?))
  {
    BudgetIsConserved(world, req, hops);
  }

  /** That error comes exactly when the whole budget has been followed and another redirect comes. */
  lemma TooManyIffAllFollowed(world: World, req: Request, hops: seq<Hop>, result: Result<Final, Failure>)
    requires Chain(world, req, hops) && Ended(world, req, hops, result)
    ensures (result.Err? && result.error.TooManyRedirects?) <==>
      hops != [] && Redirects(Last(hops)) && Last(hops).leg.followed == Most(req)
    ensures result.Err? && result.error.TooManyRedirects? ==> result.error.budget == Most(req) > 0
  {
    if hops != [] {
      BudgetIsConserved(world, req, hops);
    }
  }

  /**
   * The standard hands back a redirect without a `Location`. So does a run, exactly as long as it has not followed its
   * whole budget: that is looked at first.
   */
  lemma RedirectToNowhere(world: World, req: Request, hops: seq<Hop>, result: Result<Final, Failure>)
    requires Chain(world, req, hops) && Ended(world, req, hops, result)
    requires hops != [] && Redirects(Last(hops)) && Last(hops).reply.value.location.None?
    ensures
      var leg := Last(hops).leg;
      result == if leg.followed < Most(req) then Ok(Final(Last(hops).reply.value, leg.url, leg.followed))
                else Err(TooManyRedirects(Most(req)))
  {
    BudgetIsConserved(world, req, hops);
  }

  // ---- Every step of a run, in numbers and names ------------------------------

  /** A redirect, to a request that follows them. */
  predicate Redirection(req: Request, hop: Hop) {
    && hop.reply.Ok? && hop.reply.value.status in {301, 302, 303, 307, 308}
    && req.redirect == Follow && req.maxRedirects != Some(0)
  }

  /** The place it names, if there is one. */
  function Target(world: World, hop: Hop): Option<Url>
    requires hop.reply.Ok?
  {
    if hop.reply.value.location.None? then None else world.join(hop.leg.url, hop.reply.value.location.value)
  }

  /** A redirect that is followed: within the budget, to somewhere, and not asking for a stream again. */
  predicate Leads(world: World, req: Request, hop: Hop) {
    && Redirection(req, hop)
    && hop.leg.followed < (if req.maxRedirects.Some? then req.maxRedirects.value else 20)
    && Target(world, hop).Some?
    && (req.body.Streamed? ==> hop.reply.value.status == 303)
  }

  predicate BecomesGet(status: nat, verb: string) {
    (verb == "POST" && (status == 301 || status == 302)) || (verb != "GET" && verb != "HEAD" && status == 303)
  }

  /** The headers that do not go to another place. */
  predicate StaysBehind(hop: Hop, next: Url, name: string)
    requires hop.reply.Ok?
  {
    || Same("cookie", name)
    || (Same("authorization", name) && (hop.leg.url.origin == Opaque || hop.leg.url.origin != next.origin))
    || (BecomesGet(hop.reply.value.status, hop.leg.verb) &&
        (Same("content-encoding", name) || Same("content-language", name) || Same("content-length", name) ||
         Same("content-location", name) || Same("content-type", name)))
  }

  /** A challenge that is answered: for Basic credentials, to a request that sent none and has some for this URL. */
  ghost predicate Challenges(world: World, req: Request, hop: Hop) {
    && hop.reply.Ok? && hop.reply.value.status == 401
    && !req.body.Streamed? && Values(hop.leg.headers, "authorization") == []
    && hop.reply.value.authenticate.Some? && Basic(hop.reply.value.authenticate.value)
    && world.answer(hop.leg.url).Some?
  }

  predicate BasicAt(scheme: string, n: nat) {
    n <= |scheme| && "Basic" <= scheme[n..] && forall k :: 0 <= k < n ==> scheme[k] == ' ' || scheme[k] == '\t'
  }

  /** After any spaces and tabs it begins with the word. */
  ghost predicate Basic(scheme: string) {
    exists n :: BasicAt(scheme, n)
  }

  lemma {:induction false} AsksBasicIff(scheme: string)
    ensures AsksBasic(scheme) <==> Basic(scheme)
    decreases |scheme|
  {
    if scheme != "" && (scheme[0] == ' ' || scheme[0] == '\t') {
      var rest := scheme[1..];
      AsksBasicIff(rest);
      forall n: nat ensures BasicAt(scheme, n + 1) <==> BasicAt(rest, n) {
        BasicLater(scheme, n);
      }
      assert !BasicAt(scheme, 0);
      if n: nat :| BasicAt(scheme, n) {
        assert BasicAt(rest, n - 1);
      }
    } else {
      assert scheme[0..] == scheme;
      assert "Basic" <= scheme ==> BasicAt(scheme, 0);
    }
  }

  lemma BasicLater(scheme: string, n: nat)
    requires scheme != "" && (scheme[0] == ' ' || scheme[0] == '\t')
    ensures BasicAt(scheme, n + 1) <==> BasicAt(scheme[1..], n)
  {
    var rest := scheme[1..];
    if n <= |rest| {
      assert scheme[n + 1..] == rest[n..];
      assert forall k :: 0 <= k < n ==> rest[k] == scheme[k + 1];
    }
    if BasicAt(rest, n) {
      assert forall k :: 0 < k < n + 1 ==> scheme[k] == rest[k - 1];
    }
  }

  lemma ContentNames(name: string)
    ensures Names(CONTENT, name) <==>
      Same("content-encoding", name) || Same("content-language", name) || Same("content-length", name) ||
      Same("content-location", name) || Same("content-type", name)
  {
    hide Same;
    OneMoreName("content-type", [], name);
    OneMoreName("content-location", ["content-type"], name);
    OneMoreName("content-length", ["content-location", "content-type"], name);
    OneMoreName("content-language", ["content-length", "content-location", "content-type"], name);
    OneMoreName("content-encoding", ["content-language", "content-length", "content-location", "content-type"], name);
  }

  lemma OneMoreName(first: string, rest: seq<string>, name: string)
    ensures Names([first] + rest, name) <==> Same(first, name) || Names(rest, name)
  {
    hide Same;
    assert ([first] + rest)[1..] == rest;
  }

  /** A run begins with the request as it is. */
  lemma BeginsAsAsked(world: World, req: Request)
    ensures
      var next := Next(world, req, []);
      && next.Some? && next.value.verb == req.verb && next.value.url == req.url && next.value.headers == req.headers
      && next.value.body == req.body && next.value.followed == 0
  {
  }

  /** From each answer a run goes on if and only if that is a redirect to follow or a challenge to answer. */
  lemma GoesOnIff(world: World, req: Request, hops: seq<Hop>)
    requires Chain(world, req, hops) && hops != []
    ensures Next(world, req, hops).Some? <==> Leads(world, req, Last(hops)) || Challenges(world, req, Last(hops))
  {
    var hop := Last(hops);
    HeardAs(world, req, hops);
    hide Values, AsksBasic, Basic, Chain, RewrittenHeaders, Put;
  }

  /** The budget as it was followed, and the challenge as it was heard. */
  lemma HeardAs(world: World, req: Request, hops: seq<Hop>)
    requires Chain(world, req, hops) && hops != []
    ensures
      var hop := Last(hops);
      && hop.leg.remaining == (if Most(req) == 0 then None else Some(Most(req) - hop.leg.followed))
      && hop.leg.followed <= Most(req)
      && Values(hop.sent, AUTHORIZATION) == Values(hop.leg.headers, "authorization")
      && (hop.reply.Ok? && hop.reply.value.authenticate.Some? ==>
            (AsksBasic(hop.reply.value.authenticate.value) <==> Basic(hop.reply.value.authenticate.value)))
  {
    hide AsksBasic, Basic, Values, HopHeadersOf, OverTheWire, Judge;
    var hop := Last(hops);
    BudgetIsConserved(world, req, hops);
    CookieIsNot(AUTHORIZATION);
    OnlyCookiesDiffer(world, req, Log(Before(hops)), hop.leg, hop.sent, AUTHORIZATION);
    if hop.reply.Ok? && hop.reply.value.authenticate.Some? {
      AsksBasicIff(hop.reply.value.authenticate.value);
    }
  }

  /** To another place it takes its method, its buffered body and its headers, but for what two predicates name. */
  lemma WhatARedirectKeeps(world: World, req: Request, hops: seq<Hop>)
    requires Chain(world, req, hops) && hops != [] && Leads(world, req, Last(hops))
    ensures
      var hop, next := Last(hops), Next(world, req, hops);
      && next.Some?
      && next.value.url == Target(world, hop).value && next.value.followed == hop.leg.followed + 1
      && (if BecomesGet(hop.reply.value.status, hop.leg.verb)
            then next.value.verb == "GET" && next.value.body == Nothing
          else next.value.verb == hop.leg.verb &&
               next.value.body == if hop.leg.body.Streamed? then Nothing else hop.leg.body)
      && (forall name ::
            Values(next.value.headers, name) ==
            if StaysBehind(hop, next.value.url, name) then [] else Values(hop.leg.headers, name))
  {
    var hop, next := Last(hops), Next(world, req, hops);
    BudgetIsConserved(world, req, hops);
    hide Values, Chain, RewrittenHeaders, StaysBehind;
    forall name ensures
        Values(next.value.headers, name) ==
        if StaysBehind(hop, next.value.url, name) then [] else Values(hop.leg.headers, name)
    {
      LeavesBehind(hop, next.value.url, name);
    }
  }

  /** To the same place again it takes all it had there, with the answer. */
  lemma WhatAnAnswerKeeps(world: World, req: Request, hops: seq<Hop>)
    requires Chain(world, req, hops) && hops != [] && Challenges(world, req, Last(hops))
    ensures
      var hop, next := Last(hops), Next(world, req, hops);
      && next.Some? && next.value.(headers := hop.leg.headers) == hop.leg
      && (forall name ::
            Values(next.value.headers, name) ==
            if Same("authorization", name) then [world.answer(hop.leg.url).value] else Values(hop.leg.headers, name))
  {
    var hop, next := Last(hops), Next(world, req, hops);
    HeardAs(world, req, hops);
    NotStreamed(world, req, hops);
    hide Values, Chain, Put, Same, AsksBasic, Basic;
    forall name ensures
        Values(next.value.headers, name) ==
        if Same("authorization", name) then [world.answer(hop.leg.url).value] else Values(hop.leg.headers, name)
    {
      SetReplaces(hop.leg.headers, AUTHORIZATION, world.answer(hop.leg.url).value, name);
    }
  }

  lemma NotStreamed(world: World, req: Request, hops: seq<Hop>)
    requires Chain(world, req, hops) && hops != []
    ensures Last(hops).leg.body.Streamed? ==> req.body.Streamed?
  {
    MethodAndBody(world, req, hops);
  }

  lemma LeavesBehind(hop: Hop, next: Url, name: string)
    requires hop.reply.Ok?
    ensures
      var status, leg := hop.reply.value.status, hop.leg;
      Values(RewrittenHeaders(status, leg.url, next, leg.verb, leg.headers), name) ==
      if StaysBehind(hop, next, name) then [] else Values(leg.headers, name)
  {
    RewrittenValues(hop.reply.value.status, hop.leg.url, next, hop.leg.verb, hop.leg.headers, name);
    ContentNames(name);
    hide Values, Same, Names, RewrittenHeaders;
  }

  /** And if it does not go on, this is what it hands back. */
  lemma EndsWith(world: World, req: Request, hops: seq<Hop>, result: Result<Final, Failure>)
    requires Chain(world, req, hops) && Ended(world, req, hops, result) && hops != []
    requires !Leads(world, req, Last(hops)) && !Challenges(world, req, Last(hops))
    ensures
      var hop := Last(hops);
      result ==
      if hop.reply.Err? then Err(hop.reply.error)
      else if Redirection(req, hop) && hop.leg.followed == Most(req) then Err(TooManyRedirects(Most(req)))
      else if Redirection(req, hop) && hop.reply.value.location.Some? then
        if Target(world, hop).None? then Err(BadLocation) else Err(StreamRefused)
      else if req.redirect == Refuse && 300 <= hop.reply.value.status <= 399 then Err(UnexpectedRedirect)
      else Ok(Final(hop.reply.value, hop.leg.url, hop.leg.followed))
  {
    BudgetIsConserved(world, req, hops);
    GoesOnIff(world, req, hops);
    hide Chain, Challenges;
  }

  // ---- A redirect to nowhere --------------------------------------------------

  const HERE := Url(Tuple("http", "a.x", 80), "/")

  /** A server that redirects once, and then once more to nowhere. */
  function NowhereOnTheSecond(log: seq<Attempt>): Transport {
    Reply(Response(302, if |log| == 1 then Some("/") else None, None))
  }

  function Nowhere(): World {
    World(_ => true, NowhereOnTheSecond, false, (_, _) => None, _ => true, _ => None, (u, _) => Some(u))
  }

  const FOLLOW_ONE := Request(GET, HERE, [], Nothing, Follow, false, Some(1), 0)

  const SHOT := Attempt(GET, HERE, [], Nothing)

  const FIRST := Hop(Leg(GET, HERE, [], Nothing, Some(1), true, 0), [], [SHOT], Ok(Response(302, Some("/"), None)))

  const SECOND := Hop(Leg(GET, HERE, [], Nothing, Some(0), false, 1), [], [SHOT], Ok(Response(302, None, None)))

  lemma FirstIsSent()
    ensures LegHeaders(Nowhere(), FOLLOW_ONE, [], FIRST.leg) == Some(FIRST.sent)
    ensures OverTheWire(Nowhere(), [], SHOT, 0, FIRST.wire, FIRST.reply)
    ensures Judge(Nowhere(), FOLLOW_ONE, FIRST.leg, FIRST.sent, FIRST.reply.value) == Continue(SECOND.leg)
  {
    assert [] + [SHOT] == [SHOT];
    assert WithoutAll([], CONTENT) == [];
  }

  lemma SecondIsSent()
    ensures LegHeaders(Nowhere(), FOLLOW_ONE, [SHOT], SECOND.leg) == Some(SECOND.sent)
    ensures OverTheWire(Nowhere(), [SHOT], SHOT, 0, SECOND.wire, SECOND.reply)
    ensures Judge(Nowhere(), FOLLOW_ONE, SECOND.leg, SECOND.sent, SECOND.reply.value) == Stop(Err(TooManyRedirects(1)))
  {
    assert |[SHOT] + [SHOT]| == 2;
  }

  /** With a budget of one its second answer, a redirect to nowhere, is an error and not the response. */
  lemma RedirectToNowhereIsRefused()
    ensures
      var hops := [FIRST] + [SECOND];
      && Chain(Nowhere(), FOLLOW_ONE, hops) && Ended(Nowhere(), FOLLOW_ONE, hops, Err(TooManyRedirects(1)))
      && Redirects(Last(hops)) && Last(hops).reply.value.location.None?
  {
    NoHopYet(Nowhere(), FOLLOW_ONE);
    FirstIsSent();
    SecondIsSent();
    assert Nowhere().allowed(HERE);
    hide Chain, Log, Next, Ended, Judge, LegHeaders, OverTheWire, Nowhere;
    assert [] + [FIRST] == [FIRST] && [] + [SHOT] == [SHOT];
    OneMoreHop(Nowhere(), FOLLOW_ONE, [], FIRST);
    OneMoreHop(Nowhere(), FOLLOW_ONE, [FIRST], SECOND);
  }

  /** The surroundings decide the whole run. */
  lemma {:induction false} RunIsDetermined(world: World, req: Request, hops: seq<Hop>, result: Result<Final, Failure>,
                                           hops': seq<Hop>, result': Result<Final, Failure>)
    requires Chain(world, req, hops) && Ended(world, req, hops, result)
    requires Chain(world, req, hops') && Ended(world, req, hops', result')
    ensures hops == hops' && result == result'
  {
    if |hops| <= |hops'| {
      SamePrefix(world, req, hops, hops', |hops|);
      NothingFollowsTheEnd(world, req, hops, result, hops');
    } else {
      SamePrefix(world, req, hops', hops, |hops'|);
      NothingFollowsTheEnd(world, req, hops', result', hops);
    }
  }

  lemma {:induction false} SamePrefix(world: World, req: Request, hops: seq<Hop>, hops': seq<Hop>, k: nat)
    requires Chain(world, req, hops) && Chain(world, req, hops') && k <= |hops| && k <= |hops'|
    ensures hops[..k] == hops'[..k]
  {
    hide Log, Judge, OverTheWire, HopHeadersOf;
    if k > 0 {
      SamePrefix(world, req, hops, hops', k - 1);
      EveryPrefixIsARun(world, req, hops, k);
      EveryPrefixIsARun(world, req, hops', k);
      var a, b := hops[..k], hops'[..k];
      assert Before(a) == hops[..k - 1] && Before(b) == hops'[..k - 1];
      var hop, hop' := Last(a), Last(b);
      HopIsDetermined(world, Log(Before(a)), Attempt(hop.leg.verb, hop.leg.url, hop.sent, hop.leg.body), req.maxRetries,
                      hop.wire, hop.reply, hop'.wire, hop'.reply);
      assert a == Before(a) + [hop] && b == Before(b) + [hop'];
    }
  }

  lemma NoHopAfterTheEnd(world: World, req: Request, hops: seq<Hop>, result: Result<Final, Failure>, hop: Hop)
    requires Ended(world, req, hops, result)
    ensures !(Next(world, req, hops) == Some(hop.leg) && Sent(world, req, Log(hops), hop))
  {
    hide OverTheWire, HopHeadersOf;
  }

  lemma NothingFollowsTheEnd(
    world: World, req: Request, hops: seq<Hop>, result: Result<Final, Failure>, longer: seq<Hop>)
    requires Ended(world, req, hops, result)
    requires Chain(world, req, longer) && |hops| <= |longer| && longer[..|hops|] == hops[..|hops|]
    ensures hops == longer
  {
    hide Log, Ended, Next, Sent;
    assert hops[..|hops|] == hops;
    if |hops| < |longer| {
      EveryPrefixIsARun(world, req, longer, |hops| + 1);
      var next := longer[..|hops| + 1];
      assert Before(next) == hops;
      NoHopAfterTheEnd(world, req, hops, result, Last(next));
    }
  }
}
