/** The send loop: redirects, one answered challenge per origin, and retried connection resets. */
module Sending {
  import opened Prelude
  import opened HeaderLists

  /** An opaque origin is the same as no origin, itself included. */
  datatype Origin = Tuple(scheme: string, host: string, port: nat) | Opaque

  datatype Url = Url(origin: Origin, rest: string)

  predicate SameOrigin(a: Url, b: Url) {
    a.origin.Tuple? && a.origin == b.origin
  }

  /** Buffered bytes every hop sends again, or a stream only the first can. */
  datatype Payload = Nothing | Buffered(bytes: seq<nat>) | Streamed(id: nat)

  datatype RedirectMode = Follow | Manual | Refuse

  datatype Request = Request(
    verb: string,
    url: Url,
    headers: seq<Entry>,
    body: Payload,
    redirect: RedirectMode,
    omit: bool,
    maxRedirects: Option<nat>,
    maxRetries: nat)

  datatype Response = Response(status: nat, location: Option<string>, authenticate: Option<string>)

  /** One request on the wire. */
  datatype Attempt = Attempt(verb: string, url: Url, headers: seq<Entry>, payload: Payload)

  datatype Transport = Reply(response: Response) | Reset | Broken

  datatype Failure =
    | Denied | CookiesUnread | TimedOut | Network | TooManyRedirects(budget: nat)
    | BadLocation | StreamRefused | UnexpectedRedirect

  datatype Final = Final(response: Response, url: Url, followed: nat)

  /**
   * Everything the loop asks of its surroundings. The clock, the server and the cookies may answer
   * anything at all, depending on every attempt made so far.
   */
  datatype World = World(
    alive: seq<Attempt> -> bool,
    reply: seq<Attempt> -> Transport,
    cookies: bool,
    jar: (seq<Attempt>, Url) -> Option<string>,
    allowed: Url -> bool,
    answer: Url -> Option<string>,
    join: (Url, string) -> Option<Url>)

  const AUTHORIZATION := "authorization"

  const COOKIE := "cookie"

  const CONTENT := ["content-encoding", "content-language", "content-length", "content-location", "content-type"]

  const GET := "GET"

  // ---- One hop --------------------------------------------------------------

  /** The loop's variables at the top of an iteration. */
  datatype Leg = Leg(
    verb: string,
    url: Url,
    headers: seq<Entry>,
    body: Payload,
    remaining: Option<nat>,
    first: bool,
    followed: nat)

  /** One iteration: its variables, the headers it sent, its attempts and how they ended. */
  datatype Hop = Hop(leg: Leg, sent: seq<Entry>, wire: seq<Attempt>, reply: Result<Response, Failure>)

  /** The attempts of one hop: the same shot again after each reset, as long as that is allowed. */
  ghost predicate OverTheWire(world: World, log: seq<Attempt>, shot: Attempt, maxRetries: nat,
                              wire: seq<Attempt>, reply: Result<Response, Failure>) {
    && |wire| <= maxRetries + 1
    && (forall k :: 0 <= k < |wire| ==> wire[k] == shot && world.alive(log + wire[..k]))
    && (forall k :: 0 < k < |wire| ==> !shot.payload.Streamed? && world.reply(log + wire[..k]) == Reset)
    && match reply
       case Ok(response) => wire != [] && world.reply(log + wire) == Reply(response)
       case Err(TimedOut) =>
         && !world.alive(log + wire)
         && (wire != [] ==> !shot.payload.Streamed? && |wire| <= maxRetries && world.reply(log + wire) == Reset)
       case Err(Network) =>
         && wire != []
         && var last := world.reply(log + wire);
            last.Broken? || (last.Reset? && (shot.payload.Streamed? || |wire| == maxRetries + 1))
       case Err(_) => false
  }

  /** Every attempt so far was reset, and there may be another. */
  ghost predicate Tried(world: World, log: seq<Attempt>, shot: Attempt, maxRetries: nat, wire: seq<Attempt>) {
    && |wire| <= maxRetries
    && (forall k :: 0 <= k < |wire| ==> wire[k] == shot && world.alive(log + wire[..k]))
    && (forall k :: 0 < k <= |wire| ==> !shot.payload.Streamed? && world.reply(log + wire[..k]) == Reset)
  }

  lemma OneMoreTry(world: World, log: seq<Attempt>, shot: Attempt, maxRetries: nat, wire: seq<Attempt>)
    requires Tried(world, log, shot, maxRetries, wire)
    ensures !world.alive(log + wire) ==> OverTheWire(world, log, shot, maxRetries, wire, Err(TimedOut))
    ensures world.alive(log + wire) ==>
      var more := wire + [shot];
      match world.reply(log + more)
      case Reply(response) => OverTheWire(world, log, shot, maxRetries, more, Ok(response))
      case Broken => OverTheWire(world, log, shot, maxRetries, more, Err(Network))
      case Reset =>
        if shot.payload.Streamed? || |wire| == maxRetries
          then OverTheWire(world, log, shot, maxRetries, more, Err(Network))
        else Tried(world, log, shot, maxRetries, more)
  {
    var more := wire + [shot];
    assert wire[..|wire|] == wire && more[..|more|] == more;
    forall k | 0 <= k <= |wire| ensures more[..k] == wire[..k] {
    }
  }

  method SendHop(world: World, log: seq<Attempt>, shot: Attempt, maxRetries: nat)
    returns (reply: Result<Response, Failure>, wire: seq<Attempt>)
    ensures OverTheWire(world, log, shot, maxRetries, wire, reply)
  {
    var attempt: nat := 0;
    var stream := shot.payload.Streamed?;
    wire := [];
    while true
      invariant |wire| == attempt && Tried(world, log, shot, maxRetries, wire)
      invariant if attempt == 0 then stream == shot.payload.Streamed? else !stream && !shot.payload.Streamed?
      decreases maxRetries - attempt
    {
      OneMoreTry(world, log, shot, maxRetries, wire);
      hide OverTheWire;
      if !world.alive(log + wire) {
        return Err(TimedOut), wire;
      }
      var streamed := stream;
      stream := false;
      wire := wire + [shot];
      match world.reply(log + wire)
      case Reply(response) =>
        return Ok(response), wire;
      case Reset =>
        if streamed || attempt >= maxRetries {
          return Err(Network), wire;
        }
        attempt := attempt + 1;
      case Broken =>
        return Err(Network), wire;
    }
  }

  /** After these attempts there is another. */
  ghost predicate Resumable(world: World, log: seq<Attempt>, shot: Attempt, maxRetries: nat, wire: seq<Attempt>) {
    && world.alive(log + wire)
    && (wire != [] ==> !shot.payload.Streamed? && |wire| <= maxRetries && world.reply(log + wire) == Reset)
  }

  lemma PartIsResumable(world: World, log: seq<Attempt>, shot: Attempt, maxRetries: nat,
                        wire: seq<Attempt>, reply: Result<Response, Failure>, k: nat)
    requires OverTheWire(world, log, shot, maxRetries, wire, reply) && k < |wire|
    ensures Resumable(world, log, shot, maxRetries, wire[..k])
  {
  }

  lemma WholeIsNotResumable(world: World, log: seq<Attempt>, shot: Attempt, maxRetries: nat,
                            wire: seq<Attempt>, reply: Result<Response, Failure>)
    requires OverTheWire(world, log, shot, maxRetries, wire, reply)
    ensures !Resumable(world, log, shot, maxRetries, wire)
  {
  }

  lemma NoShorter(world: World, log: seq<Attempt>, shot: Attempt, maxRetries: nat,
                  short: seq<Attempt>, reply: Result<Response, Failure>,
                  long: seq<Attempt>, reply': Result<Response, Failure>)
    requires OverTheWire(world, log, shot, maxRetries, short, reply)
    requires OverTheWire(world, log, shot, maxRetries, long, reply')
    ensures |short| >= |long| && (|short| == |long| ==> short == long)
  {
    if |short| <= |long| {
      assert long[..|short|] == short;
    }
    hide OverTheWire, Resumable;
    WholeIsNotResumable(world, log, shot, maxRetries, short, reply);
    if |short| < |long| {
      PartIsResumable(world, log, shot, maxRetries, long, reply', |short|);
    }
  }

  /** The surroundings decide a hop's attempts and its end. */
  lemma HopIsDetermined(world: World, log: seq<Attempt>, shot: Attempt, maxRetries: nat,
                        wire: seq<Attempt>, reply: Result<Response, Failure>,
                        wire': seq<Attempt>, reply': Result<Response, Failure>)
    requires OverTheWire(world, log, shot, maxRetries, wire, reply)
    requires OverTheWire(world, log, shot, maxRetries, wire', reply')
    ensures wire == wire' && reply == reply'
  {
    NoShorter(world, log, shot, maxRetries, wire, reply, wire', reply');
    NoShorter(world, log, shot, maxRetries, wire', reply', wire, reply);
  }

  // ---- The headers of a hop -------------------------------------------------

  function HopHeadersOf(
    world: World, omit: bool, log: seq<Attempt>, headers: seq<Entry>, url: Url, keepExplicitCookie: bool)
    : Option<seq<Entry>>
  {
    if omit then Some(Without(headers, COOKIE))
    else if !world.cookies || keepExplicitCookie then Some(headers)
    else
      match world.jar(log, url)
      case None => None
      case Some(text) =>
        var bare := Without(headers, COOKIE);
        Some(if text == "" then bare else Put(bare, COOKIE, text))
  }

  method HopHeaders(world: World, omit: bool, log: seq<Attempt>, headers: Headers, url: Url, keepExplicitCookie: bool)
    returns (sent: Option<seq<Entry>>)
    ensures sent == HopHeadersOf(world, omit, log, headers.entries, url, keepExplicitCookie)
  {
    var hop := new Headers(headers.entries);
    if omit {
      hop.Remove(COOKIE);
      return Some(hop.entries);
    }
    if !world.cookies || keepExplicitCookie {
      return Some(hop.entries);
    }
    hop.Remove(COOKIE);
    var text := world.jar(log, url);
    if text.None? {
      return None;
    }
    if text.value != "" {
      hop.Set(COOKIE, text.value);
    }
    return Some(hop.entries);
  }

  // ---- From one hop to the next ---------------------------------------------

  function FollowBudget(mode: RedirectMode, maxRedirects: Option<nat>): Option<nat> {
    if !mode.Follow? then None
    else
      match maxRedirects
      case Some(0) => None
      case Some(n) => Some(n)
      case None => Some(20)
  }

  function Budget(req: Request): nat {
    var budget := FollowBudget(req.redirect, req.maxRedirects);
    if budget.Some? then budget.value else 0
  }

  predicate IsRedirect(status: nat) {
    status == 301 || status == 302 || status == 303 || status == 307 || status == 308
  }

  predicate RewritesToGet(status: nat, verb: string) {
    ((status == 301 || status == 302) && verb == "POST") || (status == 303 && verb != GET && verb != "HEAD")
  }

  function WithoutAll(entries: seq<Entry>, names: seq<string>): seq<Entry>
    decreases |names|
  {
    if names == [] then entries else WithoutAll(Without(entries, names[0]), names[1..])
  }

  function RewrittenHeaders(status: nat, from: Url, next: Url, verb: string, headers: seq<Entry>): seq<Entry> {
    var content := if RewritesToGet(status, verb) then WithoutAll(headers, CONTENT) else headers;
    var bare := Without(content, COOKIE);
    if SameOrigin(next, from) then bare else Without(bare, AUTHORIZATION)
  }

  method RewriteForRedirect(status: nat, from: Url, next: Url, verb: string, body: Payload, headers: Headers)
    returns (newVerb: string, newBody: Payload)
    modifies headers
    ensures newVerb == if RewritesToGet(status, verb) then GET else verb
    ensures newBody == if RewritesToGet(status, verb) then Nothing else body
    ensures headers.entries == RewrittenHeaders(status, from, next, verb, old(headers.entries))
  {
    newVerb, newBody := verb, body;
    if RewritesToGet(status, verb) {
      newVerb, newBody := GET, Nothing;
      assert CONTENT[0..] == CONTENT;
      for i := 0 to |CONTENT|
        invariant WithoutAll(headers.entries, CONTENT[i..]) == WithoutAll(old(headers.entries), CONTENT)
      {
        assert CONTENT[i..][1..] == CONTENT[i + 1..];
        headers.Remove(CONTENT[i]);
      }
    }
    headers.Remove(COOKIE);
    if !SameOrigin(next, from) {
      headers.Remove(AUTHORIZATION);
    }
  }

  /** Header text is spaces, tabs and printable characters. */
  predicate AsksBasic(scheme: string)
    decreases |scheme|
  {
    if scheme != "" && (scheme[0] == ' ' || scheme[0] == '\t') then AsksBasic(scheme[1..])
    else "Basic" <= scheme
  }

  /** The answer to a `401` asking for Basic credentials that were not sent. */
  function ChallengeAnswer(world: World, url: Url, sent: seq<Entry>, response: Response): Option<string> {
    if response.status != 401 || Values(sent, AUTHORIZATION) != [] then None
    else
      match response.authenticate
      case Some(scheme) => if AsksBasic(scheme) then world.answer(url) else None
      case None => None
  }

  /** A stream is moved into the hop that sends it. */
  function Spent(body: Payload): Payload {
    if body.Streamed? then Nothing else body
  }

  function Redirected(leg: Leg, status: nat, next: Url): Leg
    requires leg.remaining.Some? && leg.remaining.value > 0
  {
    var toGet := RewritesToGet(status, leg.verb);
    Leg(if toGet then GET else leg.verb, next, RewrittenHeaders(status, leg.url, next, leg.verb, leg.headers),
        if toGet then Nothing else Spent(leg.body), Some(leg.remaining.value - 1), false, leg.followed + 1)
  }

  datatype Verdict = Continue(leg: Leg) | Stop(result: Result<Final, Failure>)

  function Conclude(req: Request, leg: Leg, response: Response): Result<Final, Failure> {
    if req.redirect.Refuse? && 300 <= response.status < 400 then Err(UnexpectedRedirect)
    else Ok(Final(response, leg.url, leg.followed))
  }

  /** What a reply leads to. */
  function Judge(world: World, req: Request, leg: Leg, sent: seq<Entry>, response: Response): Verdict {
    if IsRedirect(response.status) && leg.remaining.Some? then
      if leg.remaining.value == 0 then Stop(Err(TooManyRedirects(Budget(req))))
      else if response.location.None? then Stop(Conclude(req, leg, response))
      else
        match world.join(leg.url, response.location.value)
        case None => Stop(Err(BadLocation))
        case Some(next) =>
          if req.body.Streamed? && response.status != 303 then Stop(Err(StreamRefused))
          else Continue(Redirected(leg, response.status, next))
    else
      var answer := if req.body.Streamed? then None else ChallengeAnswer(world, leg.url, sent, response);
      if answer.Some?
        then Continue(leg.(headers := Put(leg.headers, AUTHORIZATION, answer.value), body := Spent(leg.body)))
      else Stop(Conclude(req, leg, response))
  }

  // ---- Whole runs -----------------------------------------------------------

  function Start(req: Request): Leg {
    Leg(req.verb, req.url, req.headers, req.body, FollowBudget(req.redirect, req.maxRedirects), true, 0)
  }

  function Log(hops: seq<Hop>): seq<Attempt> {
    if hops == [] then [] else Log(hops[..|hops| - 1]) + hops[|hops| - 1].wire
  }

  /** The variables the run goes on with, unless it ends. */
  function Next(world: World, req: Request, hops: seq<Hop>): Option<Leg> {
    if hops == [] then Some(Start(req))
    else
      var hop := hops[|hops| - 1];
      if hop.reply.Err? then None
      else
        match Judge(world, req, hop.leg, hop.sent, hop.reply.value)
        case Continue(leg) => Some(leg)
        case Stop(_) => None
  }

  function LegHeaders(world: World, req: Request, log: seq<Attempt>, leg: Leg): Option<seq<Entry>> {
    HopHeadersOf(world, req.omit, log, leg.headers, leg.url, leg.first && Values(req.headers, COOKIE) != [])
  }

  ghost predicate Sent(world: World, req: Request, log: seq<Attempt>, hop: Hop) {
    && world.allowed(hop.leg.url)
    && LegHeaders(world, req, log, hop.leg) == Some(hop.sent)
    && OverTheWire(world, log, Attempt(hop.leg.verb, hop.leg.url, hop.sent, hop.leg.body), req.maxRetries,
                   hop.wire, hop.reply)
  }

  /** The hops of a run, each one going on from the one before. */
  ghost predicate Chain(world: World, req: Request, hops: seq<Hop>) {
    hops == [] ||
    var before, hop := hops[..|hops| - 1], hops[|hops| - 1];
    Chain(world, req, before) && Next(world, req, before) == Some(hop.leg) && Sent(world, req, Log(before), hop)
  }

  /** How a run with these hops ends. */
  ghost predicate Ended(world: World, req: Request, hops: seq<Hop>, result: Result<Final, Failure>) {
    match Next(world, req, hops)
    case Some(leg) =>
      if !world.allowed(leg.url) then result == Err(Denied)
      else LegHeaders(world, req, Log(hops), leg).None? && result == Err(CookiesUnread)
    case None =>
      var hop := hops[|hops| - 1];
      if hop.reply.Err? then result == Err(hop.reply.error)
      else Judge(world, req, hop.leg, hop.sent, hop.reply.value) == Stop(result)
  }

  /** What is left to do: redirects first, then the one answer a hop without credentials may still get. */
  function Measure(leg: Leg): nat {
    2 * (if leg.remaining.Some? then leg.remaining.value else 0) +
    if Values(leg.headers, AUTHORIZATION) == [] then 1 else 0
  }

  method Send(world: World, req: Request) returns (result: Result<Final, Failure>, hops: seq<Hop>)
    ensures Chain(world, req, hops) && Ended(world, req, hops, result)
  {
    hide Chain, Log, Next, Ended, OverTheWire, RewrittenHeaders, HopHeadersOf, Values, Put, FollowBudget, AsksBasic;
    var verb, url, body := req.verb, req.url, req.body;
    var headers := new Headers(req.headers);
    var explicitCookie := headers.Contains(COOKIE);
    var remaining := FollowBudget(req.redirect, req.maxRedirects);
    var first, followed := true, 0;
    var log: seq<Attempt> := [];
    hops := [];
    NoHopYet(world, req);
    while true
      invariant fresh(headers) && Chain(world, req, hops) && log == Log(hops)
      invariant Next(world, req, hops) == Some(Leg(verb, url, headers.entries, body, remaining, first, followed))
      decreases Measure(Leg(verb, url, headers.entries, body, remaining, first, followed))
    {
      ghost var before := log;
      ghost var leg := Leg(verb, url, headers.entries, body, remaining, first, followed);
      if !world.allowed(url) {
        NoNextHop(world, req, hops, leg);
        return Err(Denied), hops;
      }
      var sent := HopHeaders(world, req.omit, log, headers, url, first && explicitCookie);
      assert sent == LegHeaders(world, req, log, leg);
      if sent.None? {
        NoNextHop(world, req, hops, leg);
        return Err(CookiesUnread), hops;
      }
      var reply, wire := SendHop(world, log, Attempt(verb, url, sent.value, body), req.maxRetries);
      var hop := Hop(Leg(verb, url, headers.entries, body, remaining, first, followed), sent.value, wire, reply);
      OneMoreHop(world, req, hops, hop);
      hops, log := hops + [hop], log + wire;
      body := Spent(body);
      if reply.Err? {
        return Err(reply.error), hops;
      }
      var response := reply.value;
      if IsRedirect(response.status) && remaining.Some? {
        if remaining.value == 0 {
          return Err(TooManyRedirects(Budget(req))), hops;
        }
        if response.location.Some? {
          var next := world.join(url, response.location.value);
          if next.None? {
            return Err(BadLocation), hops;
          }
          if req.body.Streamed? && response.status != 303 {
            return Err(StreamRefused), hops;
          }
          verb, body := RewriteForRedirect(response.status, url, next.value, verb, body, headers);
          url, remaining, first, followed := next.value, Some(remaining.value - 1), false, followed + 1;
          continue;
        }
      } else if !req.body.Streamed? {
        var answer := ChallengeAnswer(world, url, sent.value, response);
        if answer.Some? {
          AnsweringIsProgress(world, req, before, leg, sent.value, answer.value);
          headers.Set(AUTHORIZATION, answer.value);
          continue;
        }
      }
      if req.redirect.Refuse? && 300 <= response.status < 400 {
        return Err(UnexpectedRedirect), hops;
      }
      return Ok(Final(response, url, followed)), hops;
    }
  }

  /** A hop is sent with the loop's own headers, but for the cookies. */
  lemma OnlyCookiesDiffer(world: World, req: Request, log: seq<Attempt>, leg: Leg, sent: seq<Entry>, name: string)
    requires LegHeaders(world, req, log, leg) == Some(sent) && !Same(COOKIE, name)
    ensures Values(sent, name) == Values(leg.headers, name)
  {
    RemovedIsGone(leg.headers, COOKIE, name);
    if !req.omit && world.jar(log, leg.url).Some? {
      SetReplaces(Without(leg.headers, COOKIE), COOKIE, world.jar(log, leg.url).value, name);
    }
  }

  /** A hop answered is one that had no credentials, and the next has. */
  lemma AnsweringIsProgress(world: World, req: Request, log: seq<Attempt>, leg: Leg, sent: seq<Entry>, answer: string)
    requires LegHeaders(world, req, log, leg) == Some(sent) && Values(sent, AUTHORIZATION) == []
    ensures Values(leg.headers, AUTHORIZATION) == []
    ensures Values(Put(leg.headers, AUTHORIZATION, answer), AUTHORIZATION) == [answer]
  {
    assert |Lower(COOKIE)| != |Lower(AUTHORIZATION)|;
    OnlyCookiesDiffer(world, req, log, leg, sent, AUTHORIZATION);
    SetReplaces(leg.headers, AUTHORIZATION, answer, AUTHORIZATION);
  }

  lemma NoHopYet(world: World, req: Request)
    ensures Chain(world, req, []) && Log([]) == [] && Next(world, req, []) == Some(Start(req))
  {
  }

  lemma NoNextHop(world: World, req: Request, hops: seq<Hop>, leg: Leg)
    requires Next(world, req, hops) == Some(leg)
    ensures !world.allowed(leg.url) ==> Ended(world, req, hops, Err(Denied))
    ensures world.allowed(leg.url) && LegHeaders(world, req, Log(hops), leg).None? ==>
      Ended(world, req, hops, Err(CookiesUnread))
  {
  }

  lemma OneMoreHop(world: World, req: Request, hops: seq<Hop>, hop: Hop)
    requires Chain(world, req, hops) && Next(world, req, hops) == Some(hop.leg)
    requires world.allowed(hop.leg.url) && LegHeaders(world, req, Log(hops), hop.leg) == Some(hop.sent)
    requires OverTheWire(world, Log(hops), Attempt(hop.leg.verb, hop.leg.url, hop.sent, hop.leg.body), req.maxRetries,
                         hop.wire, hop.reply)
    ensures Chain(world, req, hops + [hop]) && Log(hops + [hop]) == Log(hops) + hop.wire
    ensures hop.reply.Err? ==> Ended(world, req, hops + [hop], Err(hop.reply.error))
    ensures hop.reply.Ok? ==>
      match Judge(world, req, hop.leg, hop.sent, hop.reply.value)
      case Continue(leg) => Next(world, req, hops + [hop]) == Some(leg)
      case Stop(result) => Ended(world, req, hops + [hop], result)
  {
    assert (hops + [hop])[..|hops|] == hops;
  }
}
