/**
 * The run bracket of one realm as a protocol: overlapping calls and visitors, the jobs they hand to the realm's event
 * loop, the pool of permits, the list of armed budgets, cancellation, and the rule that poisons the realm. A visitor
 * comes by `with`: it takes a permit as a call does, but is not bracketed, and poison does not keep it out. One event
 * is one atomic step of one of them, in any order.
 */
module Realms {
  import opened Prelude
  import Deadlines

  const HOST := Deadlines.HOST

  type CallId = nat

  type Token = nat

  datatype Outcome = Value | Failure(outOfMemory: bool)

  /** How far a call to `run`, or a visitor, has come. A call holding an armed budget carries its token. */
  datatype Pc =
    | Reserving
    | Limiting
    | Armed(token: Token)
    | Waiting(token: Token)
    | Settled(token: Token, outcome: Outcome)
    | BackstopFired(token: Token)
    | Finishing(outcome: Outcome)
    | Storing
    | FinishingBackstop
    | Poisoning(token: Token)
    | Cancelling(token: Token)
    | Disarming(token: Token)
    | Gone
    | Returned(poisoned: bool, refused: bool)
    | Knocking
    | Holding
    | Visiting
    | Left

  /** How far the call's job has come, on the loop. `Lost` has dropped its permit and not yet its reply channel. */
  datatype Job = NoJob | Queued | Running | Answered(outcome: Outcome) | Replied(outcome: Outcome) | Lost | Freed

  datatype Call = Call(pc: Pc, job: Job)

  datatype Realm = Realm(
    calls: map<CallId, Call>,
    free: nat,
    armed: seq<Token>,
    nextToken: Token,
    poisoned: bool,
    cancelled: bool,
    timedOut: bool,
    loopGone: bool)

  /** What is fixed when a realm is built. */
  datatype Config = Config(capacity: nat, backstopPoisons: bool)

  /** What one call, or its job on the loop, does next. */
  datatype Step =
    | Reserve | Leave | Arm | Send(uncaught: Option<bool>)
    | Begin | Complete(outcome: Outcome) | Abandon | Reply | Lose | FreeLost
    | See(uncaught: Option<bool>) | SeeLost(uncaught: Option<bool>) | FireBackstop | Drop
    | Poison | Cancel | Disarm
    | Finish | Store | FinishBackstop

  datatype Event =
    | Enter(id: CallId)
    | Visit(id: CallId)
    | By(id: CallId, step: Step)
    | Interrupt
    | ArmHost
    | DisarmHost
    | ShutDown

  function TokenOf(pc: Pc): Option<Token> {
    match pc
    case Armed(t) => Some(t)
    case Waiting(t) => Some(t)
    case Settled(t, _) => Some(t)
    case BackstopFired(t) => Some(t)
    case Poisoning(t) => Some(t)
    case Cancelling(t) => Some(t)
    case Disarming(t) => Some(t)
    case _ => None
  }

  /** The permit is with the call until its job is sent, and with the job from then on. */
  predicate HoldsPermit(call: Call) {
    call.pc.Limiting? || call.pc.Armed? || call.pc.Holding? || call.job.Queued? || call.job.Running?
  }

  /** Somebody still holds the receiving end of the job's reply channel. */
  predicate Awaited(call: Call) {
    call.pc.Waiting? || call.pc.Visiting?
  }

  function Without(armed: seq<Token>, token: Token): (kept: seq<Token>)
    ensures forall t :: t in kept <==> t in armed && t != token
  {
    if armed == [] then []
    else (if armed[0] == token then [] else [armed[0]]) + Without(armed[1..], token)
  }

  function TokensIn(armed: seq<Deadlines.Armed>): seq<Token> {
    if armed == [] then [] else [armed[0].token] + TokensIn(armed[1..])
  }

  lemma {:induction false} TokensOfOneMore(armed: seq<Deadlines.Armed>, more: Deadlines.Armed)
    ensures TokensIn(armed + [more]) == TokensIn(armed) + [more.token]
  {
    if armed == [] {
      assert [] + [more] == [more] && [more][1..] == [];
    } else {
      assert (armed + [more])[1..] == armed[1..] + [more];
      TokensOfOneMore(armed[1..], more);
    }
  }

  lemma {:induction false} TokensOfFewer(armed: seq<Deadlines.Armed>, token: Token)
    ensures TokensIn(Deadlines.Without(armed, token)) == Without(TokensIn(armed), token)
  {
    if armed != [] {
      TokensOfFewer(armed[1..], token);
      var rest := Deadlines.Without(armed[1..], token);
      assert TokensIn(armed)[1..] == TokensIn(armed[1..]);
      if armed[0].token != token {
        assert ([armed[0]] + rest)[1..] == rest;
      } else {
        assert [] + rest == rest;
      }
    }
  }

  /** The tokens here are those of the list the interrupt handler reads, through every change made to it. */
  lemma TokensFollowTheList(armed: seq<Deadlines.Armed>, token: Token, more: Deadlines.Armed)
    ensures TokensIn(Deadlines.Without(armed, token)) == Without(TokensIn(armed), token)
    ensures TokensIn(armed + [more]) == TokensIn(armed) + [more.token]
  {
    TokensOfFewer(armed, token);
    TokensOfOneMore(armed, more);
  }

  /** The step is one this call can take. */
  predicate CanStep(call: Call, step: Step, loopGone: bool) {
    match step
    case Reserve => call.pc.Reserving? || call.pc.Knocking?
    case Leave => call.pc.Limiting?
    case Arm => call.pc.Limiting?
    case Send(_) => call.pc.Armed? || call.pc.Holding?
    case Begin => call.job.Queued?
    case Complete(_) => call.job.Running?
    case Abandon => call.job.Running? && !Awaited(call)
    case Reply => call.job.Answered?
    case Lose => loopGone && (call.job.Queued? || call.job.Running?)
    case FreeLost => call.job.Lost?
    case See(_) => Awaited(call) && call.job.Replied?
    case SeeLost(_) => Awaited(call) && call.job.Freed?
    case FireBackstop => call.pc.Waiting?
    case Drop => Awaited(call)
    case Poison => call.pc.Poisoning?
    case Cancel => call.pc.Cancelling?
    case Disarm => call.pc.Disarming? || call.pc.Settled? || call.pc.BackstopFired?
    case Finish => call.pc.Finishing?
    case Store => call.pc.Storing?
    case FinishBackstop => call.pc.FinishingBackstop?
  }

  /** However the job was answered, an uncaught error that arrived is the outcome, out of memory or not. */
  function Unless(uncaught: Option<bool>, outcome: Outcome): Outcome {
    if uncaught.Some? then Failure(uncaught.value) else outcome
  }

  /** The call after its step. */
  function CallAfter(config: Config, s: Realm, call: Call, step: Step): Call
    requires CanStep(call, step, s.loopGone)
  {
    match step
    case Reserve =>
      call.(pc := if call.pc.Knocking? then (if s.free > 0 then Holding else Left)
                  else if s.free > 0 then Limiting else Finishing(Failure(false)))
    case Leave => call.(pc := Gone)
    case Arm => call.(pc := Armed(s.nextToken))
    case Send(uncaught) =>
      if call.pc.Holding? then (if s.loopGone then call.(pc := Left) else Call(Visiting, Queued))
      else if s.loopGone then call.(pc := Settled(call.pc.token, Unless(uncaught, Failure(false))))
      else Call(Waiting(call.pc.token), Queued)
    case Begin => call.(job := if Awaited(call) then Running else Freed)
    case Complete(outcome) => call.(job := Answered(outcome))
    case Abandon => call.(job := Freed)
    case Reply => call.(job := Replied(call.job.outcome))
    case Lose => call.(job := Lost)
    case FreeLost => call.(job := Freed)
    case See(uncaught) =>
      call.(pc := if call.pc.Visiting? then Left
                  else Settled(call.pc.token, Unless(uncaught, call.job.outcome)))
    case SeeLost(uncaught) =>
      call.(pc := if call.pc.Visiting? then Left else Settled(call.pc.token, Unless(uncaught, Failure(false))))
    case FireBackstop => call.(pc := BackstopFired(call.pc.token))
    case Drop => call.(pc := if call.pc.Visiting? then Left else Poisoning(call.pc.token))
    case Poison => call.(pc := Cancelling(call.pc.token))
    case Cancel => call.(pc := Disarming(call.pc.token))
    case Disarm =>
      call.(pc := match call.pc
                  case Settled(_, outcome) => Finishing(outcome)
                  case BackstopFired(_) => FinishingBackstop
                  case _ => Gone)
    case Finish =>
      call.(pc := if call.pc.outcome.Failure? && (s.timedOut || call.pc.outcome.outOfMemory) then Storing
                  else Returned(false, false))
    case Store => call.(pc := Returned(true, false))
    case FinishBackstop => call.(pc := Returned(config.backstopPoisons, false))
  }

  /** What a step gives back to the pool: the permit is dropped with whatever holds it. */
  predicate DropsPermit(s: Realm, call: Call, step: Step) {
    match step
    case Leave => true
    case Send(_) => s.loopGone
    case Begin => !Awaited(call)
    case Complete(_) => true
    case Abandon => true
    case Lose => true
    case _ => false
  }

  function Stepped(config: Config, s: Realm, id: CallId, step: Step): Realm
    requires id in s.calls && CanStep(s.calls[id], step, s.loopGone)
  {
    var call := s.calls[id];
    s.(calls := s.calls[id := CallAfter(config, s, call, step)],
       free := if step.Reserve? && s.free > 0 then s.free - 1
               else if DropsPermit(s, call, step) then s.free + 1 else s.free,
       armed := if step.Arm? then s.armed + [s.nextToken]
                else if step.Disarm? then Without(s.armed, call.pc.token) else s.armed,
       nextToken := if step.Arm? then s.nextToken + 1 else s.nextToken,
       poisoned := s.poisoned || step.Poison? || step.Store? || (step.FinishBackstop? && config.backstopPoisons),
       cancelled := s.cancelled || step.Cancel?)
  }

  predicate Enabled(s: Realm, e: Event) {
    match e
    case Enter(id) => id !in s.calls
    case Visit(id) => id !in s.calls
    case By(id, step) => id in s.calls && CanStep(s.calls[id], step, s.loopGone)
    case Interrupt => s.cancelled || s.armed != []
    case _ => true
  }

  function After(config: Config, s: Realm, e: Event): Realm
    requires Enabled(s, e)
  {
    match e
    case Enter(id) => s.(calls := s.calls[id := Call(if s.poisoned then Returned(true, true) else Reserving, NoJob)])
    case Visit(id) => s.(calls := s.calls[id := Call(Knocking, NoJob)])
    case By(id, step) => Stepped(config, s, id, step)
    case Interrupt => s.(timedOut := true)
    case ArmHost => s.(armed := Without(s.armed, HOST) + [HOST])
    case DisarmHost => s.(armed := Without(s.armed, HOST))
    case ShutDown => s.(loopGone := true)
  }

  function Built(config: Config): Realm {
    Realm(map[], config.capacity, [], HOST + 1, false, false, false, false)
  }

  /** What a realm comes to by these events, when each can happen in its turn. */
  function Run(config: Config, events: seq<Event>): Option<Realm>
    decreases |events|
  {
    if events == [] then Some(Built(config))
    else
      match Run(config, events[..|events| - 1])
      case Some(s) => if Enabled(s, events[|events| - 1]) then Some(After(config, s, events[|events| - 1])) else None
      case None => None
  }

  // ---- The invariant --------------------------------------------------------

  /** A job waits for a call, runs for it or has answered it only once the call has sent it. */
  ghost predicate JobsFit(s: Realm) {
    forall id :: id in s.calls ==>
      var call := s.calls[id];
      && (call.pc.Reserving? || call.pc.Limiting? || call.pc.Armed? || call.pc.Knocking? || call.pc.Holding? ==>
            call.job.NoJob?)
      && (Awaited(call) || call.pc.Poisoning? || call.pc.Cancelling? || call.pc.Disarming? ==> !call.job.NoJob?)
      && (call.pc.Returned? && call.pc.refused ==> call.job.NoJob?)
  }

  ghost function Holders(calls: map<CallId, Call>): set<CallId> {
    set id | id in calls && HoldsPermit(calls[id])
  }

  /** Permits are neither lost nor made. */
  ghost predicate PermitsAddUp(config: Config, s: Realm) {
    s.free + |Holders(s.calls)| == config.capacity
  }

  ghost predicate Distinct(tokens: seq<Token>) {
    forall i, j :: 0 <= i < j < |tokens| ==> tokens[i] != tokens[j]
  }

  /** The budget of each call that has not finished. */
  ghost function Budgets(calls: map<CallId, Call>): map<CallId, Token> {
    map id | id in calls && TokenOf(calls[id].pc).Some? :: TokenOf(calls[id].pc).value
  }

  /** What is armed is these budgets, one each, and at most the host's. */
  ghost predicate Matched(budgets: map<CallId, Token>, armed: seq<Token>, nextToken: Token) {
    && Distinct(armed)
    && HOST < nextToken
    && (forall t :: t in armed ==> t < nextToken)
    && (forall id :: id in budgets ==> budgets[id] in armed && budgets[id] != HOST)
    && (forall a, b :: a in budgets && b in budgets && budgets[a] == budgets[b] ==> a == b)
    && (forall t :: t in armed && t != HOST ==> exists id :: id in budgets && budgets[id] == t)
    && |armed| == |budgets| + if HOST in armed then 1 else 0
  }

  ghost predicate TokensMatch(s: Realm) {
    Matched(Budgets(s.calls), s.armed, s.nextToken)
  }

  /** The call has poisoned the realm: dropped while its budget was armed, or told so by its own result. */
  predicate Poisoner(call: Call) {
    call.pc.Cancelling? || call.pc.Disarming? || (call.pc.Gone? && !call.job.NoJob?) ||
    (call.pc.Returned? && call.pc.poisoned && !call.pc.refused)
  }

  ghost predicate PoisonHasACause(s: Realm) {
    && (s.poisoned <==> exists id :: id in s.calls && Poisoner(s.calls[id]))
    && (s.cancelled ==> s.poisoned)
    && (forall id :: id in s.calls && s.calls[id].pc.Returned? && s.calls[id].pc.refused ==>
          s.poisoned && s.calls[id].pc.poisoned)
  }

  ghost predicate Inv(config: Config, s: Realm) {
    JobsFit(s) && PermitsAddUp(config, s) && TokensMatch(s) && PoisonHasACause(s)
  }

  // ---- One step keeps it ----------------------------------------------------

  lemma JobsStayFit(config: Config, s: Realm, e: Event)
    requires JobsFit(s) && Enabled(s, e)
    ensures JobsFit(After(config, s, e))
  {
    hide Without, HoldsPermit, DropsPermit;
  }

  lemma HoldersUpdate(calls: map<CallId, Call>, id: CallId, call: Call)
    ensures |Holders(calls[id := call])| ==
      |Holders(calls)| - (if id in calls && HoldsPermit(calls[id]) then 1 else 0) + (if HoldsPermit(call) then 1 else 0)
  {
    hide HoldsPermit;
    var others := Holders(calls) - {id};
    assert Holders(calls[id := call]) == if HoldsPermit(call) then others + {id} else others;
    assert Holders(calls) == if id in calls && HoldsPermit(calls[id]) then others + {id} else others;
  }

  /** A call or its job lets go of a permit exactly when the pool gets it back, and takes one only from the pool. */
  lemma PermitMoves(config: Config, s: Realm, id: CallId, step: Step)
    requires JobsFit(s) && id in s.calls && CanStep(s.calls[id], step, s.loopGone)
    ensures
      var before, after := s.calls[id], CallAfter(config, s, s.calls[id], step);
      if step.Reserve? && s.free > 0 then !HoldsPermit(before) && HoldsPermit(after)
      else if DropsPermit(s, before, step) then HoldsPermit(before) && !HoldsPermit(after)
      else HoldsPermit(before) == HoldsPermit(after)
  {
  }

  lemma PermitsStayAddedUp(config: Config, s: Realm, e: Event)
    requires JobsFit(s) && PermitsAddUp(config, s) && Enabled(s, e)
    ensures PermitsAddUp(config, After(config, s, e))
  {
    hide HoldsPermit, CallAfter, CanStep, DropsPermit, Without, Holders;
    match e
    case Enter(id) =>
      var call := Call(if s.poisoned then Returned(true, true) else Reserving, NoJob);
      NewcomerHoldsNothing(call);
      HoldersUpdate(s.calls, id, call);
    case Visit(id) =>
      NewcomerHoldsNothing(Call(Knocking, NoJob));
      HoldersUpdate(s.calls, id, Call(Knocking, NoJob));
    case By(id, step) =>
      HoldersUpdate(s.calls, id, CallAfter(config, s, s.calls[id], step));
      PermitMoves(config, s, id, step);
    case _ =>
  }

  lemma NewcomerHoldsNothing(call: Call)
    requires call.job.NoJob? && (call.pc.Returned? || call.pc.Reserving? || call.pc.Knocking?)
    ensures !HoldsPermit(call) && TokenOf(call.pc).None?
  {
  }

  /** Only arming gives a call a token, and only disarming takes it. */
  lemma TokenMoves(config: Config, s: Realm, call: Call, step: Step)
    requires CanStep(call, step, s.loopGone)
    ensures
      var before, after := TokenOf(call.pc), TokenOf(CallAfter(config, s, call, step).pc);
      if step.Arm? then before.None? && after == Some(s.nextToken)
      else if step.Disarm? then before == Some(call.pc.token) && after.None?
      else before == after
  {
  }

  lemma {:induction false} WithoutTakesOne(tokens: seq<Token>, token: Token)
    requires Distinct(tokens)
    ensures Distinct(Without(tokens, token)) && |Without(tokens, token)| == |tokens| - if token in tokens then 1 else 0
  {
    if tokens != [] {
      var rest := tokens[1..];
      WithoutTakesOne(rest, token);
      assert tokens[0] !in rest;
      assert token in tokens <==> token == tokens[0] || token in rest;
    }
  }

  lemma BudgetsUpdate(calls: map<CallId, Call>, id: CallId, call: Call)
    ensures Budgets(calls[id := call]) ==
      match TokenOf(call.pc)
      case Some(t) => Budgets(calls)[id := t]
      case None => Budgets(calls) - {id}
  {
    hide TokenOf;
  }

  lemma ArmingMatches(budgets: map<CallId, Token>, armed: seq<Token>, nextToken: Token, id: CallId)
    requires Matched(budgets, armed, nextToken) && id !in budgets
    ensures Matched(budgets[id := nextToken], armed + [nextToken], nextToken + 1)
  {
    var more, longer := budgets[id := nextToken], armed + [nextToken];
    OneMoreIsDistinct(armed, nextToken);
    EachHasItsToken(budgets, armed, nextToken, id);
    hide Distinct;
    assert nextToken !in armed;
    assert forall t :: t in longer <==> t in armed || t == nextToken;
    forall a, b | a in more && b in more && more[a] == more[b] ensures a == b {
      assert a != id ==> budgets[a] in armed;
      assert b != id ==> budgets[b] in armed;
    }
    assert |more| == |budgets| + 1;
  }

  lemma OneMoreIsDistinct(tokens: seq<Token>, more: Token)
    requires Distinct(tokens) && more !in tokens
    ensures Distinct(tokens + [more])
  {
    var longer := tokens + [more];
    forall i, j | 0 <= i < j < |longer| ensures longer[i] != longer[j] {
      assert longer[i] in tokens;
    }
  }

  lemma EachHasItsToken(budgets: map<CallId, Token>, armed: seq<Token>, nextToken: Token, id: CallId)
    requires id !in budgets && forall t :: t in armed && t != HOST ==> exists a :: a in budgets && budgets[a] == t
    ensures
      var more := budgets[id := nextToken];
      forall t :: t in armed + [nextToken] && t != HOST ==> exists a :: a in more && more[a] == t
  {
    var more := budgets[id := nextToken];
    forall t | t in armed + [nextToken] && t != HOST ensures exists a :: a in more && more[a] == t {
      if t == nextToken {
        assert more[id] == t;
      } else {
        var a :| a in budgets && budgets[a] == t;
        assert more[a] == t;
      }
    }
  }

  lemma DisarmingMatches(budgets: map<CallId, Token>, armed: seq<Token>, nextToken: Token, id: CallId)
    requires Matched(budgets, armed, nextToken) && id in budgets
    ensures Matched(budgets - {id}, Without(armed, budgets[id]), nextToken)
  {
    var fewer, shorter := budgets - {id}, Without(armed, budgets[id]);
    WithoutTakesOne(armed, budgets[id]);
    hide Without, Distinct;
    FewerBudgets(budgets, id);
    forall t | t in shorter && t != HOST ensures exists a :: a in fewer && fewer[a] == t {
      var a :| a in budgets && budgets[a] == t;
      assert a in fewer && fewer[a] == t;
    }
  }

  lemma FewerBudgets(budgets: map<CallId, Token>, id: CallId)
    requires id in budgets
    ensures |budgets - {id}| == |budgets| - 1
  {
    assert (budgets - {id})[id := budgets[id]] == budgets;
  }

  lemma HostMatches(budgets: map<CallId, Token>, armed: seq<Token>, nextToken: Token)
    requires Matched(budgets, armed, nextToken)
    ensures Matched(budgets, Without(armed, HOST), nextToken) &&
      Matched(budgets, Without(armed, HOST) + [HOST], nextToken)
  {
    WithoutTakesOne(armed, HOST);
    hide Without;
    var kept := Without(armed, HOST);
    assert forall t :: t in kept + [HOST] <==> t in kept || t == HOST;
    assert Distinct(kept + [HOST]);
  }

  lemma TokensStayMatched(config: Config, s: Realm, e: Event)
    requires TokensMatch(s) && Enabled(s, e)
    ensures TokensMatch(After(config, s, e))
  {
    hide Matched, Budgets, TokenOf, CallAfter, CanStep, Without;
    var budgets := Budgets(s.calls);
    match e
    case Enter(id) =>
      var call := Call(if s.poisoned then Returned(true, true) else Reserving, NoJob);
      BudgetOf(s.calls, id);
      BudgetsUpdate(s.calls, id, call);
      NewcomerHoldsNothing(call);
    case Visit(id) =>
      BudgetOf(s.calls, id);
      BudgetsUpdate(s.calls, id, Call(Knocking, NoJob));
      NewcomerHoldsNothing(Call(Knocking, NoJob));
    case By(id, step) =>
      var call := CallAfter(config, s, s.calls[id], step);
      BudgetOf(s.calls, id);
      BudgetsUpdate(s.calls, id, call);
      TokenMoves(config, s, s.calls[id], step);
      if step.Arm? {
        ArmingMatches(budgets, s.armed, s.nextToken, id);
      } else if step.Disarm? {
        DisarmingMatches(budgets, s.armed, s.nextToken, id);
      }
    case ArmHost => HostMatches(budgets, s.armed, s.nextToken);
    case DisarmHost => HostMatches(budgets, s.armed, s.nextToken);
    case _ =>
  }

  lemma BudgetOf(calls: map<CallId, Call>, id: CallId)
    ensures
      var budgets := Budgets(calls);
      if id in calls && TokenOf(calls[id].pc).Some? then id in budgets && budgets[id] == TokenOf(calls[id].pc).value
      else id !in budgets
    ensures id in Budgets(calls) ==> Budgets(calls)[id := Budgets(calls)[id]] == Budgets(calls)
    ensures id !in Budgets(calls) ==> Budgets(calls) - {id} == Budgets(calls)
  {
    hide TokenOf;
  }

  /** A call becomes a poisoner with the step that poisons the realm, and stays one. */
  lemma PoisonMoves(config: Config, s: Realm, id: CallId, step: Step)
    requires JobsFit(s) && id in s.calls && CanStep(s.calls[id], step, s.loopGone)
    ensures
      var before, after := s.calls[id], CallAfter(config, s, s.calls[id], step);
      && (Poisoner(after) <==>
            Poisoner(before) || step.Poison? || step.Store? || (step.FinishBackstop? && config.backstopPoisons))
      && (step.Cancel? ==> Poisoner(before))
      && ((after.pc.Returned? && after.pc.refused) == (before.pc.Returned? && before.pc.refused))
      && (before.pc.Returned? ==> after.pc == before.pc)
  {
  }

  lemma PoisonKeepsItsCause(config: Config, s: Realm, e: Event)
    requires JobsFit(s) && PoisonHasACause(s) && Enabled(s, e)
    ensures PoisonHasACause(After(config, s, e)) && (s.poisoned ==> After(config, s, e).poisoned)
  {
    hide CallAfter, CanStep, Without;
    var after := After(config, s, e);
    if e.By? {
      PoisonMoves(config, s, e.id, e.step);
    }
    hide Poisoner, JobsFit;
    if s.poisoned {
      var id :| id in s.calls && Poisoner(s.calls[id]);
      assert id in after.calls && Poisoner(after.calls[id]);
    } else if after.poisoned {
      assert Poisoner(after.calls[e.id]);
    }
  }

  /** Every step keeps the invariant, whichever call, job or host takes it. */
  lemma StepKeepsInvariant(config: Config, s: Realm, e: Event)
    requires Inv(config, s) && Enabled(s, e)
    ensures Inv(config, After(config, s, e))
  {
    hide After, Enabled, JobsFit, PermitsAddUp, TokensMatch, PoisonHasACause;
    JobsStayFit(config, s, e);
    PermitsStayAddedUp(config, s, e);
    TokensStayMatched(config, s, e);
    PoisonKeepsItsCause(config, s, e);
  }

  // ---- Every run ------------------------------------------------------------

  lemma {:induction false} EveryRunKeepsInvariant(config: Config, events: seq<Event>)
    requires Run(config, events).Some?
    ensures Inv(config, Run(config, events).value)
    decreases |events|
  {
    hide After, Enabled;
    if events != [] {
      EveryRunKeepsInvariant(config, events[..|events| - 1]);
      StepKeepsInvariant(config, Run(config, events[..|events| - 1]).value, events[|events| - 1]);
    }
  }

  lemma {:induction false} EarlierRun(config: Config, events: seq<Event>, k: nat)
    requires Run(config, events).Some? && k <= |events|
    ensures Run(config, events[..k]).Some?
    decreases |events|
  {
    if k == |events| {
      assert events[..k] == events;
    } else {
      EarlierRun(config, events[..|events| - 1], k);
      assert events[..|events| - 1][..k] == events[..k];
    }
  }

  /** Poison is never cleared. */
  lemma {:induction false} PoisonIsForGood(config: Config, events: seq<Event>, k: nat)
    requires Run(config, events).Some? && k <= |events|
    requires Run(config, events[..k]).Some? && Run(config, events[..k]).value.poisoned
    ensures Run(config, events).value.poisoned
    decreases |events|
  {
    hide After, Enabled;
    if k == |events| {
      assert events[..k] == events;
    } else {
      var before := events[..|events| - 1];
      assert before[..k] == events[..k];
      PoisonIsForGood(config, before, k);
      EveryRunKeepsInvariant(config, before);
      PoisonKeepsItsCause(config, Run(config, before).value, events[|events| - 1]);
    }
  }

  /** A call that comes to a poisoned realm is turned away for good: no permit, no budget, no job. */
  lemma {:induction false} PoisonedRealmRunsNothing(config: Config, events: seq<Event>, k: nat, id: CallId)
    requires Run(config, events).Some? && k < |events| && events[k] == Enter(id)
    requires Run(config, events[..k]).Some? && Run(config, events[..k]).value.poisoned
    ensures
      var s := Run(config, events).value;
      id in s.calls && s.calls[id] == Call(Returned(true, true), NoJob) && !HoldsPermit(s.calls[id]) &&
        id !in Budgets(s.calls)
    decreases |events|
  {
    var before := events[..|events| - 1];
    if k < |before| {
      assert before[..k] == events[..k];
      PoisonedRealmRunsNothing(config, before, k, id);
      RefusedIsOver(config, Run(config, before).value, events[|events| - 1], id);
    } else {
      assert before == events[..k];
    }
    hide Run, After, Enabled;
    OverHoldsNothing(Call(Returned(true, true), NoJob));
    BudgetOf(Run(config, events).value.calls, id);
  }

  lemma RefusedIsOver(config: Config, s: Realm, e: Event, id: CallId)
    requires Enabled(s, e) && id in s.calls && s.calls[id] == Call(Returned(true, true), NoJob)
    ensures id in After(config, s, e).calls && After(config, s, e).calls[id] == s.calls[id]
  {
  }

  /** A result that says the realm is poisoned is right, and it is poisoned exactly when some call was the cause. */
  lemma ResultsTellOfPoison(config: Config, events: seq<Event>)
    requires Run(config, events).Some?
    ensures
      var s := Run(config, events).value;
      && (forall id :: id in s.calls && s.calls[id].pc.Returned? && s.calls[id].pc.poisoned ==> s.poisoned)
      && (s.poisoned <==> exists id :: id in s.calls && Poisoner(s.calls[id]))
      && (s.cancelled ==> s.poisoned)
  {
    EveryRunKeepsInvariant(config, events);
    var s := Run(config, events).value;
    hide Run;
    forall id | id in s.calls && s.calls[id].pc.Returned? && s.calls[id].pc.poisoned ensures s.poisoned {
      assert !s.calls[id].pc.refused ==> Poisoner(s.calls[id]);
    }
  }

  /**
   * Permits: those free and those held make up the capacity, so a call or a visitor is refused exactly when all of them
   * are held.
   */
  lemma RefusedOnlyWhenFull(config: Config, events: seq<Event>, id: CallId)
    requires Run(config, events).Some? && Enabled(Run(config, events).value, By(id, Reserve))
    ensures
      var s := Run(config, events).value;
      var before, after := s.calls[id].pc, CallAfter(config, s, s.calls[id], Reserve).pc;
      && s.free + |Holders(s.calls)| == config.capacity
      && (|Holders(s.calls)| < config.capacity <==> after == if before.Knocking? then Holding else Limiting)
      && (|Holders(s.calls)| == config.capacity <==>
        after == if before.Knocking? then Left else Finishing(Failure(false)))
  {
    EveryRunKeepsInvariant(config, events);
  }

  /** The caller has its answer: its job's, or that there is none to come. */
  predicate HasItsAnswer(call: Call) {
    (call.pc.Settled? || call.pc.Finishing? || call.pc.Storing? || call.pc.Returned? || call.pc.Left?) &&
    (call.job.NoJob? || call.job.Replied? || call.job.Freed?)
  }

  /** Callers that wait for one another's answers are never refused: a slot is back before its answer is seen. */
  lemma SerialCallersAreNeverRefused(config: Config, events: seq<Event>, id: CallId)
    requires config.capacity > 0 && Run(config, events).Some? && Enabled(Run(config, events).value, By(id, Reserve))
    requires forall other :: other in Run(config, events).value.calls && other != id ==>
      HasItsAnswer(Run(config, events).value.calls[other])
    ensures
      var call := Run(config, events).value.calls[id];
      CallAfter(config, Run(config, events).value, call, Reserve).pc == if call.pc.Knocking? then Holding else Limiting
  {
    EveryRunKeepsInvariant(config, events);
    var s := Run(config, events).value;
    assert Holders(s.calls) == {} by {
      forall other | other in s.calls ensures !HoldsPermit(s.calls[other]) {
      }
    }
  }

  // ---- Jobs given up, but still on the loop ----------------------------------

  /** The caller is done, and its job is not: it has yet to find that nobody waits for it. */
  predicate GivenUp(call: Call) {
    (call.job.Queued? || call.job.Running?) && !Awaited(call)
  }

  /** Nothing stands between this caller and its result but its own steps. */
  predicate Done(call: Call) {
    !call.pc.Reserving? && !call.pc.Limiting? && !call.pc.Armed? && !call.pc.Knocking? && !call.pc.Holding? &&
    !Awaited(call)
  }

  lemma GivingUpMoves(config: Config, s: Realm, call: Call, step: Step)
    requires CanStep(call, step, s.loopGone) && GivenUp(CallAfter(config, s, call, step))
    ensures GivenUp(call) || step.Drop? || step.FireBackstop?
  {
  }

  lemma GivingUpTakesADropOrABackstop(config: Config, s: Realm, e: Event, id: CallId)
    requires Enabled(s, e) && id in After(config, s, e).calls && GivenUp(After(config, s, e).calls[id])
    ensures id in s.calls && (GivenUp(s.calls[id]) || e == By(id, Drop) || e == By(id, FireBackstop))
  {
    hide Without, CallAfter, CanStep;
    if e.By? && e.id == id {
      GivingUpMoves(config, s, s.calls[id], e.step);
    }
  }

  /** A job is given up only by its caller's being dropped or by its backstop. */
  lemma {:induction false} GivenUpByDropOrBackstop(config: Config, events: seq<Event>, id: CallId)
    requires Run(config, events).Some?
    requires id in Run(config, events).value.calls && GivenUp(Run(config, events).value.calls[id])
    ensures By(id, Drop) in events || By(id, FireBackstop) in events
    decreases |events|
  {
    hide After, Enabled, GivenUp;
    var before, e := events[..|events| - 1], events[|events| - 1];
    assert e in events && forall b :: b in before ==> b in events;
    GivingUpTakesADropOrABackstop(config, Run(config, before).value, e, id);
    if GivenUp(Run(config, before).value.calls[id]) {
      GivenUpByDropOrBackstop(config, before, id);
    }
  }

  ghost function AllGivenUp(calls: map<CallId, Call>): set<CallId> {
    set id | id in calls && GivenUp(calls[id])
  }

  /**
   * A caller that comes when all others are done is refused exactly when jobs given up by a drop or a backstop, and not
   * yet off the loop, fill the capacity.
   */
  lemma SerialCallerIsRefusedIff(config: Config, events: seq<Event>, id: CallId)
    requires Run(config, events).Some? && Enabled(Run(config, events).value, By(id, Reserve))
    requires forall other :: other in Run(config, events).value.calls && other != id ==>
      Done(Run(config, events).value.calls[other])
    ensures
      var s := Run(config, events).value;
      var before, after := s.calls[id].pc, CallAfter(config, s, s.calls[id], Reserve).pc;
      after == (if before.Knocking? then Left else Finishing(Failure(false))) <==>
      |AllGivenUp(s.calls)| == config.capacity
  {
    EveryRunKeepsInvariant(config, events);
    var s := Run(config, events).value;
    assert Holders(s.calls) == AllGivenUp(s.calls) by {
      forall other | other in s.calls ensures HoldsPermit(s.calls[other]) <==> GivenUp(s.calls[other]) {
      }
    }
    RefusedOnlyWhenFull(config, events, id);
  }

  /** Where backstops do not poison, and there is room for one job: the call after a backstop can be refused. */
  lemma NextCallAfterABackstopIsRefused(config: Config)
    requires config.capacity == 1 && !config.backstopPoisons
    ensures exists events ::
      && Run(config, events).Some? && 0 in Run(config, events).value.calls && 1 in Run(config, events).value.calls
      && Run(config, events).value.calls[0] == Call(Returned(false, false), Job.Running)
      && Run(config, events).value.calls[1] == Call(Finishing(Failure(false)), NoJob)
  {
    var e1, s1 := HaltedButAnswering(config);
    var events, s := CutOffAndFollowed(config, e1, s1);
    hide Run;
  }

  lemma CutOffAndFollowed(config: Config, before: seq<Event>, t: Realm) returns (events: seq<Event>, s: Realm)
    requires !config.backstopPoisons && Run(config, before) == Some(t) && t.calls.Keys == {0} && t.free == 0
    requires t.calls[0] == Call(Waiting(1), Job.Running) && !t.poisoned
    ensures Run(config, events) == Some(s) && 0 in s.calls && 1 in s.calls
    ensures s.calls[0] == Call(Returned(false, false), Job.Running)
    ensures s.calls[1] == Call(Finishing(Failure(false)), NoJob)
  {
    hide Run, Without;
    var e1, s1 := Onward(config, before, t, By(0, FireBackstop));
    var e2, s2 := Onward(config, e1, s1, By(0, Disarm));
    var e3, s3 := Onward(config, e2, s2, By(0, FinishBackstop));
    var e4, s4 := Onward(config, e3, s3, Enter(1));
    events, s := Onward(config, e4, s4, By(1, Reserve));
  }

  predicate Over(call: Call) {
    (call.pc.Gone? || call.pc.Returned? || call.pc.Left?) && (call.job.NoJob? || call.job.Replied? || call.job.Freed?)
  }

  /**
   * Once every call, every visitor and every job is over, all permits are back and nothing but the host's budget is
   * armed.
   */
  lemma QuietRealmHasEverythingBack(config: Config, events: seq<Event>)
    requires Run(config, events).Some?
    requires forall id :: id in Run(config, events).value.calls ==> Over(Run(config, events).value.calls[id])
    ensures
      var s := Run(config, events).value;
      s.free == config.capacity && (s.armed == [] || s.armed == [HOST])
  {
    EveryRunKeepsInvariant(config, events);
    var s := Run(config, events).value;
    hide Run, JobsFit, PoisonHasACause, HoldsPermit, TokenOf, Over;
    forall id | id in s.calls ensures !HoldsPermit(s.calls[id]) && TokenOf(s.calls[id].pc).None? {
      OverHoldsNothing(s.calls[id]);
    }
    assert Holders(s.calls) == {} && Budgets(s.calls) == map[];
    assert |s.armed| <= 1;
  }

  lemma OverHoldsNothing(call: Call)
    requires Over(call)
    ensures !HoldsPermit(call) && TokenOf(call.pc).None?
  {
  }

  /**
   * The handler's flag does not poison by itself: a run it halted may still answer with a value, and the realm goes on.
   */
  lemma TimedOutIsNotPoisoned(config: Config)
    requires config.capacity > 0
    ensures exists events ::
      Run(config, events).Some? && Run(config, events).value.timedOut && !Run(config, events).value.poisoned &&
      exists id :: id in Run(config, events).value.calls &&
        Run(config, events).value.calls[id] == Call(Returned(false, false), Replied(Value))
  {
    var e4, s4 := HaltedButAnswering(config);
    var events, s := AnswersAfterAll(config, e4, s4);
    hide Run;
    assert 0 in s.calls;
  }

  lemma AnswersAfterAll(config: Config, before: seq<Event>, t: Realm) returns (events: seq<Event>, s: Realm)
    requires Run(config, before) == Some(t) && 0 in t.calls
    requires t.calls[0] == Call(Waiting(1), Job.Running) && t.timedOut && !t.poisoned && !t.cancelled
    ensures Run(config, events) == Some(s) && 0 in s.calls
    ensures s.calls[0] == Call(Returned(false, false), Replied(Value)) && s.timedOut && !s.poisoned
  {
    hide Run, Without;
    var e1, s1 := Onward(config, before, t, By(0, Complete(Value)));
    var e2, s2 := Onward(config, e1, s1, By(0, Reply));
    var e3, s3 := Onward(config, e2, s2, By(0, See(None)));
    var e4, s4 := Onward(config, e3, s3, By(0, Disarm));
    events, s := Onward(config, e4, s4, By(0, Finish));
  }

  lemma HaltedButAnswering(config: Config) returns (events: seq<Event>, s: Realm)
    requires config.capacity > 0
    ensures Run(config, events) == Some(s) && 0 in s.calls
    ensures s.calls[0] == Call(Waiting(1), Job.Running) && s.timedOut && !s.poisoned && !s.cancelled
    ensures s.calls.Keys == {0} && s.free == config.capacity - 1
  {
    var e3, s3 := FirstIsArmed(config);
    hide Run;
    var e4, s4 := Onward(config, e3, s3, By(0, Send(None)));
    var e5, s5 := Onward(config, e4, s4, By(0, Begin));
    events, s := Onward(config, e5, s5, Interrupt);
  }

  lemma FirstIsArmed(config: Config) returns (events: seq<Event>, s: Realm)
    requires config.capacity > 0
    ensures Run(config, events) == Some(s) && s.calls.Keys == {0} && s.calls[0] == Call(Armed(1), NoJob)
    ensures s.armed == [1] && !s.poisoned && !s.cancelled && !s.loopGone && s.free == config.capacity - 1
  {
    var e0: seq<Event> := [];
    var e1, s1 := Onward(config, e0, Built(config), Enter(0));
    hide Run;
    var e2, s2 := Onward(config, e1, s1, By(0, Reserve));
    events, s := Onward(config, e2, s2, By(0, Arm));
  }

  lemma Onward(config: Config, events: seq<Event>, s: Realm, e: Event) returns (events': seq<Event>, s': Realm)
    requires Run(config, events) == Some(s) && Enabled(s, e)
    ensures events' == events + [e] && s' == After(config, s, e) && Run(config, events') == Some(s')
  {
    events', s' := events + [e], After(config, s, e);
    assert events'[..|events|] == events;
  }

  // ---- When a realm is poisoned ----------------------------------------------

  /** The event sets the flag of poison. */
  predicate Poisons(config: Config, e: Event) {
    e.By? && (e.step.Poison? || e.step.Store? || (e.step.FinishBackstop? && config.backstopPoisons))
  }

  /** Poison comes from a dropped call, a stored failure or a backstop that poisons, and from nothing else. */
  lemma {:induction false} PoisonedByItsEvents(config: Config, events: seq<Event>)
    requires Run(config, events).Some?
    ensures Run(config, events).value.poisoned <==> exists k :: 0 <= k < |events| && Poisons(config, events[k])
    decreases |events|
  {
    hide Enabled;
    if events != [] {
      var before := events[..|events| - 1];
      PoisonedByItsEvents(config, before);
      if k :| 0 <= k < |events| && Poisons(config, events[k]) {
        assert k < |before| ==> before[k] == events[k];
      }
    }
  }

  /** The call ends with a failure at this step, in a realm whose state makes that fatal. */
  predicate FinishesFatally(s: Realm, id: CallId) {
    && id in s.calls && s.calls[id].pc.Finishing? && s.calls[id].pc.outcome.Failure?
    && (s.timedOut || s.calls[id].pc.outcome.outOfMemory)
  }

  ghost predicate FinishedFatally(config: Config, events: seq<Event>, k: nat, id: CallId) {
    k < |events| && events[k] == By(id, Finish) && Run(config, events[..k]).Some? &&
    FinishesFatally(Run(config, events[..k]).value, id)
  }

  /** The store of the flag is the call's next step. */
  predicate StoresNext(s: Realm, id: CallId) {
    id in s.calls && s.calls[id].pc.Storing?
  }

  lemma StoringMoves(config: Config, s: Realm, e: Event, id: CallId)
    requires Enabled(s, e)
    ensures StoresNext(After(config, s, e), id) <==>
      (e == By(id, Finish) && FinishesFatally(s, id)) || (StoresNext(s, id) && e != By(id, Store))
  {
    hide Without;
  }

  /** A call stores the poison exactly after it failed with the interrupt flag set, or for want of memory. */
  lemma {:induction false} StoredAfterFailing(config: Config, events: seq<Event>, id: CallId)
    requires Run(config, events).Some?
    ensures StoresNext(Run(config, events).value, id) <==>
      exists k: nat :: FinishedFatally(config, events, k, id) && By(id, Store) !in events[k..]
    decreases |events|
  {
    hide After, Enabled, FinishesFatally;
    if events == [] {
      NothingBuiltYet(config, id);
    } else {
      var n := |events| - 1;
      var before := events[..n];
      StoredAfterFailing(config, before, id);
      StoringMoves(config, Run(config, before).value, events[n], id);
      if k: nat :| FinishedFatally(config, events, k, id) && By(id, Store) !in events[k..] {
        if k < n {
          assert before[..k] == events[..k] && events[k..] == before[k..] + [events[n]];
          assert FinishedFatally(config, before, k, id) && events[n] in events[k..];
        }
      }
      if k: nat :| FinishedFatally(config, before, k, id) && By(id, Store) !in before[k..] &&
                   events[n] != By(id, Store)
      {
        assert before[..k] == events[..k] && events[k..] == before[k..] + [events[n]];
        assert FinishedFatally(config, events, k, id);
      }
      if events[n] == By(id, Finish) && FinishesFatally(Run(config, before).value, id) {
        assert FinishedFatally(config, events, n, id) && events[n..] == [events[n]];
      }
    }
  }

  lemma NothingBuiltYet(config: Config, id: CallId)
    ensures !StoresNext(Built(config), id)
  {
  }

  /** The realm is poisoned, or a call has only the store of the flag left to do before it returns so. */
  ghost predicate Doomed(s: Realm) {
    s.poisoned || exists id :: StoresNext(s, id)
  }

  /** The event dooms the realm: a dropped call, a backstop that poisons, or a failure under the flag or for memory. */
  predicate Fatal(config: Config, s: Realm, e: Event) {
    e.By? &&
    (e.step.Poison? || (e.step.FinishBackstop? && config.backstopPoisons) ||
      (e.step.Finish? && FinishesFatally(s, e.id)))
  }

  ghost predicate FatalAt(config: Config, events: seq<Event>, k: nat) {
    k < |events| && Run(config, events[..k]).Some? && Fatal(config, Run(config, events[..k]).value, events[k])
  }

  lemma DoomComesByFatalEvents(config: Config, s: Realm, e: Event)
    requires Enabled(s, e) && Doomed(After(config, s, e)) && !Doomed(s)
    ensures Fatal(config, s, e)
  {
    PoisonFlagMoves(config, s, e);
    var after := After(config, s, e);
    hide After, Enabled, FinishesFatally;
    if after.poisoned {
      if e.step.Store? {
        OnlyStoringCallsStore(s, e);
      }
    } else {
      var id :| StoresNext(after, id);
      StoringMoves(config, s, e, id);
    }
  }

  lemma OnlyStoringCallsStore(s: Realm, e: Event)
    requires Enabled(s, e) && e.By? && e.step.Store?
    ensures StoresNext(s, e.id)
  {
  }

  lemma FatalEventsDoom(config: Config, s: Realm, e: Event)
    requires Enabled(s, e) && Fatal(config, s, e)
    ensures Doomed(After(config, s, e))
  {
    PoisonFlagMoves(config, s, e);
    hide After, Enabled, FinishesFatally;
    if e.step.Finish? {
      StoringMoves(config, s, e, e.id);
      assert StoresNext(After(config, s, e), e.id);
    }
  }

  lemma DoomStays(config: Config, s: Realm, e: Event)
    requires Enabled(s, e) && Doomed(s)
    ensures Doomed(After(config, s, e))
  {
    PoisonFlagMoves(config, s, e);
    hide After, Enabled, FinishesFatally;
    if !s.poisoned {
      var id :| StoresNext(s, id);
      StoringMoves(config, s, e, id);
      if e == By(id, Store) {
        assert Poisons(config, e);
      } else {
        assert StoresNext(After(config, s, e), id);
      }
    }
  }

  lemma DoomMoves(config: Config, s: Realm, e: Event)
    requires Enabled(s, e)
    ensures Doomed(After(config, s, e)) <==> Doomed(s) || Fatal(config, s, e)
  {
    hide *;
    if Doomed(After(config, s, e)) && !Doomed(s) {
      DoomComesByFatalEvents(config, s, e);
    }
    if Doomed(s) {
      DoomStays(config, s, e);
    } else if Fatal(config, s, e) {
      FatalEventsDoom(config, s, e);
    }
  }

  lemma PoisonFlagMoves(config: Config, s: Realm, e: Event)
    requires Enabled(s, e)
    ensures After(config, s, e).poisoned <==> s.poisoned || Poisons(config, e)
  {
  }

  /** A run is doomed exactly by its fatal events. */
  lemma {:induction false} DoomedByItsEvents(config: Config, events: seq<Event>)
    requires Run(config, events).Some?
    ensures Doomed(Run(config, events).value) <==> exists k: nat :: FatalAt(config, events, k)
    decreases |events|
  {
    hide After, Enabled, Fatal;
    if events != [] {
      var n := |events| - 1;
      var before := events[..n];
      DoomedByItsEvents(config, before);
      DoomMoves(config, Run(config, before).value, events[n]);
      hide Doomed;
      forall k: nat | k < n ensures FatalAt(config, events, k) <==> FatalAt(config, before, k) {
        assert before[..k] == events[..k];
      }
      assert FatalAt(config, events, n) <==> Fatal(config, Run(config, before).value, events[n]);
      if k: nat :| FatalAt(config, before, k) {
        assert FatalAt(config, events, k);
      }
    }
  }

  /** The interrupt flag is never cleared. */
  lemma {:induction false} TimedOutIsForGood(config: Config, events: seq<Event>, k: nat)
    requires Run(config, events).Some? && k <= |events|
    requires Run(config, events[..k]).Some? && Run(config, events[..k]).value.timedOut
    ensures Run(config, events).value.timedOut
    decreases |events|
  {
    hide Enabled;
    if k == |events| {
      assert events[..k] == events;
    } else {
      assert events[..|events| - 1][..k] == events[..k];
      TimedOutIsForGood(config, events[..|events| - 1], k);
    }
  }

  /** After a halt: a call is dropped, a backstop poisons, or any call ends with a failure, whatever it failed of. */
  ghost predicate FailsAt(config: Config, events: seq<Event>, k: nat) {
    && k < |events| && events[k].By? && Run(config, events[..k]).Some?
    && var s := Run(config, events[..k]).value;
       var id, step := events[k].id, events[k].step;
       step.Poison? || (step.FinishBackstop? && config.backstopPoisons) ||
       (step.Finish? && id in s.calls && s.calls[id].pc.Finishing? && s.calls[id].pc.outcome.Failure?)
  }

  /** With the flag set at `k`, what comes after poisons exactly when some call is dropped, cut off or fails in it. */
  lemma HaltedRealmsArePoisonedByFailing(config: Config, events: seq<Event>, k: nat)
    requires Run(config, events).Some? && k <= |events|
    requires Run(config, events[..k]).Some? && Run(config, events[..k]).value.timedOut
    ensures Doomed(Run(config, events).value) <==>
      Doomed(Run(config, events[..k]).value) || exists j: nat :: k <= j && FailsAt(config, events, j)
  {
    DoomedByItsEvents(config, events);
    DoomedByItsEvents(config, events[..k]);
    hide Doomed;
    forall j: nat | j < k ensures FatalAt(config, events, j) <==> FatalAt(config, events[..k], j) {
      assert events[..k][..j] == events[..j];
    }
    forall j: nat | k <= j < |events| ensures FatalAt(config, events, j) <==> FailsAt(config, events, j) {
      EarlierRun(config, events, j);
      assert events[..j][..k] == events[..k];
      TimedOutIsForGood(config, events[..j], k);
    }
    hide FatalAt, FailsAt, Run;
    if j: nat :| FatalAt(config, events, j) {
      assert j < k ==> FatalAt(config, events[..k], j);
      assert k <= j < |events| ==> FailsAt(config, events, j);
    }
    if j: nat :| FatalAt(config, events[..k], j) {
      assert FatalAt(config, events, j);
    }
  }

  // ---- Flags and outcomes, told by the events ---------------------------------

  predicate Cancels(e: Event) {
    e.By? && e.step.Cancel?
  }

  lemma FlagsMove(config: Config, s: Realm, e: Event)
    requires Enabled(s, e)
    ensures After(config, s, e).cancelled <==> s.cancelled || Cancels(e)
    ensures After(config, s, e).timedOut <==> s.timedOut || e == Interrupt
    ensures After(config, s, e).loopGone <==> s.loopGone || e == ShutDown
  {
  }

  /** A realm is cancelled exactly once a dropped call has cancelled it, and halted once it was interrupted. */
  lemma {:induction false} FlagsTellOfEvents(config: Config, events: seq<Event>)
    requires Run(config, events).Some?
    ensures Run(config, events).value.cancelled <==> exists k :: 0 <= k < |events| && Cancels(events[k])
    ensures Run(config, events).value.timedOut <==> Interrupt in events
    ensures Run(config, events).value.loopGone <==> ShutDown in events
    decreases |events|
  {
    if events != [] {
      var before, e := events[..|events| - 1], events[|events| - 1];
      FlagsTellOfEvents(config, before);
      FlagsMove(config, Run(config, before).value, e);
      assert events == before + [e];
      hide After, Enabled, Cancels;
      if k :| 0 <= k < |events| && Cancels(events[k]) {
        assert k < |before| ==> before[k] == events[k];
      }
      if k :| 0 <= k < |before| && Cancels(before[k]) {
        assert events[k] == before[k];
      }
    }
  }

  /** A call to `run` whose future was dropped while its job was on the loop. */
  predicate Dropped(call: Call) {
    call.pc.Poisoning? || call.pc.Cancelling? || call.pc.Disarming? || (call.pc.Gone? && !call.job.NoJob?)
  }

  /** Its budget is armed until it has cancelled the realm. */
  ghost predicate DroppedIsHalted(s: Realm, id: CallId) {
    id in s.calls && Dropped(s.calls[id]) ==>
      s.cancelled || (TokenOf(s.calls[id].pc).Some? && !s.calls[id].pc.Disarming?)
  }

  lemma DroppingMoves(config: Config, s: Realm, e: Event, id: CallId)
    requires JobsFit(s) && Enabled(s, e) && DroppedIsHalted(s, id)
    ensures DroppedIsHalted(After(config, s, e), id)
    ensures id in s.calls && Dropped(s.calls[id]) ==>
      id in After(config, s, e).calls && Dropped(After(config, s, e).calls[id])
    ensures e == By(id, Drop) && s.calls[id].pc.Waiting? ==> Dropped(After(config, s, e).calls[id])
  {
    hide Without;
  }

  lemma {:induction false} EveryDroppedCallIsHalted(config: Config, events: seq<Event>, id: CallId)
    requires Run(config, events).Some?
    ensures DroppedIsHalted(Run(config, events).value, id)
    decreases |events|
  {
    hide After, Enabled, DroppedIsHalted;
    if events == [] {
      assert DroppedIsHalted(Built(config), id) by {
        NobodyIsDropped(config, id);
      }
    } else {
      EveryDroppedCallIsHalted(config, events[..|events| - 1], id);
      EveryRunKeepsInvariant(config, events[..|events| - 1]);
      DroppingMoves(config, Run(config, events[..|events| - 1]).value, events[|events| - 1], id);
    }
  }

  lemma NobodyIsDropped(config: Config, id: CallId)
    ensures DroppedIsHalted(Built(config), id)
  {
  }

  /**
   * Once a call to `run` has been dropped with its job on the loop, the interrupt handler can halt the script there, in
   * every state of every continuation.
   */
  lemma {:induction false} DroppedScriptsCanBeHalted(config: Config, events: seq<Event>, k: nat, id: CallId)
    requires Run(config, events).Some? && k <= |events|
    requires Run(config, events[..k]).Some? && id in Run(config, events[..k]).value.calls
    requires Dropped(Run(config, events[..k]).value.calls[id])
    ensures id in Run(config, events).value.calls && Dropped(Run(config, events).value.calls[id])
    ensures Enabled(Run(config, events).value, Interrupt)
    decreases |events|
  {
    var s := Run(config, events).value;
    if k == |events| {
      assert events[..k] == events;
    } else {
      var before := events[..|events| - 1];
      assert before[..k] == events[..k];
      DroppedScriptsCanBeHalted(config, before, k, id);
      EveryDroppedCallIsHalted(config, before, id);
      EveryRunKeepsInvariant(config, before);
      hide After, Enabled, JobsFit, PermitsAddUp, PoisonHasACause, TokensMatch, DroppedIsHalted;
      DroppingMoves(config, Run(config, before).value, events[|events| - 1], id);
    }
    EveryDroppedCallIsHalted(config, events, id);
    EveryRunKeepsInvariant(config, events);
    hide Run, JobsFit, PermitsAddUp, PoisonHasACause;
    if !s.cancelled {
      BudgetOf(s.calls, id);
      assert Budgets(s.calls)[id] in s.armed;
    }
  }

  /** What a call settles with at this step: an uncaught error that arrived, or else what came of its job. */
  predicate SettlesSo(s: Realm, e: Event, id: CallId, outcome: Outcome) {
    && e.By? && e.id == id && id in s.calls
    && match e.step
       case See(Some(oom)) => s.calls[id].pc.Waiting? && s.calls[id].job.Replied? && outcome == Failure(oom)
       case See(None) => s.calls[id].pc.Waiting? && s.calls[id].job == Replied(outcome)
       case SeeLost(Some(oom)) => s.calls[id].pc.Waiting? && s.calls[id].job.Freed? && outcome == Failure(oom)
       case SeeLost(None) => s.calls[id].pc.Waiting? && s.calls[id].job.Freed? && outcome == Failure(false)
       case Send(Some(oom)) => s.calls[id].pc.Armed? && s.loopGone && outcome == Failure(oom)
       case Send(None) => s.calls[id].pc.Armed? && s.loopGone && outcome == Failure(false)
       case Reserve => s.calls[id].pc.Reserving? && s.free == 0 && outcome == Failure(false)
       case _ => false
  }

  ghost predicate SettledSo(config: Config, events: seq<Event>, k: nat, id: CallId, outcome: Outcome) {
    k < |events| && Run(config, events[..k]).Some? && SettlesSo(Run(config, events[..k]).value, events[k], id, outcome)
  }

  predicate HoldsOutcome(pc: Pc, outcome: Outcome) {
    match pc
    case Settled(_, o) => o == outcome
    case Finishing(o) => o == outcome
    case _ => false
  }

  predicate HasOutcome(s: Realm, id: CallId, outcome: Outcome) {
    id in s.calls && HoldsOutcome(s.calls[id].pc, outcome)
  }

  lemma NewcomersHaveNone(outcome: Outcome)
    ensures !HoldsOutcome(Reserving, outcome) && !HoldsOutcome(Knocking, outcome) &&
      !HoldsOutcome(Returned(true, true), outcome)
  {
  }

  lemma StepSettles(config: Config, s: Realm, id: CallId, step: Step, outcome: Outcome)
    requires id in s.calls && CanStep(s.calls[id], step, s.loopGone)
    ensures HoldsOutcome(CallAfter(config, s, s.calls[id], step).pc, outcome) <==>
      SettlesSo(s, By(id, step), id, outcome) || (HoldsOutcome(s.calls[id].pc, outcome) && !step.Finish?)
  {
  }

  lemma OutcomeMoves(config: Config, s: Realm, e: Event, id: CallId, outcome: Outcome)
    requires Enabled(s, e)
    ensures HasOutcome(After(config, s, e), id, outcome) <==>
      SettlesSo(s, e, id, outcome) || (HasOutcome(s, id, outcome) && e != By(id, Finish))
  {
    hide Without, DropsPermit, CallAfter, CanStep, HoldsOutcome;
    NewcomersHaveNone(outcome);
    if e.By? && e.id == id {
      StepSettles(config, s, id, e.step, outcome);
      hide SettlesSo;
    }
  }

  /** It settled so at this event, and has not finished since. */
  ghost predicate SettledSince(config: Config, events: seq<Event>, k: nat, id: CallId, outcome: Outcome) {
    SettledSo(config, events, k, id, outcome) && By(id, Finish) !in events[k..]
  }

  lemma SettledEarlier(config: Config, events: seq<Event>, k: nat, id: CallId, outcome: Outcome)
    requires k + 1 < |events|
    ensures SettledSince(config, events, k, id, outcome) <==>
      SettledSince(config, events[..|events| - 1], k, id, outcome) && events[|events| - 1] != By(id, Finish)
  {
    hide Run, SettlesSo;
    var n := |events| - 1;
    assert events[..n][..k] == events[..k] && events[k..] == events[..n][k..] + [events[n]];
  }

  lemma SettledLast(config: Config, events: seq<Event>, id: CallId, outcome: Outcome)
    requires events != [] && Run(config, events).Some?
    ensures
      var n := |events| - 1;
      SettledSince(config, events, n, id, outcome) <==>
      SettlesSo(Run(config, events[..n]).value, events[n], id, outcome)
  {
    var n := |events| - 1;
    assert events[n..] == [events[n]];
    hide After, Enabled;
    if SettlesSo(Run(config, events[..n]).value, events[n], id, outcome) {
      SettlingIsNotFinishing(Run(config, events[..n]).value, events[n], id, outcome);
    }
  }

  /** A call has an outcome exactly from the step it settled with it at until it has finished. */
  lemma {:induction false} OutcomesComeFromSettling(config: Config, events: seq<Event>, id: CallId, outcome: Outcome)
    requires Run(config, events).Some?
    ensures HasOutcome(Run(config, events).value, id, outcome) <==>
      exists k: nat :: SettledSince(config, events, k, id, outcome)
    decreases |events|
  {
    hide After, Enabled, SettlesSo, HasOutcome;
    if events == [] {
      NoOutcomeYet(config, id, outcome);
    } else {
      var n := |events| - 1;
      var before := events[..n];
      OutcomesComeFromSettling(config, before, id, outcome);
      OutcomeMoves(config, Run(config, before).value, events[n], id, outcome);
      SettledLast(config, events, id, outcome);
      SettledIsWithin(config, events, id, outcome);
      SettledIsWithin(config, before, id, outcome);
      hide SettledSince, Run;
      forall k: nat | k < n ensures SettledSince(config, events, k, id, outcome) <==>
        SettledSince(config, before, k, id, outcome) && events[n] != By(id, Finish)
      {
        SettledEarlier(config, events, k, id, outcome);
      }
    }
  }

  lemma SettledIsWithin(config: Config, events: seq<Event>, id: CallId, outcome: Outcome)
    ensures forall k: nat :: SettledSince(config, events, k, id, outcome) ==> k < |events|
  {
    hide Run, SettlesSo;
  }

  lemma NoOutcomeYet(config: Config, id: CallId, outcome: Outcome)
    ensures !HasOutcome(Built(config), id, outcome)
  {
  }

  lemma SettlingIsNotFinishing(s: Realm, e: Event, id: CallId, outcome: Outcome)
    requires SettlesSo(s, e, id, outcome)
    ensures e != By(id, Finish)
  {
  }

  /** And what a job replies is what it completed with. */
  lemma {:induction false} RepliesAreOfCompletion(config: Config, events: seq<Event>, id: CallId)
    requires Run(config, events).Some? && id in Run(config, events).value.calls
    ensures
      var job := Run(config, events).value.calls[id].job;
      job.Answered? || job.Replied? ==> By(id, Complete(job.outcome)) in events
    decreases |events|
  {
    hide After, Enabled;
    if events != [] {
      var before, e := events[..|events| - 1], events[|events| - 1];
      assert events == before + [e];
      ReplyMoves(config, Run(config, before).value, e, id);
      if id in Run(config, before).value.calls {
        RepliesAreOfCompletion(config, before, id);
      }
    }
  }

  lemma ReplyMoves(config: Config, s: Realm, e: Event, id: CallId)
    requires Enabled(s, e) && id in After(config, s, e).calls
    ensures
      var job := After(config, s, e).calls[id].job;
      job.Answered? || job.Replied? ==>
        e == By(id, Complete(job.outcome)) ||
        (id in s.calls && (s.calls[id].job.Answered? || s.calls[id].job.Replied?) &&
          s.calls[id].job.outcome == job.outcome)
  {
    hide Without, DropsPermit, CallAfter, CanStep;
    if e.By? && e.id == id {
      ReplySteps(config, s, s.calls[id], e.step);
    }
  }

  lemma ReplySteps(config: Config, s: Realm, call: Call, step: Step)
    requires CanStep(call, step, s.loopGone)
    ensures
      var job := CallAfter(config, s, call, step).job;
      job.Answered? || job.Replied? ==>
        step == Complete(job.outcome) ||
        ((call.job.Answered? || call.job.Replied?) && call.job.outcome == job.outcome)
  {
  }

  /** A call dropped at its job: it poisons, cancels and disarms, and what is left of it can still be halted. */
  lemma DroppedCallCancels(config: Config) returns (events: seq<Event>, s: Realm)
    requires config.capacity > 0
    ensures Run(config, events) == Some(s) && s.calls.Keys == {0} && s.calls[0] == Call(Gone, Job.Running)
    ensures s.armed == [] && s.poisoned && s.cancelled && Enabled(s, Interrupt) && s.free == config.capacity - 1
  {
    var e3, s3 := FirstIsArmed(config);
    hide Run;
    var e4, s4 := Onward(config, e3, s3, By(0, Send(None)));
    var e5, s5 := Onward(config, e4, s4, By(0, Begin));
    events, s := DropsIt(config, e5, s5);
  }

  lemma DropsIt(config: Config, before: seq<Event>, t: Realm) returns (events: seq<Event>, s: Realm)
    requires Run(config, before) == Some(t) && t.calls.Keys == {0} && t.calls[0] == Call(Waiting(1), Job.Running)
    requires t.armed == [1]
    ensures Run(config, events) == Some(s) && s.calls.Keys == {0} && s.calls[0] == Call(Gone, Job.Running)
    ensures s.armed == [] && s.poisoned && s.cancelled && s.free == t.free
  {
    hide Run;
    var e1, s1 := Onward(config, before, t, By(0, Drop));
    var e2, s2 := Onward(config, e1, s1, By(0, Poison));
    var e3, s3 := Onward(config, e2, s2, By(0, Cancel));
    events, s := Onward(config, e3, s3, By(0, Disarm));
    assert Without([1], 1) == [] + Without([], 1);
  }
}
