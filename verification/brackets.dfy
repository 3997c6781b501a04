/**
 * Whole brackets, one call or visitor from its coming to its end with nobody in between, in any state the realm can be
 * in: what each way through it leaves of the permit, the budget, the flags and the job.
 */
module Brackets {
  import opened Prelude
  import opened Realms

  /** A realm with this call in it. */
  function With(s: Realm, id: CallId, call: Call): Realm {
    s.(calls := s.calls[id := call])
  }

  /** These events lead from the end of the others to there. */
  predicate Leads(config: Config, events: seq<Event>, more: seq<Event>, t: Realm) {
    Run(config, events + more) == Some(t)
  }

  lemma Next(config: Config, events: seq<Event>, more: seq<Event>, s: Realm, e: Event)
    requires Leads(config, events, more, s) && Enabled(s, e)
    ensures Leads(config, events, more + [e], After(config, s, e))
  {
    hide After, Enabled, Run;
    var _, t := Onward(config, events + more, s, e);
    assert events + (more + [e]) == events + more + [e];
  }

  /** What a step of the call makes of the rest of the realm, whose own calls do not matter. */
  function Rest(config: Config, s: Realm, call: Call, step: Step): Realm
    requires CanStep(call, step, s.loopGone)
  {
    Stepped(config, With(s, 0, call), 0, step).(calls := s.calls)
  }

  predicate Goes(config: Config, s: Realm, call: Call, step: Step, s': Realm, call': Call) {
    CanStep(call, step, s.loopGone) && Rest(config, s, call, step) == s' && CallAfter(config, s, call, step) == call'
  }

  lemma AnyName(config: Config, s: Realm, id: CallId, call: Call, step: Step)
    requires CanStep(call, step, s.loopGone)
    ensures Stepped(config, With(s, id, call), id, step) ==
      With(Rest(config, s, call, step), id, CallAfter(config, s, call, step))
  {
    hide CallAfter, DropsPermit, CanStep, Without;
    OtherCallsDoNotMatter(config, s, id, call, step);
    OtherCallsDoNotMatter(config, s, 0, call, step);
    var call' := CallAfter(config, s, call, step);
    assert s.calls[id := call][id := call'] == s.calls[id := call'];
  }

  lemma OtherCallsDoNotMatter(config: Config, s: Realm, id: CallId, call: Call, step: Step)
    requires CanStep(call, step, s.loopGone)
    ensures CallAfter(config, With(s, id, call), call, step) == CallAfter(config, s, call, step)
    ensures DropsPermit(With(s, id, call), call, step) == DropsPermit(s, call, step)
  {
    hide CanStep;
  }

  lemma Steps(config: Config, events: seq<Event>, more: seq<Event>, id: CallId, s: Realm, call: Call, step: Step,
              s': Realm, call': Call)
    requires Leads(config, events, more, With(s, id, call)) && Goes(config, s, call, step, s', call')
    ensures Leads(config, events, more + [By(id, step)], With(s', id, call'))
  {
    hide Leads, CallAfter, CanStep, DropsPermit, Stepped, Rest;
    AnyName(config, s, id, call, step);
    Next(config, events, more, With(s, id, call), By(id, step));
  }

  // ---- Each step --------------------------------------------------------------

  lemma Reserves(config: Config, s: Realm)
    ensures s.free > 0 ==>
      && Goes(config, s, Call(Reserving, NoJob), Reserve, s.(free := s.free - 1), Call(Limiting, NoJob))
      && Goes(config, s, Call(Knocking, NoJob), Reserve, s.(free := s.free - 1), Call(Holding, NoJob))
  {
  }

  lemma FindsNoSlot(config: Config, s: Realm)
    ensures s.free == 0 ==>
      && Goes(config, s, Call(Reserving, NoJob), Reserve, s, Call(Finishing(Failure(false)), NoJob))
      && Goes(config, s, Call(Knocking, NoJob), Reserve, s, Call(Left, NoJob))
  {
  }

  lemma Arms(config: Config, s: Realm)
    ensures Goes(config, s, Call(Limiting, NoJob), Leave, s.(free := s.free + 1), Call(Gone, NoJob))
    ensures Goes(config, s, Call(Limiting, NoJob), Arm,
                 s.(armed := s.armed + [s.nextToken], nextToken := s.nextToken + 1), Call(Armed(s.nextToken), NoJob))
  {
  }

  lemma Sends(config: Config, s: Realm, token: Token)
    ensures !s.loopGone ==>
      && Goes(config, s, Call(Armed(token), NoJob), Send(None), s, Call(Waiting(token), Queued))
      && Goes(config, s, Call(Holding, NoJob), Send(None), s, Call(Visiting, Queued))
    ensures s.loopGone ==>
      && Goes(config, s, Call(Armed(token), NoJob), Send(None), s.(free := s.free + 1),
              Call(Settled(token, Failure(false)), NoJob))
      && Goes(config, s, Call(Holding, NoJob), Send(None), s.(free := s.free + 1), Call(Left, NoJob))
  {
  }

  /** The loop begins a job somebody waits for, and throws away one nobody does, begun or not. */
  lemma Begins(config: Config, s: Realm, pc: Pc)
    ensures pc.Waiting? || pc.Visiting? ==> Goes(config, s, Call(pc, Queued), Begin, s, Call(pc, Running))
  {
  }

  lemma Abandons(config: Config, s: Realm, pc: Pc)
    requires !pc.Waiting? && !pc.Visiting?
    ensures Goes(config, s, Call(pc, Queued), Begin, s.(free := s.free + 1), Call(pc, Freed))
    ensures Goes(config, s, Call(pc, Running), Abandon, s.(free := s.free + 1), Call(pc, Freed))
  {
  }

  lemma Replies(config: Config, s: Realm, pc: Pc, outcome: Outcome)
    ensures Goes(config, s, Call(pc, Running), Complete(outcome), s.(free := s.free + 1), Call(pc, Answered(outcome)))
    ensures Goes(config, s, Call(pc, Answered(outcome)), Reply, s, Call(pc, Replied(outcome)))
  {
  }

  lemma LosesJob(config: Config, s: Realm, pc: Pc, job: Job)
    ensures s.loopGone && (job.Queued? || job.Running?) ==>
      Goes(config, s, Call(pc, job), Lose, s.(free := s.free + 1), Call(pc, Lost))
    ensures Goes(config, s, Call(pc, Lost), FreeLost, s, Call(pc, Freed))
  {
  }

  lemma Sees(config: Config, s: Realm, token: Token, outcome: Outcome)
    ensures Goes(config, s, Call(Waiting(token), Replied(outcome)), See(None), s,
                 Call(Settled(token, outcome), Replied(outcome)))
    ensures Goes(config, s, Call(Visiting, Replied(outcome)), See(None), s, Call(Left, Replied(outcome)))
  {
  }

  lemma SeesNone(config: Config, s: Realm, token: Token)
    ensures Goes(config, s, Call(Waiting(token), Freed), SeeLost(None), s, Call(Settled(token, Failure(false)), Freed))
    ensures Goes(config, s, Call(Visiting, Freed), SeeLost(None), s, Call(Left, Freed))
  {
  }

  lemma Disarms(config: Config, s: Realm, token: Token, job: Job, outcome: Outcome)
    ensures
      var t := s.(armed := Without(s.armed, token));
      && Goes(config, s, Call(Settled(token, outcome), job), Disarm, t, Call(Finishing(outcome), job))
      && Goes(config, s, Call(BackstopFired(token), job), Disarm, t, Call(FinishingBackstop, job))
      && Goes(config, s, Call(Disarming(token), job), Disarm, t, Call(Gone, job))
  {
  }

  lemma Finishes(config: Config, s: Realm, job: Job, outcome: Outcome)
    ensures Goes(config, s, Call(Finishing(outcome), job), Finish, s,
                 Call(if outcome.Failure? && (s.timedOut || outcome.outOfMemory) then Storing
                      else Returned(false, false), job))
  {
  }

  lemma Stores(config: Config, s: Realm, job: Job)
    ensures Goes(config, s, Call(Storing, job), Store, s.(poisoned := true), Call(Returned(true, false), job))
  {
  }

  lemma CutsOff(config: Config, s: Realm, job: Job)
    ensures Goes(config, s, Call(FinishingBackstop, job), FinishBackstop,
                 s.(poisoned := s.poisoned || config.backstopPoisons),
                 Call(Returned(config.backstopPoisons, false), job))
  {
  }

  lemma GivesUp(config: Config, s: Realm, token: Token, job: Job)
    ensures Goes(config, s, Call(Waiting(token), job), Drop, s, Call(Poisoning(token), job))
    ensures Goes(config, s, Call(Visiting, job), Drop, s, Call(Left, job))
    ensures Goes(config, s, Call(Waiting(token), job), FireBackstop, s, Call(BackstopFired(token), job))
  {
  }

  lemma Cancels(config: Config, s: Realm, token: Token, job: Job)
    ensures Goes(config, s, Call(Poisoning(token), job), Poison, s.(poisoned := true), Call(Cancelling(token), job))
    ensures Goes(config, s, Call(Cancelling(token), job), Cancel, s.(cancelled := true), Call(Disarming(token), job))
  {
  }

  // ---- A call, to its end -----------------------------------------------------

  lemma Enters(config: Config, events: seq<Event>, s: Realm, id: CallId)
    requires Run(config, events) == Some(s) && id !in s.calls
    ensures Leads(config, events, [Visit(id)], With(s, id, Call(Knocking, NoJob)))
    ensures !s.poisoned ==> Leads(config, events, [Enter(id)], With(s, id, Call(Reserving, NoJob)))
    ensures s.poisoned ==> Leads(config, events, [Enter(id)], With(s, id, Call(Returned(true, true), NoJob)))
  {
    hide Run;
    assert events + [] == events && [] + [Enter(id)] == [Enter(id)] && [] + [Visit(id)] == [Visit(id)];
    Next(config, events, [], s, Enter(id));
    Next(config, events, [], s, Visit(id));
  }

  /** A token no one has is disarmed and leaves the list as it was. */
  lemma {:induction false} NewTokenGoes(armed: seq<Token>, token: Token)
    requires token !in armed
    ensures Without(armed + [token], token) == armed
  {
    if armed == [] {
      assert [] + [token] == [token] && [token][1..] == [];
    } else {
      assert (armed + [token])[1..] == armed[1..] + [token];
      NewTokenGoes(armed[1..], token);
    }
  }

  lemma TokensAreOld(config: Config, events: seq<Event>, s: Realm)
    requires Run(config, events) == Some(s)
    ensures Without(s.armed + [s.nextToken], s.nextToken) == s.armed
  {
    EveryRunKeepsInvariant(config, events);
    hide Run, JobsFit, PermitsAddUp, PoisonHasACause;
    NewTokenGoes(s.armed, s.nextToken);
  }

  /** Nothing keeps the call out. */
  predicate Open(s: Realm, id: CallId) {
    id !in s.calls && !s.poisoned && !s.loopGone && s.free > 0
  }

  /** The realm while the call holds a slot and a budget. */
  function Held(s: Realm): Realm
    requires s.free > 0
  {
    s.(free := s.free - 1, armed := s.armed + [s.nextToken], nextToken := s.nextToken + 1)
  }

  lemma ComesToArm(config: Config, events: seq<Event>, s: Realm, id: CallId) returns (more: seq<Event>)
    requires Run(config, events) == Some(s) && id !in s.calls && !s.poisoned && s.free > 0
    ensures more == [Enter(id), By(id, Reserve), By(id, Arm)]
    ensures Leads(config, events, more, With(Held(s), id, Call(Armed(s.nextToken), NoJob)))
  {
    Enters(config, events, s, id);
    var t := s.(free := s.free - 1);
    Reserves(config, s);
    Arms(config, t);
    hide Leads, Goes, With, Run;
    more := [Enter(id)];
    Steps(config, events, more, id, s, Call(Reserving, NoJob), Reserve, t, Call(Limiting, NoJob));
    more := more + [By(id, Reserve)];
    Steps(config, events, more, id, t, Call(Limiting, NoJob), Arm, Held(s), Call(Armed(s.nextToken), NoJob));
    more := more + [By(id, Arm)];
  }

  lemma ComesToSend(config: Config, events: seq<Event>, s: Realm, id: CallId) returns (more: seq<Event>)
    requires Run(config, events) == Some(s) && Open(s, id)
    ensures more == [Enter(id), By(id, Reserve), By(id, Arm), By(id, Send(None))]
    ensures Leads(config, events, more, With(Held(s), id, Call(Waiting(s.nextToken), Queued)))
  {
    Sends(config, Held(s), s.nextToken);
    hide Leads, Goes, With, Run;
    more := ComesToArm(config, events, s, id);
    Steps(config, events, more, id, Held(s), Call(Armed(s.nextToken), NoJob), Send(None),
          Held(s), Call(Waiting(s.nextToken), Queued));
    more := more + [By(id, Send(None))];
  }

  lemma ComesToRun(config: Config, events: seq<Event>, s: Realm, id: CallId) returns (more: seq<Event>)
    requires Run(config, events) == Some(s) && Open(s, id)
    ensures more == [Enter(id), By(id, Reserve), By(id, Arm), By(id, Send(None)), By(id, Begin)]
    ensures Leads(config, events, more, With(Held(s), id, Call(Waiting(s.nextToken), Running)))
  {
    more := ComesToSend(config, events, s, id);
    Begins(config, Held(s), Waiting(s.nextToken));
    hide Leads, Goes, With, Run;
    Steps(config, events, more, id, Held(s), Call(Waiting(s.nextToken), Queued), Begin,
          Held(s), Call(Waiting(s.nextToken), Running));
    more := more + [By(id, Begin)];
  }

  /** A call that has settled gives up its budget and answers. */
  lemma Ends(config: Config, events: seq<Event>, before: seq<Event>, s: Realm, free: nat, id: CallId, job: Job,
             outcome: Outcome)
    returns (more: seq<Event>)
    requires Without(s.armed + [s.nextToken], s.nextToken) == s.armed && !s.poisoned
    requires
      var t := s.(free := free, armed := s.armed + [s.nextToken], nextToken := s.nextToken + 1);
      Leads(config, events, before, With(t, id, Call(Settled(s.nextToken, outcome), job)))
    ensures
      var poisons := outcome.Failure? && (s.timedOut || outcome.outOfMemory);
      && more == before + [By(id, Disarm), By(id, Finish)] + (if poisons then [By(id, Store)] else [])
      && Leads(config, events, more, With(s.(free := free, nextToken := s.nextToken + 1, poisoned := poisons), id,
                                          Call(Returned(poisons, false), job)))
  {
    var t := s.(free := free, armed := s.armed + [s.nextToken], nextToken := s.nextToken + 1);
    var u := s.(free := free, nextToken := s.nextToken + 1);
    var poisons := outcome.Failure? && (s.timedOut || outcome.outOfMemory);
    Disarms(config, t, s.nextToken, job, outcome);
    Finishes(config, u, job, outcome);
    Stores(config, u, job);
    hide Leads, Goes, With, Without;
    Steps(config, events, before, id, t, Call(Settled(s.nextToken, outcome), job), Disarm,
          u, Call(Finishing(outcome), job));
    more := before + [By(id, Disarm)];
    Steps(config, events, more, id, u, Call(Finishing(outcome), job), Finish,
          u, Call(if poisons then Storing else Returned(false, false), job));
    more := more + [By(id, Finish)];
    if poisons {
      Steps(config, events, more, id, u, Call(Storing, job), Store,
            u.(poisoned := true), Call(Returned(true, false), job));
      more := more + [By(id, Store)];
    }
  }

  /**
   * A call that is served leaves the realm as it found it: slot and budget are back, and it poisons exactly when its
   * job failed after the flag was set or for want of memory.
   */
  lemma CallIsServed(config: Config, events: seq<Event>, s: Realm, id: CallId, outcome: Outcome)
    returns (more: seq<Event>)
    requires Run(config, events) == Some(s) && Open(s, id)
    ensures
      var poisons := outcome.Failure? && (s.timedOut || outcome.outOfMemory);
      && more == [Enter(id), By(id, Reserve), By(id, Arm), By(id, Send(None)), By(id, Begin)] +
                 [By(id, Complete(outcome)), By(id, Reply)] + [By(id, See(None))] + [By(id, Disarm), By(id, Finish)] +
                 (if poisons then [By(id, Store)] else [])
      && Leads(config, events, more, With(s.(nextToken := s.nextToken + 1, poisoned := poisons), id,
                                          Call(Returned(poisons, false), Replied(outcome))))
  {
    var t, pc := Held(s), Waiting(s.nextToken);
    var u := t.(free := s.free);
    Sees(config, u, s.nextToken, outcome);
    TokensAreOld(config, events, s);
    hide Leads, Goes, With, Run, Without;
    more := ComesToRun(config, events, s, id);
    more := Answers(config, events, more, t, u, id, pc, outcome);
    Steps(config, events, more, id, u, Call(pc, Replied(outcome)), See(None),
          u, Call(Settled(s.nextToken, outcome), Replied(outcome)));
    more := Ends(config, events, more + [By(id, See(None))], s, s.free, id, Replied(outcome), outcome);
  }

  lemma Answers(config: Config, events: seq<Event>, before: seq<Event>, t: Realm, u: Realm, id: CallId, pc: Pc,
                outcome: Outcome)
    returns (more: seq<Event>)
    requires Leads(config, events, before, With(t, id, Call(pc, Running))) && u == t.(free := t.free + 1)
    ensures more == before + [By(id, Complete(outcome)), By(id, Reply)]
    ensures Leads(config, events, more, With(u, id, Call(pc, Replied(outcome))))
  {
    Replies(config, t, pc, outcome);
    Replies(config, u, pc, outcome);
    hide Leads, Goes, With;
    Steps(config, events, before, id, t, Call(pc, Running), Complete(outcome), u, Call(pc, Answered(outcome)));
    more := before + [By(id, Complete(outcome))];
    Steps(config, events, more, id, u, Call(pc, Answered(outcome)), Reply, u, Call(pc, Replied(outcome)));
    more := more + [By(id, Reply)];
  }

  /** If the loop goes while its job is on it, the slot and the budget are back all the same. */
  lemma CallLosesItsJob(config: Config, events: seq<Event>, s: Realm, id: CallId) returns (more: seq<Event>)
    requires Run(config, events) == Some(s) && Open(s, id)
    ensures
      && more == [Enter(id), By(id, Reserve), By(id, Arm), By(id, Send(None)), By(id, Begin)] + [ShutDown] +
                 [By(id, Lose), By(id, FreeLost)] + [By(id, SeeLost(None))] + [By(id, Disarm), By(id, Finish)] +
                 (if s.timedOut then [By(id, Store)] else [])
      && Leads(config, events, more,
               With(s.(nextToken := s.nextToken + 1, poisoned := s.timedOut, loopGone := true), id,
                    Call(Returned(s.timedOut, false), Freed)))
  {
    TokensAreOld(config, events, s);
    hide Leads, With, Run, Without;
    more := JobIsLost(config, events, s, id);
    more := Ends(config, events, more, s.(loopGone := true), s.free, id, Freed, Failure(false));
  }

  lemma JobIsLost(config: Config, events: seq<Event>, s: Realm, id: CallId) returns (more: seq<Event>)
    requires Run(config, events) == Some(s) && Open(s, id)
    ensures more == [Enter(id), By(id, Reserve), By(id, Arm), By(id, Send(None)), By(id, Begin)] + [ShutDown] +
                    [By(id, Lose), By(id, FreeLost)] + [By(id, SeeLost(None))]
    ensures
      var t := s.(free := s.free, armed := s.armed + [s.nextToken], nextToken := s.nextToken + 1, loopGone := true);
      Leads(config, events, more, With(t, id, Call(Settled(s.nextToken, Failure(false)), Freed)))
  {
    var token := s.nextToken;
    var t := s.(armed := s.armed + [token], nextToken := token + 1, loopGone := true);
    SeesNone(config, t, token);
    hide Leads, Goes, With, Run;
    more := ComesToRun(config, events, s, id);
    ShutsDown(config, events, more, Held(s), id, Call(Waiting(token), Running));
    more := Loses(config, events, more + [ShutDown], Held(s).(loopGone := true), t, id, Waiting(token), Running);
    Steps(config, events, more, id, t, Call(Waiting(token), Freed), SeeLost(None),
          t, Call(Settled(token, Failure(false)), Freed));
    more := more + [By(id, SeeLost(None))];
  }

  lemma ShutsDown(config: Config, events: seq<Event>, more: seq<Event>, s: Realm, id: CallId, call: Call)
    requires Leads(config, events, more, With(s, id, call))
    ensures Leads(config, events, more + [ShutDown], With(s.(loopGone := true), id, call))
  {
    hide Leads;
    Next(config, events, more, With(s, id, call), ShutDown);
  }

  lemma Loses(config: Config, events: seq<Event>, before: seq<Event>, t: Realm, u: Realm, id: CallId, pc: Pc, job: Job)
    returns (more: seq<Event>)
    requires Leads(config, events, before, With(t, id, Call(pc, job)))
    requires u == t.(free := t.free + 1) && t.loopGone && (job.Queued? || job.Running?)
    ensures more == before + [By(id, Lose), By(id, FreeLost)]
    ensures Leads(config, events, more, With(u, id, Call(pc, Freed)))
  {
    LosesJob(config, t, pc, job);
    LosesJob(config, u, pc, job);
    hide Leads, Goes, With;
    Steps(config, events, before, id, t, Call(pc, job), Lose, u, Call(pc, Lost));
    more := before + [By(id, Lose)];
    Steps(config, events, more, id, u, Call(pc, Lost), FreeLost, u, Call(pc, Freed));
    more := more + [By(id, FreeLost)];
  }

  /** A visitor the same, in a poisoned realm too: once it is served it holds no slot. */
  lemma VisitorIsServed(config: Config, events: seq<Event>, s: Realm, id: CallId, outcome: Outcome)
    returns (more: seq<Event>)
    requires Run(config, events) == Some(s) && id !in s.calls && !s.loopGone && s.free > 0
    ensures more == [Visit(id), By(id, Reserve), By(id, Send(None))] + [By(id, Begin)] +
                    [By(id, Complete(outcome)), By(id, Reply)] + [By(id, See(None))]
    ensures Leads(config, events, more, With(s, id, Call(Left, Replied(outcome))))
  {
    var t := s.(free := s.free - 1);
    Sees(config, s, 0, outcome);
    Begins(config, t, Visiting);
    hide Leads, Goes, With, Run;
    more := VisitorSends(config, events, s, id);
    Steps(config, events, more, id, t, Call(Visiting, Queued), Begin, t, Call(Visiting, Running));
    more := Answers(config, events, more + [By(id, Begin)], t, s, id, Visiting, outcome);
    Steps(config, events, more, id, s, Call(Visiting, Replied(outcome)), See(None), s, Call(Left, Replied(outcome)));
    more := more + [By(id, See(None))];
  }

  /** Or has lost its job with the loop. */
  lemma VisitorLosesItsJob(config: Config, events: seq<Event>, s: Realm, id: CallId) returns (more: seq<Event>)
    requires Run(config, events) == Some(s) && id !in s.calls && !s.loopGone && s.free > 0
    ensures more == [Visit(id), By(id, Reserve), By(id, Send(None))] + [ShutDown] +
                    [By(id, Lose), By(id, FreeLost)] + [By(id, SeeLost(None))]
    ensures Leads(config, events, more, With(s.(loopGone := true), id, Call(Left, Freed)))
  {
    var t, u := s.(free := s.free - 1), s.(loopGone := true);
    SeesNone(config, u, 0);
    hide Leads, Goes, With, Run;
    more := VisitorSends(config, events, s, id);
    ShutsDown(config, events, more, t, id, Call(Visiting, Queued));
    more := Loses(config, events, more + [ShutDown], t.(loopGone := true), u, id, Visiting, Queued);
    Steps(config, events, more, id, u, Call(Visiting, Freed), SeeLost(None), u, Call(Left, Freed));
    more := more + [By(id, SeeLost(None))];
  }

  lemma VisitorSends(config: Config, events: seq<Event>, s: Realm, id: CallId) returns (more: seq<Event>)
    requires Run(config, events) == Some(s) && id !in s.calls && !s.loopGone && s.free > 0
    ensures more == [Visit(id), By(id, Reserve), By(id, Send(None))]
    ensures Leads(config, events, more, With(s.(free := s.free - 1), id, Call(Visiting, Queued)))
  {
    Enters(config, events, s, id);
    var t := s.(free := s.free - 1);
    Reserves(config, s);
    Sends(config, t, 0);
    hide Leads, Goes, With, Run;
    more := [Visit(id)];
    Steps(config, events, more, id, s, Call(Knocking, NoJob), Reserve, t, Call(Holding, NoJob));
    more := more + [By(id, Reserve)];
    Steps(config, events, more, id, t, Call(Holding, NoJob), Send(None), t, Call(Visiting, Queued));
    more := more + [By(id, Send(None))];
  }

  /** A call dropped with its job on the loop, begun or not: slot and budget are back, and the realm is done for. */
  lemma CallIsDropped(config: Config, events: seq<Event>, s: Realm, id: CallId, begun: bool) returns (more: seq<Event>)
    requires Run(config, events) == Some(s) && Open(s, id)
    ensures more == (if begun then [Enter(id), By(id, Reserve), By(id, Arm), By(id, Send(None)), By(id, Begin)]
                     else [Enter(id), By(id, Reserve), By(id, Arm), By(id, Send(None))]) +
                    [By(id, Drop), By(id, Poison)] + [By(id, Cancel), By(id, Disarm)] +
                    [By(id, if begun then Abandon else Begin)]
    ensures Leads(config, events, more, With(s.(nextToken := s.nextToken + 1, poisoned := true, cancelled := true), id,
                                             Call(Gone, Freed)))
  {
    if begun {
      more := ComesToRun(config, events, s, id);
    } else {
      more := ComesToSend(config, events, s, id);
    }
    more := Drops(config, events, more, s, id, if begun then Running else Queued);
    var t := s.(free := s.free - 1, nextToken := s.nextToken + 1, poisoned := true, cancelled := true);
    Abandons(config, t, Gone);
    hide Leads, Goes, With, Run, Without;
    Steps(config, events, more, id, t, Call(Gone, if begun then Running else Queued), if begun then Abandon else Begin,
          t.(free := s.free), Call(Gone, Freed));
    more := more + [By(id, if begun then Abandon else Begin)];
  }

  lemma Drops(config: Config, events: seq<Event>, before: seq<Event>, s: Realm, id: CallId, job: Job)
    returns (more: seq<Event>)
    requires Run(config, events) == Some(s) && s.free > 0
    requires Leads(config, events, before, With(Held(s), id, Call(Waiting(s.nextToken), job)))
    ensures more == before + [By(id, Drop), By(id, Poison)] + [By(id, Cancel), By(id, Disarm)]
    ensures Leads(config, events, more,
                  With(s.(free := s.free - 1, nextToken := s.nextToken + 1, poisoned := true, cancelled := true), id,
                       Call(Gone, job)))
  {
    var t, token := Held(s), s.nextToken;
    TokensAreOld(config, events, s);
    hide Leads, With, Run, Without;
    more := IsPoisoned(config, events, before, t, id, token, job);
    more := IsCancelled(config, events, more, t.(poisoned := true), id, token, job);
  }

  lemma IsPoisoned(config: Config, events: seq<Event>, before: seq<Event>, t: Realm, id: CallId, token: Token, job: Job)
    returns (more: seq<Event>)
    requires Leads(config, events, before, With(t, id, Call(Waiting(token), job)))
    ensures more == before + [By(id, Drop), By(id, Poison)]
    ensures Leads(config, events, more, With(t.(poisoned := true), id, Call(Cancelling(token), job)))
  {
    GivesUp(config, t, token, job);
    Cancels(config, t, token, job);
    hide Leads, Goes, With;
    Steps(config, events, before, id, t, Call(Waiting(token), job), Drop, t, Call(Poisoning(token), job));
    more := before + [By(id, Drop)];
    Steps(config, events, more, id, t, Call(Poisoning(token), job), Poison,
          t.(poisoned := true), Call(Cancelling(token), job));
    more := more + [By(id, Poison)];
  }

  lemma IsCancelled(config: Config, events: seq<Event>, before: seq<Event>, t: Realm, id: CallId, token: Token,
                    job: Job)
    returns (more: seq<Event>)
    requires Leads(config, events, before, With(t, id, Call(Cancelling(token), job)))
    ensures more == before + [By(id, Cancel), By(id, Disarm)]
    ensures Leads(config, events, more,
                  With(t.(cancelled := true, armed := Without(t.armed, token)), id, Call(Gone, job)))
  {
    var u := t.(cancelled := true);
    Cancels(config, t, token, job);
    Disarms(config, u, token, job, Value);
    hide Leads, Goes, With, Without;
    Steps(config, events, before, id, t, Call(Cancelling(token), job), Cancel, u, Call(Disarming(token), job));
    more := before + [By(id, Cancel)];
    Steps(config, events, more, id, u, Call(Disarming(token), job), Disarm,
          u.(armed := Without(t.armed, token)), Call(Gone, job));
    more := more + [By(id, Disarm)];
  }

  /** A call cut off by its backstop has its budget back at once, and its slot when the loop comes to its job. */
  lemma CallIsCutOff(config: Config, events: seq<Event>, s: Realm, id: CallId) returns (more: seq<Event>)
    requires Run(config, events) == Some(s) && Open(s, id)
    ensures more == [Enter(id), By(id, Reserve), By(id, Arm), By(id, Send(None)), By(id, Begin)] +
                    [By(id, FireBackstop), By(id, Disarm)] + [By(id, FinishBackstop), By(id, Abandon)]
    ensures Leads(config, events, more,
                  With(s.(nextToken := s.nextToken + 1, poisoned := config.backstopPoisons), id,
                       Call(Returned(config.backstopPoisons, false), Freed)))
  {
    TokensAreOld(config, events, s);
    hide Leads, With, Run, Without;
    more := ComesToRun(config, events, s, id);
    more := TimerFires(config, events, more, Held(s), id, s.nextToken);
    more := IsFinished(config, events, more, Held(s).(armed := s.armed), id);
  }

  lemma TimerFires(config: Config, events: seq<Event>, before: seq<Event>, t: Realm, id: CallId, token: Token)
    returns (more: seq<Event>)
    requires Leads(config, events, before, With(t, id, Call(Waiting(token), Running)))
    ensures more == before + [By(id, FireBackstop), By(id, Disarm)]
    ensures Leads(config, events, more,
                  With(t.(armed := Without(t.armed, token)), id, Call(FinishingBackstop, Running)))
  {
    GivesUp(config, t, token, Running);
    Disarms(config, t, token, Running, Value);
    hide Leads, Goes, With, Without;
    Steps(config, events, before, id, t, Call(Waiting(token), Running), FireBackstop,
          t, Call(BackstopFired(token), Running));
    more := before + [By(id, FireBackstop)];
    Steps(config, events, more, id, t, Call(BackstopFired(token), Running), Disarm,
          t.(armed := Without(t.armed, token)), Call(FinishingBackstop, Running));
    more := more + [By(id, Disarm)];
  }

  lemma IsFinished(config: Config, events: seq<Event>, before: seq<Event>, t: Realm, id: CallId)
    returns (more: seq<Event>)
    requires Leads(config, events, before, With(t, id, Call(FinishingBackstop, Running))) && !t.poisoned
    ensures more == before + [By(id, FinishBackstop), By(id, Abandon)]
    ensures Leads(config, events, more, With(t.(free := t.free + 1, poisoned := config.backstopPoisons), id,
                                             Call(Returned(config.backstopPoisons, false), Freed)))
  {
    var pc, u := Returned(config.backstopPoisons, false), t.(poisoned := config.backstopPoisons);
    CutsOff(config, t, Running);
    Abandons(config, u, pc);
    hide Leads, Goes, With;
    Steps(config, events, before, id, t, Call(FinishingBackstop, Running), FinishBackstop, u, Call(pc, Running));
    more := before + [By(id, FinishBackstop)];
    Steps(config, events, more, id, u, Call(pc, Running), Abandon, u.(free := u.free + 1), Call(pc, Freed));
    more := more + [By(id, Abandon)];
  }

  /** A visitor that finds no slot or no loop takes nothing. */
  lemma VisitorIsTurnedAway(config: Config, events: seq<Event>, s: Realm, id: CallId)
    requires Run(config, events) == Some(s) && id !in s.calls
    ensures s.free == 0 ==>
      Leads(config, events, [Visit(id)] + [By(id, Reserve)], With(s, id, Call(Left, NoJob)))
    ensures s.free > 0 && s.loopGone ==>
      Leads(config, events, [Visit(id)] + [By(id, Reserve)] + [By(id, Send(None))], With(s, id, Call(Left, NoJob)))
  {
    Enters(config, events, s, id);
    Reserves(config, s);
    FindsNoSlot(config, s);
    if s.free > 0 {
      Sends(config, s.(free := s.free - 1), 0);
    }
    hide Leads, Goes, With, Run;
    var visits := [Visit(id)];
    if s.free == 0 {
      Steps(config, events, visits, id, s, Call(Knocking, NoJob), Reserve, s, Call(Left, NoJob));
    } else if s.loopGone {
      var t := s.(free := s.free - 1);
      Steps(config, events, visits, id, s, Call(Knocking, NoJob), Reserve, t, Call(Holding, NoJob));
      Steps(config, events, visits + [By(id, Reserve)], id, t, Call(Holding, NoJob), Send(None), s, Call(Left, NoJob));
    }
  }

  /** Neither does a call that finds no slot or a poisoned realm, or that leaves with its slot. */
  lemma CallIsTurnedAway(config: Config, events: seq<Event>, s: Realm, id: CallId)
    requires Run(config, events) == Some(s) && id !in s.calls
    ensures s.poisoned ==> Leads(config, events, [Enter(id)], With(s, id, Call(Returned(true, true), NoJob)))
    ensures s.free == 0 && !s.poisoned ==>
      Leads(config, events, [Enter(id)] + [By(id, Reserve)] + [By(id, Finish)],
            With(s, id, Call(if s.timedOut then Storing else Returned(false, false), NoJob)))
    ensures s.free > 0 && !s.poisoned ==>
      Leads(config, events, [Enter(id)] + [By(id, Reserve)] + [By(id, Leave)], With(s, id, Call(Gone, NoJob)))
  {
    Enters(config, events, s, id);
    Reserves(config, s);
    FindsNoSlot(config, s);
    Finishes(config, s, NoJob, Failure(false));
    if s.free > 0 {
      Arms(config, s.(free := s.free - 1));
    }
    hide Leads, Goes, With, Run;
    var enters := [Enter(id)];
    if s.free == 0 && !s.poisoned {
      Steps(config, events, enters, id, s, Call(Reserving, NoJob), Reserve, s, Call(Finishing(Failure(false)), NoJob));
      Steps(config, events, enters + [By(id, Reserve)], id, s, Call(Finishing(Failure(false)), NoJob), Finish,
            s, Call(if s.timedOut then Storing else Returned(false, false), NoJob));
    } else if !s.poisoned {
      var t := s.(free := s.free - 1);
      Steps(config, events, enters, id, s, Call(Reserving, NoJob), Reserve, t, Call(Limiting, NoJob));
      Steps(config, events, enters + [By(id, Reserve)], id, t, Call(Limiting, NoJob), Leave, s, Call(Gone, NoJob));
    }
  }

  /** A call that finds no loop for its job gives the slot and the budget back. */
  lemma CallFindsNoLoop(config: Config, events: seq<Event>, s: Realm, id: CallId) returns (more: seq<Event>)
    requires Run(config, events) == Some(s) && id !in s.calls && !s.poisoned && s.loopGone && s.free > 0
    ensures
      && more == [Enter(id), By(id, Reserve), By(id, Arm)] + [By(id, Send(None))] + [By(id, Disarm), By(id, Finish)] +
                 (if s.timedOut then [By(id, Store)] else [])
      && Leads(config, events, more, With(s.(nextToken := s.nextToken + 1, poisoned := s.timedOut), id,
                                          Call(Returned(s.timedOut, false), NoJob)))
  {
    Sends(config, Held(s), s.nextToken);
    TokensAreOld(config, events, s);
    hide Leads, Goes, With, Run, Without;
    more := ComesToArm(config, events, s, id);
    Steps(config, events, more, id, Held(s), Call(Armed(s.nextToken), NoJob), Send(None),
          Held(s).(free := s.free), Call(Settled(s.nextToken, Failure(false)), NoJob));
    more := Ends(config, events, more + [By(id, Send(None))], s, s.free, id, NoJob, Failure(false));
  }

  // ---- What does not happen ---------------------------------------------------

  /** The loop throws away only jobs that were given up, and loses jobs only when it is gone itself. */
  lemma {:induction false} JobsGoForAReason(config: Config, events: seq<Event>, id: CallId)
    requires Run(config, events).Some?
    ensures By(id, Abandon) in events ==> By(id, Drop) in events || By(id, FireBackstop) in events
    ensures By(id, Lose) in events ==> ShutDown in events
    decreases |events|
  {
    if events != [] {
      var before, e := events[..|events| - 1], events[|events| - 1];
      assert events == before + [e];
      JobsGoForAReason(config, before, id);
      if e == By(id, Abandon) {
        GivenUpByDropOrBackstop(config, before, id);
      }
      FlagsTellOfEvents(config, before);
      hide After, Inv;
    }
  }

  // ---- The host's own slot ----------------------------------------------------

  lemma DisarmedHasItsToken(s: Realm, call: Call)
    requires CanStep(call, Disarm, s.loopGone)
    ensures TokenOf(call.pc) == Some(call.pc.token)
  {
  }

  lemma TokensAreNotTheHosts(s: Realm, id: CallId)
    requires TokensMatch(s)
    ensures HOST < s.nextToken
    ensures id in s.calls ==> TokenOf(s.calls[id].pc) != Some(HOST)
  {
    hide Budgets, TokenOf;
    BudgetOf(s.calls, id);
  }

  lemma HostMoves(config: Config, s: Realm, e: Event)
    requires Enabled(s, e) && TokensMatch(s)
    ensures HOST in After(config, s, e).armed <==> e == ArmHost || (HOST in s.armed && e != DisarmHost)
  {
    hide TokensMatch, CallAfter, DropsPermit;
    TokensAreNotTheHosts(s, if e.By? then e.id else 0);
    if e.By? && e.step.Disarm? {
      DisarmedHasItsToken(s, s.calls[e.id]);
    }
    hide TokenOf;
  }

  /** The host has armed its slot, and not disarmed it since. */
  ghost predicate HostSince(events: seq<Event>) {
    exists k :: 0 <= k < |events| && events[k] == ArmHost && forall j :: k < j < |events| ==> events[j] != DisarmHost
  }

  lemma HostSinceMoves(before: seq<Event>, e: Event)
    ensures HostSince(before + [e]) <==> e == ArmHost || (HostSince(before) && e != DisarmHost)
  {
    var events := before + [e];
    assert events[|before|] == e && forall k :: 0 <= k < |before| ==> events[k] == before[k];
  }

  /** The host's slot is armed from each arming to the next disarming, whatever calls do. */
  lemma {:induction false} HostIsArmedIff(config: Config, events: seq<Event>)
    requires Run(config, events).Some?
    ensures HOST in Run(config, events).value.armed <==> HostSince(events)
    decreases |events|
  {
    hide After, HostSince, JobsFit, PermitsAddUp, TokensMatch, PoisonHasACause;
    if events == [] {
      assert !HostSince([]) by {
        NothingSince();
      }
    } else {
      var before, e := events[..|events| - 1], events[|events| - 1];
      HostIsArmedIff(config, before);
      EveryRunKeepsInvariant(config, before);
      HostMoves(config, Run(config, before).value, e);
      HostSinceMoves(before, e);
      assert before + [e] == events;
    }
  }

  lemma NothingSince()
    ensures !HostSince([])
  {
  }

  /** At any time the host can arm it, disarm it and end the loop. */
  lemma HostMayAlways(config: Config, events: seq<Event>)
    requires Run(config, events).Some?
    ensures forall e :: e in {ArmHost, DisarmHost, ShutDown} ==> Run(config, events + [e]).Some?
  {
    forall e | e in {ArmHost, DisarmHost, ShutDown} ensures Run(config, events + [e]).Some? {
      assert (events + [e])[..|events|] == events;
    }
  }
}
