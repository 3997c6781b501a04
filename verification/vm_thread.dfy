/**
 * The uncaught handler and the guards as they really interleave: both on the realm's one thread, where a poll or a
 * report runs to its end before the next begins, except that a report may come from inside a body's poll. Only callers
 * are on other threads. For this order: exactly when a wake-up can be lost and when an error can reach a later run,
 * with such runs.
 */
module VmThread {
  import opened Prelude
  import opened Wakeups

  predicate MidPoll(f: Flight) {
    !f.guard.Unpolled? && !f.guard.Asleep? && !f.guard.Over?
  }

  /** No other guard is in its poll, and no report on its way. */
  predicate FreeFor(s: State, r: nat) {
    s.handlers == map[] && forall q :: 0 <= q < |s.runs| && q != r ==> !MidPoll(s.runs[q])
  }

  /** The realm's thread can take the step, if the step is its. */
  predicate InTurn(s: State, e: Event) {
    match e
    case BeginRun => true
    case ByCaller(_, _) => true
    case ByGuard(r, _) => FreeFor(s, r)
    case ByHandler(_, step) =>
      step.Hear? ==>
        s.handlers == map[] && forall q :: 0 <= q < |s.runs| && MidPoll(s.runs[q]) ==> s.runs[q].guard.Body?
  }

  predicate OnOneThread(events: seq<Event>)
    decreases |events|
  {
    events == [] ||
    var before, e := events[..|events| - 1], events[|events| - 1];
    OnOneThread(before) && Run(before).Some? && InTurn(Run(before).value, e)
  }

  /** `s` is reached from these events by more of them, in such an order. */
  ghost predicate Reaches(events: seq<Event>, more: seq<Event>, s: State) {
    Run(events + more) == Some(s) && OnOneThread(events + more)
  }

  // ---- What the order keeps ---------------------------------------------------

  /** What a guard has seen of the flag still holds: no report can have come in between. */
  predicate HasSeen(s: State, f: Flight) {
    && (f.guard.FirstGrab? || f.guard.Register? || f.guard.SecondLook? ==> !s.failed)
    && !f.guard.SecondClear? && !f.guard.SecondGrab?
  }

  ghost predicate OneByOne(s: State) {
    && (forall g, h :: g in s.handlers && h in s.handlers ==> g == h)
    && (forall h :: h in s.handlers && Reporting(s.handlers[h]) ==> !s.failed)
    && (forall p, q :: 0 <= p < |s.runs| && 0 <= q < |s.runs| && MidPoll(s.runs[p]) && MidPoll(s.runs[q]) ==> p == q)
    && (forall p :: 0 <= p < |s.runs| && MidPoll(s.runs[p]) && s.handlers != map[] ==> s.runs[p].guard.Body?)
    && (forall p :: 0 <= p < |s.runs| ==> HasSeen(s, s.runs[p]))
  }

  lemma HandlersKeepTurns(s: State, id: nat, step: HandlerStep)
    requires HandlerMay(s, id, step) && InTurn(s, ByHandler(id, step)) && OneByOne(s)
    ensures OneByOne(AfterHandler(s, id, step))
  {
    var t := AfterHandler(s, id, step);
    assert forall p :: 0 <= p < |s.runs| ==> t.runs[p].guard == s.runs[p].guard;
    hide Unlocked, Woken;
  }

  lemma CallersKeepTurns(s: State, r: nat, step: CallerStep)
    requires r < |s.runs| && CallerMay(s, s.runs[r], step) && OneByOne(s)
    ensures OneByOne(AfterCaller(s, r, step))
  {
    var t := AfterCaller(s, r, step);
    assert forall p :: 0 <= p < |s.runs| ==>
      t.runs[p].guard == s.runs[p].guard || (s.runs[p].guard.Unpolled? && t.runs[p].guard == Over(None));
    hide Unlocked;
  }

  lemma GuardsKeepTurns(s: State, r: nat, step: GuardStep)
    requires r < |s.runs| && GuardMay(s, s.runs[r], step) && InTurn(s, ByGuard(r, step)) && OneByOne(s)
    ensures OneByOne(AfterGuard(s, r, step))
  {
    var t := AfterGuard(s, r, step);
    assert forall p :: 0 <= p < |s.runs| && p != r ==> t.runs[p].guard == s.runs[p].guard;
    assert t.runs[r] == GuardMoved(s, s.runs[r], step);
    hide Unlocked, Robbed, EmptiesSlot;
  }

  lemma TurnsAreKept(s: State, e: Event)
    requires Enabled(s, e) && InTurn(s, e) && OneByOne(s)
    ensures OneByOne(After(s, e))
  {
    match e
    case BeginRun =>
      assert forall p :: 0 <= p < |s.runs| ==> After(s, e).runs[p] == s.runs[p];
    case ByCaller(r, step) =>
      hide OneByOne, AfterCaller, CallerMay;
      CallersKeepTurns(s, r, step);
    case ByGuard(r, step) =>
      hide OneByOne, AfterGuard, GuardMay;
      GuardsKeepTurns(s, r, step);
    case ByHandler(id, step) =>
      hide OneByOne, AfterHandler, HandlerMay;
      HandlersKeepTurns(s, id, step);
  }

  lemma {:induction false} EveryRunTakesTurns(events: seq<Event>)
    requires Run(events).Some? && OnOneThread(events)
    ensures OneByOne(Run(events).value) && Orderly(Run(events).value)
    decreases |events|
  {
    hide After, Enabled, InTurn;
    EveryRunIsOrderly(events);
    if events != [] {
      EveryRunTakesTurns(events[..|events| - 1]);
      TurnsAreKept(Run(events[..|events| - 1]).value, events[|events| - 1]);
    }
  }

  // ---- Going on from a run ----------------------------------------------------

  /** The same, while no other run begins. */
  ghost predicate Meanwhile(events: seq<Event>, more: seq<Event>, s: State) {
    Reaches(events, more, s) && BeginRun !in more
  }

  lemma Kept(events: seq<Event>, more: seq<Event>, s: State)
    requires Meanwhile(events, more, s)
    ensures OneByOne(s) && Orderly(s)
  {
    EveryRunTakesTurns(events + more);
  }

  lemma Onward(events: seq<Event>, more: seq<Event>, s: State, e: Event) returns (more': seq<Event>, s': State)
    requires Meanwhile(events, more, s) && Enabled(s, e) && InTurn(s, e) && !e.BeginRun?
    ensures s' == After(s, e) && Meanwhile(events, more', s')
  {
    hide After, Enabled, InTurn;
    more', s' := more + [e], After(s, e);
    assert (events + more')[..|events + more|] == events + more;
  }

  predicate Alike(s: State, t: State) {
    |t.runs| == |s.runs| && t.active == s.active && t.handlers == s.handlers
  }

  /** One run moves; of the others nothing changes but who has had their wakers. */
  predicate Beside(s: State, t: State, r: nat) {
    && Alike(s, t)
    && forall q :: 0 <= q < |s.runs| && q != r ==> t.runs[q] == s.runs[q].(robbed := t.runs[q].robbed)
  }

  lemma GuardOnward(events: seq<Event>, more: seq<Event>, s: State, r: nat, step: GuardStep)
    returns (more': seq<Event>, s': State)
    requires Meanwhile(events, more, s) && r < |s.runs| && GuardMay(s, s.runs[r], step) && FreeFor(s, r)
    ensures Meanwhile(events, more', s') && Beside(s, s', r) && FreeFor(s', r) && Alike(s, s')
    ensures s'.runs[r] == GuardMoved(s, s.runs[r], step)
    ensures s'.failed == (s.failed && !step.Clear?) && s'.error == if step.Grab? then None else s.error
    ensures s'.slot == if step.StoreWaker? then Some(r) else if EmptiesSlot(s, s.runs[r], step) then None else s.slot
  {
    more', s' := Onward(events, more, s, ByGuard(r, step));
    hide Meanwhile, GuardMay, GuardMoved, EmptiesSlot, MidPoll;
    forall q | 0 <= q < |s.runs| && q != r ensures MidPoll(s'.runs[q]) == MidPoll(s.runs[q]) {
      SameTurn(s.runs[q], s'.runs[q]);
    }
  }

  lemma SameTurn(f: Flight, g: Flight)
    requires f.guard == g.guard
    ensures MidPoll(f) == MidPoll(g)
  {
  }

  lemma BesideTwice(s: State, t: State, u: State, r: nat)
    requires Beside(s, t, r) && Beside(t, u, r)
    ensures Beside(s, u, r)
  {
  }

  /** There is no error for this guard to take. */
  predicate Passes(s: State, f: Flight) {
    s.error.None? || (!s.failed && !f.guard.FirstClear? && !f.guard.FirstGrab?)
  }

  /** A guard in its poll comes to where it stores its waker. */
  lemma ComesToRegister(events: seq<Event>, more: seq<Event>, s: State, r: nat) returns (more': seq<Event>, s': State)
    requires Meanwhile(events, more, s) && r < |s.runs| && FreeFor(s, r) && HasSeen(s, s.runs[r])
    requires MidPoll(s.runs[r]) && !s.runs[r].guard.SecondLook? && Passes(s, s.runs[r])
    ensures Meanwhile(events, more', s') && Beside(s, s', r) && FreeFor(s', r) && Alike(s, s')
    ensures s'.runs[r] == s.runs[r].(guard := Register) && !s'.failed
  {
    hide Meanwhile, Beside, FreeFor, Robbed;
    more', s' := more, s;
    assert Beside(s, s, r) by {
      BesideItself(s, r);
    }
    if s'.runs[r].guard.Body? {
      more', s' := GuardOnward(events, more', s', r, BodyPends);
    }
    if s'.runs[r].guard.FirstLook? {
      var t := s';
      more', s' := GuardOnward(events, more', s', r, Look);
      BesideTwice(s, t, s', r);
    }
    if s'.runs[r].guard.FirstClear? {
      var t := s';
      more', s' := GuardOnward(events, more', s', r, Clear);
      BesideTwice(s, t, s', r);
    }
    if s'.runs[r].guard.FirstGrab? {
      var t := s';
      NobodyWrites(s', r);
      more', s' := GuardOnward(events, more', s', r, Grab);
      BesideTwice(s, t, s', r);
    }
  }

  lemma BesideItself(s: State, r: nat)
    ensures Beside(s, s, r)
  {
  }

  lemma NobodyWrites(s: State, r: nat)
    requires FreeFor(s, r)
    ensures Unlocked(s)
  {
  }

  /** And from there to sleep. */
  lemma StoresAndSleeps(events: seq<Event>, more: seq<Event>, s: State, r: nat) returns (more': seq<Event>, s': State)
    requires Meanwhile(events, more, s) && r < |s.runs| && FreeFor(s, r) && !s.failed
    requires s.runs[r].guard.Register? || (s.runs[r].guard.SecondLook? && s.runs[r].registered)
    ensures Meanwhile(events, more', s') && Beside(s, s', r) && FreeFor(s', r) && Alike(s, s') && !s'.failed
    ensures s'.runs[r] == s.runs[r].(guard := Asleep, registered := true, robbed := s'.runs[r].robbed)
    ensures s.runs[r].guard.Register? ==> s'.slot == Some(r)
  {
    hide Meanwhile, Beside, FreeFor, Robbed;
    more', s' := more, s;
    assert Beside(s, s, r) by {
      BesideItself(s, r);
    }
    if s'.runs[r].guard.Register? {
      more', s' := GuardOnward(events, more', s', r, StoreWaker);
    }
    var t := s';
    more', s' := GuardOnward(events, more', s', r, Look);
    BesideTwice(s, t, s', r);
  }

  lemma PollPasses(events: seq<Event>, more: seq<Event>, s: State, r: nat) returns (more': seq<Event>, s': State)
    requires Meanwhile(events, more, s) && r < |s.runs| && FreeFor(s, r) && HasSeen(s, s.runs[r]) && Fits(s.runs[r])
    requires MidPoll(s.runs[r]) && Passes(s, s.runs[r])
    ensures Meanwhile(events, more', s') && Beside(s, s', r) && FreeFor(s', r) && Alike(s, s') && !s'.failed
    ensures s'.runs[r] == s.runs[r].(guard := Asleep, registered := true, robbed := s'.runs[r].robbed)
    ensures s.runs[r].guard.Body? ==> s'.slot == Some(r)
  {
    hide Meanwhile, Beside, FreeFor;
    more', s' := more, s;
    if !s.runs[r].guard.SecondLook? {
      more', s' := ComesToRegister(events, more, s, r);
      var t := s';
      more', s' := StoresAndSleeps(events, more', s', r);
      BesideTwice(s, t, s', r);
    } else {
      more', s' := StoresAndSleeps(events, more', s', r);
    }
  }

  /** A guard in its poll takes the error that is there, and is over. */
  lemma PollTakes(events: seq<Event>, more: seq<Event>, s: State, r: nat) returns (more': seq<Event>, s': State)
    requires Meanwhile(events, more, s) && r < |s.runs| && FreeFor(s, r) && HasSeen(s, s.runs[r])
    requires s.error.Some? && (s.failed || s.runs[r].guard.FirstClear? || s.runs[r].guard.FirstGrab?)
    requires MidPoll(s.runs[r])
    ensures Meanwhile(events, more', s') && Beside(s, s', r) && FreeFor(s', r) && Alike(s, s')
    ensures s'.runs[r].guard.Over? && s'.runs[r].caller == s.runs[r].caller && !s'.failed && s'.error.None?
  {
    hide Meanwhile, Beside, FreeFor, Robbed;
    more', s' := more, s;
    assert Beside(s, s, r) by {
      BesideItself(s, r);
    }
    if s'.runs[r].guard.Body? {
      more', s' := GuardOnward(events, more', s', r, BodyPends);
    }
    if s'.runs[r].guard.FirstLook? {
      var t := s';
      more', s' := GuardOnward(events, more', s', r, Look);
      BesideTwice(s, t, s', r);
    }
    if s'.runs[r].guard.FirstClear? {
      var t := s';
      more', s' := GuardOnward(events, more', s', r, Clear);
      BesideTwice(s, t, s', r);
    }
    var t := s';
    NobodyWrites(s', r);
    more', s' := GuardOnward(events, more', s', r, Grab);
    BesideTwice(s, t, s', r);
  }

  /** Nothing is going on on the realm's thread. */
  predicate Still(s: State) {
    s.handlers == map[] && forall q :: 0 <= q < |s.runs| ==> !MidPoll(s.runs[q])
  }

  lemma StillIsFree(s: State, r: nat)
    requires r < |s.runs|
    ensures Still(s) <==> FreeFor(s, r) && !MidPoll(s.runs[r])
  {
  }

  /** A guard polled when no error is there for it falls asleep. */
  lemma FallsAsleep(events: seq<Event>, more: seq<Event>, s: State, r: nat) returns (more': seq<Event>, s': State)
    requires Meanwhile(events, more, s) && r < |s.runs| && Still(s) && !(s.failed && s.error.Some?)
    requires s.runs[r].caller.InRun? && (s.runs[r].guard.Unpolled? || s.runs[r].guard.Asleep?)
    ensures Meanwhile(events, more', s') && Beside(s, s', r) && Still(s') && Alike(s, s') && !s'.failed &&
      s'.slot == Some(r)
    ensures s'.runs[r].guard.Asleep? && s'.runs[r].caller.InRun? && !s'.runs[r].notified && s'.runs[r].registered
  {
    hide Meanwhile, Beside, FreeFor, Still;
    StillIsFree(s, r);
    assert Fits(s.runs[r]) by {
      Kept(events, more, s);
    }
    more', s' := GuardOnward(events, more, s, r, Poll);
    assert Fits(s'.runs[r]);
    var t := s';
    more', s' := PollPasses(events, more', s', r);
    BesideTwice(s, t, s', r);
    StillAsleep(s', r);
  }

  lemma StillAsleep(s: State, r: nat)
    requires r < |s.runs| && FreeFor(s, r) && (s.runs[r].guard.Asleep? || s.runs[r].guard.Over?)
    ensures Still(s)
  {
  }

  /** A guard polled when a failure waits takes it. */
  lemma TakesTheFailure(events: seq<Event>, more: seq<Event>, s: State, r: nat) returns (more': seq<Event>, s': State)
    requires Meanwhile(events, more, s) && r < |s.runs| && Still(s) && s.failed && s.error.Some?
    requires s.runs[r].caller.InRun? && (s.runs[r].guard.Unpolled? || s.runs[r].guard.Asleep?)
    ensures Meanwhile(events, more', s') && Beside(s, s', r) && Still(s') && Alike(s, s') && !s'.failed &&
      s'.error.None?
  {
    hide Meanwhile, Beside, FreeFor, Still;
    StillIsFree(s, r);
    more', s' := GuardOnward(events, more, s, r, Poll);
    var t := s';
    more', s' := PollTakes(events, more', s', r);
    BesideTwice(s, t, s', r);
    StillAsleep(s', r);
  }

  /**
   * A guard that has not ended yet can empty the slot: dropped when it has been given up, or else as its body finishes.
   */
  lemma EmptiesTheSlot(events: seq<Event>, more: seq<Event>, s: State, p: nat) returns (more': seq<Event>, s': State)
    requires Meanwhile(events, more, s) && p < |s.runs| && Still(s) && !s.failed
    requires !s.runs[p].guard.Over? && Fits(s.runs[p])
    ensures Meanwhile(events, more', s') && Beside(s, s', p) && Still(s') && Alike(s, s') && !s'.failed && s'.slot.None?
  {
    hide Meanwhile, Beside, FreeFor, Still;
    StillIsFree(s, p);
    SettledGuard(s, p);
    if s.runs[p].caller.Gone? {
      more', s' := GuardOnward(events, more, s, p, DropLeft);
    } else {
      more', s' := more, s;
      assert Beside(s, s', p) by {
        BesideItself(s, p);
      }
      if s.runs[p].guard.Unpolled? {
        more', s' := FallsAsleep(events, more, s, p);
        StillIsFree(s', p);
      }
      var t := s';
      more', s' := GuardOnward(events, more', s', p, Poll);
      var u := s';
      more', s' := GuardOnward(events, more', s', p, BodyFinishes);
      BesideTwice(t, u, s', p);
      BesideTwice(s, t, s', p);
    }
    StillAsleep(s', p);
  }

  lemma SettledGuard(s: State, p: nat)
    requires p < |s.runs| && Still(s) && !s.runs[p].guard.Over? && Fits(s.runs[p])
    ensures s.runs[p].guard.Unpolled? || s.runs[p].guard.Asleep?
    ensures s.runs[p].caller.InRun? || (s.runs[p].caller.Gone? && s.runs[p].guard.Asleep?)
  {
    assert !MidPoll(s.runs[p]);
  }

  lemma CallerOnward(events: seq<Event>, more: seq<Event>, s: State, r: nat, step: CallerStep)
    returns (more': seq<Event>, s': State)
    requires Meanwhile(events, more, s) && r < |s.runs| && CallerMay(s, s.runs[r], step)
    requires !step.EndRun? && !step.Backstop?
    ensures Meanwhile(events, more', s') && Beside(s, s', r) && Alike(s, s')
    ensures s'.runs[r] == CallerMoved(s, s.runs[r], step)
    ensures s'.failed == (s.failed && !step.CallerClear?) && s'.error == if step.CallerGrab? then None else s.error
  {
    more', s' := Onward(events, more, s, ByCaller(r, step));
    hide Meanwhile, CallerMay, CallerMoved;
  }

  /** A caller on its way to the error, or about to find the flag, takes it. */
  lemma CallerTakes(events: seq<Event>, more: seq<Event>, s: State, r: nat) returns (more': seq<Event>, s': State)
    requires Meanwhile(events, more, s) && r < |s.runs| && s.handlers == map[]
    requires s.runs[r].caller.Clearing? || s.runs[r].caller.Grabbing? || (s.runs[r].caller.Ended? && s.failed)
    ensures Meanwhile(events, more', s') && Beside(s, s', r) && Alike(s, s') && s'.error.None?
    ensures s'.runs[r].guard == s.runs[r].guard && s'.runs[r].registered == s.runs[r].registered
    ensures s'.failed ==> s.failed
  {
    hide Meanwhile, Beside;
    more', s' := more, s;
    assert Beside(s, s, r) by {
      BesideItself(s, r);
    }
    if s'.runs[r].caller.Ended? {
      more', s' := CallerOnward(events, more', s', r, CallerLook);
    }
    if s'.runs[r].caller.Clearing? {
      var t := s';
      more', s' := CallerOnward(events, more', s', r, CallerClear);
      BesideTwice(s, t, s', r);
    }
    var t := s';
    assert Unlocked(s');
    more', s' := CallerOnward(events, more', s', r, CallerGrab);
    BesideTwice(s, t, s', r);
  }

  /** Runs differ in who has been woken at most. */
  predicate ButWoken(s: State, t: State) {
    && |t.runs| == |s.runs| && t.active == s.active
    && forall q :: 0 <= q < |s.runs| ==> t.runs[q] == s.runs[q].(notified := t.runs[q].notified)
  }

  lemma HandlerOnward(events: seq<Event>, more: seq<Event>, s: State, id: nat, step: HandlerStep)
    returns (more': seq<Event>, s': State)
    requires Meanwhile(events, more, s) && HandlerMay(s, id, step) && !step.Hear?
    ensures Meanwhile(events, more', s') && s' == AfterHandler(s, id, step) && ButWoken(s, s')
  {
    more', s' := Onward(events, more, s, ByHandler(id, step));
  }

  /** A report that has been written comes to its end. */
  lemma WrittenReportEnds(
    events: seq<Event>, more: seq<Event>, s: State, id: nat) returns (more': seq<Event>, s': State)
    requires Meanwhile(events, more, s) && id in s.handlers && s.handlers[id].Written? && s.handlers.Keys == {id}
    ensures Meanwhile(events, more', s') && ButWoken(s, s') && s'.handlers == map[]
    ensures s'.failed && s'.error == s.error && s'.slot.None? && (s.slot.None? ==> s'.runs == s.runs)
  {
    hide Meanwhile;
    more', s' := HandlerOnward(events, more, s, id, SetFlag);
    more', s' := HandlerOnward(events, more', s', id, TakeWaker);
    more', s' := HandlerOnward(events, more', s', id, Wake);
    assert s'.handlers.Keys == {};
  }

  lemma OneHandler(s: State, id: nat)
    requires OneByOne(s) && id in s.handlers
    ensures s.handlers.Keys == {id}
  {
  }

  /** Whatever the handler is at, it comes to its end; a report not yet under the flag is then. */
  lemma HandlerEnds(events: seq<Event>, more: seq<Event>, s: State) returns (more': seq<Event>, s': State)
    requires Meanwhile(events, more, s) && OneByOne(s) && ReportsFit(s)
    ensures Meanwhile(events, more', s') && ButWoken(s, s') && s'.handlers == map[]
    ensures
      if exists h :: h in s.handlers && Reporting(s.handlers[h]) then
        && s'.failed && s'.error.Some?
        && exists h :: h in s.handlers && Reporting(s.handlers[h]) && s'.error == Some(s.handlers[h].report)
      else s'.failed == s.failed && s'.error == s.error
  {
    hide Meanwhile;
    more', s' := more, s;
    if id :| id in s.handlers {
      OneHandler(s, id);
      hide OneByOne;
      if Reporting(s.handlers[id]) {
        if s'.handlers[id].Admitted? {
          more', s' := HandlerOnward(events, more', s', id, Write);
        }
        more', s' := WrittenReportEnds(events, more', s', id);
      } else {
        more', s' := LastStepsOfAWake(events, more, s, id);
      }
    }
  }

  lemma LastStepsOfAWake(events: seq<Event>, more: seq<Event>, s: State, id: nat) returns (more': seq<Event>, s': State)
    requires Meanwhile(events, more, s) && s.handlers.Keys == {id} && !Reporting(s.handlers[id])
    ensures Meanwhile(events, more', s') && ButWoken(s, s') && s'.handlers == map[]
    ensures s'.failed == s.failed && s'.error == s.error
  {
    hide Meanwhile;
    more', s' := more, s;
    if s.handlers[id].Raised? {
      more', s' := HandlerOnward(events, more', s', id, TakeWaker);
    }
    more', s' := HandlerOnward(events, more', s', id, Wake);
    assert s'.handlers.Keys == {};
  }

  /** Something throws while the slot is empty: no one is woken. */
  lemma ThrowsUnheard(events: seq<Event>, more: seq<Event>, s: State) returns (more': seq<Event>, s': State)
    requires Meanwhile(events, more, s) && Still(s) && s.active && !s.failed && s.slot.None?
    ensures Meanwhile(events, more', s') && s'.handlers == map[] && s'.runs == s.runs && s'.failed && s'.error.Some?
  {
    more', s' := Onward(events, more, s, ByHandler(0, Hear(0)));
    hide Meanwhile, Still;
    assert s'.handlers.Keys == {0};
    more', s' := HandlerOnward(events, more', s', 0, Write);
    more', s' := WrittenReportEnds(events, more', s', 0);
  }

  // ---- When a wake-up can be lost ---------------------------------------------

  /** A failure is there, or on its way, that the run's guard will find at its first look unless someone takes it. */
  ghost predicate FailureWaits(s: State) {
    || (exists h :: h in s.handlers && Reporting(s.handlers[h]))
    || (s.error.Some? &&
        (s.failed ||
         exists m :: 0 <= m < |s.runs| && (s.runs[m].guard.FirstClear? || s.runs[m].guard.FirstGrab?)))
  }

  /** The run can take that failure: its caller is about to, or its guard is in its poll or can be polled. */
  ghost predicate Taker(s: State, f: Flight) {
    || f.caller.Clearing? || f.caller.Grabbing?
    || (f.caller.Ended? && (s.failed || exists h :: h in s.handlers && Reporting(s.handlers[h])))
    || (!f.guard.Over? && (f.caller.InRun? || MidPoll(f)))
  }

  /** Another guard is not over yet, and if a failure waits someone else can take it. */
  ghost predicate MayLose(s: State, r: nat) {
    exists p :: 0 <= p < |s.runs| && p != r && !s.runs[p].guard.Over? &&
      (FailureWaits(s) ==> TakenByAnother(s, r, p))
  }

  ghost predicate TakenByAnother(s: State, r: nat, p: nat) {
    exists t :: 0 <= t < |s.runs| && t != r && t != p && Taker(s, s.runs[t])
  }

  /** The run has begun and its job has not been polled. */
  predicate Begun(s: State, r: nat) {
    r < |s.runs| && s.runs[r].caller.InRun? && s.runs[r].guard.Unpolled? && s.active
  }

  lemma StillMayLose(s: State, t: State, r: nat)
    requires MayLose(s, r) && ButWoken(s, t) && t.handlers == map[]
    requires
      if exists h :: h in s.handlers && Reporting(s.handlers[h]) then t.failed && t.error.Some?
      else t.failed == s.failed && t.error == s.error
    ensures MayLose(t, r)
  {
    var p :| 0 <= p < |s.runs| && p != r && !s.runs[p].guard.Over? && (FailureWaits(s) ==> TakenByAnother(s, r, p));
    if FailureWaits(t) {
      assert FailureWaits(s);
      var q :| 0 <= q < |s.runs| && q != r && q != p && Taker(s, s.runs[q]);
      assert Taker(t, t.runs[q]);
    }
  }

  /** The realm's thread comes to rest with a guard left that is not over, and no failure. */
  ghost predicate Robbable(s: State, r: nat) {
    Begun(s, r) && Still(s) && !(s.failed && s.error.Some?) &&
    exists p :: 0 <= p < |s.runs| && p != r && !s.runs[p].guard.Over?
  }

  lemma OnlyOneInItsPoll(s: State, m: nat)
    requires OneByOne(s) && m < |s.runs| && MidPoll(s.runs[m]) && s.handlers == map[]
    ensures FreeFor(s, m) && HasSeen(s, s.runs[m])
  {
  }

  /** Whoever is in its poll finishes it; with no failure to take, it falls asleep. */
  lemma Settles(events: seq<Event>, more: seq<Event>, s: State, r: nat, p: nat) returns (more': seq<Event>, s': State)
    requires Meanwhile(events, more, s) && Begun(s, r) && s.handlers == map[] && !FailureWaits(s)
    requires p < |s.runs| && p != r && !s.runs[p].guard.Over?
    ensures Meanwhile(events, more', s') && Robbable(s', r)
  {
    Kept(events, more, s);
    hide Meanwhile;
    more', s' := more, s;
    if m :| 0 <= m < |s.runs| && MidPoll(s.runs[m]) {
      OnlyOneInItsPoll(s, m);
      assert Fits(s.runs[m]);
      hide OneByOne, Orderly;
      more', s' := PollPasses(events, more, s, m);
      StillAsleep(s', m);
      assert !s'.runs[p].guard.Over?;
    } else {
      assert Still(s);
    }
  }

  /** Who is in its poll finds the failure, and takes it. */
  lemma PollTakesIt(events: seq<Event>, more: seq<Event>, s: State, r: nat, m: nat, p: nat)
    returns (more': seq<Event>, s': State)
    requires Meanwhile(events, more, s) && Begun(s, r) && s.handlers == map[] && FailureWaits(s)
    requires m < |s.runs| && MidPoll(s.runs[m])
    requires p < |s.runs| && p != r && p != m && !s.runs[p].guard.Over?
    ensures Meanwhile(events, more', s') && Robbable(s', r)
  {
    Kept(events, more, s);
    hide Meanwhile;
    OnlyOneInItsPoll(s, m);
    if q :| 0 <= q < |s.runs| && (s.runs[q].guard.FirstClear? || s.runs[q].guard.FirstGrab?) {
      assert MidPoll(s.runs[q]);
    }
    hide OneByOne, Orderly;
    more', s' := PollTakes(events, more, s, m);
    StillAsleep(s', m);
    assert !s'.runs[p].guard.Over?;
  }

  lemma ComesToRest(events: seq<Event>, more: seq<Event>, s: State, r: nat) returns (more': seq<Event>, s': State)
    requires Meanwhile(events, more, s) && Begun(s, r) && s.handlers == map[] && MayLose(s, r)
    ensures Meanwhile(events, more', s') && Robbable(s', r)
  {
    hide Meanwhile, FailureWaits, Robbable;
    var p :| 0 <= p < |s.runs| && p != r && !s.runs[p].guard.Over? && (FailureWaits(s) ==> TakenByAnother(s, r, p));
    if !FailureWaits(s) {
      more', s' := Settles(events, more, s, r, p);
    } else {
      var t :| 0 <= t < |s.runs| && t != r && t != p && Taker(s, s.runs[t]);
      if s.runs[t].caller.Clearing? || s.runs[t].caller.Grabbing? || s.runs[t].caller.Ended? {
        more', s' := CallerTakesIt(events, more, s, r, p, t);
      } else if m :| 0 <= m < |s.runs| && MidPoll(s.runs[m]) {
        more', s' := PollTakesIt(events, more, s, r, m, if m == p then t else p);
      } else {
        more', s' := PolledGuardTakesIt(events, more, s, r, p, t);
      }
    }
  }

  lemma CallerTakesIt(events: seq<Event>, more: seq<Event>, s: State, r: nat, p: nat, t: nat)
    returns (more': seq<Event>, s': State)
    requires Meanwhile(events, more, s) && Begun(s, r) && s.handlers == map[]
    requires p < |s.runs| && p != r && !s.runs[p].guard.Over?
    requires t < |s.runs| && t != r && t != p && Taker(s, s.runs[t])
    requires s.runs[t].caller.Clearing? || s.runs[t].caller.Grabbing? || s.runs[t].caller.Ended?
    ensures Meanwhile(events, more', s') && Robbable(s', r)
  {
    Kept(events, more, s);
    assert Fits(s.runs[t]);
    hide Meanwhile, OneByOne, Orderly, Robbable;
    more', s' := CallerTakes(events, more, s, t);
    assert !s'.runs[p].guard.Over? && Begun(s', r) && !FailureWaits(s');
    more', s' := Settles(events, more', s', r, p);
  }

  lemma PolledGuardTakesIt(events: seq<Event>, more: seq<Event>, s: State, r: nat, p: nat, t: nat)
    returns (more': seq<Event>, s': State)
    requires Meanwhile(events, more, s) && Begun(s, r) && s.handlers == map[] && FailureWaits(s)
    requires forall m :: 0 <= m < |s.runs| ==> !MidPoll(s.runs[m])
    requires p < |s.runs| && p != r && !s.runs[p].guard.Over?
    requires t < |s.runs| && t != r && t != p && !s.runs[t].guard.Over? && s.runs[t].caller.InRun?
    ensures Meanwhile(events, more', s') && Robbable(s', r)
  {
    assert forall m :: 0 <= m < |s.runs| ==> !MidPoll(s.runs[m]);
    hide Meanwhile;
    more', s' := TakesTheFailure(events, more, s, t);
    assert !s'.runs[p].guard.Over?;
  }

  lemma WakeUpIsLost(events: seq<Event>, s: State, r: nat) returns (more: seq<Event>, s': State)
    requires Meanwhile(events, [], s) && Begun(s, r) && MayLose(s, r)
    ensures Meanwhile(events, more, s') && Lost(s', r)
  {
    Kept(events, [], s);
    more, s' := HandlerEnds(events, [], s);
    StillMayLose(s, s', r);
    hide MayLose, Meanwhile, OneByOne, Orderly;
    more, s' := ComesToRest(events, more, s', r);
    more, s' := RestIsRobbed(events, more, s', r);
  }

  lemma RestIsRobbed(events: seq<Event>, more: seq<Event>, s: State, r: nat) returns (more': seq<Event>, s': State)
    requires Meanwhile(events, more, s) && Robbable(s, r)
    ensures Meanwhile(events, more', s') && Lost(s', r)
  {
    hide Meanwhile, Still;
    var p :| 0 <= p < |s.runs| && p != r && !s.runs[p].guard.Over?;
    more', s' := FallsAsleep(events, more, s, r);
    Kept(events, more', s');
    assert Fits(s'.runs[p]) && s'.runs[p].guard == s.runs[p].guard;
    hide OneByOne, Orderly;
    more', s' := EmptiesTheSlot(events, more', s', p);
    more', s' := ThrowsUnheard(events, more', s');
  }

  // ---- When none can be -------------------------------------------------------

  /** The guard has looked and gone by, or sleeps. */
  predicate Past(g: Guard) {
    g.Register? || LooksAgain(g) || g.Asleep?
  }

  predicate Fresh(g: Guard) {
    g.Unpolled? || g.Body? || g.FirstLook?
  }

  predicate Left(f: Flight) {
    f.caller.Gone? && f.guard.Asleep?
  }

  predicate OthersOver(s: State, r: nat, p: nat) {
    forall q :: 0 <= q < |s.runs| && q != r && q != p ==> s.runs[q].guard.Over?
  }

  /** No other guard can take the waker, and none has. */
  predicate Unthreatened(s: State, r: nat)
    requires r < |s.runs|
  {
    OthersOver(s, r, r) && (LooksAgain(s.runs[r].guard) || s.runs[r].guard.Asleep? ==> !s.runs[r].robbed)
  }

  /** Some run has ended, and none begins: no failure comes that is not on its way. */
  ghost predicate Quiet(s: State, r: nat)
    requires r < |s.runs|
  {
    !s.active &&
    (Past(s.runs[r].guard) ==> !s.failed && forall h :: h in s.handlers ==> !Reporting(s.handlers[h]))
  }

  /** Of the other guards only `p` can be polled; or all are left behind. */
  predicate Harmless(s: State, r: nat, p: nat)
    requires p < |s.runs|
  {
    && (forall q :: 0 <= q < |s.runs| && q != r && q != p ==> s.runs[q].guard.Over? || Left(s.runs[q]))
    && (s.runs[p].guard.Over? || Left(s.runs[p]) || OthersOver(s, r, p))
  }

  /** No other caller is between its end and its answer. */
  predicate NobodyEnds(s: State, r: nat) {
    forall q :: 0 <= q < |s.runs| && q != r ==> s.runs[q].caller.InRun? || s.runs[q].caller.Gone?
  }

  predicate NobodyTakes(s: State, r: nat) {
    forall q :: 0 <= q < |s.runs| && q != r ==> !s.runs[q].caller.Clearing? && !s.runs[q].caller.Grabbing?
  }

  /** The failure waits for whichever of the two guards looks first. */
  ghost predicate Waiting(s: State, r: nat, p: nat)
    requires r < |s.runs| && p < |s.runs|
  {
    && s.active && Harmless(s, r, p) && NobodyEnds(s, r) && ReportWaits(s) && Fresh(s.runs[r].guard)
    && (Fresh(s.runs[p].guard) || s.runs[p].guard.Asleep? || s.runs[p].guard.Over?)
  }

  /** The other guard has found it and is about to end with it. */
  predicate FoundByOther(s: State, r: nat, p: nat)
    requires r < |s.runs| && p < |s.runs|
  {
    && s.active && OthersOver(s, r, p) && Fresh(s.runs[r].guard) && s.error.Some?
    && ((s.runs[p].guard.FirstClear? && s.failed && NobodyEnds(s, r)) ||
        ((s.runs[p].guard.FirstClear? || s.runs[p].guard.FirstGrab?) && !s.failed && NobodyTakes(s, r)))
  }

  /** This run's guard has. */
  predicate Found(s: State, r: nat)
    requires r < |s.runs|
  {
    && s.active && NobodyEnds(s, r) && s.error.Some?
    && ((s.runs[r].guard.FirstClear? && s.failed) || s.runs[r].guard.FirstGrab?)
  }

  ghost predicate Safe(s: State, r: nat, p: nat) {
    && r < |s.runs| && p < |s.runs|
    && (s.runs[r].guard.Over? || Unthreatened(s, r) || Quiet(s, r) || Found(s, r) ||
        (p != r && (Waiting(s, r, p) || FoundByOther(s, r, p))))
  }

  lemma ThreatensNoOne(s: State, e: Event, r: nat)
    requires Enabled(s, e) && !e.BeginRun? && r < |s.runs| && Unthreatened(s, r)
    ensures r < |After(s, e).runs| && Unthreatened(After(s, e), r)
  {
    FlightsMove(s, e);
    hide Unlocked, EmptiesSlot, Woken, Robbed;
  }

  lemma StaysQuiet(s: State, e: Event, r: nat)
    requires Enabled(s, e) && InTurn(s, e) && OneByOne(s) && !e.BeginRun? && r < |s.runs| && Quiet(s, r)
    ensures r < |After(s, e).runs| && Quiet(After(s, e), r)
  {
    FlightsMove(s, e);
    assert HasSeen(s, s.runs[r]);
    hide Unlocked, EmptiesSlot, Woken, Robbed;
  }

  lemma CallersLetItWait(s: State, q: nat, step: CallerStep, r: nat, p: nat)
    requires q < |s.runs| && CallerMay(s, s.runs[q], step) && r < |s.runs| && p < |s.runs| && p != r && Waiting(s, r, p)
    requires Fits(s.runs[r]) && Fits(s.runs[p])
    ensures Safe(AfterCaller(s, q, step), r, p)
  {
    hide Unlocked, EmptiesSlot;
    if step.Forsake? {
      ForsakingIsHarmless(s, q, r, p);
    }
  }

  lemma ForsakingIsHarmless(s: State, q: nat, r: nat, p: nat)
    requires q < |s.runs| && s.runs[q].caller.InRun? && r < |s.runs| && p < |s.runs| && p != r && Waiting(s, r, p)
    ensures
      var t := AfterCaller(s, q, Forsake);
      t.runs[r].guard.Over? || Waiting(t, r, p)
  {
  }

  lemma OwnGuardFindsIt(s: State, step: GuardStep, r: nat, p: nat)
    requires r < |s.runs| && p < |s.runs| && p != r && Waiting(s, r, p)
    requires GuardMay(s, s.runs[r], step) && FreeFor(s, r)
    ensures Safe(AfterGuard(s, r, step), r, p)
  {
    FlightsMove(s, ByGuard(r, step));
    hide Unlocked, EmptiesSlot, Robbed, Unthreatened, Quiet, FoundByOther;
  }

  lemma OtherGuardFindsIt(s: State, q: nat, step: GuardStep, r: nat, p: nat)
    requires r < |s.runs| && p < |s.runs| && p != r && Waiting(s, r, p) && q != r
    requires q < |s.runs| && GuardMay(s, s.runs[q], step) && FreeFor(s, q)
    ensures Safe(AfterGuard(s, q, step), r, p)
  {
    FlightsMove(s, ByGuard(q, step));
    hide Unlocked, EmptiesSlot, Robbed, Unthreatened, Quiet, Found;
  }

  lemma HandlersKeepItWaiting(s: State, id: nat, step: HandlerStep, r: nat, p: nat)
    requires HandlerMay(s, id, step) && InTurn(s, ByHandler(id, step)) && OneByOne(s) && ReportsFit(s)
    requires r < |s.runs| && p < |s.runs| && p != r && Waiting(s, r, p)
    ensures Safe(AfterHandler(s, id, step), r, p)
  {
    hide Unlocked;
    var t := AfterHandler(s, id, step);
    assert forall q :: 0 <= q < |s.runs| ==> t.runs[q] == s.runs[q].(notified := t.runs[q].notified);
    ReportGoesOnWaiting(s, id, step);
    hide Woken, ReportWaits;
  }

  lemma ReportGoesOnWaiting(s: State, id: nat, step: HandlerStep)
    requires HandlerMay(s, id, step) && InTurn(s, ByHandler(id, step)) && OneByOne(s) && ReportsFit(s) && ReportWaits(s)
    ensures ReportWaits(AfterHandler(s, id, step))
  {
    hide MidPoll, HasSeen;
    var t := AfterHandler(s, id, step);
    if step.Write? {
      assert Reporting(t.handlers[id]);
    }
  }

  lemma CallersLetItBeTaken(s: State, q: nat, step: CallerStep, r: nat, p: nat)
    requires q < |s.runs| && CallerMay(s, s.runs[q], step)
    requires r < |s.runs| && p < |s.runs| && p != r && FoundByOther(s, r, p) && Fits(s.runs[r]) && Fits(s.runs[p])
    ensures Safe(AfterCaller(s, q, step), r, p)
  {
    hide Unlocked, Unthreatened, Waiting, Found;
  }

  lemma FinderGoesOn(s: State, step: GuardStep, r: nat, p: nat)
    requires r < |s.runs| && p < |s.runs| && p != r && FoundByOther(s, r, p) && GuardMay(s, s.runs[p], step)
    ensures Safe(AfterGuard(s, p, step), r, p)
  {
    FlightsMove(s, ByGuard(p, step));
    hide Unlocked, EmptiesSlot, Robbed, Quiet, Waiting, Found;
  }

  lemma FindersKeep(s: State, e: Event, r: nat, p: nat)
    requires Enabled(s, e) && InTurn(s, e) && OneByOne(s) && Orderly(s) && !e.BeginRun?
    requires r < |s.runs| && p < |s.runs| && p != r && FoundByOther(s, r, p)
    ensures Safe(After(s, e), r, p)
  {
    assert MidPoll(s.runs[p]) && s.handlers == map[];
    assert Fits(s.runs[r]) && Fits(s.runs[p]);
    NoReportsInAPoll(s, e, p);
    hide OneByOne, Orderly, Safe, FoundByOther, CallerMay, GuardMay, AfterCaller, AfterGuard;
    if e.ByCaller? {
      CallersLetItBeTaken(s, e.run, e.call, r, p);
    } else {
      FinderGoesOn(s, e.poll, r, p);
    }
  }

  lemma NoReportsInAPoll(s: State, e: Event, p: nat)
    requires Enabled(s, e) && InTurn(s, e) && s.handlers == map[]
    requires p < |s.runs| && MidPoll(s.runs[p]) && !s.runs[p].guard.Body?
    ensures !e.ByHandler?
  {
  }

  lemma FinderKeeps(s: State, e: Event, r: nat, p: nat)
    requires Enabled(s, e) && InTurn(s, e) && OneByOne(s) && Orderly(s) && !e.BeginRun?
    requires r < |s.runs| && p < |s.runs| && Found(s, r)
    ensures Safe(After(s, e), r, p)
  {
    FlightsMove(s, e);
    assert MidPoll(s.runs[r]) && s.handlers == map[];
    assert Fits(s.runs[r]);
    hide OneByOne, Orderly, Unlocked, EmptiesSlot, Robbed, Woken;
  }

  lemma StaysSafe(s: State, e: Event, r: nat, p: nat)
    requires Enabled(s, e) && InTurn(s, e) && OneByOne(s) && Orderly(s) && !e.BeginRun? && Safe(s, r, p)
    ensures Safe(After(s, e), r, p)
  {
    hide OneByOne, Unthreatened, Quiet, Found, Waiting, FoundByOther, FlightAfter;
    FlightsMove(s, e);
    if s.runs[r].guard.Over? {
      OverStays(s, e, r);
    }
    if Unthreatened(s, r) {
      ThreatensNoOne(s, e, r);
    } else if Quiet(s, r) {
      StaysQuiet(s, e, r);
    } else if Found(s, r) {
      FinderKeeps(s, e, r, p);
    } else if p != r && FoundByOther(s, r, p) {
      FindersKeep(s, e, r, p);
    } else if p != r && Waiting(s, r, p) {
      WaitsOn(s, e, r, p);
    }
  }

  lemma OverStays(s: State, e: Event, r: nat)
    requires Enabled(s, e) && r < |s.runs| && s.runs[r].guard.Over?
    ensures FlightAfter(s, e, r).guard.Over?
  {
  }

  lemma WaitsOn(s: State, e: Event, r: nat, p: nat)
    requires Enabled(s, e) && InTurn(s, e) && OneByOne(s) && Orderly(s) && !e.BeginRun?
    requires r < |s.runs| && p < |s.runs| && p != r && Waiting(s, r, p)
    ensures Safe(After(s, e), r, p)
  {
    hide OneByOne, Safe, Waiting, CallerMay, GuardMay, HandlerMay, AfterCaller, AfterGuard, AfterHandler;
    match e
    case ByCaller(q, step) => CallersLetItWait(s, q, step, r, p);
    case ByGuard(q, step) =>
      if q == r {
        OwnGuardFindsIt(s, step, r, p);
      } else {
        OtherGuardFindsIt(s, q, step, r, p);
      }
    case ByHandler(id, step) => HandlersKeepItWaiting(s, id, step, r, p);
  }

  /** A run that begins and may not lose its wake-up is safe. */
  lemma BeginsSafe(s: State, r: nat) returns (p: nat)
    requires Begun(s, r) && OneByOne(s) && Orderly(s) && !MayLose(s, r)
    ensures Safe(s, r, p)
  {
    p := r;
    if q :| 0 <= q < |s.runs| && q != r && !s.runs[q].guard.Over? {
      p := q;
      if t :| 0 <= t < |s.runs| && t != r && !s.runs[t].guard.Over? && !Left(s.runs[t]) {
        p := t;
      }
      LivesAreLeft(s, r, p);
      if m :| 0 <= m < |s.runs| && (s.runs[m].guard.FirstClear? || s.runs[m].guard.FirstGrab?) {
        FoundAlready(s, r, p, m);
      } else {
        WaitsAlready(s, r, p);
      }
    }
  }

  lemma LivesAreLeft(s: State, r: nat, p: nat)
    requires Begun(s, r) && Orderly(s) && !MayLose(s, r) && p < |s.runs| && p != r && !s.runs[p].guard.Over?
    requires Left(s.runs[p]) ==> forall t :: 0 <= t < |s.runs| && t != r ==> s.runs[t].guard.Over? || Left(s.runs[t])
    ensures FailureWaits(s) && !TakenByAnother(s, r, p) && Harmless(s, r, p)
  {
    hide FailureWaits;
    forall q | 0 <= q < |s.runs| && q != r && q != p && !s.runs[q].guard.Over?
      ensures Left(s.runs[q]) && Left(s.runs[p])
    {
      assert Fits(s.runs[q]) && Fits(s.runs[p]);
      assert !Taker(s, s.runs[q]);
      assert FailureWaits(s) && !TakenByAnother(s, r, q);
      assert !Taker(s, s.runs[p]);
    }
  }

  lemma FoundAlready(s: State, r: nat, p: nat, m: nat)
    requires Begun(s, r) && OneByOne(s) && Orderly(s) && FailureWaits(s) && !TakenByAnother(s, r, p)
    requires p < |s.runs| && p != r && !s.runs[p].guard.Over? && Harmless(s, r, p)
    requires m < |s.runs| && (s.runs[m].guard.FirstClear? || s.runs[m].guard.FirstGrab?)
    ensures FoundByOther(s, r, p)
  {
    assert MidPoll(s.runs[m]) && s.handlers == map[] && HasSeen(s, s.runs[m]);
    assert Taker(s, s.runs[m]);
    assert m == p;
    hide OneByOne;
    forall q | 0 <= q < |s.runs| && q != r && q != p
      ensures !s.runs[q].caller.Clearing? && !s.runs[q].caller.Grabbing? && (s.failed ==> !s.runs[q].caller.Ended?)
    {
      assert !Taker(s, s.runs[q]);
    }
    assert Fits(s.runs[p]);
  }

  lemma WaitsAlready(s: State, r: nat, p: nat)
    requires Begun(s, r) && OneByOne(s) && Orderly(s) && FailureWaits(s) && !TakenByAnother(s, r, p)
    requires p < |s.runs| && p != r && !s.runs[p].guard.Over? && Harmless(s, r, p)
    requires forall m :: 0 <= m < |s.runs| ==> !s.runs[m].guard.FirstClear? && !s.runs[m].guard.FirstGrab?
    ensures Waiting(s, r, p)
  {
    forall q | 0 <= q < |s.runs| && q != r && q != p
      ensures s.runs[q].caller.InRun? || s.runs[q].caller.Gone?
    {
      assert !Taker(s, s.runs[q]);
    }
    assert Fits(s.runs[p]) && HasSeen(s, s.runs[p]);
    assert MidPoll(s.runs[p]) && s.handlers != map[] ==> s.runs[p].guard.Body?;
    hide OneByOne;
  }

  lemma {:induction false} SafeFromThenOn(events: seq<Event>, more: seq<Event>, s: State, r: nat, p: nat)
    requires Meanwhile(events, [], s) && Safe(s, r, p) && Run(events + more).Some? && OnOneThread(events + more)
    requires BeginRun !in more
    ensures Safe(Run(events + more).value, r, p)
    decreases |more|
  {
    hide After, Enabled, InTurn, Safe, OneByOne, Orderly;
    var all := events + more;
    if more == [] {
    } else {
      var e := more[|more| - 1];
      assert all[..|all| - 1] == events + more[..|more| - 1];
      assert e in more;
      SafeFromThenOn(events, more[..|more| - 1], s, r, p);
      EveryRunTakesTurns(all[..|all| - 1]);
      StaysSafe(Run(all[..|all| - 1]).value, e, r, p);
    }
  }

  lemma TheSafeAreNotLost(events: seq<Event>, r: nat, p: nat)
    requires Run(events).Some? && Safe(Run(events).value, r, p)
    ensures !Lost(Run(events).value, r)
  {
    UnrobbedGuardsAreWoken(events, r);
    hide Run;
  }

  /**
   * While no other run begins, a run can come to sleep over a failure with no wake coming exactly when, as it begins,
   * another guard is not over, be it of a run in flight or left behind by one given up, and no failure waits or some
   * third party can take it.
   */
  lemma WakeUpsAreLostIff(events: seq<Event>)
    requires events != [] && events[|events| - 1] == BeginRun && Run(events).Some? && OnOneThread(events)
    ensures
      var s := Run(events).value;
      (exists more, t :: Meanwhile(events, more, t) && Lost(t, |s.runs| - 1)) <==> MayLose(s, |s.runs| - 1)
  {
    var s := Run(events).value;
    var r := |s.runs| - 1;
    BeginsAfterAllReports(events);
    assert events + [] == events;
    assert Meanwhile(events, [], s);
    Kept(events, [], s);
    hide Run, OneByOne, Orderly, Lost, MayLose;
    if MayLose(s, r) {
      var more, t := WakeUpIsLost(events, s, r);
    } else if more, t :| Meanwhile(events, more, t) && Lost(t, r) {
      var p := BeginsSafe(s, r);
      SafeFromThenOn(events, more, s, r, p);
      TheSafeAreNotLost(events + more, r, p);
    }
  }

  // ---- When an error reaches a later run --------------------------------------

  /** A poll under way has gone by its body, and takes what waits. */
  predicate Looking(s: State) {
    exists m :: 0 <= m < |s.runs| && (s.runs[m].guard.FirstLook? || s.runs[m].guard.FirstClear?)
  }

  /** The run has not been polled; if it was given up, that is how it ended. */
  predicate Untouched(f: Flight) {
    f.outcome.None? && ((f.guard.Unpolled? && f.caller.InRun?) || (f.guard == Over(None) && f.caller.Gone?))
  }

  /** Run `r` has still to begin its poll while `m` is about to take what waits, or only its own reports can fail it. */
  ghost predicate OutOfReach(s: State, r: nat, m: nat) {
    && r < |s.runs| && m < |s.runs|
    && (OwnReports(s, r) ||
        (m != r && s.handlers == map[] && Untouched(s.runs[r]) &&
         (s.runs[m].guard.FirstLook? || s.runs[m].guard.FirstClear?)))
  }

  lemma StaysOutOfReach(s: State, e: Event, r: nat, m: nat)
    requires Enabled(s, e) && InTurn(s, e) && ReportsFit(s) && OutOfReach(s, r, m)
    ensures OutOfReach(After(s, e), r, m)
  {
    FlightsMove(s, e);
    if OwnReports(s, r) {
      hide After, Enabled, OwnReports, ReportsFit, InTurn;
      ReportsStayOwn(s, e, r);
    } else {
      NoReportsInAPoll(s, e, m);
      hide Unlocked, EmptiesSlot, Robbed, Woken, ReportsFit;
    }
  }

  lemma {:induction false} OutOfReachFromThenOn(events: seq<Event>, more: seq<Event>, r: nat, m: nat)
    requires Run(events).Some? && OutOfReach(Run(events).value, r, m)
    requires Run(events + more).Some? && OnOneThread(events + more)
    ensures OutOfReach(Run(events + more).value, r, m)
    decreases |more|
  {
    hide After, Enabled, InTurn, OutOfReach, ReportsFit, Fits;
    var all := events + more;
    if more == [] {
      assert all == events;
    } else {
      assert all[..|all| - 1] == events + more[..|more| - 1];
      OutOfReachFromThenOn(events, more[..|more| - 1], r, m);
      EveryRunIsOrderly(all[..|all| - 1]);
      StaysOutOfReach(Run(all[..|all| - 1]).value, more[|more| - 1], r, m);
    }
  }

  lemma NoneReachesIt(events: seq<Event>, more: seq<Event>, r: nat)
    requires events != [] && events[|events| - 1] == BeginRun && Run(events).Some? && OnOneThread(events)
    requires r == |Run(events).value.runs| - 1 && (!ReportWaits(Run(events).value) || Looking(Run(events).value))
    requires Run(events + more).Some? && OnOneThread(events + more)
    ensures !AnswersForAnother(Run(events + more).value, r)
  {
    var s := Run(events).value;
    if !ReportWaits(s) {
      EarlierErrorsNeedOneWaiting(events, more);
    } else {
      BeginsAfterAllReports(events);
      EveryRunTakesTurns(events);
      var m :| 0 <= m < |s.runs| && (s.runs[m].guard.FirstLook? || s.runs[m].guard.FirstClear?);
      assert MidPoll(s.runs[m]) && s.handlers == map[];
      assert OutOfReach(s, r, m);
      hide Run, OnOneThread, OneByOne, Orderly;
      OutOfReachFromThenOn(events, more, r, m);
    }
  }

  /** A run with a failure waiting polls once, ends, and answers with it. */
  lemma AnswersWithTheError(
    events: seq<Event>, more: seq<Event>, s: State, r: nat) returns (more': seq<Event>, s': State)
    requires Meanwhile(events, more, s) && Begun(s, r) && Still(s) && s.failed && s.error.Some?
    ensures Meanwhile(events, more', s') && r < |s'.runs| && s'.runs[r].outcome == Some(s.error)
  {
    StillIsFree(s, r);
    hide Meanwhile, Still, FreeFor, Beside;
    more', s' := GuardOnward(events, more, s, r, Poll);
    more', s' := GuardOnward(events, more', s', r, BodyFinishes);
    NobodyWrites(s', r);
    more', s' := Onward(events, more', s', ByCaller(r, EndRun));
    more', s' := Onward(events, more', s', ByCaller(r, CallerLook));
    more', s' := Onward(events, more', s', ByCaller(r, CallerClear));
    more', s' := Onward(events, more', s', ByCaller(r, CallerGrab));
  }

  lemma EarlierReportArrives(events: seq<Event>, s: State, r: nat) returns (more: seq<Event>, s': State)
    requires Meanwhile(events, [], s) && Begun(s, r) && ReportWaits(s) && !Looking(s)
    ensures Meanwhile(events, more, s') && r < |s'.runs| && s'.runs[r].outcome.Some? && s'.runs[r].outcome.value.Some?
    ensures s'.runs[r].outcome == Some(s.error) ||
      exists h :: h in s.handlers && Reporting(s.handlers[h]) && s'.runs[r].outcome == Some(Some(s.handlers[h].report))
  {
    Kept(events, [], s);
    more, s' := HandlerEnds(events, [], s);
    var t := s';
    hide Meanwhile;
    if m :| 0 <= m < |t.runs| && MidPoll(t.runs[m]) {
      Kept(events, more, t);
      OnlyOneInItsPoll(t, m);
      BodyIsPolled(s, t, m);
      hide OneByOne, Orderly, OnOneThread;
      more, s' := GuardOnward(events, more, t, m, BodyFinishes);
      StillAsleep(s', m);
    } else {
      assert Still(s');
    }
    more, s' := AnswersWithTheError(events, more, s', r);
  }

  lemma BodyIsPolled(s: State, t: State, m: nat)
    requires ButWoken(s, t) && t.failed && !Looking(s) && m < |t.runs| && MidPoll(t.runs[m]) && HasSeen(t, t.runs[m])
    ensures t.runs[m].guard.Body?
  {
    assert t.runs[m].guard == s.runs[m].guard;
  }

  /**
   * Whatever other runs do, a run can answer with an error of before it exactly when, as it begins, a handler is
   * between admitting a report and setting the flag, or the flag is set over an error no one took; and no other guard
   * is past its body and about to take it.
   */
  lemma EarlierErrorsArriveIff(events: seq<Event>)
    requires events != [] && events[|events| - 1] == BeginRun && Run(events).Some? && OnOneThread(events)
    ensures
      var s := Run(events).value;
      (exists more, t :: Reaches(events, more, t) && AnswersForAnother(t, |s.runs| - 1)) <==>
      ReportWaits(s) && !Looking(s)
  {
    var s := Run(events).value;
    var r := |s.runs| - 1;
    BeginsAfterAllReports(events);
    if ReportWaits(s) && !Looking(s) {
      assert events + [] == events;
      assert Meanwhile(events, [], s);
      hide Run, OnOneThread, Looking;
      var more, t := EarlierReportArrives(events, s, r);
      assert AnswersForAnother(t, r);
      assert Reaches(events, more, t);
    } else if more, t :| Reaches(events, more, t) && AnswersForAnother(t, r) {
      NoneReachesIt(events, more, r);
    }
  }

  // ---- Such runs happen -------------------------------------------------------

  lemma ThreadOnward(events: seq<Event>, s: State, e: Event) returns (events': seq<Event>, s': State)
    requires Run(events) == Some(s) && OnOneThread(events) && Enabled(s, e) && InTurn(s, e)
    ensures events' == events + [e] && s' == After(s, e) && Run(events') == Some(s') && OnOneThread(events')
  {
    hide After, Enabled, InTurn;
    events', s' := events + [e], After(s, e);
    assert events'[..|events|] == events;
  }

  lemma NothingYet()
    ensures Run([]) == Some(START) && OnOneThread([])
  {
  }

  function Polled(r: nat): seq<Event> {
    [ByGuard(r, Poll), ByGuard(r, BodyPends), ByGuard(r, Look), ByGuard(r, StoreWaker), ByGuard(r, Look)]
  }

  function Thrown(id: nat, error: nat): seq<Event> {
    [ByHandler(id, Hear(error)), ByHandler(id, Write), ByHandler(id, SetFlag), ByHandler(id, TakeWaker),
      ByHandler(id, Wake)]
  }

  /** A first poll that finds nothing. */
  lemma PolledOnce(events: seq<Event>, s: State, r: nat) returns (s': State)
    requires Run(events) == Some(s) && OnOneThread(events) && r < |s.runs| && FreeFor(s, r) && !s.failed
    requires s.runs[r].caller.InRun? && s.runs[r].guard.Unpolled?
    ensures Run(events + Polled(r)) == Some(s') && OnOneThread(events + Polled(r))
    ensures s' == s.(slot := Some(r), runs := Robbed(s.runs)[r := Slept(s.runs[r])])
  {
    hide Run, OnOneThread;
    var e1, s1 := ThreadOnward(events, s, ByGuard(r, Poll));
    assert s1 == WithFlight(s, r, s.runs[r].(guard := Body, notified := false));
    var e2, s2 := ThreadOnward(e1, s1, ByGuard(r, BodyPends));
    assert s2 == WithFlight(s, r, s.runs[r].(guard := FirstLook, notified := false));
    var e3, s3 := ThreadOnward(e2, s2, ByGuard(r, Look));
    assert s3 == WithFlight(s, r, s.runs[r].(guard := Register, notified := false));
    s' := StoredOnce(e3, s, s3, r);
    assert e3 + [ByGuard(r, StoreWaker), ByGuard(r, Look)] == events + Polled(r);
  }

  function Slept(f: Flight): Flight {
    f.(guard := Asleep, registered := true, notified := false, robbed := false)
  }

  function WithFlight(s: State, r: nat, f: Flight): State
    requires r < |s.runs|
  {
    s.(runs := s.runs[r := f])
  }

  lemma StoredOnce(events: seq<Event>, before: State, s: State, r: nat) returns (s': State)
    requires Run(events) == Some(s) && OnOneThread(events) && r < |before.runs| && FreeFor(s, r) && !s.failed
    requires s == WithFlight(before, r, before.runs[r].(guard := Register, notified := false))
    ensures
      var more := [ByGuard(r, StoreWaker), ByGuard(r, Look)];
      Run(events + more) == Some(s') && OnOneThread(events + more)
    ensures s' == before.(slot := Some(r), runs := Robbed(before.runs)[r := Slept(before.runs[r])])
  {
    hide Run, OnOneThread;
    assert Robbed(s.runs)[r := Slept(s.runs[r])] == Robbed(before.runs)[r := Slept(before.runs[r])];
    var e1, s1 := ThreadOnward(events, s, ByGuard(r, StoreWaker));
    var e2, s2 := ThreadOnward(e1, s1, ByGuard(r, Look));
    hide Robbed;
    assert e2 == events + [ByGuard(r, StoreWaker), ByGuard(r, Look)];
    s' := s2;
  }

  /** A throw that wakes nobody. */
  lemma ThrownPast(events: seq<Event>, s: State, error: nat) returns (s': State)
    requires Run(events) == Some(s) && OnOneThread(events) && Still(s) && s.active && !s.failed && s.slot.None?
    ensures Run(events + Thrown(0, error)) == Some(s') && OnOneThread(events + Thrown(0, error))
    ensures s' == s.(failed := true, error := Some(Report(error, |s.runs|, s.admitted)), admitted := s.admitted + 1)
  {
    hide Run, OnOneThread;
    var e1, s1 := ThreadOnward(events, s, ByHandler(0, Hear(error)));
    assert s1.handlers.Keys == {0};
    var e2, s2 := ThreadOnward(e1, s1, ByHandler(0, Write));
    var e3, s3 := ThreadOnward(e2, s2, ByHandler(0, SetFlag));
    var e4, s4 := ThreadOnward(e3, s3, ByHandler(0, TakeWaker));
    var e5, s5 := ThreadOnward(e4, s4, ByHandler(0, Wake));
    assert e5 == events + Thrown(0, error);
    assert s5.handlers == map[];
    s' := s5;
  }

  /** Two runs fall asleep, the second over the first one's waker; the first finishes and takes the second's with it. */
  const OVERLAP: seq<Event> :=
    [BeginRun] + Polled(0) + [BeginRun] + Polled(1) + [ByGuard(0, Poll), ByGuard(0, BodyFinishes)]

  lemma FirstTakesTheSecondsWaker() returns (s: State)
    ensures Run(OVERLAP) == Some(s) && OnOneThread(OVERLAP)
    ensures s == State(true, false, None, None, map[],
                       [Flight(InRun, Over(None), false, false, true, None),
                        Flight(InRun, Asleep, true, false, true, None)], [], 0)
  {
    NothingYet();
    hide Run, OnOneThread;
    var e1, s1 := ThreadOnward([], START, BeginRun);
    var s2 := PolledOnce(e1, s1, 0);
    var e3, s3 := ThreadOnward(e1 + Polled(0), s2, BeginRun);
    var s4 := PolledOnce(e3, s3, 1);
    var e5, s5 := ThreadOnward(e3 + Polled(1), s4, ByGuard(0, Poll));
    var e6, s6 := ThreadOnward(e5, s5, ByGuard(0, BodyFinishes));
    assert e6 == OVERLAP;
    s := s6;
  }

  /** With two runs in flight, no backstop and no race: the second sleeps over the failure, and nothing wakes it. */
  lemma OverlappingRunsLoseAWakeUp()
    ensures
      var events := OVERLAP + Thrown(0, 7);
      OnOneThread(events) && Run(events).Some? && Lost(Run(events).value, 1)
  {
    var s := FirstTakesTheSecondsWaker();
    hide Run, OnOneThread;
    var t := ThrownPast(OVERLAP, s, 7);
  }

  /** If the first run's caller has ended before the throw, the host hears the error, with the second run in flight. */
  lemma AnEndTurnsErrorsAway()
    ensures
      var events := OVERLAP + [ByCaller(0, EndRun), ByCaller(0, CallerLook), ByHandler(0, Hear(7))];
      && OnOneThread(events) && Run(events).Some? && |Run(events).value.runs| == 2
      && Run(events).value.hooked == [7] && !Run(events).value.failed && Run(events).value.runs[1].caller.InRun?
  {
    var s := FirstTakesTheSecondsWaker();
    hide Run, OnOneThread;
    var e1, s1 := ThreadOnward(OVERLAP, s, ByCaller(0, EndRun));
    var e2, s2 := ThreadOnward(e1, s1, ByCaller(0, CallerLook));
    var e3, s3 := ThreadOnward(e2, s2, ByHandler(0, Hear(7)));
    assert e3 == OVERLAP + [ByCaller(0, EndRun), ByCaller(0, CallerLook), ByHandler(0, Hear(7))];
  }

  /** Without overlap: a guard given up by a backstop is dropped once the next run sleeps, and takes its waker. */
  lemma LateDropLosesAWakeUp()
    ensures
      var events := [BeginRun] + Polled(0) + [ByCaller(0, Backstop), BeginRun] + Polled(1) + [ByGuard(0, DropLeft)] +
                    Thrown(0, 7);
      OnOneThread(events) && Run(events).Some? && Lost(Run(events).value, 1)
  {
    NothingYet();
    hide Run, OnOneThread;
    var e1, s1 := ThreadOnward([], START, BeginRun);
    var s2 := PolledOnce(e1, s1, 0);
    var e3, s3 := ThreadOnward(e1 + Polled(0), s2, ByCaller(0, Backstop));
    var e4, s4 := ThreadOnward(e3, s3, BeginRun);
    var s5 := PolledOnce(e4, s4, 1);
    var e6, s6 := ThreadOnward(e4 + Polled(1), s5, ByGuard(0, DropLeft));
    var s7 := ThrownPast(e6, s6, 7);
    assert e6 + Thrown(0, 7) ==
      [BeginRun] + Polled(0) + [ByCaller(0, Backstop), BeginRun] + Polled(1) + [ByGuard(0, DropLeft)] + Thrown(0, 7);
  }

  /** A report is admitted while the first run's caller is ending, and set down in the second. */
  const OVERTAKEN: seq<Event> :=
    [BeginRun, ByGuard(0, Poll), ByGuard(0, BodyFinishes), ByHandler(0, Hear(7)), ByCaller(0, EndRun),
     ByCaller(0, CallerLook), BeginRun, ByHandler(0, Write), ByHandler(0, SetFlag), ByHandler(0, TakeWaker),
     ByHandler(0, Wake)]

  lemma ReportIsOvertaken() returns (s: State)
    ensures Run(OVERTAKEN) == Some(s) && OnOneThread(OVERTAKEN)
    ensures s == State(true, true, Some(Report(7, 1, 0)), None, map[],
                       [Flight(Gone, Over(None), false, false, false, Some(None)), NEW_RUN], [], 1)
  {
    NothingYet();
    hide Run, OnOneThread;
    var e, s1 := ThreadOnward([], START, BeginRun);
    e, s1 := ThreadOnward(e, s1, ByGuard(0, Poll));
    e, s1 := ThreadOnward(e, s1, ByGuard(0, BodyFinishes));
    e, s1 := ThreadOnward(e, s1, ByHandler(0, Hear(7)));
    e, s1 := ThreadOnward(e, s1, ByCaller(0, EndRun));
    e, s1 := ThreadOnward(e, s1, ByCaller(0, CallerLook));
    e, s1 := ThreadOnward(e, s1, BeginRun);
    assert s1 == State(true, false, None, None, map[0 := Admitted(Report(7, 1, 0))],
                       [Flight(Gone, Over(None), false, false, false, Some(None)), NEW_RUN], [], 1);
    e, s1 := ThreadOnward(e, s1, ByHandler(0, Write));
    e, s1 := ThreadOnward(e, s1, ByHandler(0, SetFlag));
    e, s1 := ThreadOnward(e, s1, ByHandler(0, TakeWaker));
    e, s1 := ThreadOnward(e, s1, ByHandler(0, Wake));
    assert e == OVERTAKEN;
    s := s1;
  }

  /** So the second run, alone in flight, ends with the error of the first. */
  lemma ErrorReachesTheNextRun()
    ensures
      var events := OVERTAKEN +
        [ByGuard(1, Poll), ByGuard(1, BodyFinishes), ByCaller(1, EndRun), ByCaller(1, CallerLook),
                                 ByCaller(1, CallerClear), ByCaller(1, CallerGrab)];
      && OnOneThread(events) && Run(events).Some? && |Run(events).value.runs| == 2
      && Run(events).value.runs[1].outcome == Some(Some(Report(7, 1, 0))) && AnswersForAnother(Run(events).value, 1)
  {
    var s := ReportIsOvertaken();
    hide Run, OnOneThread;
    var e1, s1 := ThreadOnward(OVERTAKEN, s, ByGuard(1, Poll));
    e1, s1 := ThreadOnward(e1, s1, ByGuard(1, BodyFinishes));
    e1, s1 := ThreadOnward(e1, s1, ByCaller(1, EndRun));
    e1, s1 := ThreadOnward(e1, s1, ByCaller(1, CallerLook));
    e1, s1 := ThreadOnward(e1, s1, ByCaller(1, CallerClear));
    e1, s1 := ThreadOnward(e1, s1, ByCaller(1, CallerGrab));
    assert e1 == OVERTAKEN + [ByGuard(1, Poll), ByGuard(1, BodyFinishes), ByCaller(1, EndRun), ByCaller(1, CallerLook),
                              ByCaller(1, CallerClear), ByCaller(1, CallerGrab)];
  }
}
