/**
 * The uncaught handler against the guards of the runs in flight, on the one cell they and their callers share: a guard
 * registers and then looks again, the handler sets a flag and then wakes. Runs may overlap. Writing an error, setting
 * the flag, storing and taking the waker, waking, and the load, the clearing and the taking that make up a take are
 * steps of their own, in any interleaving; the two loads that admit a report are one step, and so are the two a caller
 * makes of the flag, for it does nothing between them and the last one decides.
 */
module Wakeups {
  import opened Prelude

  /** An error, how many runs had begun when its handler looked at `active`, and how many reports it had admitted. */
  datatype Report = Report(error: nat, begun: nat, serial: nat)

  /** A guard between its polls, or in one, load by load and store by store. */
  datatype Guard =
    | Unpolled | Body
    | FirstLook | FirstClear | FirstGrab | Register | SecondLook | SecondClear | SecondGrab
    | Asleep | Over(failure: Option<Report>)

  /** One report on its way: it has seen an active run, written the error, set the flag, taken the waker. */
  datatype Handler = Admitted(report: Report) | Written(report: Report) | Raised | Waking(waker: Option<nat>)

  /** `Gone` has its outcome, or has given its job up. */
  datatype Caller = InRun | Ended | Clearing | Grabbing | Gone

  datatype Flight = Flight(
    caller: Caller,
    guard: Guard,
    /** The guard has stored a waker, and will take whatever is stored when it is dropped. */
    registered: bool,
    /** The guard's task has been woken and not yet polled. */
    notified: bool,
    /** Since the guard stored its waker, another has stored one or has been dropped after storing one. */
    robbed: bool,
    outcome: Option<Option<Report>>)

  /** The runs are numbered as they begin. */
  datatype State = State(
    active: bool,
    failed: bool,
    error: Option<Report>,
    /** The run whose guard's waker is stored. */
    slot: Option<nat>,
    handlers: map<nat, Handler>,
    runs: seq<Flight>,
    /** What the host has heard. */
    hooked: seq<nat>,
    /** How many reports have been admitted to a run. */
    admitted: nat)

  datatype CallerStep = EndRun | Backstop | Forsake | CallerLook | CallerClear | CallerGrab

  datatype GuardStep = Poll | BodyPends | BodyFinishes | Look | Clear | Grab | StoreWaker | DropLeft

  datatype HandlerStep = Hear(error: nat) | Write | SetFlag | TakeWaker | Wake

  datatype Event =
    | BeginRun
    | ByCaller(run: nat, call: CallerStep)
    | ByGuard(run: nat, poll: GuardStep)
    | ByHandler(id: nat, report: HandlerStep)

  /** A handler has the error's lock from writing it to setting the flag. */
  predicate Unlocked(s: State) {
    forall h :: h in s.handlers ==> !s.handlers[h].Written?
  }

  predicate CallerMay(s: State, f: Flight, step: CallerStep) {
    match step
    case EndRun => f.caller.InRun? && f.guard.Over?
    case Backstop => f.caller.InRun?
    case Forsake => f.caller.InRun?
    case CallerLook => f.caller.Ended?
    case CallerClear => f.caller.Clearing?
    case CallerGrab => f.caller.Grabbing? && Unlocked(s)
  }

  /** A job given up before its first poll finds its reply channel closed and never makes a guard. */
  function GivenUp(f: Flight): Flight {
    f.(caller := Gone, guard := if f.guard.Unpolled? then Over(None) else f.guard)
  }

  function CallerMoved(s: State, f: Flight, step: CallerStep): Flight
    requires CallerMay(s, f, step)
  {
    match step
    case EndRun => f.(caller := Ended, outcome := Some(f.guard.failure))
    case Backstop => GivenUp(f)
    case Forsake => GivenUp(f)
    case CallerLook => f.(caller := if s.failed then Clearing else Gone)
    case CallerClear => f.(caller := Grabbing)
    case CallerGrab => f.(caller := Gone, outcome := if s.error.Some? then Some(s.error) else f.outcome)
  }

  /** A future that is dropped clears nothing; a run that ends, or is ended by its backstop, clears `active`. */
  function AfterCaller(s: State, r: nat, step: CallerStep): State
    requires r < |s.runs| && CallerMay(s, s.runs[r], step)
  {
    s.(active := s.active && !step.EndRun? && !step.Backstop?,
       failed := s.failed && !step.CallerClear?,
       error := if step.CallerGrab? then None else s.error,
       runs := s.runs[r := CallerMoved(s, s.runs[r], step)])
  }

  predicate GuardMay(s: State, f: Flight, step: GuardStep) {
    match step
    case Poll => f.caller.InRun? && (f.guard.Unpolled? || f.guard.Asleep?)
    case BodyPends => f.guard.Body?
    case BodyFinishes => f.guard.Body?
    case Look => f.guard.FirstLook? || f.guard.SecondLook?
    case Clear => f.guard.FirstClear? || f.guard.SecondClear?
    case Grab => (f.guard.FirstGrab? || f.guard.SecondGrab?) && Unlocked(s)
    case StoreWaker => f.guard.Register?
    case DropLeft => f.caller.Gone? && f.guard.Asleep?
  }

  /** The guard is dropped with the poll that ends it. */
  function GuardMoved(s: State, f: Flight, step: GuardStep): Flight
    requires GuardMay(s, f, step)
  {
    match step
    case Poll => f.(guard := Body, notified := false)
    case BodyPends => f.(guard := FirstLook)
    case BodyFinishes => f.(guard := Over(None), registered := false)
    case Look =>
      f.(guard := if f.guard.FirstLook? then (if s.failed then FirstClear else Register)
                  else if s.failed then SecondClear else Asleep)
    case Clear => f.(guard := if f.guard.FirstClear? then FirstGrab else SecondGrab)
    case Grab =>
      if s.error.Some? then f.(guard := Over(s.error), registered := false)
      else f.(guard := if f.guard.FirstGrab? then Register else Asleep)
    case StoreWaker => f.(guard := SecondLook, registered := true, robbed := false)
    case DropLeft => f.(guard := Over(None), registered := false)
  }

  /** A guard that has stored a waker takes the one stored, whoever's it is, when it is dropped. */
  predicate EmptiesSlot(s: State, f: Flight, step: GuardStep) {
    f.registered && (step.DropLeft? || step.BodyFinishes? || (step.Grab? && s.error.Some?))
  }

  function Robbed(runs: seq<Flight>): seq<Flight> {
    seq(|runs|, q requires 0 <= q < |runs| => runs[q].(robbed := true))
  }

  function AfterGuard(s: State, r: nat, step: GuardStep): State
    requires r < |s.runs| && GuardMay(s, s.runs[r], step)
  {
    var empties := EmptiesSlot(s, s.runs[r], step);
    s.(failed := s.failed && !step.Clear?,
       error := if step.Grab? then None else s.error,
       slot := if step.StoreWaker? then Some(r) else if empties then None else s.slot,
       runs := (if step.StoreWaker? || empties then Robbed(s.runs) else s.runs)[r := GuardMoved(s, s.runs[r], step)])
  }

  predicate HandlerMay(s: State, id: nat, step: HandlerStep) {
    match step
    case Hear(_) => id !in s.handlers
    case Write => id in s.handlers && s.handlers[id].Admitted? && Unlocked(s)
    case SetFlag => id in s.handlers && s.handlers[id].Written?
    case TakeWaker => id in s.handlers && s.handlers[id].Raised?
    case Wake => id in s.handlers && s.handlers[id].Waking?
  }

  function Woken(runs: seq<Flight>, waker: Option<nat>): (woken: seq<Flight>)
    ensures |woken| == |runs|
  {
    if waker.Some? && waker.value < |runs| then runs[waker.value := runs[waker.value].(notified := true)] else runs
  }

  function AfterHandler(s: State, id: nat, step: HandlerStep): State
    requires HandlerMay(s, id, step)
  {
    match step
    case Hear(error) =>
      if s.active && !s.failed then
        s.(handlers := s.handlers[id := Admitted(Report(error, |s.runs|, s.admitted))], admitted := s.admitted + 1)
      else s.(hooked := s.hooked + [error])
    case Write =>
      var report := s.handlers[id].report;
      s.(error := Some(report), handlers := s.handlers[id := Written(report)])
    case SetFlag => s.(failed := true, handlers := s.handlers[id := Raised])
    case TakeWaker => s.(slot := None, handlers := s.handlers[id := Waking(s.slot)])
    case Wake => s.(runs := Woken(s.runs, s.handlers[id].waker), handlers := s.handlers - {id})
  }

  predicate Enabled(s: State, e: Event) {
    match e
    case BeginRun => true
    case ByCaller(r, step) => r < |s.runs| && CallerMay(s, s.runs[r], step)
    case ByGuard(r, step) => r < |s.runs| && GuardMay(s, s.runs[r], step)
    case ByHandler(id, step) => HandlerMay(s, id, step)
  }

  const NEW_RUN := Flight(InRun, Unpolled, false, false, false, None)

  function After(s: State, e: Event): State
    requires Enabled(s, e)
  {
    match e
    case BeginRun => s.(active := true, runs := s.runs + [NEW_RUN])
    case ByCaller(r, step) => AfterCaller(s, r, step)
    case ByGuard(r, step) => AfterGuard(s, r, step)
    case ByHandler(id, step) => AfterHandler(s, id, step)
  }

  const START := State(false, false, None, None, map[], [], [], 0)

  function Run(events: seq<Event>): Option<State>
    decreases |events|
  {
    if events == [] then Some(START)
    else
      match Run(events[..|events| - 1])
      case Some(s) => if Enabled(s, events[|events| - 1]) then Some(After(s, events[|events| - 1])) else None
      case None => None
  }

  lemma {:induction false} EarlierRun(events: seq<Event>, k: nat)
    requires Run(events).Some? && k <= |events|
    ensures Run(events[..k]).Some?
    decreases |events|
  {
    if k == |events| {
      assert events[..k] == events;
    } else {
      EarlierRun(events[..|events| - 1], k);
      assert events[..|events| - 1][..k] == events[..k];
    }
  }

  // ---- What becomes of one run in a step -------------------------------------

  /** Another run's guard stores its waker in the slot, or empties it. */
  predicate RobsOthers(s: State, e: Event) {
    e.ByGuard? && e.run < |s.runs| && (e.poll.StoreWaker? || EmptiesSlot(s, s.runs[e.run], e.poll))
  }

  predicate Wakes(s: State, e: Event, r: nat) {
    e.ByHandler? && e.report.Wake? && e.id in s.handlers && s.handlers[e.id] == Waking(Some(r))
  }

  function FlightAfter(s: State, e: Event, r: nat): Flight
    requires Enabled(s, e) && r < |s.runs|
  {
    var f := s.runs[r];
    if e.ByCaller? && e.run == r then CallerMoved(s, f, e.call)
    else if e.ByGuard? && e.run == r then GuardMoved(s, f, e.poll)
    else if RobsOthers(s, e) then f.(robbed := true)
    else if Wakes(s, e, r) then f.(notified := true)
    else f
  }

  /** A step moves the run that takes it; of any other it changes nothing but these two marks. */
  lemma FlightsMove(s: State, e: Event)
    requires Enabled(s, e)
    ensures |After(s, e).runs| == |s.runs| + if e.BeginRun? then 1 else 0
    ensures e.BeginRun? ==> After(s, e).runs == s.runs + [NEW_RUN]
    ensures forall r :: 0 <= r < |s.runs| ==> After(s, e).runs[r] == FlightAfter(s, e, r)
  {
    hide CallerMay, CallerMoved, GuardMay, GuardMoved, EmptiesSlot, Unlocked;
  }

  // ---- What every run keeps -------------------------------------------------

  predicate LooksAgain(g: Guard) {
    g.SecondLook? || g.SecondClear? || g.SecondGrab?
  }

  /** A guard that sleeps has stored its waker, and a caller ends only what its guard has finished. */
  predicate Fits(f: Flight) {
    && (f.guard.Asleep? || LooksAgain(f.guard) ==> f.registered)
    && (f.guard.Unpolled? ==> f.caller.InRun? && !f.registered)
    && (f.caller.Ended? || f.caller.Clearing? || f.caller.Grabbing? ==>
          f.guard.Over? && f.outcome == Some(f.guard.failure))
    && (f.outcome.Some? ==> f.guard.Over? && !f.caller.InRun?)
    && (f.guard.Over? ==> !f.registered)
  }

  predicate Reporting(h: Handler) {
    h.Admitted? || h.Written?
  }

  /** One handler at most is writing, and what it wrote is there; no report is of a run still to come. */
  ghost predicate ReportsFit(s: State) {
    && (forall h :: h in s.handlers && s.handlers[h].Written? ==> s.error == Some(s.handlers[h].report))
    && (forall g, h :: g in s.handlers && h in s.handlers && s.handlers[g].Written? && s.handlers[h].Written? ==>
          g == h)
    && (forall h :: h in s.handlers && Reporting(s.handlers[h]) ==> s.handlers[h].report.begun <= |s.runs|)
    && (s.error.Some? ==> s.error.value.begun <= |s.runs|)
  }

  ghost predicate Orderly(s: State) {
    ReportsFit(s) && forall r :: 0 <= r < |s.runs| ==> Fits(s.runs[r])
  }

  lemma HandlersKeepReports(s: State, id: nat, step: HandlerStep)
    requires HandlerMay(s, id, step) && ReportsFit(s)
    ensures ReportsFit(AfterHandler(s, id, step))
  {
  }

  lemma OthersKeepReports(s: State, e: Event)
    requires Enabled(s, e) && ReportsFit(s) && !e.ByHandler?
    ensures ReportsFit(After(s, e))
  {
    FlightsMove(s, e);
    hide FlightAfter, GuardMoved, CallerMoved, EmptiesSlot, Robbed;
  }

  lemma FlightStaysFit(s: State, e: Event, r: nat)
    requires Enabled(s, e) && r < |s.runs| && Fits(s.runs[r])
    ensures Fits(FlightAfter(s, e, r))
  {
    hide Unlocked, EmptiesSlot;
    if e.ByCaller? && e.run == r {
      CallerStaysFit(s, s.runs[r], e.call);
    } else if e.ByGuard? && e.run == r {
      GuardStaysFit(s, s.runs[r], e.poll);
    } else {
      hide CallerMoved, GuardMoved;
    }
  }

  lemma CallerStaysFit(s: State, f: Flight, step: CallerStep)
    requires CallerMay(s, f, step) && Fits(f)
    ensures Fits(CallerMoved(s, f, step))
  {
    hide Unlocked;
  }

  lemma GuardStaysFit(s: State, f: Flight, step: GuardStep)
    requires GuardMay(s, f, step) && Fits(f)
    ensures Fits(GuardMoved(s, f, step))
  {
    hide Unlocked;
  }

  lemma FlightsStayFit(s: State, e: Event)
    requires Enabled(s, e) && forall r :: 0 <= r < |s.runs| ==> Fits(s.runs[r])
    ensures forall r :: 0 <= r < |After(s, e).runs| ==> Fits(After(s, e).runs[r])
  {
    FlightsMove(s, e);
    assert Fits(NEW_RUN);
    hide After, Enabled, FlightAfter, Fits;
    forall r | 0 <= r < |After(s, e).runs| ensures Fits(After(s, e).runs[r]) {
      if r < |s.runs| {
        FlightStaysFit(s, e, r);
      }
    }
  }

  lemma OrderIsKept(s: State, e: Event)
    requires Enabled(s, e) && Orderly(s)
    ensures Orderly(After(s, e))
  {
    FlightsStayFit(s, e);
    if e.ByHandler? {
      HandlersKeepReports(s, e.id, e.report);
    } else {
      OthersKeepReports(s, e);
    }
    hide Fits, ReportsFit, Enabled, AfterHandler;
  }

  lemma {:induction false} EveryRunIsOrderly(events: seq<Event>)
    requires Run(events).Some?
    ensures Orderly(Run(events).value)
    decreases |events|
  {
    hide After, Enabled;
    if events != [] {
      EveryRunIsOrderly(events[..|events| - 1]);
      OrderIsKept(Run(events[..|events| - 1]).value, events[|events| - 1]);
    }
  }

  // ---- No wake-up is lost but to a robber -------------------------------------

  /** A handler has taken this run's waker and not used it yet. */
  ghost predicate Holding(s: State, r: nat) {
    exists h :: h in s.handlers && s.handlers[h] == Waking(Some(r))
  }

  ghost predicate Raising(s: State) {
    exists h :: h in s.handlers && s.handlers[h] == Raised
  }

  /**
   * Once the guard has stored its waker, the waker is stored, or on its way to be used, or has been, or another guard
   * had it out.
   */
  ghost predicate WakerKept(s: State, r: nat)
    requires r < |s.runs|
  {
    var f := s.runs[r];
    f.guard.Asleep? || LooksAgain(f.guard) ==> s.slot == Some(r) || f.notified || f.robbed || Holding(s, r)
  }

  /** A flag set since the guard's last look is followed by a wake. */
  ghost predicate WakeComing(s: State, r: nat)
    requires r < |s.runs|
  {
    var f := s.runs[r];
    s.failed && (f.guard.Asleep? || f.guard.SecondGrab?) ==>
      f.notified || f.robbed || (Raising(s) && s.slot == Some(r)) || Holding(s, r)
  }

  lemma HandlersMoveOn(s: State, id: nat, step: HandlerStep, r: nat)
    requires HandlerMay(s, id, step) && r < |s.runs| && WakerKept(s, r) && WakeComing(s, r)
    ensures WakerKept(AfterHandler(s, id, step), r) && WakeComing(AfterHandler(s, id, step), r)
  {
    var t := AfterHandler(s, id, step);
    assert t.runs[r] == s.runs[r] || t.runs[r] == s.runs[r].(notified := true);
    if Holding(s, r) && !t.runs[r].notified {
      var h :| h in s.handlers && s.handlers[h] == Waking(Some(r));
      assert h in t.handlers && t.handlers[h] == Waking(Some(r));
    }
    if step.TakeWaker? {
      assert s.slot == Some(r) ==> t.handlers[id] == Waking(Some(r));
    } else if Raising(s) {
      var h :| h in s.handlers && s.handlers[h] == Raised;
      assert h in t.handlers && t.handlers[h] == Raised;
    }
    assert step.SetFlag? ==> t.handlers[id] == Raised;
  }

  lemma SameHandlers(s: State, t: State, r: nat)
    requires s.handlers == t.handlers
    ensures Holding(s, r) == Holding(t, r) && Raising(s) == Raising(t)
  {
  }

  lemma OthersMoveOn(s: State, e: Event, r: nat)
    requires Enabled(s, e) && r < |s.runs| && WakerKept(s, r) && WakeComing(s, r) && !e.ByHandler?
    ensures r < |After(s, e).runs| && WakerKept(After(s, e), r) && WakeComing(After(s, e), r)
  {
    FlightsMove(s, e);
    SameHandlers(s, After(s, e), r);
    hide Holding, Raising, Unlocked, Robbed, Woken;
  }

  lemma StepWakes(s: State, e: Event)
    requires Enabled(s, e) && forall r :: 0 <= r < |s.runs| ==> WakerKept(s, r) && WakeComing(s, r)
    ensures forall r :: 0 <= r < |After(s, e).runs| ==> WakerKept(After(s, e), r) && WakeComing(After(s, e), r)
  {
    FlightsMove(s, e);
    var t := After(s, e);
    forall r | 0 <= r < |t.runs| ensures WakerKept(t, r) && WakeComing(t, r) {
      if r < |s.runs| {
        if e.ByHandler? {
          HandlersMoveOn(s, e.id, e.report, r);
        } else {
          OthersMoveOn(s, e, r);
        }
      }
    }
  }

  lemma {:induction false} EveryRunWakes(events: seq<Event>)
    requires Run(events).Some?
    ensures
      var s := Run(events).value;
      forall r :: 0 <= r < |s.runs| ==> WakerKept(s, r) && WakeComing(s, r)
    decreases |events|
  {
    hide After, Enabled, WakerKept, WakeComing;
    if events != [] {
      EveryRunWakes(events[..|events| - 1]);
      StepWakes(Run(events[..|events| - 1]).value, events[|events| - 1]);
    }
  }

  /** A handler has this run's waker, or will take it from the slot. */
  ghost predicate AWakeIsComing(s: State, r: nat) {
    exists h :: h in s.handlers && (s.handlers[h] == Waking(Some(r)) || (s.handlers[h] == Raised && s.slot == Some(r)))
  }

  lemma UnrobbedGuardsAreWoken(events: seq<Event>, r: nat)
    requires Run(events).Some? && r < |Run(events).value.runs|
    ensures
      var s := Run(events).value;
      s.failed && s.runs[r].guard.Asleep? && !s.runs[r].notified && !s.runs[r].robbed ==> AWakeIsComing(s, r)
  {
    EveryRunWakes(events);
    hide Run;
    var s := Run(events).value;
    assert WakeComing(s, r);
    if h :| h in s.handlers && (s.handlers[h] == Waking(Some(r)) || (s.handlers[h] == Raised && s.slot == Some(r))) {
      assert AWakeIsComing(s, r);
    }
  }

  /**
   * Since the guard of this run last stored its waker, another has stored one or has been dropped after storing one.
   */
  predicate TakenOut(events: seq<Event>, r: nat)
    decreases |events|
  {
    events != [] &&
    var before, e := events[..|events| - 1], events[|events| - 1];
    e != ByGuard(r, StoreWaker) &&
    (TakenOut(before, r) || (Run(before).Some? && RobsOthers(Run(before).value, e) && e.run != r))
  }

  /** That is what the mark says. */
  lemma {:induction false} RobbedMeansTakenOut(events: seq<Event>, r: nat)
    requires Run(events).Some? && r < |Run(events).value.runs|
    ensures Run(events).value.runs[r].registered ==> (Run(events).value.runs[r].robbed <==> TakenOut(events, r))
    decreases |events|
  {
    var before, e := events[..|events| - 1], events[|events| - 1];
    var s := Run(before).value;
    FlightsMove(s, e);
    if r < |s.runs| {
      RobbedMeansTakenOut(before, r);
      MarksMove(s, e, r);
    }
    hide After, Enabled, FlightAfter, RobsOthers;
  }

  lemma MarksMove(s: State, e: Event, r: nat)
    requires Enabled(s, e) && r < |s.runs|
    ensures
      var f, g := s.runs[r], FlightAfter(s, e, r);
      && (e == ByGuard(r, StoreWaker) ==> g.registered && !g.robbed)
      && (e != ByGuard(r, StoreWaker) ==>
            (g.registered ==> f.registered) && (g.robbed <==> f.robbed || (RobsOthers(s, e) && e.run != r)))
  {
    hide Unlocked, EmptiesSlot;
  }

  /** The guard sleeps over a failure, and no wake is coming from any handler. */
  ghost predicate Lost(s: State, r: nat) {
    && r < |s.runs| && s.failed && s.error.Some?
    && s.runs[r].caller.InRun? && s.runs[r].guard.Asleep? && !s.runs[r].notified
    && forall h :: h in s.handlers ==> Reporting(s.handlers[h]) || s.handlers[h] == Waking(None)
  }

  /**
   * In every interleaving, however runs overlap: a guard asleep over a failure has been woken, or a handler has its
   * wake still to come, unless another guard has had its waker out of the slot.
   */
  lemma NoLostWakeUp(events: seq<Event>, r: nat)
    requires Run(events).Some? && r < |Run(events).value.runs| && !TakenOut(events, r)
    ensures
      var s := Run(events).value;
      && (s.failed && s.runs[r].guard.Asleep? ==> s.runs[r].notified || AWakeIsComing(s, r))
      && !Lost(s, r)
  {
    UnrobbedGuardsAreWoken(events, r);
    EveryRunIsOrderly(events);
    RobbedMeansTakenOut(events, r);
    assert Fits(Run(events).value.runs[r]);
    hide Run, TakenOut, Orderly;
  }

  // ---- Runs one at a time -----------------------------------------------------

  predicate RunOver(f: Flight) {
    f.caller.Gone? && f.guard.Over?
  }

  predicate AllOver(runs: seq<Flight>) {
    forall q :: 0 <= q < |runs| ==> RunOver(runs[q])
  }

  /** No run begins before those before it are over: their callers have answered, their guards are gone. */
  predicate OneAtATime(events: seq<Event>)
    decreases |events|
  {
    events == [] ||
    var before, e := events[..|events| - 1], events[|events| - 1];
    OneAtATime(before) && (e.BeginRun? && Run(before).Some? ==> AllOver(Run(before).value.runs))
  }

  /** Only the last run is not over; nobody has had its waker, and `active` is set for as long as it is in flight. */
  predicate Alone(s: State) {
    s.runs != [] ==>
      var last := |s.runs| - 1;
      AllOver(s.runs[..last]) && !s.runs[last].robbed && (s.runs[last].caller.InRun? ==> s.active)
  }

  lemma OverStaysOver(s: State, e: Event, r: nat)
    requires Enabled(s, e) && r < |s.runs| && RunOver(s.runs[r])
    ensures RunOver(FlightAfter(s, e, r)) && !(e.ByGuard? && e.run == r) && !(e.ByCaller? && e.run == r)
  {
    hide Unlocked, EmptiesSlot;
  }

  lemma StaysAlone(s: State, e: Event)
    requires Enabled(s, e) && Alone(s) && (e.BeginRun? ==> AllOver(s.runs))
    ensures Alone(After(s, e))
  {
    FlightsMove(s, e);
    var t := After(s, e);
    if t.runs != [] {
      var last := |t.runs| - 1;
      forall q | 0 <= q < last ensures RunOver(t.runs[q]) {
        assert RunOver(s.runs[q]);
        OverStaysOver(s, e, q);
      }
      if !e.BeginRun? {
        LastStaysAlone(s, e, last);
      }
    }
    hide After, Enabled, FlightAfter, RunOver;
  }

  lemma LastStaysAlone(s: State, e: Event, last: nat)
    requires Enabled(s, e) && Alone(s) && !e.BeginRun? && last == |s.runs| - 1
    ensures !FlightAfter(s, e, last).robbed && (FlightAfter(s, e, last).caller.InRun? ==> After(s, e).active)
  {
    if (e.ByGuard? || e.ByCaller?) && e.run < last {
      assert RunOver(s.runs[..last][e.run]);
      OverStaysOver(s, e, e.run);
    }
    hide Unlocked, EmptiesSlot, Robbed, Woken;
  }

  lemma {:induction false} SerialRunsAreAlone(events: seq<Event>)
    requires Run(events).Some? && OneAtATime(events)
    ensures Alone(Run(events).value)
    decreases |events|
  {
    hide After, Enabled, Alone, AllOver;
    if events != [] {
      SerialRunsAreAlone(events[..|events| - 1]);
      StaysAlone(Run(events[..|events| - 1]).value, events[|events| - 1]);
    } else {
      NobodyIsAlone();
    }
  }

  lemma NobodyIsAlone()
    ensures Alone(START)
  {
  }

  /**
   * Where no two runs overlap, no wake-up is lost, and every error thrown while a run has none yet is admitted to it.
   */
  lemma SerialRunsLoseNothing(events: seq<Event>, r: nat)
    requires Run(events).Some? && OneAtATime(events) && r < |Run(events).value.runs|
    ensures !Lost(Run(events).value, r)
    ensures Run(events).value.runs[r].caller.InRun? ==> Run(events).value.active
  {
    var s := Run(events).value;
    SerialRunsAreAlone(events);
    assert r < |s.runs| - 1 ==> RunOver(s.runs[..|s.runs| - 1][r]);
    UnrobbedGuardsAreWoken(events, r);
    hide Run, OneAtATime;
  }

  // ---- Whom the end of a run leaves unheard -----------------------------------

  predicate Ends(e: Event) {
    e.ByCaller? && (e.call.EndRun? || e.call.Backstop?)
  }

  /**
   * `active` is one flag for all: once some run has begun, it is clear exactly when one has ended since the last began.
   */
  lemma {:induction false} ActiveUntilARunEnds(events: seq<Event>)
    requires Run(events).Some? && Run(events).value.runs != []
    ensures !Run(events).value.active <==> exists j :: 0 <= j < |events| && Ends(events[j]) && BeginRun !in events[j..]
    decreases |events|
  {
    var n := |events| - 1;
    var before, e := events[..n], events[n];
    ActiveMoves(Run(before).value, e);
    hide After, Enabled;
    forall j | 0 <= j < n ensures events[j..] == before[j..] + [e] && events[j] == before[j] {
    }
    assert events[n..] == [e];
    if e.BeginRun? {
      assert forall j :: 0 <= j < n ==> e in events[j..];
    } else {
      ActiveUntilARunEnds(before);
      assert Ends(e) ==> BeginRun !in events[n..];
    }
  }

  lemma ActiveMoves(s: State, e: Event)
    requires Enabled(s, e)
    ensures After(s, e).active <==> e.BeginRun? || (s.active && !Ends(e))
    ensures !e.BeginRun? && After(s, e).runs != [] ==> s.runs != []
  {
    FlightsMove(s, e);
  }

  /**
   * An error thrown while a run is in flight and has none yet goes past it to the host exactly when another run has
   * ended since the last one began.
   */
  lemma ErrorsGoPastARunIff(events: seq<Event>, r: nat, id: nat, error: nat)
    requires Run(events).Some? && id !in Run(events).value.handlers && !Run(events).value.failed
    requires r < |Run(events).value.runs| && Run(events).value.runs[r].caller.InRun?
    ensures
      var s := Run(events).value;
      After(s, ByHandler(id, Hear(error))) == s.(hooked := s.hooked + [error]) <==>
      exists j :: 0 <= j < |events| && Ends(events[j]) && BeginRun !in events[j..]
  {
    ActiveUntilARunEnds(events);
    hide Run;
    var s := Run(events).value;
    assert s.hooked + [error] != s.hooked;
  }

  /** And before any has begun; it is set exactly when a run has begun and none has ended since. */
  lemma {:induction false} ActiveSinceARunBegan(events: seq<Event>)
    requires Run(events).Some?
    ensures Run(events).value.active <==>
      exists j :: 0 <= j < |events| && events[j] == BeginRun && forall k :: j < k < |events| ==> !Ends(events[k])
    decreases |events|
  {
    if events != [] {
      var n := |events| - 1;
      var before, e := events[..n], events[n];
      ActiveSinceARunBegan(before);
      ActiveMoves(Run(before).value, e);
      hide After, Enabled, Run;
      assert forall j :: 0 <= j < n ==> events[j] == before[j];
    }
  }

  /** The host hears an error exactly when a failure waits, or no run has begun since the last one ended. */
  lemma HostHearsIff(events: seq<Event>, id: nat, error: nat)
    requires Run(events).Some? && id !in Run(events).value.handlers
    ensures
      var s := Run(events).value;
      After(s, ByHandler(id, Hear(error))) == s.(hooked := s.hooked + [error]) <==>
      s.failed ||
      forall j :: 0 <= j < |events| && events[j] == BeginRun ==> exists k :: j < k < |events| && Ends(events[k])
  {
    ActiveSinceARunBegan(events);
    hide Run, Ends;
    var s := Run(events).value;
    assert s.hooked + [error] != s.hooked;
  }

  // ---- How a guard ends, and whose waker is stored ----------------------------

  /** The guard has stored its waker, and its caller has given it up. */
  predicate HasStored(events: seq<Event>, r: nat) {
    ByGuard(r, StoreWaker) in events
  }

  predicate GaveUp(events: seq<Event>, r: nat) {
    ByCaller(r, Backstop) in events || ByCaller(r, Forsake) in events
  }

  ghost predicate GuardTells(events: seq<Event>, r: nat, f: Flight) {
    && (f.registered <==> HasStored(events, r) && !f.guard.Over?)
    && (GaveUp(events, r) ==> f.caller.Gone?)
    && (f.caller.Gone? && !f.guard.Over? ==> GaveUp(events, r))
    && (f.guard.Over? && f.guard.failure.None? ==> ByGuard(r, BodyFinishes) in events || GaveUp(events, r))
    && (ByGuard(r, BodyFinishes) in events ==> f.guard == Over(None))
  }

  lemma {:induction false} NothingBeforeItBegins(events: seq<Event>, r: nat)
    requires Run(events).Some? && r >= |Run(events).value.runs|
    ensures !HasStored(events, r) && !GaveUp(events, r) && ByGuard(r, BodyFinishes) !in events
    decreases |events|
  {
    if events != [] {
      var before, e := events[..|events| - 1], events[|events| - 1];
      assert events == before + [e];
      FlightsMove(Run(before).value, e);
      NothingBeforeItBegins(before, r);
      hide After;
    }
  }

  lemma TellingMoves(before: seq<Event>, s: State, e: Event, r: nat)
    requires Enabled(s, e) && r < |s.runs| && GuardTells(before, r, s.runs[r]) && Fits(s.runs[r])
    ensures GuardTells(before + [e], r, FlightAfter(s, e, r))
  {
    hide Unlocked, EmptiesSlot;
  }

  /**
   * A guard is over once it has an error, once its body has finished, or when its caller has given it up: at once if it
   * was never polled, and else dropped later.
   */
  lemma {:induction false} GuardsEndBy(events: seq<Event>, r: nat)
    requires Run(events).Some? && r < |Run(events).value.runs|
    ensures GuardTells(events, r, Run(events).value.runs[r])
    decreases |events|
  {
    var before, e := events[..|events| - 1], events[|events| - 1];
    var s := Run(before).value;
    assert events == before + [e];
    FlightsMove(s, e);
    EveryRunIsOrderly(before);
    hide After, Enabled, GuardTells, FlightAfter, ReportsFit, Fits;
    if r < |s.runs| {
      GuardsEndBy(before, r);
      TellingMoves(before, s, e, r);
    } else {
      NothingBeforeItBegins(before, r);
      NewRunTells(before, r);
    }
  }

  lemma NewRunTells(before: seq<Event>, r: nat)
    requires !HasStored(before, r) && !GaveUp(before, r) && ByGuard(r, BodyFinishes) !in before
    ensures GuardTells(before + [BeginRun], r, NEW_RUN)
  {
  }

  /** The slot holds the last waker stored; a handler empties it, and any guard that ever stored one does as it ends. */
  lemma SlotIsOf(before: seq<Event>, e: Event)
    requires Run(before + [e]).Some?
    ensures Run(before).Some? && Run([]).Some? && Run([]).value.slot == None
    ensures
      var s, t := Run(before).value, Run(before + [e]).value;
      t.slot ==
      if e.ByGuard? && e.poll == StoreWaker then Some(e.run)
      else if e.ByHandler? && e.report == TakeWaker then None
      else if e.ByGuard? && e.run < |t.runs| && t.runs[e.run].guard.Over? && HasStored(before, e.run) then None
      else s.slot
  {
    assert (before + [e])[..|before|] == before;
    if e.ByGuard? {
      var s := Run(before).value;
      GuardsEndBy(before, e.run);
      EndsItsGuard(before, s, e.run, e.poll);
    }
  }

  lemma EndsItsGuard(before: seq<Event>, s: State, r: nat, step: GuardStep)
    requires r < |s.runs| && GuardMay(s, s.runs[r], step) && GuardTells(before, r, s.runs[r])
    ensures |AfterGuard(s, r, step).runs| == |s.runs|
    ensures EmptiesSlot(s, s.runs[r], step) <==> AfterGuard(s, r, step).runs[r].guard.Over? && HasStored(before, r)
  {
    FlightsMove(s, ByGuard(r, step));
    hide Unlocked, Robbed, CallerMoved, CallerMay;
  }

  /** A guard in its poll can go on, at the latest once the handler that is writing has set the flag. */
  lemma GuardsGoOn(events: seq<Event>, r: nat) returns (e: Event)
    requires Run(events).Some? && r < |Run(events).value.runs|
    requires
      var g := Run(events).value.runs[r].guard;
      !g.Unpolled? && !g.Asleep? && !g.Over?
    ensures Enabled(Run(events).value, e)
    ensures (e.ByGuard? && e.run == r) ||
      (Run(events).value.runs[r].guard in {FirstGrab, SecondGrab} && e.ByHandler? && e.report == SetFlag)
  {
    var s := Run(events).value;
    if !Unlocked(s) && s.runs[r].guard in {FirstGrab, SecondGrab} {
      var h :| h in s.handlers && s.handlers[h].Written?;
      return ByHandler(h, SetFlag);
    }
    match s.runs[r].guard
    case Body => return ByGuard(r, BodyPends);
    case FirstLook => return ByGuard(r, Look);
    case SecondLook => return ByGuard(r, Look);
    case FirstClear => return ByGuard(r, Clear);
    case SecondClear => return ByGuard(r, Clear);
    case FirstGrab => return ByGuard(r, Grab);
    case SecondGrab => return ByGuard(r, Grab);
    case Register => return ByGuard(r, StoreWaker);
  }

  // ---- Reports of an earlier run ----------------------------------------------

  /** A report is on its way to the flag, or under it. */
  ghost predicate ReportWaits(s: State) {
    (exists h :: h in s.handlers && Reporting(s.handlers[h])) || (s.failed && s.error.Some?)
  }

  /** The flag is set, or the run has seen it set and is on its way to the error. */
  predicate MayTake(s: State, f: Flight) {
    || s.failed || f.caller.Clearing? || f.caller.Grabbing?
    || f.guard.FirstClear? || f.guard.FirstGrab? || f.guard.SecondClear? || f.guard.SecondGrab?
  }

  /** Whatever can still fail run `r` was heard once it had begun. */
  ghost predicate OwnReports(s: State, r: nat) {
    && r < |s.runs|
    && (forall h :: h in s.handlers && Reporting(s.handlers[h]) ==> s.handlers[h].report.begun > r)
    && (MayTake(s, s.runs[r]) && s.error.Some? ==> s.error.value.begun > r)
    && (s.runs[r].guard.Over? && s.runs[r].guard.failure.Some? ==> s.runs[r].guard.failure.value.begun > r)
    && (s.runs[r].outcome.Some? && s.runs[r].outcome.value.Some? ==> s.runs[r].outcome.value.value.begun > r)
  }

  lemma HandlersStayOwn(s: State, id: nat, step: HandlerStep, r: nat)
    requires HandlerMay(s, id, step) && ReportsFit(s) && OwnReports(s, r)
    ensures OwnReports(AfterHandler(s, id, step), r)
  {
  }

  lemma GuardsStayOwn(s: State, q: nat, step: GuardStep, r: nat)
    requires q < |s.runs| && GuardMay(s, s.runs[q], step) && OwnReports(s, r)
    ensures OwnReports(AfterGuard(s, q, step), r)
  {
    FlightsMove(s, ByGuard(q, step));
    hide Unlocked, Robbed, EmptiesSlot, CallerMoved, CallerMay;
  }

  lemma CallersStayOwn(s: State, q: nat, step: CallerStep, r: nat)
    requires q < |s.runs| && CallerMay(s, s.runs[q], step) && OwnReports(s, r)
    ensures OwnReports(AfterCaller(s, q, step), r)
  {
    hide Unlocked;
  }

  lemma ReportsStayOwn(s: State, e: Event, r: nat)
    requires Enabled(s, e) && ReportsFit(s) && OwnReports(s, r)
    ensures OwnReports(After(s, e), r)
  {
    match e
    case BeginRun =>
      FlightsMove(s, e);
    case ByCaller(q, step) =>
      hide OwnReports, ReportsFit, AfterCaller, CallerMay;
      CallersStayOwn(s, q, step, r);
    case ByGuard(q, step) =>
      hide OwnReports, ReportsFit, AfterGuard, GuardMay;
      GuardsStayOwn(s, q, step, r);
    case ByHandler(id, step) =>
      hide OwnReports, ReportsFit, AfterHandler, HandlerMay;
      HandlersStayOwn(s, id, step, r);
  }

  /** Before a run begins every report is of an earlier one. */
  lemma BeginsAfterAllReports(events: seq<Event>)
    requires events != [] && events[|events| - 1] == BeginRun && Run(events).Some?
    ensures
      var s := Run(events).value;
      && s.runs != [] && s.runs[|s.runs| - 1] == NEW_RUN && s.active
      && (forall h :: h in s.handlers && Reporting(s.handlers[h]) ==> s.handlers[h].report.begun < |s.runs|)
      && (s.error.Some? ==> s.error.value.begun < |s.runs|)
  {
    EveryRunIsOrderly(events[..|events| - 1]);
  }

  /** A run's answer is an error its handler had heard before the run began. */
  predicate AnswersForAnother(s: State, r: nat) {
    r < |s.runs| && s.runs[r].outcome.Some? && s.runs[r].outcome.value.Some? && s.runs[r].outcome.value.value.begun <= r
  }

  lemma BeginsWithItsOwn(events: seq<Event>)
    requires events != [] && events[|events| - 1] == BeginRun && Run(events).Some? && !ReportWaits(Run(events).value)
    ensures Run(events).value.runs != [] && OwnReports(Run(events).value, |Run(events).value.runs| - 1)
  {
    BeginsAfterAllReports(events);
    hide Run;
  }

  lemma {:induction false} OwnReportsFromThenOn(events: seq<Event>, more: seq<Event>)
    requires events != [] && events[|events| - 1] == BeginRun && Run(events).Some? && !ReportWaits(Run(events).value)
    requires Run(events + more).Some?
    ensures Run(events).value.runs != [] && OwnReports(Run(events + more).value, |Run(events).value.runs| - 1)
    decreases |more|
  {
    hide After, Enabled, OwnReports, ReportsFit, ReportWaits, Fits;
    var all := events + more;
    BeginsWithItsOwn(events);
    if more == [] {
      assert all == events;
    } else {
      assert all[..|all| - 1] == events + more[..|more| - 1];
      OwnReportsFromThenOn(events, more[..|more| - 1]);
      EveryRunIsOrderly(all[..|all| - 1]);
      ReportsStayOwn(Run(all[..|all| - 1]).value, more[|more| - 1], |Run(events).value.runs| - 1);
    }
  }

  /**
   * In every interleaving, whatever other runs begin or end: a run that begins while no report is on its way to the
   * flag or under it never answers with an error of before it.
   */
  lemma EarlierErrorsNeedOneWaiting(events: seq<Event>, more: seq<Event>)
    requires events != [] && events[|events| - 1] == BeginRun && Run(events).Some? && !ReportWaits(Run(events).value)
    requires Run(events + more).Some?
    ensures Run(events).value.runs != [] && !AnswersForAnother(Run(events + more).value, |Run(events).value.runs| - 1)
  {
    OwnReportsFromThenOn(events, more);
    hide Run;
  }

  // ---- What becomes of a report -----------------------------------------------

  /** What a guard caught, or what the caller answered if it has. */
  function Carried(f: Flight): Option<Report> {
    if f.outcome.Some? then f.outcome.value else if f.guard.Over? then f.guard.failure else None
  }

  datatype Place = AtHandler(id: nat) | InCell | OfRun(run: nat)

  /** The report with this serial number: not written yet, waiting in the cell, or caught for a run. */
  predicate At(s: State, p: Place, n: nat) {
    match p
    case AtHandler(id) => id in s.handlers && s.handlers[id].Admitted? && s.handlers[id].report.serial == n
    case InCell => s.error.Some? && s.error.value.serial == n
    case OfRun(r) => r < |s.runs| && Carried(s.runs[r]).Some? && Carried(s.runs[r]).value.serial == n
  }

  /** A report is lost when another is written over it, or when its run's caller ends with a later one. */
  predicate Loses(s: State, e: Event, n: nat) {
    && s.error.Some?
    && ((e.ByHandler? && e.report.Write? && s.error.value.serial == n) ||
        (e.ByCaller? && e.call.CallerGrab? && At(s, OfRun(e.run), n)))
  }

  predicate Admits(s: State, e: Event) {
    e.ByHandler? && e.report.Hear? && s.active && !s.failed
  }

  /** Where a report goes with a step, if it is not lost by it. */
  function Whither(e: Event, p: Place): Place {
    match p
    case AtHandler(id) => if e.ByHandler? && e.id == id && e.report.Write? then InCell else p
    case InCell => if (e.ByGuard? && e.poll.Grab?) || (e.ByCaller? && e.call.CallerGrab?) then OfRun(e.run) else p
    case OfRun(_) => p
  }

  /** Each report is in one place at most, and those to come in none. */
  ghost predicate Placed(s: State) {
    && (forall p: Place, n: nat :: At(s, p, n) ==> n < s.admitted)
    && (forall p: Place, q: Place, n: nat :: At(s, p, n) && At(s, q, n) ==> p == q)
  }

  /** What a report was at before a step that leaves it at `p`. */
  function Whence(s: State, e: Event, p: Place): Place {
    match p
    case AtHandler(_) => p
    case InCell => if e.ByHandler? && e.report.Write? then AtHandler(e.id) else p
    case OfRun(r) =>
      if s.error.Some? &&
         ((e.ByGuard? && e.run == r && e.poll.Grab?) || (e.ByCaller? && e.run == r && e.call.CallerGrab?)) then InCell
      else p
  }

  lemma HandlersMoveReports(s: State, id: nat, step: HandlerStep, p: Place, n: nat)
    requires HandlerMay(s, id, step)
    ensures
      var t, e := AfterHandler(s, id, step), ByHandler(id, step);
      && (At(t, p, n) ==> (Admits(s, e) && p == AtHandler(id) && n == s.admitted) ||
                          (At(s, Whence(s, e, p), n) && Whither(e, Whence(s, e, p)) == p))
      && (At(s, p, n) && !(p.InCell? && Loses(s, e, n)) ==> At(t, Whither(e, p), n))
      && t.admitted == s.admitted + if Admits(s, e) then 1 else 0
  {
    var t := AfterHandler(s, id, step);
    assert forall r :: 0 <= r < |s.runs| ==> Carried(t.runs[r]) == Carried(s.runs[r]);
    hide Unlocked, Carried, Woken;
  }

  lemma CallersMoveReports(s: State, r: nat, step: CallerStep, p: Place, n: nat)
    requires r < |s.runs| && CallerMay(s, s.runs[r], step) && Fits(s.runs[r])
    ensures
      var t, e := AfterCaller(s, r, step), ByCaller(r, step);
      && (At(t, p, n) ==> At(s, Whence(s, e, p), n) && Whither(e, Whence(s, e, p)) == p)
      && (At(s, p, n) && !(p == OfRun(r) && Loses(s, e, n)) ==> At(t, Whither(e, p), n))
      && t.admitted == s.admitted
  {
    hide Unlocked;
  }

  lemma GuardsMoveReports(s: State, r: nat, step: GuardStep, p: Place, n: nat)
    requires r < |s.runs| && GuardMay(s, s.runs[r], step) && Fits(s.runs[r])
    ensures
      var t, e := AfterGuard(s, r, step), ByGuard(r, step);
      && (At(t, p, n) ==> At(s, Whence(s, e, p), n) && Whither(e, Whence(s, e, p)) == p)
      && (At(s, p, n) ==> At(t, Whither(e, p), n))
      && t.admitted == s.admitted
  {
    FlightsMove(s, ByGuard(r, step));
    CarriedByOthers(s, r, step);
    var t := AfterGuard(s, r, step);
    assert t.runs[r] == GuardMoved(s, s.runs[r], step);
    hide Unlocked, EmptiesSlot, Robbed, FlightAfter, CallerMoved, CallerMay;
  }

  lemma CarriedByOthers(s: State, r: nat, step: GuardStep)
    requires r < |s.runs| && GuardMay(s, s.runs[r], step)
    ensures
      var t := AfterGuard(s, r, step);
      |t.runs| == |s.runs| && forall q :: 0 <= q < |s.runs| && q != r ==> Carried(t.runs[q]) == Carried(s.runs[q])
  {
    hide Unlocked, EmptiesSlot, GuardMoved;
  }

  /** A report after a step was one before it, or is the one it admits; one before it is lost by it or goes on. */
  lemma ReportsMove(s: State, e: Event, p: Place, n: nat)
    requires Enabled(s, e) && Orderly(s)
    ensures
      var t := After(s, e);
      && (At(t, p, n) ==> (Admits(s, e) && p == AtHandler(e.id) && n == s.admitted) ||
                          (At(s, Whence(s, e, p), n) && Whither(e, Whence(s, e, p)) == p))
      && (At(s, p, n) && !(!p.AtHandler? && Loses(s, e, n)) ==> At(t, Whither(e, p), n))
      && t.admitted == s.admitted + if Admits(s, e) then 1 else 0
  {
    match e
    case BeginRun => FlightsMove(s, e);
    case ByCaller(r, step) =>
      assert Fits(s.runs[r]);
      hide AfterCaller, CallerMay, Orderly, At, Loses;
      CallersMoveReports(s, r, step, p, n);
    case ByGuard(r, step) =>
      assert Fits(s.runs[r]);
      hide AfterGuard, GuardMay, Orderly, At;
      GuardsMoveReports(s, r, step, p, n);
    case ByHandler(id, step) =>
      hide AfterHandler, HandlerMay, Orderly, At, Loses;
      HandlersMoveReports(s, id, step, p, n);
  }

  lemma ReportsStayPlaced(s: State, e: Event)
    requires Enabled(s, e) && Orderly(s) && Placed(s)
    ensures Placed(After(s, e))
  {
    var t := After(s, e);
    hide After, Enabled, Orderly, At, Admits;
    forall p: Place, n: nat | At(t, p, n) ensures n < t.admitted {
      ReportsMove(s, e, p, n);
    }
    forall p: Place, q: Place, n: nat | At(t, p, n) && At(t, q, n) ensures p == q {
      ReportsMove(s, e, p, n);
      ReportsMove(s, e, q, n);
    }
  }

  /** The place a report is lost from. */
  function From(e: Event): Place {
    if e.ByCaller? then OfRun(e.run) else InCell
  }

  lemma NothingComesFromThere(s: State, e: Event, n: nat, p: Place)
    requires Enabled(s, e) && Loses(s, e, n)
    ensures At(s, From(e), n) && Whence(s, e, p) != From(e)
  {
  }

  lemma LostIsGone(s: State, e: Event, n: nat)
    requires Enabled(s, e) && Orderly(s) && Placed(s) && Loses(s, e, n)
    ensures n < s.admitted && forall p :: !At(After(s, e), p, n)
  {
    var t := After(s, e);
    NothingComesFromThere(s, e, n, InCell);
    hide After, Enabled, Orderly, At, Admits, Loses, Whence, Whither;
    forall p ensures !At(t, p, n) {
      ReportsMove(s, e, p, n);
      NothingComesFromThere(s, e, n, p);
    }
  }

  ghost predicate Somewhere(s: State, n: nat) {
    exists p :: At(s, p, n)
  }

  ghost predicate LostAt(events: seq<Event>, k: nat, n: nat) {
    k < |events| && Run(events[..k]).Some? && Loses(Run(events[..k]).value, events[k], n)
  }

  /** The report was lost at one of the events. */
  ghost predicate WasLost(events: seq<Event>, n: nat) {
    exists k: nat :: LostAt(events, k, n)
  }

  lemma LosingMoves(events: seq<Event>, n: nat)
    requires events != [] && Run(events).Some?
    ensures WasLost(events, n) <==>
      WasLost(events[..|events| - 1], n) || Loses(Run(events[..|events| - 1]).value, events[|events| - 1], n)
  {
    var last := |events| - 1;
    var before := events[..last];
    hide Loses, Run, LostAt;
    forall k: nat ensures LostAt(events, k, n) <==> LostAt(before, k, n) || (k == last && LostAt(events, last, n)) {
      LostBefore(events, k, n);
    }
    LostLast(events, n);
  }

  lemma LostBefore(events: seq<Event>, k: nat, n: nat)
    requires events != []
    ensures
      var last := |events| - 1;
      LostAt(events, k, n) <==> LostAt(events[..last], k, n) || (k == last && LostAt(events, last, n))
  {
    hide Loses, Run;
    if k < |events| - 1 {
      assert events[..|events| - 1][..k] == events[..k];
    }
  }

  lemma LostLast(events: seq<Event>, n: nat)
    requires events != [] && Run(events).Some?
    ensures
      var last := |events| - 1;
      LostAt(events, last, n) <==> Loses(Run(events[..last]).value, events[last], n)
  {
    hide Loses;
  }

  lemma SomewhereMoves(s: State, e: Event, n: nat)
    requires Enabled(s, e) && Orderly(s) && Placed(s)
    ensures Somewhere(After(s, e), n) <==> (Somewhere(s, n) && !Loses(s, e, n)) || (Admits(s, e) && n == s.admitted)
    ensures Loses(s, e, n) ==> Somewhere(s, n)
    ensures Somewhere(s, n) ==> n < s.admitted
    ensures After(s, e).admitted == s.admitted + if Admits(s, e) then 1 else 0
  {
    var t := After(s, e);
    ReportsMove(s, e, InCell, n);
    if Loses(s, e, n) {
      LostIsGone(s, e, n);
      NothingComesFromThere(s, e, n, InCell);
    }
    if Admits(s, e) {
      AdmittedIsThere(s, e);
    }
    hide After, Enabled, Orderly, At, Admits, Loses, Whence, Whither;
    if p :| At(s, p, n) && !Loses(s, e, n) {
      ReportsMove(s, e, p, n);
      assert At(t, Whither(e, p), n);
    }
    if p :| At(t, p, n) {
      ReportsMove(s, e, p, n);
    }
  }

  lemma AdmittedIsThere(s: State, e: Event)
    requires Enabled(s, e) && Admits(s, e)
    ensures At(After(s, e), AtHandler(e.id), s.admitted)
  {
  }

  /**
   * In every interleaving, however runs overlap: every report admitted to a run is not written yet, or waits in the
   * cell, or is what some run's guard caught or its caller answered, in one of these places only; unless it was lost,
   * because another was written over it or its run's caller ended with a later one. And those are all the reports there
   * are.
   */
  lemma {:induction false} EveryReportIsAccountedFor(events: seq<Event>, n: nat)
    requires Run(events).Some?
    ensures
      var s := Run(events).value;
      && (n < s.admitted <==> Somewhere(s, n) || WasLost(events, n))
      && !(Somewhere(s, n) && WasLost(events, n))
      && (forall p, q :: At(s, p, n) && At(s, q, n) ==> p == q)
    decreases |events|
  {
    EveryReportIsPlaced(events);
    hide After, Enabled, Orderly, At, Admits, Loses;
    if events == [] {
      NoReportsYet(n);
    } else {
      var before, e := events[..|events| - 1], events[|events| - 1];
      EveryReportIsAccountedFor(before, n);
      EveryRunIsOrderly(before);
      EveryReportIsPlaced(before);
      LosingMoves(events, n);
      SomewhereMoves(Run(before).value, e, n);
    }
  }

  lemma {:induction false} EveryReportIsPlaced(events: seq<Event>)
    requires Run(events).Some?
    ensures Placed(Run(events).value)
    decreases |events|
  {
    hide After, Enabled, Orderly, At;
    if events == [] {
      NoReportsYet(0);
    } else {
      EveryReportIsPlaced(events[..|events| - 1]);
      EveryRunIsOrderly(events[..|events| - 1]);
      ReportsStayPlaced(Run(events[..|events| - 1]).value, events[|events| - 1]);
    }
  }

  lemma NoReportsYet(n: nat)
    ensures Placed(START) && !Somewhere(START, n) && !WasLost([], n)
  {
  }

  // ---- What a run answers -----------------------------------------------------

  /** The caller ended with the error it found in the cell. */
  ghost predicate GrabbedAt(events: seq<Event>, k: nat, r: nat, report: Report) {
    k < |events| && events[k] == ByCaller(r, CallerGrab) && Run(events[..k]).Some? &&
    Run(events[..k]).value.error == Some(report)
  }

  ghost predicate AnswersAsCaught(events: seq<Event>, r: nat, f: Flight) {
    && (f.caller.Ended? || f.caller.Clearing? || f.caller.Grabbing? ==>
      f.guard.Over? && f.outcome == Some(f.guard.failure))
    && (f.caller.InRun? ==> f.outcome.None?)
    && (f.outcome.Some? ==>
          f.guard.Over? &&
          (f.outcome == Some(f.guard.failure) ||
           (f.outcome.value.Some? && exists k: nat :: GrabbedAt(events, k, r, f.outcome.value.value))))
  }

  lemma GrabsMove(events: seq<Event>, k: nat, r: nat, report: Report)
    requires events != [] && GrabbedAt(events[..|events| - 1], k, r, report)
    ensures GrabbedAt(events, k, r, report)
  {
    assert events[..|events| - 1][..k] == events[..k];
  }

  /** A caller that has ended over what its guard caught answers that, or else the later error it found in the cell. */
  lemma {:induction false} CallersAnswerWhatWasCaught(events: seq<Event>, r: nat)
    requires Run(events).Some? && r < |Run(events).value.runs|
    ensures AnswersAsCaught(events, r, Run(events).value.runs[r])
    decreases |events|
  {
    var before, e := events[..|events| - 1], events[|events| - 1];
    var s := Run(before).value;
    EveryRunIsOrderly(events);
    FlightsMove(s, e);
    assert Fits(Run(events).value.runs[r]);
    if r < |s.runs| {
      CallersAnswerWhatWasCaught(before, r);
      var f, g := s.runs[r], FlightAfter(s, e, r);
      EveryRunIsOrderly(before);
      assert Fits(s.runs[r]);
      AnswersMove(s, e, r);
      if e == ByCaller(r, CallerGrab) && s.error.Some? {
        assert GrabbedAt(events, |before|, r, s.error.value);
      }
      hide Run, After, Enabled, FlightAfter, Orderly;
      if f.outcome.Some? && f.outcome.value.Some? {
        if k: nat :| GrabbedAt(before, k, r, f.outcome.value.value) {
          GrabsMove(events, k, r, f.outcome.value.value);
        }
      }
    }
  }

  /** An answer comes with the end of a run, from its guard, and changes only to what its caller finds in the cell. */
  lemma AnswersMove(s: State, e: Event, r: nat)
    requires Enabled(s, e) && r < |s.runs| && Fits(s.runs[r])
    ensures
      var f, g := s.runs[r], FlightAfter(s, e, r);
      && (e == ByCaller(r, CallerGrab) && s.error.Some? ==> g.outcome == Some(s.error) && g.guard == f.guard)
      && (!(e == ByCaller(r, CallerGrab) && s.error.Some?) ==>
            (f.outcome.Some? ==> g.outcome == f.outcome && g.guard == f.guard) &&
            (f.outcome.None? && g.outcome.Some? ==> g.guard.Over? && g.outcome == Some(g.guard.failure)))
  {
    hide Unlocked, EmptiesSlot;
  }

  // ---- What waits, waits under the flag ---------------------------------------

  /** Somebody has cleared the flag and is about to take the error. */
  predicate Taking(f: Flight) {
    f.caller.Grabbing? || f.guard.FirstGrab? || f.guard.SecondGrab?
  }

  ghost predicate UnderTheFlag(s: State) {
    s.error.Some? ==>
      || s.failed
      || (exists h :: h in s.handlers && s.handlers[h].Written?)
      || (exists r :: 0 <= r < |s.runs| && Taking(s.runs[r]))
  }

  lemma HandlersSetTheFlag(s: State, id: nat, step: HandlerStep)
    requires HandlerMay(s, id, step) && UnderTheFlag(s) && ReportsFit(s)
    ensures UnderTheFlag(AfterHandler(s, id, step))
  {
    var t := AfterHandler(s, id, step);
    assert forall r :: 0 <= r < |s.runs| ==> Taking(t.runs[r]) == Taking(s.runs[r]);
    if step.Write? {
      assert t.handlers[id].Written?;
    }
    if h :| h in s.handlers && s.handlers[h].Written? && !step.SetFlag? {
      assert h in t.handlers && t.handlers[h].Written?;
    }
    hide Unlocked, Woken;
  }

  lemma OthersLeaveItThere(s: State, e: Event)
    requires Enabled(s, e) && UnderTheFlag(s) && !e.ByHandler?
    ensures UnderTheFlag(After(s, e))
  {
    FlightsMove(s, e);
    var t := After(s, e);
    assert t.handlers == s.handlers;
    if (e.ByGuard? && e.poll.Clear?) || (e.ByCaller? && e.call.CallerClear?) {
      assert Taking(t.runs[e.run]);
    }
    if t.error.Some? {
      if r :| 0 <= r < |s.runs| && Taking(s.runs[r]) {
        TakersStay(s, e, r);
        assert Taking(t.runs[r]);
      }
    }
    hide Unlocked, EmptiesSlot, Robbed, FlightAfter, Taking;
  }

  lemma TakersStay(s: State, e: Event, r: nat)
    requires Enabled(s, e) && r < |s.runs| && Taking(s.runs[r]) && !e.ByHandler?
    ensures After(s, e).error.Some? ==> Taking(FlightAfter(s, e, r))
  {
    hide Unlocked, EmptiesSlot;
  }

  /** An error in the cell is under the flag, or about to be, or about to be taken. */
  lemma {:induction false} ErrorsWaitUnderTheFlag(events: seq<Event>)
    requires Run(events).Some?
    ensures UnderTheFlag(Run(events).value)
    decreases |events|
  {
    hide After, Enabled, UnderTheFlag, ReportsFit;
    if events == [] {
      assert UnderTheFlag(START) by {
        NothingWaits();
      }
    } else {
      var s, e := Run(events[..|events| - 1]).value, events[|events| - 1];
      ErrorsWaitUnderTheFlag(events[..|events| - 1]);
      EveryRunIsOrderly(events[..|events| - 1]);
      if e.ByHandler? {
        HandlerStepSetsTheFlag(s, e);
      } else {
        OthersLeaveItThere(s, e);
      }
    }
  }

  lemma HandlerStepSetsTheFlag(s: State, e: Event)
    requires Enabled(s, e) && e.ByHandler? && UnderTheFlag(s) && ReportsFit(s)
    ensures UnderTheFlag(After(s, e))
  {
    hide UnderTheFlag, ReportsFit, HandlerMay, AfterHandler;
    HandlersSetTheFlag(s, e.id, e.report);
  }

  lemma NothingWaits()
    ensures UnderTheFlag(START)
  {
  }
}

/** A job that parks, and the call that starts its timer only then. */
module Parking {
  import opened Prelude

  datatype Waiter = Polling | Registering | Looking | Sleeping | Timed | Finished

  /** A poll of the job that has just swapped the flag in, or that is waking the waiter it took. */
  datatype Raiser = Swapped | Waking(waker: bool)

  datatype State = State(parked: bool, slot: bool, notified: bool, waiter: Waiter, raisers: map<nat, Raiser>)

  datatype Event = JobReady | JobPends | Register | Look | Poll | Raise(id: nat) | Take(id: nat) | Wake(id: nat)

  predicate Enabled(s: State, e: Event) {
    match e
    case JobReady => s.waiter.Polling?
    case JobPends => s.waiter.Polling?
    case Register => s.waiter.Registering?
    case Look => s.waiter.Looking?
    case Poll => s.waiter.Sleeping?
    case Raise(id) => id !in s.raisers
    case Take(id) => id in s.raisers && s.raisers[id].Swapped?
    case Wake(id) => id in s.raisers && s.raisers[id].Waking?
  }

  function After(s: State, e: Event): State
    requires Enabled(s, e)
  {
    match e
    case JobReady => s.(waiter := Finished)
    case JobPends => s.(waiter := Registering)
    case Register => s.(slot := true, waiter := Looking)
    case Look => s.(waiter := if s.parked then Timed else Sleeping)
    case Poll => s.(waiter := Polling, notified := false)
    case Raise(id) => if s.parked then s else s.(parked := true, raisers := s.raisers[id := Swapped])
    case Take(id) => s.(slot := false, raisers := s.raisers[id := Waking(s.slot)])
    case Wake(id) => s.(notified := s.notified || s.raisers[id].waker, raisers := s.raisers - {id})
  }

  function Run(events: seq<Event>): Option<State>
    decreases |events|
  {
    if events == [] then Some(State(false, false, false, Polling, map[]))
    else
      match Run(events[..|events| - 1])
      case Some(s) => if Enabled(s, events[|events| - 1]) then Some(After(s, events[|events| - 1])) else None
      case None => None
  }

  ghost predicate Holding(s: State) {
    exists r :: r in s.raisers && s.raisers[r] == Waking(true)
  }

  ghost predicate Swapping(s: State) {
    exists r :: r in s.raisers && s.raisers[r] == Swapped
  }

  ghost predicate Inv(s: State) {
    && (s.waiter.Sleeping? || s.waiter.Looking? ==> s.slot || s.notified || Holding(s))
    && (s.waiter.Sleeping? && s.parked ==> s.notified || Swapping(s) || Holding(s))
  }

  lemma StepKeepsInv(s: State, e: Event)
    requires Enabled(s, e) && Inv(s)
    ensures Inv(After(s, e))
  {
    var t := After(s, e);
    if Holding(s) && !t.notified {
      var r :| r in s.raisers && s.raisers[r] == Waking(true);
      assert r in t.raisers && t.raisers[r] == Waking(true);
    }
    if e.Take? {
      assert s.slot ==> t.raisers[e.id] == Waking(true);
    } else if Swapping(s) {
      var r :| r in s.raisers && s.raisers[r] == Swapped;
      assert r in t.raisers && t.raisers[r] == Swapped;
    }
    assert e.Raise? && !s.parked ==> t.raisers[e.id] == Swapped;
  }

  /** A call asleep over a parked job has been woken, or the poll that parked it has its wake still to come. */
  lemma {:induction false} NoLostWakeUp(events: seq<Event>)
    requires Run(events).Some?
    ensures Inv(Run(events).value)
    ensures
      var s := Run(events).value;
      s.parked && s.waiter.Sleeping? && !s.notified ==>
        exists r :: r in s.raisers && (s.raisers[r] == Swapped || s.raisers[r] == Waking(true))
    decreases |events|
  {
    hide After, Enabled;
    if events != [] {
      NoLostWakeUp(events[..|events| - 1]);
      StepKeepsInv(Run(events[..|events| - 1]).value, events[|events| - 1]);
    }
  }

  /** A call never times a job that has not parked. */
  lemma {:induction false} OnlyParkedJobsAreTimed(events: seq<Event>)
    requires Run(events).Some?
    ensures Run(events).value.waiter.Timed? ==> Run(events).value.parked
    decreases |events|
  {
    if events != [] {
      OnlyParkedJobsAreTimed(events[..|events| - 1]);
    }
  }

  // ---- Told by the events -----------------------------------------------------

  /** Some event of the kind has happened, and none of the other since. */
  ghost predicate Since(events: seq<Event>, yes: Event -> bool, no: Event -> bool) {
    exists k :: 0 <= k < |events| && yes(events[k]) && forall j :: k < j < |events| ==> !no(events[j])
  }

  lemma SinceMoves(events: seq<Event>, yes: Event -> bool, no: Event -> bool)
    requires events != []
    ensures
      var before, e := events[..|events| - 1], events[|events| - 1];
      Since(events, yes, no) <==> yes(e) || (Since(before, yes, no) && !no(e))
  {
    var n := |events| - 1;
    var before := events[..n];
    if k :| 0 <= k < |events| && yes(events[k]) && forall j :: k < j < |events| ==> !no(events[j]) {
      if k < n {
        assert before[k] == events[k] && forall j :: k < j < n ==> before[j] == events[j];
      }
    }
    if k :| 0 <= k < n && yes(before[k]) && (forall j :: k < j < n ==> !no(before[j])) && !no(events[n]) {
      assert events[k] == before[k] && forall j :: k < j < n ==> events[j] == before[j];
    }
  }

  /** The job is parked once raised, a waker is stored from a registering until a take, a wake holds until a poll. */
  lemma {:induction false} CellTellsOfEvents(events: seq<Event>)
    requires Run(events).Some?
    ensures Run(events).value.parked <==> Since(events, (e: Event) => e.Raise?, (e: Event) => false)
    ensures Run(events).value.slot <==> Since(events, (e: Event) => e.Register?, (e: Event) => e.Take?)
    ensures Run(events).value.notified ==> Since(events, (e: Event) => e.Wake?, (e: Event) => e.Poll?)
    decreases |events|
  {
    if events != [] {
      CellTellsOfEvents(events[..|events| - 1]);
      SinceMoves(events, (e: Event) => e.Raise?, (e: Event) => false);
      SinceMoves(events, (e: Event) => e.Register?, (e: Event) => e.Take?);
      SinceMoves(events, (e: Event) => e.Wake?, (e: Event) => e.Poll?);
      hide Since;
    }
  }

  /** A raise is over once it has woken. */
  lemma {:induction false} RaisesEndAsTheyWake(events: seq<Event>, id: nat)
    requires Run(events).Some? && id in Run(events).value.raisers
    ensures Since(events, (e: Event) => e == Raise(id), (e: Event) => e == Wake(id))
    decreases |events|
  {
    var before, e := events[..|events| - 1], events[|events| - 1];
    SinceMoves(events, (e: Event) => e == Raise(id), (e: Event) => e == Wake(id));
    hide Since;
    if id in Run(before).value.raisers {
      RaisesEndAsTheyWake(before, id);
    }
  }

  /** The last thing the call has done. */
  function LastOfCall(events: seq<Event>): Option<Event>
    decreases |events|
  {
    if events == [] then None
    else
      var e := events[|events| - 1];
      if e.Raise? || e.Take? || e.Wake? then LastOfCall(events[..|events| - 1]) else Some(e)
  }

  /** Where that leaves it. */
  lemma {:induction false} CallIsWhereItsLastStepLeftIt(events: seq<Event>)
    requires Run(events).Some?
    ensures
      var waiter := Run(events).value.waiter;
      match LastOfCall(events)
      case None => waiter == Polling
      case Some(Poll) => waiter == Polling
      case Some(JobReady) => waiter == Finished
      case Some(JobPends) => waiter == Registering
      case Some(Register) => waiter == Looking
      case Some(Look) => waiter == Sleeping || waiter == Timed
      case _ => false
    decreases |events|
  {
    if events != [] {
      CallIsWhereItsLastStepLeftIt(events[..|events| - 1]);
    }
  }

  /** And what it can do next: poll the job, store its waker, look at the flag, and if it sleeps be polled again. */
  lemma CallGoesOnIff(events: seq<Event>, e: Event)
    requires Run(events).Some? && !e.Raise? && !e.Take? && !e.Wake?
    ensures Run([]).Some?
    ensures
      var last := LastOfCall(events);
      Run(events + [e]).Some? <==>
        match e
        case JobReady => last == None || last == Some(Poll)
        case JobPends => last == None || last == Some(Poll)
        case Register => last == Some(JobPends)
        case Look => last == Some(Register)
        case Poll => last == Some(Look) && Run(events).value.waiter != Timed
        case _ => false
  {
    assert (events + [e])[..|events|] == events;
    CallIsWhereItsLastStepLeftIt(events);
  }

  // ---- A call over a parked job comes to be timed -----------------------------

  /** The job stays pending, nobody else parks it, and the call is polled only when it has been woken. */
  ghost predicate Driven(events: seq<Event>, more: seq<Event>) {
    forall k :: 0 <= k < |more| ==>
      && !more[k].JobReady? && !more[k].Raise?
      && (more[k] == Poll ==> Run(events + more[..k]).Some? && Run(events + more[..k]).value.notified)
  }

  ghost predicate Leads(events: seq<Event>, more: seq<Event>, s: State) {
    Run(events + more) == Some(s) && Driven(events, more)
  }

  lemma Onward(events: seq<Event>, more: seq<Event>, s: State, e: Event) returns (more': seq<Event>, s': State)
    requires Leads(events, more, s) && Enabled(s, e)
    requires !e.JobReady? && !e.Raise? && (e == Poll ==> s.notified)
    ensures more' == more + [e] && s' == After(s, e) && Leads(events, more', s')
  {
    hide After, Enabled;
    more', s' := more + [e], After(s, e);
    assert (events + more')[..|events + more|] == events + more && events + more' == events + more + [e];
    forall k | 0 <= k < |more'| ensures
      !more'[k].JobReady? && !more'[k].Raise? &&
      (more'[k] == Poll ==> Run(events + more'[..k]).Some? && Run(events + more'[..k]).value.notified)
    {
      assert more'[..k] == if k < |more| then more[..k] else more;
    }
  }

  /** Asleep, it is woken by a wake that is done or still to come. */
  lemma IsWoken(events: seq<Event>, more: seq<Event>, s: State) returns (more': seq<Event>, s': State)
    requires Leads(events, more, s) && Inv(s) && s.parked && s.waiter.Sleeping?
    ensures Leads(events, more', s') && s'.parked && s'.waiter.Sleeping? && s'.notified
  {
    hide Leads;
    more', s' := more, s;
    if !s'.notified && !Holding(s') {
      var r :| r in s.raisers && s.raisers[r] == Swapped;
      more', s' := Onward(events, more', s', Take(r));
      assert s'.raisers[r] == Waking(true);
    }
    if !s'.notified {
      var r :| r in s'.raisers && s'.raisers[r] == Waking(true);
      more', s' := Onward(events, more', s', Wake(r));
    }
  }

  /**
   * In every reachable state, a call over a parked job that is not done has its wake coming: from there, by that wake
   * alone, it comes to be timed.
   */
  lemma ParkedCallsComeToBeTimed(events: seq<Event>) returns (more: seq<Event>, s: State)
    requires Run(events).Some? && Run(events).value.parked && !Run(events).value.waiter.Finished?
    ensures Leads(events, more, s) && s.waiter.Timed?
  {
    more, s := [], Run(events).value;
    NoLostWakeUp(events);
    assert events + more == events;
    assert Leads(events, more, s);
    hide Leads, Run;
    if s.waiter.Sleeping? {
      more, s := IsWoken(events, more, s);
      more, s := Onward(events, more, s, Poll);
    }
    if s.waiter.Polling? {
      more, s := Onward(events, more, s, JobPends);
    }
    if s.waiter.Registering? {
      more, s := Onward(events, more, s, Register);
    }
    if s.waiter.Looking? {
      more, s := Onward(events, more, s, Look);
    }
  }
}
