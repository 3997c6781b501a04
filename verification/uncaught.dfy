/**
 * Uncaught exceptions and the run they fail: one run at a time, with each report, each poll and each end taken as one
 * step. What runs that overlap do to one another is in `Wakeups`.
 */
module Uncaught {
  import opened Prelude

  type Error = nat

  datatype Outcome = Finished(value: nat) | Failed(error: Error)

  /** What the handler and the run share. */
  datatype Cell = Cell(active: bool, failed: bool, error: Option<Error>, waker: bool)

  /** Where a report went: nowhere, to the run, or to the host. */
  datatype Heard = Dropped | Kept(woken: bool) | Hooked

  function ReportedTo(c: Cell, timedOut: bool): Heard {
    if timedOut then Dropped else if c.active && !c.failed then Kept(c.waker) else Hooked
  }

  function AfterReport(c: Cell, error: Error, timedOut: bool): Cell {
    if ReportedTo(c, timedOut).Kept? then c.(failed := true, error := Some(error), waker := false) else c
  }

  function Taken(c: Cell): Option<Error> {
    if c.failed then c.error else None
  }

  function AfterTake(c: Cell): Cell {
    if c.failed then c.(failed := false, error := None) else c
  }

  class Watch {
    var active: bool
    var failed: bool
    var error: Option<Error>
    var waker: bool

    constructor ()
      ensures Contents() == Cell(false, false, None, false)
    {
      active, failed, error, waker := false, false, None, false;
    }

    function Contents(): Cell
      reads this
    {
      Cell(active, failed, error, waker)
    }

    method Begin()
      modifies this
      ensures Contents() == old(Contents()).(active := true)
    {
      active := true;
    }

    method End() returns (arrived: bool)
      modifies this
      ensures Contents() == old(Contents()).(active := false) && arrived == old(failed)
    {
      active := false;
      arrived := failed;
    }

    method Take() returns (taken: Option<Error>)
      modifies this
      ensures taken == Taken(old(Contents())) && Contents() == AfterTake(old(Contents()))
    {
      if !failed {
        return None;
      }
      failed := false;
      taken := error;
      error := None;
    }

    method Report(e: Error, timedOut: bool) returns (heard: Heard)
      modifies this
      ensures heard == ReportedTo(old(Contents()), timedOut) && Contents() == AfterReport(old(Contents()), e, timedOut)
    {
      if timedOut {
        return Dropped;
      }
      if active && !failed {
        error := Some(e);
        failed := true;
        heard := Kept(waker);
        waker := false;
        return;
      }
      heard := Hooked;
    }

    /** A poll of the run's guard while its body still waits: the error that ends it, or a waker stored for the next. */
    method PollGuard() returns (ended: Option<Error>)
      modifies this
      ensures ended == Taken(old(Contents()))
      ensures Contents() ==
        if ended.Some? then AfterTake(old(Contents())) else AfterTake(old(Contents())).(waker := true)
    {
      ended := Take();
      if ended.Some? {
        return;
      }
      waker := true;
      ended := Take();
    }
  }

  // ---- One run --------------------------------------------------------------

  /** What happens between the beginning of a run and its end. */
  datatype Step = Throws(error: Error, timedOut: bool) | BodyWaits | BodyFinishes(outcome: Outcome)

  /** The cell, the job's reply once it has one, and what the host heard. */
  datatype Progress = Progress(cell: Cell, reply: Option<Outcome>, hooked: seq<Error>)

  function Advance(p: Progress, step: Step): Progress {
    match step
    case Throws(e, timedOut) =>
      p.(cell := AfterReport(p.cell, e, timedOut),
         hooked := if ReportedTo(p.cell, timedOut).Hooked? then p.hooked + [e] else p.hooked)
    case BodyWaits =>
      if p.reply.Some? then p
      else if Taken(p.cell).Some? then p.(cell := AfterTake(p.cell), reply := Some(Failed(Taken(p.cell).value)))
      else p.(cell := AfterTake(p.cell).(waker := true))
    case BodyFinishes(outcome) => if p.reply.Some? then p else p.(reply := Some(outcome))
  }

  function Through(p: Progress, steps: seq<Step>): Progress
    decreases |steps|
  {
    if steps == [] then p else Advance(Through(p, steps[..|steps| - 1]), steps[|steps| - 1])
  }

  function Started(c: Cell): Progress {
    Progress(c.(active := true), None, [])
  }

  /** The end of a run whose job replied: an error that arrived and was not returned yet fails it. */
  function Ending(p: Progress): Outcome
    requires p.reply.Some?
  {
    if Taken(p.cell).Some? then Failed(Taken(p.cell).value) else p.reply.value
  }

  /** A run from its beginning: the reply settled at the end, or none when the backstop had to end it. */
  method Drive(watch: Watch, steps: seq<Step>) returns (outcome: Option<Outcome>, hooked: seq<Error>)
    modifies watch
    ensures
      var p := Through(Started(old(watch.Contents())), steps);
      && hooked == p.hooked
      && outcome == (if p.reply.Some? then Some(Ending(p)) else None)
      && watch.Contents() == LeftBy(p)
  {
    ghost var start := Started(watch.Contents());
    watch.Begin();
    var reply: Option<Outcome> := None;
    hooked := [];
    for i := 0 to |steps|
      invariant Progress(watch.Contents(), reply, hooked) == Through(start, steps[..i])
    {
      assert steps[..i + 1][..i] == steps[..i];
      match steps[i]
      case Throws(e, timedOut) =>
        var heard := watch.Report(e, timedOut);
        if heard.Hooked? {
          hooked := hooked + [e];
        }
      case BodyWaits =>
        if reply.None? {
          var ended := watch.PollGuard();
          if ended.Some? {
            reply := Some(Failed(ended.value));
          }
        }
      case BodyFinishes(o) =>
        if reply.None? {
          reply := Some(o);
        }
    }
    assert steps[..|steps|] == steps;
    var arrived := watch.End();
    if reply.None? {
      return None, hooked;
    }
    outcome := reply;
    if arrived {
      var error := watch.Take();
      if error.Some? {
        outcome := Some(Failed(error.value));
      }
    }
  }

  /** What was thrown and not put down to a timeout. */
  function Thrown(steps: seq<Step>): seq<Error>
    decreases |steps|
  {
    if steps == [] then []
    else
      var last := steps[|steps| - 1];
      Thrown(steps[..|steps| - 1]) + if last.Throws? && !last.timedOut then [last.error] else []
  }

  /** How a body that was left alone finished. */
  function BodysOwn(steps: seq<Step>): Option<Outcome>
    decreases |steps|
  {
    if steps == [] then None
    else
      var own, last := BodysOwn(steps[..|steps| - 1]), steps[|steps| - 1];
      if own.Some? then own else if last.BodyFinishes? then Some(last.outcome) else None
  }

  ghost predicate Clean(c: Cell) {
    !c.failed && c.error.None?
  }

  /** The guard has ended the body with an error: it was polled over one, and the body had not finished before that. */
  predicate CutShort(steps: seq<Step>)
    decreases |steps|
  {
    steps != [] &&
    var before, last := steps[..|steps| - 1], steps[|steps| - 1];
    CutShort(before) || (last.BodyWaits? && BodysOwn(before).None? && Thrown(before) != [])
  }

  /** What was thrown once the guard had ended the body, and the run not yet. */
  function Late(steps: seq<Step>): seq<Error>
    decreases |steps|
  {
    if steps == [] then []
    else
      var before, last := steps[..|steps| - 1], steps[|steps| - 1];
      Late(before) + if CutShort(before) && last.Throws? && !last.timedOut then [last.error] else []
  }

  /** The errors handed to the run, in order. */
  function Keeps(c: Cell, steps: seq<Step>): seq<Error>
    decreases |steps|
  {
    if steps == [] then []
    else
      var before, last := steps[..|steps| - 1], steps[|steps| - 1];
      var p := Through(Started(c), before);
      Keeps(c, before) + if last.Throws? && ReportedTo(p.cell, last.timedOut).Kept? then [last.error] else []
  }

  /** `whole` is these two in one order, each in its own. */
  ghost predicate Merges(a: seq<Error>, b: seq<Error>, whole: seq<Error>)
    decreases |whole|
  {
    if whole == [] then a == [] && b == []
    else
      var rest, last := whole[..|whole| - 1], whole[|whole| - 1];
      || (a != [] && a[|a| - 1] == last && Merges(a[..|a| - 1], b, rest))
      || (b != [] && b[|b| - 1] == last && Merges(a, b[..|b| - 1], rest))
  }

  lemma NothingMerges()
    ensures Merges([], [], [])
  {
  }

  lemma MergesOneMore(a: seq<Error>, b: seq<Error>, whole: seq<Error>, e: Error)
    requires Merges(a, b, whole)
    ensures Merges(a + [e], b, whole + [e]) && Merges(a, b + [e], whole + [e])
  {
    assert (whole + [e])[..|whole|] == whole && (a + [e])[..|a|] == a && (b + [e])[..|b|] == b;
  }

  /** Every error thrown in a run is handed to it or heard by the host, one or the other and once, both in order. */
  lemma {:induction false} EveryThrowIsKeptOrHooked(c: Cell, steps: seq<Step>)
    ensures
      var p := Through(Started(c), steps);
      p.cell.active && Merges(Keeps(c, steps), p.hooked, Thrown(steps))
    decreases |steps|
  {
    hide Merges;
    if steps == [] {
      assert Merges([], [], []) by {
        NothingMerges();
      }
    } else {
      var before, last := steps[..|steps| - 1], steps[|steps| - 1];
      var kept, thrown := Keeps(c, before), Thrown(before);
      EveryThrowIsKeptOrHooked(c, before);
      if last.Throws? && !last.timedOut {
        MergesOneMore(kept, Through(Started(c), before).hooked, thrown, last.error);
      }
      assert kept + [] == kept && thrown + [] == thrown;
    }
  }

  // ---- Which error a run reports --------------------------------------------

  /** The cell, the reply and what was kept, by what was thrown and when. */
  ghost predicate ThrownSoFar(c: Cell, steps: seq<Step>) {
    var p, thrown, late := Through(Started(c), steps), Thrown(steps), Late(steps);
    && p.cell.active && p.cell.failed == p.cell.error.Some?
    && if thrown == [] then
         !p.cell.failed && p.reply == BodysOwn(steps) && Keeps(c, steps) == [] && !CutShort(steps) && late == []
       else if !CutShort(steps) then
         p.cell.error == Some(thrown[0]) && p.reply == BodysOwn(steps) && Keeps(c, steps) == [thrown[0]] && late == []
       else
         && p.reply == Some(Failed(thrown[0]))
         && (if late == [] then !p.cell.failed && Keeps(c, steps) == [thrown[0]]
             else p.cell.error == Some(late[0]) && Keeps(c, steps) == [thrown[0], late[0]])
  }

  lemma {:induction false} RunsThrowSo(c: Cell, steps: seq<Step>)
    requires Clean(c)
    ensures ThrownSoFar(c, steps)
    decreases |steps|
  {
    if steps != [] {
      RunsThrowSo(c, steps[..|steps| - 1]);
    }
  }

  /**
   * A run that finishes without its backstop fails with an uncaught error thrown during it, if there was one: the
   * first, unless the guard had ended the body with that and another came before the run was over. Otherwise it answers
   * what its body did. It leaves nothing behind for the next run.
   */
  lemma UncaughtErrorsFailTheRun(c: Cell, steps: seq<Step>)
    requires Clean(c) && Through(Started(c), steps).reply.Some?
    ensures
      var p, thrown, late := Through(Started(c), steps), Thrown(steps), Late(steps);
      && Some(Ending(p)) == (if thrown == [] then BodysOwn(steps)
                             else if late == [] then Some(Failed(thrown[0])) else Some(Failed(late[0])))
      && Keeps(c, steps) == (if thrown == [] then [] else if late == [] then [thrown[0]] else [thrown[0], late[0]])
      && Clean(AfterTake(p.cell))
  {
    RunsThrowSo(c, steps);
    LateIsThrown(steps);
  }

  lemma {:induction false} LateIsThrown(steps: seq<Step>)
    ensures (CutShort(steps) ==> Thrown(steps) != []) && (Late(steps) != [] ==> CutShort(steps))
    decreases |steps|
  {
    if steps != [] {
      LateIsThrown(steps[..|steps| - 1]);
    }
  }

  /** The first error is the one reported exactly when no other came late, or the one that did is the same. */
  lemma FirstErrorFailsTheRunUnlessOneIsLate(c: Cell, steps: seq<Step>)
    requires Clean(c) && Through(Started(c), steps).reply.Some? && Thrown(steps) != []
    ensures Ending(Through(Started(c), steps)) == Failed(Thrown(steps)[0]) <==>
      Late(steps) == [] || Late(steps)[0] == Thrown(steps)[0]
  {
    UncaughtErrorsFailTheRun(c, steps);
  }

  /** An error that is lost: the guard takes it, a late one replaces it, and the host hears neither. */
  lemma LateErrorReplacesTheFirst()
    ensures
      var p := Through(Started(Cell(false, false, None, false)), [Throws(1, false), BodyWaits, Throws(2, false)]);
      p.hooked == [] && p.reply == Some(Failed(1)) && Ending(p) == Failed(2)
  {
    var one, two := [Throws(1, false)], [Throws(1, false), BodyWaits];
    var steps := two + [Throws(2, false)];
    assert one[..0] == [] && two[..1] == one && steps[..2] == two;
    assert steps == [Throws(1, false), BodyWaits, Throws(2, false)];
    var start := Started(Cell(false, false, None, false));
    assert Through(start, one) == Advance(start, Throws(1, false));
    assert Through(start, two) == Advance(Through(start, one), BodyWaits);
  }

  // ---- What a run leaves for the next ---------------------------------------

  /** The cell when the run is over: a run with a reply takes what arrived, one ended by its backstop does not. */
  function LeftBy(p: Progress): Cell {
    (if p.reply.Some? then AfterTake(p.cell) else p.cell).(active := false)
  }

  /** A run leaves the cell clean exactly when its job replied or nothing was thrown in it. */
  lemma RunLeavesNothingBehindIff(c: Cell, steps: seq<Step>)
    requires Clean(c)
    ensures
      var p := Through(Started(c), steps);
      && (Clean(LeftBy(p)) <==> p.reply.Some? || Thrown(steps) == [])
      && LeftBy(p).failed == LeftBy(p).error.Some?
      && (!Clean(LeftBy(p)) ==> LeftBy(p).error == Some(Thrown(steps)[0]))
  {
    RunsThrowSo(c, steps);
  }

  /** A run nothing is thrown in keeps its answer until a poll, or its end, finds an error left behind. */
  lemma {:induction false} QuietSoFar(c: Cell, steps: seq<Step>)
    requires c.failed == c.error.Some? && Thrown(steps) == []
    ensures
      var p := Through(Started(c), steps);
      && p.cell.failed == p.cell.error.Some?
      && (p.cell.failed ==> c.failed && p.cell.error == c.error && p.reply == BodysOwn(steps))
      && (!p.cell.failed && !c.failed ==> p.reply == BodysOwn(steps))
      && (!p.cell.failed && c.failed ==> p.reply == Some(Failed(c.error.value)))
    decreases |steps|
  {
    if steps != [] {
      QuietSoFar(c, steps[..|steps| - 1]);
    }
  }

  /**
   * A run in which nothing was thrown answers for itself on a clean cell, and on any other with the error left there.
   */
  lemma QuietRunAnswers(c: Cell, steps: seq<Step>)
    requires c.failed == c.error.Some? && Thrown(steps) == [] && Through(Started(c), steps).reply.Some?
    ensures
      var p := Through(Started(c), steps);
      Some(Ending(p)) == if Clean(c) then BodysOwn(steps) else Some(Failed(c.error.value))
  {
    QuietSoFar(c, steps);
  }

  /**
   * So a backstop that does not poison hands an error on: whatever the next run does, if nothing is thrown in it, it
   * answers for itself exactly when nothing was thrown in the run the backstop ended, and with that run's first error
   * otherwise.
   */
  lemma BackstopHandsItsErrorOn(c: Cell, steps: seq<Step>, next: seq<Step>)
    requires Clean(c) && Through(Started(c), steps).reply.None? && Thrown(next) == []
    requires Through(Started(LeftBy(Through(Started(c), steps))), next).reply.Some?
    ensures
      var p := Through(Started(LeftBy(Through(Started(c), steps))), next);
      Some(Ending(p)) == if Thrown(steps) == [] then BodysOwn(next) else Some(Failed(Thrown(steps)[0]))
  {
    RunLeavesNothingBehindIff(c, steps);
    QuietRunAnswers(LeftBy(Through(Started(c), steps)), next);
  }

  /** There are such runs. */
  lemma BackstopLeavesItsErrorBehind()
    ensures
      var left := LeftBy(Through(Started(Cell(false, false, None, false)), [Throws(7, false)]));
      Ending(Through(Started(left), [BodyFinishes(Finished(0))])) == Failed(7)
  {
    var steps, next := [Throws(7, false)], [BodyFinishes(Finished(0))];
    assert steps[..0] == [] && next[..0] == [];
  }
}
