/** The deadlines armed in one realm: a list of budgets and the cached earliest one its interrupt handler reads. */
module Deadlines {
  import opened Prelude

  type U64 = n: nat | n <= U64_MAX

  /** The cached minimum when nothing is armed. */
  const DISARMED: U64 := U64_MAX

  /** The host's own slot. */
  const HOST: nat := 0

  /** A budget: when it ends, and how long the clock had been parked when it was armed. */
  datatype Armed = Armed(token: nat, deadline: U64, parkedAtArm: U64)

  function Saturated(n: nat): U64 {
    if n < U64_MAX then n else U64_MAX
  }

  /** A deadline no later than the last one that can be told from `DISARMED`. */
  function Clamped(deadline: nat): U64 {
    if deadline < DISARMED - 1 then deadline else DISARMED - 1
  }

  function Without(armed: seq<Armed>, token: nat): (kept: seq<Armed>)
    ensures forall e :: e in kept <==> e in armed && e.token != token
    ensures |kept| <= |armed|
  {
    if armed == [] then []
    else (if armed[0].token == token then [] else [armed[0]]) + Without(armed[1..], token)
  }

  ghost predicate Distinct(armed: seq<Armed>) {
    forall i, j :: 0 <= i < j < |armed| ==> armed[i].token != armed[j].token
  }

  /** `earliest` is the least deadline armed, or `DISARMED`. */
  ghost predicate IsEarliest(armed: seq<Armed>, earliest: U64) {
    && (forall e :: e in armed ==> earliest <= e.deadline)
    && (if armed == [] then earliest == DISARMED else exists e :: e in armed && e.deadline == earliest)
  }

  /** The budget is used up: it gets back every millisecond spent parked since it was armed. */
  predicate Due(e: Armed, elapsed: nat, parked: U64) {
    elapsed >= e.deadline + (if parked > e.parkedAtArm then parked - e.parkedAtArm else 0)
  }

  ghost predicate SomeDue(armed: seq<Armed>, elapsed: nat, parked: U64) {
    exists e :: e in armed && Due(e, elapsed, parked)
  }

  class TimeoutState {
    var armed: seq<Armed>
    var earliest: U64
    var nextToken: nat
    var timedOut: bool
    var cancelled: bool
    const neverParks: bool

    ghost predicate Valid()
      reads this
    {
      && Distinct(armed) && IsEarliest(armed, earliest) && HOST < nextToken
      && forall e :: e in armed ==> e.token < nextToken && e.deadline < DISARMED && (neverParks ==> e.parkedAtArm == 0)
    }

    constructor (neverParks: bool)
      ensures Valid() && armed == [] && !timedOut && !cancelled && this.neverParks == neverParks
    {
      this.neverParks := neverParks;
      armed, earliest, nextToken, timedOut, cancelled := [], DISARMED, HOST + 1, false, false;
    }

    /** The clock's reading, which is never taken when the clock cannot park. */
    function Parked(reading: U64): U64 {
      if neverParks then 0 else reading
    }

    method Recompute()
      modifies this`earliest
      ensures IsEarliest(armed, earliest)
    {
      var least: U64 := DISARMED;
      for i := 0 to |armed|
        invariant forall k :: 0 <= k < i ==> least <= armed[k].deadline
        invariant least == DISARMED || exists k :: 0 <= k < i && armed[k].deadline == least
        invariant least == DISARMED ==> forall k :: 0 <= k < i ==> armed[k].deadline == DISARMED
      {
        if armed[i].deadline < least {
          least := armed[i].deadline;
        }
      }
      earliest := least;
      if armed != [] && least == DISARMED {
        assert armed[0] in armed;
      }
    }

    method Retain(token: nat)
      modifies this`armed
      ensures armed == Without(old(armed), token)
    {
      var kept := [];
      for i := 0 to |armed|
        invariant armed == old(armed)
        invariant kept + Without(armed[i..], token) == Without(armed, token)
      {
        assert armed[i..][1..] == armed[i + 1..];
        KeepingOne(kept, armed[i], Without(armed[i + 1..], token));
        if armed[i].token != token {
          kept := kept + [armed[i]];
        }
      }
      armed := kept;
    }

    method Arm(deadline: nat, reading: U64) returns (token: nat)
      requires Valid()
      modifies this
      ensures Valid() && timedOut == old(timedOut) && cancelled == old(cancelled)
      ensures token == old(nextToken) && nextToken == token + 1
      ensures armed == old(armed) + [Armed(token, Clamped(deadline), Parked(reading))]
    {
      token := nextToken;
      nextToken := nextToken + 1;
      armed := armed + [Armed(token, Clamped(deadline), Parked(reading))];
      Recompute();
    }

    method Disarm(token: nat)
      requires Valid()
      modifies this
      ensures Valid() && timedOut == old(timedOut) && cancelled == old(cancelled) && nextToken == old(nextToken)
      ensures armed == Without(old(armed), token)
    {
      WithoutIsDistinct(armed, token);
      Retain(token);
      Recompute();
    }

    /** The host's slot is armed once, however often it is armed again. */
    method ArmHost(deadline: nat, reading: U64)
      requires Valid()
      modifies this
      ensures Valid() && timedOut == old(timedOut) && cancelled == old(cancelled) && nextToken == old(nextToken)
      ensures armed == Without(old(armed), HOST) + [Armed(HOST, Clamped(deadline), Parked(reading))]
    {
      WithoutIsDistinct(armed, HOST);
      Retain(HOST);
      armed := armed + [Armed(HOST, Clamped(deadline), Parked(reading))];
      Recompute();
    }

    method DisarmHost()
      requires Valid()
      modifies this
      ensures Valid() && timedOut == old(timedOut) && cancelled == old(cancelled) && nextToken == old(nextToken)
      ensures armed == Without(old(armed), HOST)
    {
      Disarm(HOST);
    }

    /**
     * What the interrupt handler asks. `elapsed` is the time since the epoch, saturated to 64 bits; `reading` is the
     * parked clock's. The answer is exact as long as the time since the epoch fits: from then on, anything armed is
     * due.
     */
    method Expired(elapsed: nat, reading: U64) returns (due: bool)
      requires Valid()
      ensures elapsed < U64_MAX ==> (due <==> cancelled || SomeDue(armed, elapsed, Parked(reading)))
      ensures elapsed >= U64_MAX ==> (due <==> cancelled || armed != [])
    {
      if cancelled {
        return true;
      }
      if earliest == DISARMED {
        CacheTellsNothingArmed(armed, earliest);
        return false;
      }
      var now := Saturated(elapsed);
      if now < earliest {
        NothingDueBefore(armed, earliest, elapsed, Parked(reading));
        return false;
      }
      if neverParks {
        EarliestIsDue(armed, earliest, elapsed);
        return true;
      }
      due := false;
      for i := 0 to |armed|
        invariant !due
        invariant forall k :: 0 <= k < i ==> !Due(armed[k], elapsed, reading)
        invariant elapsed >= U64_MAX ==> i == 0
      {
        var parked := if reading > armed[i].parkedAtArm then reading - armed[i].parkedAtArm else 0;
        if now >= Saturated(armed[i].deadline + parked) {
          assert armed[i] in armed;
          return true;
        }
      }
    }

    /** The handler itself: the flag it sets is never cleared. */
    method Interrupt(elapsed: nat, reading: U64) returns (halt: bool)
      requires Valid()
      modifies this`timedOut
      ensures Valid() && timedOut == (old(timedOut) || halt)
      ensures elapsed < U64_MAX ==> (halt <==> cancelled || SomeDue(armed, elapsed, Parked(reading)))
      ensures elapsed >= U64_MAX ==> (halt <==> cancelled || armed != [])
    {
      halt := Expired(elapsed, reading);
      if halt {
        timedOut := true;
      }
    }
  }

  lemma {:induction false} WithoutIsDistinct(armed: seq<Armed>, token: nat)
    requires Distinct(armed)
    ensures Distinct(Without(armed, token))
  {
    if armed != [] {
      WithoutIsDistinct(armed[1..], token);
      var rest := Without(armed[1..], token);
      forall e | e in rest ensures e.token != armed[0].token {
        var k :| 0 <= k < |armed[1..]| && armed[1..][k] == e;
        assert armed[k + 1] == e;
      }
    }
  }

  /** The cache says `DISARMED` exactly when nothing is armed: no deadline is ever that late. */
  lemma CacheTellsNothingArmed(armed: seq<Armed>, earliest: U64)
    requires IsEarliest(armed, earliest) && forall e :: e in armed ==> e.deadline < DISARMED
    ensures earliest == DISARMED <==> armed == []
  {
    if armed != [] {
      assert armed[0] in armed;
    }
  }

  /** Parked time only moves a deadline later, so nothing is due before the earliest. */
  lemma NothingDueBefore(armed: seq<Armed>, earliest: U64, elapsed: nat, parked: U64)
    requires IsEarliest(armed, earliest) && Saturated(elapsed) < earliest
    ensures !SomeDue(armed, elapsed, parked) && elapsed < U64_MAX
  {
  }

  /** With a clock that never parks the cached minimum is the whole answer. */
  lemma EarliestIsDue(armed: seq<Armed>, earliest: U64, elapsed: nat)
    requires IsEarliest(armed, earliest) && earliest != DISARMED && Saturated(elapsed) >= earliest
    ensures SomeDue(armed, elapsed, 0) && armed != []
  {
    var e :| e in armed && e.deadline == earliest;
    assert Due(e, elapsed, 0);
  }

  /** Past 64 bits the answer can come early: this budget has a millisecond left. */
  lemma SaturationAnswersEarly()
    ensures exists e: Armed, elapsed: nat, parked: U64 ::
      elapsed >= U64_MAX && e.deadline < DISARMED && !SomeDue([e], elapsed, parked)
  {
    var e := Armed(1, DISARMED - 1, 0);
    assert !Due(e, U64_MAX, 2);
    assert !SomeDue([e], U64_MAX, 2);
  }

  /**
   * A budget that `Arm` adds is used up once its deadline has passed, and what was spent parked since; a deadline past
   * 2^64 - 2 counts as that one.
   */
  lemma ArmedIsDueAtItsDeadline(token: nat, deadline: nat, parkedAtArm: U64, elapsed: nat, parked: U64)
    ensures
      var e := Armed(token, Clamped(deadline), parkedAtArm);
      && (deadline <= 0xFFFF_FFFF_FFFF_FFFE && parked <= parkedAtArm ==>
        (Due(e, elapsed, parked) <==> elapsed >= deadline))
      && (deadline <= 0xFFFF_FFFF_FFFF_FFFE && parked > parkedAtArm ==>
            (Due(e, elapsed, parked) <==> elapsed + parkedAtArm >= deadline + parked))
      && (deadline > 0xFFFF_FFFF_FFFF_FFFE ==>
            (Due(e, elapsed, parked) <==> Due(Armed(token, 0xFFFF_FFFF_FFFF_FFFE, parkedAtArm), elapsed, parked)))
  {
  }
}
