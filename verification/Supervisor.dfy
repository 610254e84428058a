/** The supervisor inside the resolver: it reads the published lease, runs CoreDNS while a lease
    is valid, and sleeps until the next check. Time is in nanoseconds. */
module Supervisor {
  import opened Lease
  import opened Options

  const SECOND: int := 1_000_000_000

  function NextCheckAfter(held: Option<Lease>, at: int): int {
    if held.None? || held.value.validUntil.None? then SECOND
    else
      var remaining := held.value.validUntil.value - at;
      if 0 < remaining < SECOND then remaining else SECOND
  }

  datatype State = State(lease: Option<Lease>, running: bool)

  /** One check at `now`: the lease file as it could be read, and whether CoreDNS would start. */
  function Check(me: Self, s: State, file: Option<Lease>, starts: bool, now: int): State {
    var lease := if file.None? then s.lease else GoAccept(me, s.lease, Offer(file.value, now)).0;
    State(lease, Active(lease, now) && (s.running || starts))
  }

  // ---------- The supervisor as it runs ----------

  class Process {
    const me: Self
    var lease: Option<Lease>
    var running: bool

    function Now(): State
      reads this
    {
      State(lease, running)
    }

    constructor (me: Self)
      ensures this.me == me && Now() == State(None, false)
    {
      this.me := me;
      lease, running := None, false;
    }

    method Accept(candidate: Lease, now: int) returns (ok: bool)
      modifies this`lease
      ensures (lease, ok) == GoAccept(me, old(lease), Offer(candidate, now))
    {
      if candidate.validUntil.None? || candidate.schemaVersion != 1 || candidate.stackId != me.stackId
         || !Matches(me.generation, candidate.generation) || candidate.validUntil.value <= now {
        return false;
      }
      if lease.Some? && candidate.sequence < lease.value.sequence {
        return false;
      }
      if lease.None? || candidate.sequence > lease.value.sequence {
        lease := Some(candidate);
      }
      return true;
    }

    method Reconcile(file: Option<Lease>, starts: bool, now: int)
      modifies this
      ensures Now() == Check(me, old(Now()), file, starts, now)
    {
      if file.Some? {
        var ok := Accept(file.value, now);
      }
      if !Active(lease, now) {
        running := false;
        return;
      }
      if !running {
        running := starts;
      }
    }

    /** CoreDNS going away on its own. */
    method ChildExited()
      modifies this`running
      ensures !running
    {
      running := false;
    }

    method Health(now: int) returns (healthy: bool)
      ensures healthy <==> Active(lease, now) && running
    {
      healthy := Active(lease, now) && running;
    }

    method NextCheck(now: int) returns (delay: int)
      ensures delay == NextCheckAfter(lease, now)
      ensures 0 < delay <= SECOND
    {
      if lease.None? || lease.value.validUntil.None? {
        return SECOND;
      }
      var remaining := lease.value.validUntil.value - now;
      if remaining > 0 && remaining < SECOND {
        return remaining;
      }
      return SECOND;
    }
  }

  // ---------- Runs of check and sleep ----------

  /** A turn of the loop: the check reads the clock at `now`, the scheduling reads it at
      `scheduled`, and CoreDNS may exit by itself in between or while asleep. */
  datatype Turn = Turn(now: int, file: Option<Lease>, starts: bool, scheduled: int, exits: bool)

  function After(me: Self, turns: seq<Turn>): State {
    if turns == [] then State(None, false)
    else
      var s := After(me, turns[..|turns| - 1]);
      var t := turns[|turns| - 1];
      Check(me, if t.exits then s.(running := false) else s, t.file, t.starts, t.now)
  }

  function Wake(me: Self, turns: seq<Turn>): int
    requires turns != []
  {
    var t := turns[|turns| - 1];
    t.scheduled + NextCheckAfter(After(me, turns).lease, t.scheduled)
  }

  /** Scheduling reads the clock at most `e` after the check did, and the loop then sleeps for what it
      was told, or at most `d` longer. */
  ghost predicate Paced(me: Self, turns: seq<Turn>, e: nat, d: nat) {
    && (forall i :: 0 <= i < |turns| ==> turns[i].now <= turns[i].scheduled <= turns[i].now + e)
    && (forall i :: 0 < i < |turns| ==> Wake(me, turns[..i]) <= turns[i].now <= Wake(me, turns[..i]) + d)
  }

  /** The next check has not come yet. */
  predicate Waiting(me: Self, turns: seq<Turn>, i: nat, t: int, d: nat)
    requires i < |turns|
  {
    turns[i].now <= t && if i + 1 < |turns| then t < turns[i + 1].now else t < Wake(me, turns[..i + 1]) + d
  }

  function Offers(turns: seq<Turn>): seq<Offer> {
    if turns == [] then []
    else
      var t := turns[|turns| - 1];
      Offers(turns[..|turns| - 1]) + if t.file.Some? then [Offer(t.file.value, t.now)] else []
  }

  /** The loop holds what its history of readable leases says. */
  lemma {:induction false} LoopHolds(me: Self, turns: seq<Turn>)
    ensures After(me, turns).lease == GoHeld(me, Offers(turns))
  {
    if turns != [] {
      var rest, t := turns[..|turns| - 1], turns[|turns| - 1];
      LoopHolds(me, rest);
      var all := Offers(turns);
      if t.file.Some? {
        assert all[..|all| - 1] == Offers(rest);
      } else {
        assert all == Offers(rest);
      }
    }
  }

  /** When CoreDNS runs: after any turns, exactly if the lease held from their history is valid at the
      last check, and it could be started there or still ran from the turn before. */
  lemma RunsExactly(me: Self, turns: seq<Turn>)
    requires turns != []
    ensures var rest, t := turns[..|turns| - 1], turns[|turns| - 1];
            var held := GoHeld(me, Offers(turns));
            After(me, turns).running <==>
              && held.Some? && held.value.validUntil.Some? && t.now < held.value.validUntil.value
              && (t.starts || (After(me, rest).running && !t.exits))
  {
    LoopHolds(me, turns);
  }

  /** After a check that leaves CoreDNS running, the next check comes no later than the held
      lease's end if scheduling reads the same instant, and within a second of the reading if not; it
      comes after a second, or at that end. */
  lemma NextCheckInTime(me: Self, s: State, file: Option<Lease>, starts: bool, now: int, scheduled: int, e: nat)
    requires now <= scheduled <= now + e
    requires Check(me, s, file, starts, now).running
    ensures var lease := Check(me, s, file, starts, now).lease;
            var wake := scheduled + NextCheckAfter(lease, scheduled);
            && Active(lease, now)
            && (scheduled < lease.value.validUntil.value ==> wake <= lease.value.validUntil.value)
            && wake < lease.value.validUntil.value + SECOND + e + (if e == 0 then 1 - SECOND else 0)
            && (wake == scheduled + SECOND || wake == lease.value.validUntil.value)
  {
  }

  /** Timed fail-closed: in every run, at any instant between a check and the next, CoreDNS runs
      only before the held lease's end plus the oversleep, and with a reading gap a second and the gap
      more, whichever lease is held by then; so with neither, only before its end. */
  lemma FailsClosed(me: Self, turns: seq<Turn>, e: nat, d: nat, i: nat, t: int)
    requires Paced(me, turns, e, d) && i < |turns| && Waiting(me, turns, i, t, d)
    requires After(me, turns[..i + 1]).running
    ensures var lease := After(me, turns[..i + 1]).lease;
            && lease.Some? && lease.value.validUntil.Some?
            && t < lease.value.validUntil.value + d + (if e == 0 then 0 else SECOND + e)
            && lease == GoHeld(me, Offers(turns[..i + 1]))
  {
    var prefix := turns[..i + 1];
    var turn, rest := prefix[i], prefix[..i];
    var s := After(me, rest);
    var before := if turn.exits then s.(running := false) else s;
    NextCheckInTime(me, before, turn.file, turn.starts, turn.now, turn.scheduled, e);
    LoopHolds(me, prefix);
  }

  /** The loop always comes back, within a second of scheduling and the oversleep, and each check leaves
      CoreDNS running only under a lease valid at that check: it stops at the first check after the end. */
  lemma LoopComesBack(me: Self, turns: seq<Turn>, e: nat, d: nat, i: nat)
    requires Paced(me, turns, e, d) && i < |turns|
    ensures turns[i].now < Wake(me, turns[..i + 1]) <= turns[i].now + e + SECOND
    ensures i + 1 < |turns| ==> turns[i].now < turns[i + 1].now <= turns[i].now + e + SECOND + d
    ensures After(me, turns[..i + 1]).running ==> Active(After(me, turns[..i + 1]).lease, turns[i].now)
  {
    assert turns[..i + 1][i] == turns[i];
  }
}
