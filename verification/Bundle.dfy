/** How a records-and-lease bundle is activated: a fresh directory is filled file by file, a link
    `.current.next` to it is made, and the link is renamed to `current`. Any number of publishes
    may be under way, fail at any operation, or die between any two. */
module Bundle {
  import opened Options

  type Name = nat

  datatype Job = Job(records: string, lease: string)

  /** A bundle directory: each file by its temporary and its final name. */
  datatype Dir = Dir(zoneTmp: Option<string>, zone: Option<string>, leaseTmp: Option<string>, lease: Option<string>)

  datatype Phase =
    | Made | ZoneOpen | ZoneDone | LeaseOpen | LeaseDone | Linked | Activated
    | Failing | Cleaned | Crashed

  /** The records directory and the publishes made in it. */
  datatype Sys = Sys(dirs: map<Name, Dir>, next: Option<Name>, current: Option<Name>,
                     jobs: map<Name, Job>, phase: map<Name, Phase>)

  const INIT := Sys(map[], None, None, map[], map[])

  datatype Entry = ZoneTmp | ZoneFile | LeaseTmp | LeaseFile

  datatype Step =
    | Begin(n: Name, job: Job)
    | WriteZone(n: Name, length: nat)
    | RenameZone(n: Name)
    | WriteLease(n: Name, length: nat)
    | RenameLease(n: Name)
    | Link(n: Name)
    | Activate(n: Name)
    | Fail(n: Name)
    | RemoveEntry(n: Name, entry: Entry)
    | RemoveDir(n: Name)
    | Crash(n: Name)
    | Withdraw

  function LeaseText(job: Job): string {
    job.lease + "\n"
  }

  function Prefix(s: string, length: nat): string {
    if length < |s| then s[..length] else s
  }

  predicate At(s: Sys, n: Name, p: Phase) {
    n in s.phase && s.phase[n] == p && n in s.jobs
  }

  predicate Over(p: Phase) {
    p.Activated? || p.Cleaned? || p.Crashed?
  }

  function Without(d: Dir, e: Entry): Dir {
    match e
    case ZoneTmp => d.(zoneTmp := None)
    case ZoneFile => d.(zone := None)
    case LeaseTmp => d.(leaseTmp := None)
    case LeaseFile => d.(lease := None)
  }

  /** One operation on the directory; what is not possible changes nothing. */
  function Apply(s: Sys, step: Step): Sys {
    match step
    case Begin(n, job) =>
      if n in s.phase || n in s.dirs then s
      else s.(dirs := s.dirs[n := Dir(None, None, None, None)], jobs := s.jobs[n := job], phase := s.phase[n := Made])
    case WriteZone(n, length) =>
      if (At(s, n, Made) || At(s, n, ZoneOpen)) && n in s.dirs then
        s.(dirs := s.dirs[n := s.dirs[n].(zoneTmp := Some(Prefix(s.jobs[n].records, length)))],
           phase := s.phase[n := ZoneOpen])
      else s
    case RenameZone(n) =>
      if At(s, n, ZoneOpen) && n in s.dirs && s.dirs[n].zoneTmp == Some(s.jobs[n].records) then
        s.(dirs := s.dirs[n := s.dirs[n].(zoneTmp := None, zone := s.dirs[n].zoneTmp)], phase := s.phase[n := ZoneDone])
      else s
    case WriteLease(n, length) =>
      if (At(s, n, ZoneDone) || At(s, n, LeaseOpen)) && n in s.dirs then
        s.(dirs := s.dirs[n := s.dirs[n].(leaseTmp := Some(Prefix(LeaseText(s.jobs[n]), length)))],
           phase := s.phase[n := LeaseOpen])
      else s
    case RenameLease(n) =>
      if At(s, n, LeaseOpen) && n in s.dirs && s.dirs[n].leaseTmp == Some(LeaseText(s.jobs[n])) then
        s.(dirs := s.dirs[n := s.dirs[n].(leaseTmp := None, lease := s.dirs[n].leaseTmp)],
           phase := s.phase[n := LeaseDone])
      else s
    case Link(n) =>
      if !At(s, n, LeaseDone) then s
      else if s.next.Some? then s.(phase := s.phase[n := Failing])
      else s.(next := Some(n), phase := s.phase[n := Linked])
    case Activate(n) =>
      if !At(s, n, Linked) then s
      else if s.next.None? then s.(phase := s.phase[n := Failing])
      else s.(current := s.next, next := None, phase := s.phase[n := Activated])
    case Fail(n) =>
      if n in s.phase && !Over(s.phase[n]) then s.(phase := s.phase[n := Failing]) else s
    case RemoveEntry(n, entry) =>
      if At(s, n, Failing) && n in s.dirs then s.(dirs := s.dirs[n := Without(s.dirs[n], entry)]) else s
    case RemoveDir(n) =>
      if At(s, n, Failing) then s.(dirs := s.dirs - {n}, phase := s.phase[n := Cleaned]) else s
    case Crash(n) =>
      if n in s.phase && !Over(s.phase[n]) then s.(phase := s.phase[n := Crashed]) else s
    case Withdraw => s.(current := None)
  }

  /** A text is not there at once: any part of it may be in its file. */
  lemma WritesArePartial(s: Sys, n: Name, length: nat)
    requires n in s.dirs && n in s.jobs && n in s.phase
    ensures s.phase[n].Made? && length <= |s.jobs[n].records| ==>
              Apply(s, WriteZone(n, length)).dirs ==
                s.dirs[n := s.dirs[n].(zoneTmp := Some(s.jobs[n].records[..length]))]
    ensures s.phase[n].ZoneDone? && length <= |LeaseText(s.jobs[n])| ==>
              Apply(s, WriteLease(n, length)).dirs ==
                s.dirs[n := s.dirs[n].(leaseTmp := Some(LeaseText(s.jobs[n])[..length]))]
  {
    var zone, lease := s.jobs[n].records, LeaseText(s.jobs[n]);
    assert zone[..|zone|] == zone && lease[..|lease|] == lease;
  }

  function Run(s: Sys, steps: seq<Step>): Sys {
    if steps == [] then s else Apply(Run(s, steps[..|steps| - 1]), steps[|steps| - 1])
  }

  // ---------- Invariant ----------

  predicate ZoneWritten(s: Sys, n: Name) {
    n in s.dirs && n in s.jobs && s.dirs[n].zone == Some(s.jobs[n].records)
  }

  /** The bundle holds the whole zone and the whole lease of one publish. */
  predicate Complete(s: Sys, n: Name) {
    ZoneWritten(s, n) && s.dirs[n].lease == Some(LeaseText(s.jobs[n]))
  }

  predicate Abandoned(p: Phase) {
    p.Failing? || p.Cleaned? || p.Crashed?
  }

  ghost predicate Inv(s: Sys) {
    && s.phase.Keys == s.jobs.Keys
    && (forall n :: n in s.phase && (s.phase[n].ZoneDone? || s.phase[n].LeaseOpen?) ==> ZoneWritten(s, n))
    && (forall n :: n in s.phase && (s.phase[n].LeaseDone? || s.phase[n].Linked? || s.phase[n].Activated?) ==>
          Complete(s, n))
    && (forall n :: n in s.phase && s.phase[n].Linked? ==> s.next == Some(n))
    && (s.next.Some? ==> s.next.value in s.phase && (s.phase[s.next.value].Linked? || Abandoned(s.phase[s.next.value])))
    && (s.current.Some? ==> s.current.value in s.phase && s.phase[s.current.value].Activated?)
  }

  lemma ZoneStepInv(s: Sys, step: Step)
    requires Inv(s) && (step.Begin? || step.WriteZone? || step.RenameZone?)
    ensures Inv(Apply(s, step))
  {
  }

  lemma LeaseStepInv(s: Sys, step: Step)
    requires Inv(s) && (step.WriteLease? || step.RenameLease?)
    ensures Inv(Apply(s, step))
  {
  }

  lemma LinkStepInv(s: Sys, step: Step)
    requires Inv(s) && (step.Link? || step.Activate? || step.Withdraw?)
    ensures Inv(Apply(s, step))
  {
  }

  lemma FailureStepInv(s: Sys, step: Step)
    requires Inv(s) && (step.Fail? || step.RemoveEntry?)
    ensures Inv(Apply(s, step))
  {
  }

  lemma EndStepInv(s: Sys, step: Step)
    requires Inv(s) && (step.RemoveDir? || step.Crash?)
    ensures Inv(Apply(s, step))
  {
  }

  lemma StepInv(s: Sys, step: Step)
    requires Inv(s)
    ensures Inv(Apply(s, step))
  {
    hide Inv, Apply;
    match step {
      case Begin(_, _) => ZoneStepInv(s, step);
      case WriteZone(_, _) => ZoneStepInv(s, step);
      case RenameZone(_) => ZoneStepInv(s, step);
      case WriteLease(_, _) => LeaseStepInv(s, step);
      case RenameLease(_) => LeaseStepInv(s, step);
      case Link(_) => LinkStepInv(s, step);
      case Activate(_) => LinkStepInv(s, step);
      case Withdraw => LinkStepInv(s, step);
      case Fail(_) => FailureStepInv(s, step);
      case RemoveEntry(_, _) => FailureStepInv(s, step);
      case _ => EndStepInv(s, step);
    }
  }

  lemma {:induction false} RunInv(s: Sys, steps: seq<Step>)
    requires Inv(s)
    ensures Inv(Run(s, steps))
  {
    if steps != [] {
      RunInv(s, steps[..|steps| - 1]);
      StepInv(Run(s, steps[..|steps| - 1]), steps[|steps| - 1]);
    }
  }

  // ---------- What resolvers see ----------

  /** Atomic activation: at every step of every run, `current`, if it exists, names a bundle with
      the whole zone and the whole lease of one publish. */
  lemma AtomicActivation(steps: seq<Step>)
    ensures var s := Run(INIT, steps);
            s.current.Some? ==> s.current.value in s.jobs && Complete(s, s.current.value)
  {
    RunInv(INIT, steps);
  }

  lemma StepKeepsActivated(s: Sys, step: Step, n: Name)
    requires Inv(s) && At(s, n, Activated)
    ensures var s' := Apply(s, step);
            At(s', n, Activated) && s'.jobs[n] == s.jobs[n] && n in s'.dirs && s'.dirs[n] == s.dirs[n]
  {
  }

  lemma {:induction false} ActivatedNeverDeleted(s: Sys, more: seq<Step>, n: Name)
    requires Inv(s) && At(s, n, Activated)
    ensures var s' := Run(s, more);
            At(s', n, Activated) && s'.jobs[n] == s.jobs[n] && n in s'.dirs && s'.dirs[n] == s.dirs[n]
  {
    if more != [] {
      var rest := more[..|more| - 1];
      ActivatedNeverDeleted(s, rest, n);
      RunInv(s, rest);
      StepKeepsActivated(Run(s, rest), more[|more| - 1], n);
    }
  }

  /** A link left by a publish that failed or died. */
  predicate Leftover(s: Sys) {
    s.next.Some? && s.next.value in s.phase && Abandoned(s.phase[s.next.value])
  }

  lemma StepKeepsLeftover(s: Sys, step: Step)
    requires Inv(s) && Leftover(s)
    ensures var s' := Apply(s, step);
            && Leftover(s') && s'.next == s.next
            && (s'.current == s.current || s'.current == None)
            && (forall n :: At(s', n, Activated) ==> At(s, n, Activated))
  {
  }

  /** A leftover link stays for ever and is never renamed into place: from then on no publish
      takes effect, and `current` is what it was or withdrawn. */
  lemma {:induction false} LeftoverBlocks(s: Sys, more: seq<Step>)
    requires Inv(s) && Leftover(s)
    ensures var s' := Run(s, more);
            && Leftover(s') && s'.next == s.next
            && (s'.current == s.current || s'.current == None)
            && (forall n :: At(s', n, Activated) ==> At(s, n, Activated))
  {
    if more != [] {
      var rest := more[..|more| - 1];
      LeftoverBlocks(s, rest);
      RunInv(s, rest);
      StepKeepsLeftover(Run(s, rest), more[|more| - 1]);
    }
  }

  // ---------- One publish ----------

  lemma RunAppend(s: Sys, steps: seq<Step>, step: Step)
    ensures Run(s, steps + [step]) == Apply(Run(s, steps), step)
  {
    assert (steps + [step])[..|steps|] == steps;
  }

  /** The operations of one publish, in order. */
  function Operation(n: Name, job: Job, i: nat): Step
    requires i < 6
  {
    match i
    case 0 => WriteZone(n, |job.records|)
    case 1 => RenameZone(n)
    case 2 => WriteLease(n, |LeaseText(job)|)
    case 3 => RenameLease(n)
    case 4 => Link(n)
    case _ => Activate(n)
  }

  function DirAfter(job: Job, i: nat): Dir {
    Dir(if i == 1 then Some(job.records) else None, if i >= 2 then Some(job.records) else None,
        if i == 3 then Some(LeaseText(job)) else None, if i >= 4 then Some(LeaseText(job)) else None)
  }

  /** Where a publish from `s` alone has got after its first `i` operations. */
  function Reached(s: Sys, n: Name, job: Job, i: nat): Sys
    requires i <= 6
  {
    Sys(s.dirs[n := DirAfter(job, i)],
        if i == 5 then Some(n) else if i == 6 then None else s.next,
        if i == 6 then Some(n) else s.current,
        s.jobs[n := job],
        s.phase[n := [Made, ZoneOpen, ZoneDone, LeaseOpen, LeaseDone, Linked, Activated][i]])
  }

  function Failed(s: Sys, n: Name): Sys {
    s.(phase := s.phase[n := Failing])
  }

  /** Each operation gets one further, except linking past a leftover link. */
  lemma ReachesNext(s: Sys, n: Name, job: Job, i: nat)
    requires i < 6 && (i == 5 ==> s.next.None?)
    ensures Apply(Reached(s, n, job, i), Operation(n, job, i)) ==
            if i == 4 && s.next.Some? then Failed(Reached(s, n, job, i), n) else Reached(s, n, job, i + 1)
  {
    var r, r' := Reached(s, n, job, i), Reached(s, n, job, i + 1);
    var d, p := DirAfter(job, i + 1), r'.phase[n];
    assert r.dirs[n := d] == s.dirs[n := d];
    assert r.phase[n := p] == s.phase[n := p];
  }

  lemma FaultFails(s: Sys, n: Name, job: Job, i: nat)
    requires i < 6
    ensures Apply(Reached(s, n, job, i), Fail(n)) == Failed(Reached(s, n, job, i), n)
    ensures n in Reached(s, n, job, i + 1).phase && Reached(s, n, job, i + 1).phase[n] != Failing
  {
  }

  lemma CleanedUp(s: Sys, n: Name, job: Job, i: nat)
    requires i < 6 && n !in s.dirs
    ensures var s' := Apply(Failed(Reached(s, n, job, i), n), RemoveDir(n));
            s'.current == s.current && s'.dirs == s.dirs && s'.next == if i == 5 then Some(n) else s.next
  {
    assert s.dirs[n := DirAfter(job, i)] - {n} == s.dirs;
  }

  class Directory {
    var sys: Sys

    constructor ()
      ensures sys == INIT
    {
      sys := INIT;
    }

    method Do(step: Step, ghost trace: seq<Step>, ghost start: Sys) returns (ghost trace': seq<Step>)
      requires sys == Run(start, trace)
      modifies this
      ensures sys == Apply(old(sys), step)
      ensures trace' == trace + [step] && sys == Run(start, trace')
    {
      RunAppend(start, trace, step);
      sys := Apply(sys, step);
      trace' := trace + [step];
    }

    /** One publish under a fresh name with no other going on. Operation number `fault`, if there
        is one, fails; the bundle is then removed. It takes effect exactly when nothing fails and
        no link was left behind, and otherwise resolvers see what they saw. A failed rename leaves
        the link behind. */
    method Publish(n: Name, job: Job, fault: nat) returns (ok: bool, ghost trace: seq<Step>)
      requires Inv(sys) && n !in sys.phase && n !in sys.dirs
      modifies this
      ensures Inv(sys) && sys == Run(old(sys), trace)
      ensures ok <==> fault >= 6 && old(sys).next.None?
      ensures ok ==> sys == Reached(old(sys), n, job, 6)
      ensures ok ==> sys.current == Some(n) && n in sys.dirs
      ensures ok ==> sys.dirs[n] == Dir(None, Some(job.records), None, Some(job.lease + "\n"))
      ensures !ok ==> sys.current == old(sys).current && sys.dirs == old(sys).dirs
      ensures !ok ==> sys.next == if fault == 5 && old(sys).next.None? then Some(n) else old(sys).next
    {
      ghost var start := sys;
      trace := Do(Begin(n, job), [], start);
      assert sys == Reached(start, n, job, 0);
      var failed := false;
      var i := 0;
      hide Apply, Reached, Failed, Inv, Operation;
      while i < 6 && !failed
        invariant 0 <= i <= 6
        invariant sys == Run(start, trace)
        invariant !failed ==> i <= fault && (i >= 5 ==> start.next.None?) && sys == Reached(start, n, job, i)
        invariant failed ==> i < 6 && sys == Failed(Reached(start, n, job, i), n)
        invariant failed ==> (i == fault && (i >= 5 ==> start.next.None?)) || (i == 4 && start.next.Some?)
        decreases 6 - i, !failed
      {
        FaultFails(start, n, job, i);
        if i == fault {
          trace := Do(Fail(n), trace, start);
          failed := true;
        } else {
          ReachesNext(start, n, job, i);
          failed := i == 4 && sys.next.Some?;
          trace := Do(Operation(n, job, i), trace, start);
          i := if failed then i else i + 1;
        }
      }
      RunInv(start, trace);
      ok := !failed;
      if failed {
        trace := Do(RemoveDir(n), trace, start);
        CleanedUp(start, n, job, i);
        RunInv(start, trace);
      }
    }
  }
}
