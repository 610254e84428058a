/** Publishing leases within one resolver generation: a publisher that may die between any two
    actions, the bundle it replaces, the state it commits, and a supervisor that polls. */
module Publisher {
  import opened Lease
  import opened Options

  /** The generation's fixed parts. */
  datatype Setting = Setting(stackId: string, instance: string, hash: string, duration: int) {
    function Generation(): string {
      instance + "." + hash
    }

    function Supervisor(): Self {
      Self(stackId, instance)
    }

    predicate Valid() {
      duration > 0 && AddressHash(hash)
    }
  }

  /** The publisher between its actions: it reads the committed lease, then replaces the bundle,
      then commits what it published. */
  datatype Pc = Idle | Prepared(lease: Lease) | Published(lease: Lease)

  /** `novel` says that no earlier bundle of the run had the current bundle's sequence; `repeats`
      counts the publishes that had one, `crashes` the deaths between publishing and committing. */
  datatype Sys = Sys(now: int, committed: Option<Lease>, bundle: Option<Lease>, held: Option<Lease>, pc: Pc,
                     novel: bool, repeats: nat, crashes: nat)

  datatype Step = Begin | Publish | Commit | Crash | Poll | Restart | Tick(elapsed: nat)

  function Sequence(l: Option<Lease>): nat {
    if l.None? then 0 else l.value.sequence
  }

  function Next(k: Setting, s: Sys): Lease {
    Following(s.committed, k.stackId, k.Generation(), s.now + k.duration)
  }

  function Apply(k: Setting, s: Sys, step: Step): Sys {
    match step
    case Begin =>
      if s.pc.Idle? && ApplyLease(s.committed, Next(k, s), s.now, k.stackId).Ok?
      then s.(pc := Prepared(Next(k, s))) else s
    case Publish =>
      if s.pc.Prepared? then
        var repeat := Sequence(s.bundle) == s.pc.lease.sequence;
        s.(bundle := Some(s.pc.lease), pc := Published(s.pc.lease), novel := !repeat,
           repeats := if repeat then s.repeats + 1 else s.repeats)
      else s
    case Commit =>
      if s.pc.Published? then s.(committed := Some(s.pc.lease), pc := Idle) else s
    case Crash =>
      s.(pc := Idle, crashes := if s.pc.Published? then s.crashes + 1 else s.crashes)
    case Poll =>
      if s.bundle.None? then s
      else s.(held := GoAccept(k.Supervisor(), s.held, Offer(s.bundle.value, s.now)).0)
    case Restart => s.(held := None)
    case Tick(elapsed) => s.(now := s.now + elapsed)
  }

  /** Nothing of the generation is committed yet; there is no bundle or a bootstrap one. */
  predicate Initial(s: Sys) {
    && s.committed.None? && s.held.None? && s.pc.Idle? && s.novel
    && s.repeats == 0 && s.crashes == 0
    && Sequence(s.bundle) == 0
  }

  function Run(k: Setting, s: Sys, steps: seq<Step>): Sys {
    if steps == [] then s else Apply(k, Run(k, s, steps[..|steps| - 1]), steps[|steps| - 1])
  }

  // ---------- Invariant ----------

  predicate Ours(k: Setting, l: Lease) {
    l.schemaVersion == 1 && l.stackId == k.stackId && l.generation == k.Generation() && l.validUntil.Some?
  }

  predicate Pending(s: Sys) {
    Sequence(s.bundle) == Sequence(s.committed) + 1 && !s.pc.Published?
  }

  ghost predicate Inv(k: Setting, s: Sys) {
    var c, b := Sequence(s.committed), Sequence(s.bundle);
    && (b == c || b == c + 1)
    && (s.committed.Some? ==> Ours(k, s.committed.value))
    && (b > 0 ==> Ours(k, s.bundle.value))
    && (s.pc.Prepared? ==> Ours(k, s.pc.lease) && s.pc.lease.sequence == c + 1)
    && (s.pc.Published? ==> s.bundle == Some(s.pc.lease) && b == c + 1)
    && (s.held.Some? ==> s.bundle.Some? && s.held.value.sequence <= b)
    && (s.held.Some? && s.held.value.sequence == b && s.novel ==> s.held == s.bundle)
    && s.repeats + (if Pending(s) then 1 else 0) <= s.crashes
  }

  lemma StepInv(k: Setting, s: Sys, step: Step)
    requires k.Valid() && Inv(k, s)
    ensures Inv(k, Apply(k, s, step))
  {
  }

  lemma {:induction false} RunInv(k: Setting, s: Sys, steps: seq<Step>)
    requires k.Valid() && Inv(k, s)
    ensures Inv(k, Run(k, s, steps))
  {
    if steps != [] {
      RunInv(k, s, steps[..|steps| - 1]);
      StepInv(k, Run(k, s, steps[..|steps| - 1]), steps[|steps| - 1]);
    }
  }

  // ---------- Safety over every run ----------

  /** In every reachable state the bundle's sequence is the committed one or one more, the
      supervisor's never exceeds it, and there have been no more repeated sequences than deaths
      between publishing and committing. */
  lemma SequencesStayClose(k: Setting, s: Sys, steps: seq<Step>)
    requires k.Valid() && Initial(s)
    ensures var s' := Run(k, s, steps);
            && Sequence(s'.committed) <= Sequence(s'.bundle) <= Sequence(s'.committed) + 1
            && (s'.held.Some? ==> Sequence(s'.held) <= Sequence(s'.bundle))
            && s'.repeats <= s'.crashes
  {
    RunInv(k, s, steps);
  }

  predicate Environment(step: Step) {
    step.Poll? || step.Restart? || step.Tick?
  }

  /** Until the publisher acts again, the supervisor side changes neither bundle nor publisher. */
  lemma {:induction false} EnvironmentKeeps(k: Setting, s: Sys, steps: seq<Step>)
    requires forall i :: 0 <= i < |steps| ==> Environment(steps[i])
    ensures var s' := Run(k, s, steps);
            && s'.bundle == s.bundle && s'.committed == s.committed && s'.pc == s.pc && s'.novel == s.novel
            && s'.now >= s.now
  {
    if steps != [] {
      EnvironmentKeeps(k, s, steps[..|steps| - 1]);
    }
  }

  /** The supervisor's own instance matches every generation built for it. */
  lemma OwnGenerationMatches(k: Setting)
    requires k.Valid()
    ensures Matches(k.instance, k.Generation())
  {
    MatchesIff(k.instance, k.instance, k.hash);
  }

  /** A poll takes a bundle whose sequence no earlier one had, until it ends. */
  lemma PollTakesNovel(k: Setting, s: Sys)
    requires k.Valid() && Inv(k, s) && s.novel && Sequence(s.bundle) > 0
    requires s.now < s.bundle.value.validUntil.value
    ensures Apply(k, s, Poll).held == s.bundle && Active(s.bundle, s.now)
  {
    OwnGenerationMatches(k);
    hide Matches;
  }

  lemma BeginPrepares(k: Setting, s: Sys)
    requires k.Valid() && Inv(k, s) && s.pc.Idle?
    ensures Apply(k, s, Begin) == s.(pc := Prepared(Next(k, s)))
  {
  }

  lemma FreshIsTaken(k: Setting, s: Sys, before: seq<Step>, wait: seq<Step>, more: seq<Step>)
    requires k.Valid() && Initial(s)
    requires forall i :: 0 <= i < |wait| ==> Environment(wait[i])
    requires forall i :: 0 <= i < |more| ==> Environment(more[i])
    requires Run(k, s, before).pc.Idle? && !Pending(Run(k, s, before))
    ensures
      var s1 := Apply(k, Run(k, s, before), Begin);
      var s2 := Run(k, s1, wait);
      var s3 := Apply(k, s2, Publish);
      var s4 := Run(k, s3, more);
      var s5 := Apply(k, s4, Poll);
      && s1.pc == Prepared(Next(k, Run(k, s, before)))
      && (s2.held.Some? ==> s1.pc.lease.sequence > s2.held.value.sequence)
      && s3.bundle == Some(s1.pc.lease)
      && (s4.now < s1.pc.lease.validUntil.value ==> s5.held == Some(s1.pc.lease) && Active(s5.held, s4.now))
  {
    hide Environment, Initial;
    var s0 := Run(k, s, before);
    InitialInv(k, s);
    RunInv(k, s, before);
    var s1 := s0.(pc := Prepared(Next(k, s0)));
    BeginPrepares(k, s0);
    StepInv(k, s0, Begin);
    RunInv(k, s1, wait);
    EnvironmentKeeps(k, s1, wait);
    var s2 := Run(k, s1, wait);
    var s3 := Apply(k, s2, Publish);
    StepInv(k, s2, Publish);
    RunInv(k, s3, more);
    EnvironmentKeeps(k, s3, more);
    var s4 := Run(k, s3, more);
    if s4.now < s1.pc.lease.validUntil.value {
      PollTakesNovel(k, s4);
    }
  }

  lemma NextLasts(k: Setting, s: Sys)
    ensures Next(k, s).sequence == Sequence(s.committed) + 1 && Next(k, s).validUntil == Some(s.now + k.duration)
  {
  }

  /** A publish that starts with no death pending carries a strictly newer lease, which lasts for the
      whole duration from then on, and whatever polls, restarts and waiting come between, a poll before
      its end takes it. */
  lemma FreshPublishIsTaken(k: Setting, s: Sys, before: seq<Step>, wait: seq<Step>, more: seq<Step>)
    requires k.Valid() && Initial(s)
    requires forall i :: 0 <= i < |wait| ==> Environment(wait[i])
    requires forall i :: 0 <= i < |more| ==> Environment(more[i])
    requires Run(k, s, before).pc.Idle? && !Pending(Run(k, s, before))
    ensures
      var s0 := Run(k, s, before);
      var s1 := Apply(k, s0, Begin);
      var s2 := Run(k, s1, wait);
      var s3 := Apply(k, s2, Publish);
      var s4 := Run(k, s3, more);
      var s5 := Apply(k, s4, Poll);
      && s1.pc.Prepared?
      && s1.pc.lease.sequence == Sequence(s0.committed) + 1
      && s1.pc.lease.validUntil == Some(s0.now + k.duration)
      && (s2.held.Some? ==> s1.pc.lease.sequence > s2.held.value.sequence)
      && s3.bundle == Some(s1.pc.lease)
      && (s4.now < s0.now + k.duration ==> s5.held == Some(s1.pc.lease) && Active(s5.held, s4.now))
  {
    hide *;
    FreshIsTaken(k, s, before, wait, more);
    NextLasts(k, Run(k, s, before));
  }

  lemma InitialInv(k: Setting, s: Sys)
    requires Initial(s)
    ensures Inv(k, s)
  {
  }

  /** After a death between publishing and committing, the next publish repeats the sequence: a
      supervisor that took the lost lease keeps it. Once that publish commits, nothing is pending. */
  lemma CrashCostsOneRepeat(k: Setting, s: Sys, before: seq<Step>)
    requires k.Valid() && Initial(s)
    requires Run(k, s, before).pc.Idle? && Pending(Run(k, s, before))
    ensures
      var s0 := Run(k, s, before);
      var s1 := Apply(k, Apply(k, s0, Begin), Publish);
      var s2 := Apply(k, s1, Commit);
      && s1.bundle.value.sequence == Sequence(s0.bundle) && s1.repeats == s0.repeats + 1
      && (s0.held.Some? && Sequence(s0.held) == Sequence(s0.bundle) ==> Apply(k, s1, Poll).held == s0.held)
      && s2.pc.Idle? && !Pending(s2)
  {
    RunInv(k, s, before);
  }

  // ---------- When the resolver changes address ----------

  /** The resolver of the same instance has a new address: nothing is committed for its new
      generation, the bundle and the supervisor are as they were. */
  function Moved(s: Sys): Sys {
    s.(committed := None, pc := Idle)
  }

  /** The supervisor holds the lease of sequence `q` it held at the move, and can take no other,
      until leases up to `q` are committed. */
  ghost predicate Starving(s: Sys, prior: Lease) {
    && (s.pc.Prepared? || s.pc.Published? ==> s.pc.lease.sequence == Sequence(s.committed) + 1)
    && (Sequence(s.committed) < prior.sequence ==> s.held == Some(prior) && Sequence(s.bundle) <= prior.sequence)
  }

  lemma StepStarving(k: Setting, s: Sys, step: Step, prior: Lease)
    requires Starving(s, prior) && !step.Restart?
    ensures Starving(Apply(k, s, step), prior)
    ensures Sequence(s.committed) <= Sequence(Apply(k, s, step).committed)
  {
    hide Matches;
  }

  /** After a move, in any run without a restart of the supervisor, it keeps the lease it held until
      as many leases of the new generation have been committed as that lease's sequence says, even
      after its end and whatever is published. */
  lemma {:induction false} MoveStarves(k: Setting, s: Sys, steps: seq<Step>)
    requires s.held.Some? && Sequence(s.bundle) <= Sequence(s.held)
    requires forall i :: 0 <= i < |steps| ==> !steps[i].Restart?
    ensures var s' := Run(k, Moved(s), steps);
            && Starving(s', s.held.value)
            && (Sequence(s'.committed) < Sequence(s.held) ==> s'.held == s.held)
  {
    if steps != [] {
      hide Apply;
      MoveStarves(k, s, steps[..|steps| - 1]);
      StepStarving(k, Run(k, Moved(s), steps[..|steps| - 1]), steps[|steps| - 1], s.held.value);
    }
  }

  const ROUND: seq<Step> := [Begin, Publish, Commit]

  function Rounds(n: nat): seq<Step> {
    if n == 0 then [] else Rounds(n - 1) + ROUND
  }

  lemma {:induction false} RunJoin(k: Setting, s: Sys, a: seq<Step>, b: seq<Step>)
    ensures Run(k, s, a + b) == Run(k, Run(k, s, a), b)
  {
    if b == [] {
      assert a + b == a;
    } else {
      RunJoin(k, s, a, b[..|b| - 1]);
      assert (a + b)[..|a + b| - 1] == a + b[..|b| - 1];
    }
  }

  lemma RunThree(k: Setting, s: Sys, a: Step, b: Step, c: Step)
    ensures Run(k, s, [a, b, c]) == Apply(k, Apply(k, Apply(k, s, a), b), c)
  {
    hide Apply;
    assert [a, b, c][..2] == [a, b] && [a, b][..1] == [a] && [a][..0] == [];
    assert Run(k, s, [a]) == Apply(k, Run(k, s, []), a);
    assert Run(k, s, [a, b]) == Apply(k, Run(k, s, [a]), b);
  }

  predicate Committed(k: Setting, s: Sys, n: nat) {
    && s.pc.Idle? && Sequence(s.committed) == n
    && (s.committed.Some? ==> Ours(k, s.committed.value))
  }

  /** A publisher that neither fails nor dies commits the next lease. */
  lemma RoundCommits(k: Setting, s: Sys, n: nat)
    requires k.Valid() && Committed(k, s, n)
    ensures var s' := Apply(k, Apply(k, s, Begin), Publish);
            && s'.bundle == Some(Next(k, s)) && s'.held == s.held && s'.now == s.now
            && Committed(k, Apply(k, s', Commit), n + 1)
  {
    hide AddressHash;
  }

  lemma {:induction false} RoundsCommit(k: Setting, s: Sys, n: nat)
    requires k.Valid() && Committed(k, s, 0)
    ensures var s' := Run(k, s, Rounds(n));
            Committed(k, s', n) && s'.held == s.held && s'.now == s.now
  {
    if n > 0 {
      hide Apply, Committed;
      RoundsCommit(k, s, n - 1);
      var s' := Run(k, s, Rounds(n - 1));
      RunJoin(k, s, Rounds(n - 1), ROUND);
      RunThree(k, s', Begin, Publish, Commit);
      RoundCommits(k, s', n - 1);
      CommitKeeps(k, Apply(k, Apply(k, s', Begin), Publish));
    }
  }

  lemma CommitKeeps(k: Setting, s: Sys)
    ensures var s' := Apply(k, s, Commit); s'.held == s.held && s'.now == s.now && s'.bundle == s.bundle
  {
  }

  /** That many commits are enough: the supervisor takes the publish after them, and is active. */
  lemma MoveCatchesUp(k: Setting, s: Sys)
    requires k.Valid() && s.held.Some?
    ensures var s' := Run(k, Moved(s), Rounds(Sequence(s.held)) + [Begin, Publish, Poll]);
            && s'.held.Some? && s'.held.value.generation == k.Generation()
            && Sequence(s'.held) == Sequence(s.held) + 1 && Active(s'.held, s'.now)
  {
    var q := Sequence(s.held);
    RoundsCommit(k, Moved(s), q);
    var s1 := Run(k, Moved(s), Rounds(q));
    RunJoin(k, Moved(s), Rounds(q), [Begin, Publish, Poll]);
    RunThree(k, s1, Begin, Publish, Poll);
    RoundCommits(k, s1, q);
    OwnGenerationMatches(k);
    hide Matches, Run;
  }

  /** A supervisor restarted before its end takes the first lease of the new generation. */
  lemma RestartTakesFirst(k: Setting, s: Sys, elapsed: nat)
    requires k.Valid() && elapsed < k.duration
    ensures var s' := Run(k, Moved(s), ROUND + [Tick(elapsed), Restart, Poll]);
            && s'.held.Some? && s'.held.value.generation == k.Generation()
            && Sequence(s'.held) == 1 && Active(s'.held, s'.now)
  {
    var s1 := Apply(k, Apply(k, Apply(k, Moved(s), Begin), Publish), Commit);
    RoundCommits(k, Moved(s), 0);
    CommitKeeps(k, Apply(k, Apply(k, Moved(s), Begin), Publish));
    RunJoin(k, Moved(s), ROUND, [Tick(elapsed), Restart, Poll]);
    RunThree(k, Moved(s), Begin, Publish, Commit);
    RunThree(k, s1, Tick(elapsed), Restart, Poll);
    OwnGenerationMatches(k);
    hide Matches, Run;
  }
}
