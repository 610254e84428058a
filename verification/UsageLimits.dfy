/** What holds of a usage window over whole runs: reported totals are exact, hard limits are
    exceeded only by what settlements add, and a settled charge stays as it is. */
module UsageLimits {
  import opened Options
  import opened UsageWindow
  import opened WindowBounds

  // ---------- Pruning and expiry lose nothing ----------

  predicate Reports(v: Values, j: seq<Entry>, start: int, extra: Values) {
    forall f: Field :: v.Get(f) == Used(j, start, f) + extra.Get(f)
  }

  lemma TotalsAreUsed(w: Window, s: State, now: nat, f: Field)
    requires Defined(w) && Tracks(w, s, now)
    ensures Totals(s.store.zset, Start(w, now)).Get(f) == Used(s.journal, Start(w, now), f)
  {
    TotalExceptNothing(s.store.zset, Start(w, now), f);
    assert TotalSince(s.journal, Start(w, now), f, {}) == TotalExcept(s.store.zset, Start(w, now), f, {});
  }

  /** Every total the script computes is the journal's total since the window's start; a new request
      is refused exactly when that total plus its prediction exceeds a hard limit, and is otherwise
      warned exactly when it reaches a soft one. */
  ghost predicate Exact(k: Config, j: seq<Entry>, c: Call, out: Outcome)
    requires Defined(k.window)
  {
    var start := Start(k.window, c.now);
    match c.action
    case Inspect => out.Sum? && Reports(out.totals, j, start, ZERO)
    case Reserve(_, values) =>
      && (out.Allowed? || out.Rejected? ==> Reports(out.used, j, start, values))
      && (!out.Idempotent? ==>
            (out.Rejected? <==> exists f :: f in k.hard && Used(j, start, f) + values.Get(f) > k.hard[f]))
      && (out.Allowed? ==>
            (out.warning <==> exists f :: f in k.soft && Used(j, start, f) + values.Get(f) >= k.soft[f]))
    case Reconcile(_, _) => out.Reconciled?
  }

  lemma PrunedTotalsReport(k: Config, s: State, now: nat, server: int, extra: Values)
    requires Defined(k.window) && Retained(k.window) && Inv(k.window, s, now, server) && Close(now, server)
    ensures var start := Start(k.window, now);
            Reports(Totals(Pruned(s.store, start, server).zset, start).Plus(extra), s.journal, start, extra)
  {
    PrunedInv(k.window, s, now, server);
    var p := s.(store := Pruned(s.store, Start(k.window, now), server));
    forall f: Field
      ensures Totals(p.store.zset, Start(k.window, now)).Get(f) == Used(s.journal, Start(k.window, now), f)
    {
      TotalsAreUsed(k.window, p, now, f);
    }
  }

  lemma ExceedsWhenReported(used: Values, hard: Limits, j: seq<Entry>, start: int, extra: Values)
    requires Reports(used, j, start, extra)
    ensures Exceeds(used, hard) <==> exists f :: f in hard && Used(j, start, f) + extra.Get(f) > hard[f]
  {
    if Exceeds(used, hard) {
      var f :| f in hard && used.Get(f) > hard[f];
      assert f in hard && Used(j, start, f) + extra.Get(f) > hard[f];
    }
    if f :| f in hard && Used(j, start, f) + extra.Get(f) > hard[f] {
      assert used.Get(f) > hard[f];
    }
  }

  lemma WarnsWhenReported(used: Values, soft: Limits, j: seq<Entry>, start: int, extra: Values)
    requires Reports(used, j, start, extra)
    ensures Warns(used, soft) <==> exists f :: f in soft && Used(j, start, f) + extra.Get(f) >= soft[f]
  {
    if Warns(used, soft) {
      var f :| f in soft && used.Get(f) >= soft[f];
      assert f in soft && Used(j, start, f) + extra.Get(f) >= soft[f];
    }
    if f :| f in soft && Used(j, start, f) + extra.Get(f) >= soft[f] {
      assert used.Get(f) >= soft[f];
    }
  }

  lemma ReserveReports(k: Config, s: State, c: Call)
    requires Defined(k.window) && Retained(k.window) && c.action.Reserve?
    requires Inv(k.window, s, c.now, c.server) && Close(c.now, c.server)
    ensures Exact(k, s.journal, c, RunScript(k, s.store, c).1)
  {
    var start, values := Start(k.window, c.now), c.action.values;
    var used := Totals(Pruned(s.store, start, c.server).zset, start).Plus(values);
    PrunedTotalsReport(k, s, c.now, c.server, values);
    ExceedsWhenReported(used, k.hard, s.journal, start, values);
    WarnsWhenReported(used, k.soft, s.journal, start, values);
  }

  lemma PlusZero(v: Values)
    ensures v.Plus(ZERO) == v
  {
  }

  lemma InspectReports(k: Config, s: State, c: Call)
    requires Defined(k.window) && Retained(k.window) && c.action.Inspect?
    requires Inv(k.window, s, c.now, c.server) && Close(c.now, c.server)
    ensures Exact(k, s.journal, c, RunScript(k, s.store, c).1)
  {
    var start := Start(k.window, c.now);
    PrunedTotalsReport(k, s, c.now, c.server, ZERO);
    PlusZero(Totals(Pruned(s.store, start, c.server).zset, start));
  }

  lemma StepReports(k: Config, s: State, c: Call)
    requires Defined(k.window) && Retained(k.window)
    requires Inv(k.window, s, c.now, c.server) && Close(c.now, c.server)
    ensures Exact(k, s.journal, c, RunScript(k, s.store, c).1)
  {
    match c.action {
      case Reserve(_, _) => ReserveReports(k, s, c);
      case Reconcile(_, _) =>
      case Inspect => InspectReports(k, s, c);
    }
  }

  /** After any run, the next call reports exactly, whatever was pruned or expired before. */
  lemma ReportsAreExact(k: Config, calls: seq<Call>, c: Call)
    requires Defined(k.window) && Retained(k.window) && Clocked(calls + [c])
    ensures Exact(k, Run(k, calls).journal, c, RunScript(k, Run(k, calls).store, c).1)
  {
    var all := calls + [c];
    assert forall i :: 0 <= i < |calls| ==> calls[i] == all[i];
    assert all[|calls|] == c;
    RunInv(k, calls, c.now, c.server);
    StepReports(k, Run(k, calls), c);
  }

  lemma FirstReservation(k: Config, id: string, values: Values, now: nat, server: int)
    requires Defined(k.window) && !Exceeds(Totals([], Start(k.window, now)).Plus(values), k.hard)
    ensures var s := Run(k, [Call(Reserve(id, values), now, server)]);
            && s.journal == [Reserved(id, values, now)]
            && s.store.zDeadline == s.store.iDeadline == server + TtlMs(k.window)
            && s.store.index == map[id := Charge(id, values, false)]
  {
    var c := Call(Reserve(id, values), now, server);
    assert [c][..|[c]| - 1] == [];
    assert Run(k, []) == State(EMPTY, []);
    assert Run(k, [c]) == Step(k, State(EMPTY, []), c);
  }

  lemma OneReservationUsed(e: Entry, f: Field)
    requires e.Reserved?
    ensures Used([e], e.at, f) == e.values.Get(f)
  {
    assert [e][..|[e]| - 1] == [];
    assert TotalSince([], e.at, f, {} - {e.id}) == 0;
  }

  /** Retention cannot be dropped: a zero-week calendar window charged on a Monday at midnight
      reports nothing a day later, in the same week. */
  lemma ZeroWeekForgets()
    ensures
      var k := Config(Window(Calendar, 0, Week), map[], map[]);
      var monday, tuesday := 4 * DAY_MS, 5 * DAY_MS;
      var s := Run(k, [Call(Reserve("a", Values(1, 0, 0, 0, 0)), monday, monday)]);
      && Start(k.window, tuesday) == monday
      && Used(s.journal, monday, Requests) == 1
      && RunScript(k, s.store, Call(Inspect, tuesday, tuesday)).1 == Sum(ZERO)
  {
    var k := Config(Window(Calendar, 0, Week), map[], map[]);
    var monday, one := 4 * DAY_MS, Values(1, 0, 0, 0, 0);
    FirstReservation(k, "a", one, monday, monday);
    OneReservationUsed(Reserved("a", one, monday), Requests);
  }

  // ---------- Hard limits ----------

  /** As the window's start moves forward, the total falls by at least what growth falls by: a
      settlement that leaves takes its whole charge with it. */
  lemma {:induction false} SlackGrows(w: Window, j: seq<Entry>, a: int, b: int, f: Field, settled: set<string>)
    requires Defined(w) && Dated(j) && a <= b
    ensures TotalSince(j, b, f, settled) + Growth(w, j, a, f) <= TotalSince(j, a, f, settled) + Growth(w, j, b, f)
  {
    if j != [] {
      var rest, e := j[..|j| - 1], j[|j| - 1];
      SlackGrows(w, rest, a, b, f, if e.Settled? then settled + {e.id} else settled - {e.id});
    }
  }

  /** Reading past a request's settlement leaves out exactly its latest reservation. */
  lemma {:induction false} LeavesOutReservation(j: seq<Entry>, id: string, start: int, f: Field, settled: set<string>)
    requires id !in settled && Latest(j, id).Some? && Latest(j, id).value.Reserved?
    ensures var r := Latest(j, id).value;
            TotalSince(j, start, f, settled) ==
            TotalSince(j, start, f, settled + {id}) + if r.at >= start then r.values.Get(f) else 0
  {
    var rest, e := j[..|j| - 1], j[|j| - 1];
    if e.id == id {
      assert settled + {id} - {id} == settled - {id};
    } else if e.Settled? {
      LeavesOutReservation(rest, id, start, f, settled + {e.id});
      assert settled + {e.id} + {id} == settled + {id} + {e.id};
    } else {
      LeavesOutReservation(rest, id, start, f, settled - {e.id});
      assert settled - {e.id} + {id} == settled + {id} - {e.id};
    }
  }

  /** The total of every hard-limited field is at most its limit plus the settlements' growth. */
  ghost predicate Safe(k: Config, j: seq<Entry>, now: nat)
    requires Defined(k.window) && Dated(j)
  {
    forall f :: f in k.hard ==>
      Used(j, Start(k.window, now), f) <= k.hard[f] + Growth(k.window, j, Start(k.window, now), f)
  }

  lemma SafeLater(k: Config, j: seq<Entry>, now: nat, now': nat)
    requires Defined(k.window) && Dated(j) && Safe(k, j, now) && now <= now'
    ensures Safe(k, j, now')
  {
    StartMonotone(k.window, now, now');
    forall f | f in k.hard
      ensures Used(j, Start(k.window, now'), f) <= k.hard[f] + Growth(k.window, j, Start(k.window, now'), f)
    {
      SlackGrows(k.window, j, Start(k.window, now), Start(k.window, now'), f, {});
    }
  }

  lemma SettleSafe(k: Config, s: State, id: string, observed: Values, now: nat)
    requires Defined(k.window) && Dated(s.journal) && Safe(k, s.journal, now)
    requires Recorded(s.store, s.journal) && id in s.store.index && !s.store.index[id].reconciled
    ensures Safe(k, s.journal + [Settled(id, observed, now)], now)
  {
    var e, start := Settled(id, observed, now), Start(k.window, now);
    var j' := s.journal + [e];
    assert j'[..|j'| - 1] == s.journal && Latest(s.journal, id).value.Reserved?;
    forall f | f in k.hard
      ensures Used(j', start, f) <= k.hard[f] + Growth(k.window, j', start, f)
    {
      LeavesOutReservation(s.journal, id, start, f, {});
      assert {} + {id} == {id};
    }
  }

  lemma ReserveSafe(k: Config, s: State, id: string, values: Values, now: nat)
    requires Defined(k.window) && Tracks(k.window, s, now) && Dated(s.journal) && Agrees(s.store)
    requires id !in s.store.index
    requires !Exceeds(Totals(s.store.zset, Start(k.window, now)).Plus(values), k.hard)
    ensures Safe(k, s.journal + [Reserved(id, values, now)], now)
  {
    var e, start := Reserved(id, values, now), Start(k.window, now);
    var j' := s.journal + [e];
    assert j'[..|j'| - 1] == s.journal;
    forall f | f in k.hard
      ensures Used(j', start, f) <= k.hard[f]
    {
      TotalsAreUsed(k.window, s, now, f);
      assert {} - {id} == {};
    }
  }

  lemma StepSafe(k: Config, s: State, c: Call)
    requires Defined(k.window) && Retained(k.window)
    requires Inv(k.window, s, c.now, c.server) && Close(c.now, c.server)
    requires Safe(k, s.journal, c.now)
    ensures Dated(Step(k, s, c).journal) && Safe(k, Step(k, s, c).journal, c.now)
  {
    var (_, out) := RunScript(k, s.store, c);
    assert s.journal + [] == s.journal;
    match c.action {
      case Reserve(id, values) =>
        if out.Allowed? {
          PrunedInv(k.window, s, c.now, c.server);
          ReserveSafe(k, s.(store := Pruned(s.store, Start(k.window, c.now), c.server)), id, values, c.now);
        }
      case Reconcile(id, observed) =>
        if out.applied {
          ExpireKeeps(k.window, s, c.now, c.server);
          SettleSafe(k, s.(store := Expire(s.store, c.server)), id, observed, c.now);
        }
      case Inspect =>
    }
  }

  /** Limit safety over whole runs: after any interleaving of reservations, retries, refusals,
      settlements and inspections, at any later instant, every hard-limited total is at most the
      limit plus the growth of the settlements still in the window. */
  lemma {:induction false} LimitSafety(k: Config, calls: seq<Call>, now: nat)
    requires Defined(k.window) && Retained(k.window) && Clocked(calls)
    requires calls != [] ==> calls[|calls| - 1].now <= now
    ensures Dated(Run(k, calls).journal) && Safe(k, Run(k, calls).journal, now)
  {
    if calls != [] {
      var rest, c := calls[..|calls| - 1], calls[|calls| - 1];
      LimitSafety(k, rest, c.now);
      RunInv(k, rest, c.now, c.server);
      StepSafe(k, Run(k, rest), c);
      SafeLater(k, Run(k, calls).journal, c.now, now);
    }
  }

  /** One request, reserved and settled at one instant, counts with what was observed. */
  lemma OneSettledUsed(k: Config, id: string, values: Values, observed: Values, now: nat, f: Field)
    requires Defined(k.window) && Start(k.window, now) <= now
    requires !Exceeds(Totals([], Start(k.window, now)).Plus(values), k.hard)
    ensures var calls := [Call(Reserve(id, values), now, now), Call(Reconcile(id, observed), now, now)];
            Used(Run(k, calls).journal, Start(k.window, now), f) == observed.Get(f)
  {
    var reserve, settle := Call(Reserve(id, values), now, now), Call(Reconcile(id, observed), now, now);
    FirstReservation(k, id, values, now, now);
    assert [reserve, settle][..1] == [reserve];
    var e, f', start := Reserved(id, values, now), Settled(id, observed, now), Start(k.window, now);
    assert Run(k, [reserve, settle]).journal == [e] + [f'];
    hide Start, Exceeds, Totals;
    assert ([e] + [f'])[..1] == [e] && [e][..0] == [];
    assert TotalSince([e], start, f, {} + {id}) == 0;
  }

  /** A limit that is exceeded: a request is reserved at no cost, as every chat request is, and
      settled at a cost above the limit. */
  lemma LimitExceeded()
    ensures
      var k := Config(Window(Rolling, 1, Hour), map[CostEquivalentMicros := 5], map[]);
      var calls := [Call(Reserve("a", Values(1, 0, 0, 0, 0)), DAY_MS, DAY_MS),
                    Call(Reconcile("a", Values(1, 0, 0, 0, 9)), DAY_MS, DAY_MS)];
      && Clocked(calls)
      && Used(Run(k, calls).journal, Start(k.window, DAY_MS), CostEquivalentMicros) == 9 > k.hard[CostEquivalentMicros]
  {
    var k := Config(Window(Rolling, 1, Hour), map[CostEquivalentMicros := 5], map[]);
    OneSettledUsed(k, "a", Values(1, 0, 0, 0, 0), Values(1, 0, 0, 0, 9), DAY_MS, CostEquivalentMicros);
    hide Run, Used;
  }

  ghost predicate NeverGrows(w: Window, j: seq<Entry>, f: Field)
    requires Defined(w) && Dated(j)
  {
    forall i :: 0 <= i < |j| && j[i].Settled? ==> Overshoot(w, j[..i], j[i], f) == 0
  }

  lemma {:induction false} NoGrowth(w: Window, j: seq<Entry>, start: int, f: Field)
    requires Defined(w) && Dated(j) && NeverGrows(w, j, f)
    ensures Growth(w, j, start, f) == 0
  {
    if j != [] {
      var rest := j[..|j| - 1];
      forall i | 0 <= i < |rest| && rest[i].Settled?
        ensures Overshoot(w, rest[..i], rest[i], f) == 0
      {
        assert rest[..i] == j[..i] && rest[i] == j[i];
      }
      NoGrowth(w, rest, start, f);
    }
  }

  /** If no settlement exceeds its reservation, the limit is never exceeded. */
  lemma LimitHoldsWithoutGrowth(k: Config, calls: seq<Call>, now: nat, f: Field)
    requires Defined(k.window) && Retained(k.window) && Clocked(calls) && f in k.hard
    requires calls != [] ==> calls[|calls| - 1].now <= now
    requires Dated(Run(k, calls).journal) && NeverGrows(k.window, Run(k, calls).journal, f)
    ensures Used(Run(k, calls).journal, Start(k.window, now), f) <= k.hard[f]
  {
    LimitSafety(k, calls, now);
    NoGrowth(k.window, Run(k, calls).journal, Start(k.window, now), f);
  }

  // ---------- One request's charge ----------

  /** A settlement replaces that request's charge and touches no other. */
  lemma SettleTouchesOnlyItsRequest(k: Config, s: State, c: Call, x: Scored)
    requires Defined(k.window) && Inv(k.window, s, c.now, c.server) && c.action.Reconcile?
    requires c.server < s.store.iDeadline && c.action.id in s.store.index && !s.store.index[c.action.id].reconciled
    ensures var s' := Step(k, s, c).store;
            && (x.member.id != c.action.id ==> (x in s'.zset <==> x in s.store.zset))
            && (x.member.id == c.action.id ==>
                  (x in s'.zset <==> x == Scored(Charge(c.action.id, c.action.observed, true), c.now)))
            && s'.index == s.store.index[c.action.id := Charge(c.action.id, c.action.observed, true)]
  {
    var z, id := s.store.zset, c.action.id;
    var freed := Remove(z, s.store.index[id]);
    var m := Charge(id, c.action.observed, true);
    RemoveKeeps(z, s.store.index[id], x);
    RemoveKeeps(freed, m, x);
  }

  /** One call, before the index expires, leaves a settled charge what it is, and in the set unless
      it prunes it. */
  lemma SettledStepFixed(k: Config, s: State, c: Call, id: string, score: int)
    requires Defined(k.window) && Inv(k.window, s, c.now, c.server)
    requires c.server < s.store.iDeadline && id in s.store.index && s.store.index[id].reconciled
    ensures var s', m := Step(k, s, c).store, s.store.index[id];
            && id in s'.index && s'.index[id] == m
            && (Scored(m, score) in s'.zset <==>
                  Scored(m, score) in s.store.zset && (c.action.Reconcile? || score >= Start(k.window, c.now)))
  {
    var m, x := s.store.index[id], Scored(s.store.index[id], score);
    var p := Pruned(s.store, Start(k.window, c.now), c.server);
    PruneKeeps(s.store.zset, Start(k.window, c.now), x);
    match c.action {
      case Reserve(other, values) =>
        RemoveKeeps(p.zset, Charge(other, values, false), x);
      case Reconcile(other, observed) =>
        if other in s.store.index {
          var freed := Remove(s.store.zset, s.store.index[other]);
          RemoveKeeps(s.store.zset, s.store.index[other], x);
          RemoveKeeps(freed, Charge(other, observed, true), x);
        }
      case Inspect =>
    }
  }

  /** From the `n`th call of a run on, every call finds the index alive. */
  ghost predicate IndexLives(k: Config, calls: seq<Call>, n: nat)
    requires Defined(k.window)
  {
    forall i :: n <= i < |calls| ==> calls[i].server < Run(k, calls[..i]).store.iDeadline
  }

  lemma RunLast(k: Config, calls: seq<Call>)
    requires Defined(k.window) && calls != []
    ensures Run(k, calls) == Step(k, Run(k, calls[..|calls| - 1]), calls[|calls| - 1])
  {
  }

  lemma IndexLivedBefore(k: Config, calls: seq<Call>, n: nat, m: nat)
    requires Defined(k.window) && IndexLives(k, calls, n) && m <= |calls|
    ensures IndexLives(k, calls[..m], n)
  {
    forall i | n <= i < m
      ensures calls[..m][i].server < Run(k, calls[..m][..i]).store.iDeadline
    {
      assert calls[..m][..i] == calls[..i];
    }
  }

  predicate Settles(c: Call, id: string) {
    c.action.Reconcile? && c.action.id == id
  }

  /** How often the journal settles a request. */
  function SettledCount(j: seq<Entry>, id: string): nat {
    if j == [] then 0
    else SettledCount(j[..|j| - 1], id) + if j[|j| - 1].Settled? && j[|j| - 1].id == id then 1 else 0
  }

  /** A call that is no settlement of the request, or comes after one, leaves its charge alone. */
  lemma StepStands(k: Config, s: State, c: Call, id: string)
    requires Defined(k.window) && c.server < s.store.iDeadline && id in s.store.index
    requires s.store.index[id].reconciled || !Settles(c, id)
    ensures var s' := Step(k, s, c);
            && id in s'.store.index && s'.store.index[id] == s.store.index[id]
            && SettledCount(s'.journal, id) == SettledCount(s.journal, id)
  {
    hide SettledCount, Totals, Exceeds, Warns, Prune, Remove, Add, Start, TtlMs, Defined;
    CountAppend(k, s, c, id);
  }

  lemma CountAppend(k: Config, s: State, c: Call, id: string)
    requires Defined(k.window)
    ensures SettledCount(Step(k, s, c).journal, id) == SettledCount(s.journal, id) +
            if Settles(c, id) && RunScript(k, s.store, c).1.applied then 1 else 0
  {
    hide Totals, Exceeds, Warns, Prune, Remove, Add, Start, TtlMs, Defined;
    var added := Journaled(c, RunScript(k, s.store, c).1);
    assert added != [] ==> (s.journal + added)[..|s.journal|] == s.journal;
    assert s.journal + [] == s.journal;
  }

  /** The first settlement of a live reservation takes effect. */
  lemma StepSettles(k: Config, s: State, c: Call, id: string)
    requires Defined(k.window) && c.server < s.store.iDeadline && id in s.store.index
    requires !s.store.index[id].reconciled && Settles(c, id)
    ensures var s' := Step(k, s, c);
            && id in s'.store.index && s'.store.index[id] == Charge(id, c.action.observed, true)
            && SettledCount(s'.journal, id) == SettledCount(s.journal, id) + 1
  {
    hide SettledCount, Totals, Exceeds, Warns, Prune, Remove, Add, Start, TtlMs, Defined;
    CountAppend(k, s, c, id);
  }

  lemma ClockedBefore(calls: seq<Call>)
    requires Clocked(calls) && calls != []
    ensures var rest, c := calls[..|calls| - 1], calls[|calls| - 1];
            && Clocked(rest) && Close(c.now, c.server)
            && (rest != [] ==> rest[|rest| - 1].now <= c.now && rest[|rest| - 1].server <= c.server)
  {
  }

  lemma {:induction false} ChargeStands(k: Config, calls: seq<Call>, n: nat, id: string)
    requires Defined(k.window) && n <= |calls| && IndexLives(k, calls, n)
    requires id in Run(k, calls[..n]).store.index
    requires Run(k, calls[..n]).store.index[id].reconciled || forall i :: n <= i < |calls| ==> !Settles(calls[i], id)
    ensures var s, s' := Run(k, calls[..n]), Run(k, calls);
            && id in s'.store.index && s'.store.index[id] == s.store.index[id]
            && SettledCount(s'.journal, id) == SettledCount(s.journal, id)
  {
    hide Run, Step, RunScript, SettledCount, IndexLives;
    if n == |calls| {
      assert calls[..n] == calls;
    } else {
      var rest, c := calls[..|calls| - 1], calls[|calls| - 1];
      RunLast(k, calls);
      assert rest[..n] == calls[..n];
      IndexLivedBefore(k, calls, n, |rest|);
      LivesAtLast(k, calls, n);
      ChargeStands(k, rest, n, id);
      StepStands(k, Run(k, rest), c, id);
    }
  }

  /** Of any calls after a reservation, other requests' among them, and before the index expires,
      the first that settles the request does: its charge is what that call observed, whatever
      comes after, and the journal settles it exactly once more. */
  lemma FirstSettlementStands(k: Config, calls: seq<Call>, n: nat, i: nat, id: string)
    requires Defined(k.window) && n <= i < |calls| && IndexLives(k, calls, n)
    requires id in Run(k, calls[..n]).store.index && !Run(k, calls[..n]).store.index[id].reconciled
    requires Settles(calls[i], id) && forall j :: n <= j < i ==> !Settles(calls[j], id)
    ensures var s, s' := Run(k, calls[..n]), Run(k, calls);
            && id in s'.store.index && s'.store.index[id] == Charge(id, calls[i].action.observed, true)
            && SettledCount(s'.journal, id) == SettledCount(s.journal, id) + 1
  {
    hide Run, Step, RunScript, SettledCount;
    assert calls[..i][..n] == calls[..n];
    IndexLivedBefore(k, calls, n, i);
    ChargeStands(k, calls[..i], n, id);
    assert calls[..i + 1][..i] == calls[..i];
    RunLast(k, calls[..i + 1]);
    StepSettles(k, Run(k, calls[..i]), calls[i], id);
    ChargeStands(k, calls, i + 1, id);
  }

  lemma {:induction false} NeverSettled(k: Config, calls: seq<Call>, id: string)
    requires Defined(k.window) && forall i :: 0 <= i < |calls| ==> !Settles(calls[i], id)
    ensures SettledCount(Run(k, calls).journal, id) == 0
  {
    if calls != [] {
      hide Step;
      NeverSettled(k, calls[..|calls| - 1], id);
      CountAppend(k, Run(k, calls[..|calls| - 1]), calls[|calls| - 1], id);
    }
  }

  /** No call since prunes a charge of this score. */
  predicate Unpruned(k: Config, calls: seq<Call>, n: nat, score: int)
    requires Defined(k.window)
  {
    forall i :: n <= i < |calls| ==> calls[i].action.Reconcile? || score >= Start(k.window, calls[i].now)
  }

  lemma UnprunedLast(k: Config, calls: seq<Call>, n: nat, score: int)
    requires Defined(k.window) && n < |calls|
    ensures var rest, c := calls[..|calls| - 1], calls[|calls| - 1];
            Unpruned(k, calls, n, score) <==>
            Unpruned(k, rest, n, score) && (c.action.Reconcile? || score >= Start(k.window, c.now))
  {
    hide Start;
    assert forall i :: n <= i < |calls| - 1 ==> calls[..|calls| - 1][i] == calls[i];
  }

  /** After these calls the index has `m` for its request, settled. */
  predicate Has(k: Config, calls: seq<Call>, m: Charge)
    requires Defined(k.window)
  {
    m.id in Run(k, calls).store.index && Run(k, calls).store.index[m.id] == m && m.reconciled
  }

  predicate InSet(k: Config, calls: seq<Call>, x: Scored)
    requires Defined(k.window)
  {
    x in Run(k, calls).store.zset
  }

  lemma SettledLastFixed(k: Config, calls: seq<Call>, n: nat, x: Scored)
    requires Defined(k.window) && Retained(k.window) && Clocked(calls) && n < |calls| && IndexLives(k, calls, n)
    requires Has(k, calls[..|calls| - 1], x.member)
    ensures var c := calls[|calls| - 1];
            && Has(k, calls, x.member)
            && (InSet(k, calls, x) <==>
                  InSet(k, calls[..|calls| - 1], x) && (c.action.Reconcile? || x.score >= Start(k.window, c.now)))
  {
    var rest, c := calls[..|calls| - 1], calls[|calls| - 1];
    RunLast(k, calls);
    ClockedBefore(calls);
    LivesAtLast(k, calls, n);
    RunInv(k, rest, c.now, c.server);
    hide Run, Step, Start, Inv, Clocked, Retained, IndexLives;
    SettledStepFixed(k, Run(k, rest), c, x.member.id, x.score);
  }

  lemma HasStill(k: Config, calls: seq<Call>, prefix: seq<Call>, m: Charge)
    requires Defined(k.window) && prefix <= calls && IndexLives(k, calls, |prefix|) && Has(k, prefix, m)
    ensures Has(k, calls, m)
  {
    hide Run, IndexLives;
    assert calls[..|prefix|] == prefix;
    ChargeStands(k, calls, |prefix|, m.id);
  }

  /** The last call keeps what holds of the calls before it. */
  lemma LastStays(k: Config, calls: seq<Call>, rest: seq<Call>, prefix: seq<Call>, x: Scored)
    requires Defined(k.window) && Retained(k.window) && Clocked(calls)
    requires calls != [] && rest == calls[..|calls| - 1] && prefix <= rest
    requires IndexLives(k, calls, |prefix|) && Has(k, prefix, x.member)
    ensures Clocked(rest) && IndexLives(k, rest, |prefix|)
    ensures var c := calls[|calls| - 1];
            InSet(k, calls, x) <==> InSet(k, rest, x) && (c.action.Reconcile? || x.score >= Start(k.window, c.now))
  {
    hide Has, InSet, Start, Clocked, Retained, Defined, IndexLives;
    ClockedBefore(calls);
    IndexLivedBefore(k, calls, |prefix|, |rest|);
    HasStill(k, rest, prefix, x.member);
    SettledLastFixed(k, calls, |prefix|, x);
  }

  lemma {:induction false} SettledStays(k: Config, calls: seq<Call>, prefix: seq<Call>, x: Scored)
    requires Defined(k.window) && Retained(k.window) && Clocked(calls) && prefix <= calls
    requires IndexLives(k, calls, |prefix|) && Has(k, prefix, x.member)
    ensures InSet(k, calls, x) <==> InSet(k, prefix, x) && Unpruned(k, calls, |prefix|, x.score)
  {
    hide Has, InSet, Start, Clocked, Retained, Defined, IndexLives;
    if |prefix| == |calls| {
      assert prefix == calls;
    } else {
      hide Unpruned;
      var rest := calls[..|calls| - 1];
      LastStays(k, calls, rest, prefix, x);
      SettledStays(k, rest, prefix, x);
      UnprunedLast(k, calls, |prefix|, x.score);
    }
  }

  lemma LivesAtLast(k: Config, calls: seq<Call>, n: nat)
    requires Defined(k.window) && n < |calls| && IndexLives(k, calls, n)
    ensures calls[|calls| - 1].server < Run(k, calls[..|calls| - 1]).store.iDeadline
  {
  }

  lemma IdOfIndex(k: Config, calls: seq<Call>, n: nat, id: string)
    requires Defined(k.window) && Retained(k.window) && Clocked(calls) && n <= |calls|
    requires id in Run(k, calls[..n]).store.index
    ensures Run(k, calls[..n]).store.index[id].id == id
  {
    if n > 0 {
      RunInv(k, calls[..n], calls[n - 1].now, calls[n - 1].server);
    }
  }

  /** A settled charge is fixed against all later calls until the index expires: it stays the
      index's value for its request, settled no further, and in the set until it is pruned. */
  lemma SettledIsFixed(k: Config, calls: seq<Call>, n: nat, id: string, score: int)
    requires Defined(k.window) && Retained(k.window) && Clocked(calls) && n <= |calls| && IndexLives(k, calls, n)
    requires id in Run(k, calls[..n]).store.index && Run(k, calls[..n]).store.index[id].reconciled
    ensures var s, s' := Run(k, calls[..n]), Run(k, calls);
            && id in s'.store.index && s'.store.index[id] == s.store.index[id]
            && SettledCount(s'.journal, id) == SettledCount(s.journal, id)
            && (Scored(s.store.index[id], score) in s'.store.zset <==>
                  Scored(s.store.index[id], score) in s.store.zset && Unpruned(k, calls, n, score))
  {
    ChargeStands(k, calls, n, id);
    IdOfIndex(k, calls, n, id);
    SettledStays(k, calls, calls[..n], Scored(Run(k, calls[..n]).store.index[id], score));
  }

  // ---------- The scripts as they run: one window's two keys, changed in place ----------

  class WindowKeys {
    const config: Config
    var zset: seq<Scored>
    var zDeadline: int
    var index: map<string, Charge>
    var iDeadline: int
    ghost var journal: seq<Entry>

    ghost function Contents(): State
      reads this
    {
      State(Store(zset, zDeadline, index, iDeadline), journal)
    }

    constructor (config: Config)
      ensures this.config == config && Contents() == State(EMPTY, [])
    {
      this.config := config;
      zset, zDeadline, index, iDeadline, journal := [], 0, map[], 0, [];
    }

    /** The expiry the server applies before a script touches its keys. */
    method ExpireKeys(server: int)
      modifies this
      ensures Contents() == old(Contents()).(store := Expire(old(Contents()).store, server))
    {
      if server >= zDeadline {
        zset := [];
      }
      if server >= iDeadline {
        index := map[];
      }
    }

    /** The loop over the members at or above `start`. */
    method SumSince(start: int) returns (totals: Values)
      ensures totals == Totals(zset, start)
    {
      totals := ZERO;
      var i := 0;
      while i < |zset|
        invariant 0 <= i <= |zset|
        invariant totals == Totals(zset[..i], start)
      {
        assert zset[..i + 1][..i] == zset[..i];
        if zset[i].score >= start {
          totals := totals.Plus(zset[i].member.values);
        }
        i := i + 1;
      }
      assert zset[..|zset|] == zset;
    }

    method WriteCharge(member: Charge, now: int, deadline: int)
      modifies this
      ensures Contents() == old(Contents()).(store := Write(old(Contents()).store, member, now, deadline))
    {
      zset := Add(zset, member, now);
      index := index[member.id := member];
      zDeadline := deadline;
      iDeadline := deadline;
    }

    method Reserve(id: string, values: Values, now: nat, server: int) returns (out: Outcome, field: Field)
      requires Defined(config.window)
      modifies this
      ensures var c := Call(UsageWindow.Reserve(id, values), now, server);
              && Contents() == Step(config, old(Contents()), c)
              && out == RunScript(config, old(Contents()).store, c).1
      ensures out.Rejected? ==> field in config.hard && out.used.Get(field) > config.hard[field]
    {
      field := Requests;
      var start := Start(config.window, now);
      ExpireKeys(server);
      zset := Prune(zset, start);
      if id in index {
        return Idempotent, field;
      }
      var totals := SumSince(start);
      totals := totals.Plus(values);
      if Exceeds(totals, config.hard) {
        field :| field in config.hard && totals.Get(field) > config.hard[field];
        return Rejected(totals), field;
      }
      WriteCharge(Charge(id, values, false), now, server + TtlMs(config.window));
      journal := journal + [Reserved(id, values, now)];
      out := Allowed(Warns(totals, config.soft), totals);
    }

    method Reconcile(id: string, observed: Values, now: nat, server: int) returns (applied: bool)
      requires Defined(config.window)
      modifies this
      ensures var c := Call(UsageWindow.Reconcile(id, observed), now, server);
              && Contents() == Step(config, old(Contents()), c)
              && Reconciled(applied) == RunScript(config, old(Contents()).store, c).1
    {
      ExpireKeys(server);
      if id !in index || index[id].reconciled {
        return false;
      }
      zset := Remove(zset, index[id]);
      WriteCharge(Charge(id, observed, true), now, server + TtlMs(config.window));
      journal := journal + [Settled(id, observed, now)];
      applied := true;
    }

    method Inspect(now: nat, server: int) returns (totals: Values)
      requires Defined(config.window)
      modifies this
      ensures var c := Call(UsageWindow.Inspect, now, server);
              && Contents() == Step(config, old(Contents()), c)
              && Sum(totals) == RunScript(config, old(Contents()).store, c).1
    {
      var start := Start(config.window, now);
      ExpireKeys(server);
      zset := Prune(zset, start);
      totals := SumSince(start);
    }
  }
}
