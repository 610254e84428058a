/** One usage window's sorted set of charges and per-request index, the three scripts that read
    and write them, and a journal of what the scripts did that nothing is ever deleted from. */
module UsageWindow {
  import opened Options
  import opened WindowBounds

  datatype Field = Requests | InputTokens | OutputTokens | TotalTokens | CostEquivalentMicros

  datatype Values = Values(requests: nat, inputTokens: nat, outputTokens: nat, totalTokens: nat, cost: nat) {
    function Get(f: Field): nat {
      match f
      case Requests => requests
      case InputTokens => inputTokens
      case OutputTokens => outputTokens
      case TotalTokens => totalTokens
      case CostEquivalentMicros => cost
    }

    function Plus(v: Values): Values {
      Values(requests + v.requests, inputTokens + v.inputTokens, outputTokens + v.outputTokens,
             totalTokens + v.totalTokens, cost + v.cost)
    }
  }

  const ZERO := Values(0, 0, 0, 0, 0)

  type Limits = map<Field, nat>

  /** A sorted-set member: the text a script encodes, identified with what it encodes. */
  datatype Charge = Charge(id: string, values: Values, reconciled: bool)

  datatype Scored = Scored(member: Charge, score: int)

  /** The sorted set (in insertion order) and the index, each with the instant it expires.
      An absent key is an empty one. */
  datatype Store = Store(zset: seq<Scored>, zDeadline: int, index: map<string, Charge>, iDeadline: int)

  const EMPTY := Store([], 0, map[], 0)

  datatype Outcome =
    | Allowed(warning: bool, used: Values)
    | Idempotent
    | Rejected(used: Values)
    | Reconciled(applied: bool)
    | Sum(totals: Values)

  // ---------- Sorted-set commands ----------

  function Prune(z: seq<Scored>, start: int): seq<Scored> {
    if z == [] then []
    else
      var rest, last := Prune(z[..|z| - 1], start), z[|z| - 1];
      if last.score <= start - 1 then rest else rest + [last]
  }

  function Remove(z: seq<Scored>, member: Charge): seq<Scored> {
    if z == [] then []
    else
      var rest, last := Remove(z[..|z| - 1], member), z[|z| - 1];
      if last.member == member then rest else rest + [last]
  }

  function Add(z: seq<Scored>, member: Charge, score: int): seq<Scored> {
    Remove(z, member) + [Scored(member, score)]
  }

  function Total(z: seq<Scored>, start: int, f: Field): nat {
    if z == [] then 0
    else
      var last := z[|z| - 1];
      Total(z[..|z| - 1], start, f) + if last.score >= start then last.member.values.Get(f) else 0
  }

  function Totals(z: seq<Scored>, start: int): Values {
    Values(Total(z, start, Requests), Total(z, start, InputTokens), Total(z, start, OutputTokens),
           Total(z, start, TotalTokens), Total(z, start, CostEquivalentMicros))
  }

  predicate Exceeds(used: Values, hard: Limits) {
    exists f :: f in hard && used.Get(f) > hard[f]
  }

  predicate Warns(used: Values, soft: Limits) {
    exists f :: f in soft && used.Get(f) >= soft[f]
  }

  // ---------- The scripts, on values ----------

  /** Keys whose deadline the server's clock has reached are gone before a script looks. */
  function Expire(s: Store, server: int): Store {
    s.(zset := if server >= s.zDeadline then [] else s.zset,
       index := if server >= s.iDeadline then map[] else s.index)
  }

  function Pruned(s: Store, start: int, server: int): Store {
    var e := Expire(s, server);
    e.(zset := Prune(e.zset, start))
  }

  function Write(s: Store, member: Charge, now: int, deadline: int): Store {
    Store(Add(s.zset, member, now), deadline, s.index[member.id := member], deadline)
  }

  function ReserveScript(s: Store, id: string, values: Values, hard: Limits, soft: Limits,
                         start: int, now: int, server: int, ttl: nat): (Store, Outcome) {
    var p := Pruned(s, start, server);
    if id in p.index then (p, Idempotent)
    else
      var used := Totals(p.zset, start).Plus(values);
      if Exceeds(used, hard) then (p, Rejected(used))
      else (Write(p, Charge(id, values, false), now, server + ttl), Allowed(Warns(used, soft), used))
  }

  function ReconcileScript(s: Store, id: string, values: Values, now: int, server: int, ttl: nat): (Store, Outcome) {
    var e := Expire(s, server);
    if id !in e.index || e.index[id].reconciled then (e, Reconciled(false))
    else
      (Write(e.(zset := Remove(e.zset, e.index[id])), Charge(id, values, true), now, server + ttl),
       Reconciled(true))
  }

  function SumScript(s: Store, start: int, server: int): (Store, Outcome) {
    var p := Pruned(s, start, server);
    (p, Sum(Totals(p.zset, start)))
  }

  // ---------- The journal ----------

  datatype Entry =
    | Reserved(id: string, values: Values, at: int)
    | Settled(id: string, values: Values, at: int)

  /** What the journal says was used since `start`, reading it backwards: a settlement counts,
      and it replaces the reservation before it. `settled` holds the requests whose settlement
      has been read but whose reservation has not. */
  function TotalSince(j: seq<Entry>, start: int, f: Field, settled: set<string>): nat {
    if j == [] then 0
    else
      var rest, e := j[..|j| - 1], j[|j| - 1];
      var amount := if e.at >= start then e.values.Get(f) else 0;
      match e
      case Settled(id, _, _) => TotalSince(rest, start, f, settled + {id}) + amount
      case Reserved(id, _, _) =>
        TotalSince(rest, start, f, settled - {id}) + if id in settled then 0 else amount
  }

  function Used(j: seq<Entry>, start: int, f: Field): nat {
    TotalSince(j, start, f, {})
  }

  function Latest(j: seq<Entry>, id: string): Option<Entry> {
    if j == [] then None
    else if j[|j| - 1].id == id then Some(j[|j| - 1])
    else Latest(j[..|j| - 1], id)
  }

  /** By how much a settlement raised the total: the excess over its reservation, or everything
      if the reservation had already left the window. */
  function Overshoot(w: Window, before: seq<Entry>, e: Entry, f: Field): (g: nat)
    requires Defined(w) && e.at >= 0
    ensures g <= e.values.Get(f)
  {
    var r := Latest(before, e.id);
    var observed := e.values.Get(f);
    if r.Some? && r.value.Reserved? && r.value.at >= Start(w, e.at) then
      var predicted := r.value.values.Get(f);
      if observed > predicted then observed - predicted else 0
    else observed
  }

  predicate Dated(j: seq<Entry>) {
    forall i :: 0 <= i < |j| ==> j[i].at >= 0
  }

  /** The growth added by the settlements made since `start`. */
  function Growth(w: Window, j: seq<Entry>, start: int, f: Field): nat
    requires Defined(w) && Dated(j)
  {
    if j == [] then 0
    else
      var rest, e := j[..|j| - 1], j[|j| - 1];
      Growth(w, rest, start, f) + if e.Settled? && e.at >= start then Overshoot(w, rest, e, f) else 0
  }

  // ---------- Runs ----------

  datatype Action = Reserve(id: string, values: Values) | Reconcile(id: string, observed: Values) | Inspect

  /** A script call: the caller's clock reading it passes, and the server's clock when it runs. */
  datatype Call = Call(action: Action, now: nat, server: int)

  datatype Config = Config(window: Window, hard: Limits, soft: Limits)

  datatype State = State(store: Store, journal: seq<Entry>)

  function Journaled(c: Call, out: Outcome): seq<Entry> {
    match c.action
    case Reserve(id, values) => if out.Allowed? then [Reserved(id, values, c.now)] else []
    case Reconcile(id, observed) =>
      if out.Reconciled? && out.applied then [Settled(id, observed, c.now)] else []
    case Inspect => []
  }

  function RunScript(k: Config, s: Store, c: Call): (Store, Outcome)
    requires Defined(k.window)
  {
    var start, ttl := Start(k.window, c.now), TtlMs(k.window);
    match c.action
    case Reserve(id, values) => ReserveScript(s, id, values, k.hard, k.soft, start, c.now, c.server, ttl)
    case Reconcile(id, observed) => ReconcileScript(s, id, observed, c.now, c.server, ttl)
    case Inspect => SumScript(s, start, c.server)
  }

  function Step(k: Config, s: State, c: Call): State
    requires Defined(k.window)
  {
    var (store, out) := RunScript(k, s.store, c);
    State(store, s.journal + Journaled(c, out))
  }

  function Run(k: Config, calls: seq<Call>): State
    requires Defined(k.window)
  {
    if calls == [] then State(EMPTY, [])
    else Step(k, Run(k, calls[..|calls| - 1]), calls[|calls| - 1])
  }

  /** The caller's clock and the server's may disagree by just under half of the extra day. */
  const SKEW: nat := DAY_MS / 2 - 1

  predicate Close(now: int, server: int) {
    server - now <= SKEW && now - server <= SKEW
  }

  /** Neither clock runs back, and the two stay close. */
  predicate Clocked(calls: seq<Call>) {
    && (forall i :: 0 <= i < |calls| ==> Close(calls[i].now, calls[i].server))
    && (forall i, j :: 0 <= i < j < |calls| ==>
          calls[i].now <= calls[j].now && calls[i].server <= calls[j].server)
  }

  // ---------- Invariants ----------

  /** Each member is the index's current value for its request, at most one per request, and the
      two keys expire together while there is anything in the set. */
  ghost predicate Agrees(s: Store) {
    && (forall i :: 0 <= i < |s.zset| ==>
          s.zset[i].member.id in s.index && s.index[s.zset[i].member.id] == s.zset[i].member)
    && (forall i, j :: 0 <= i < j < |s.zset| ==> s.zset[i].member.id != s.zset[j].member.id)
    && (forall id :: id in s.index ==> s.index[id].id == id)
    && (s.zset != [] ==> s.zDeadline == s.iDeadline)
  }

  ghost predicate Kept(w: Window, s: Store, server: int) {
    && (s.zset != [] ==> s.zDeadline <= server + TtlMs(w))
    && (forall i :: 0 <= i < |s.zset| ==> s.zset[i].score + TtlMs(w) <= s.zDeadline + SKEW)
  }

  ghost predicate Recorded(s: Store, j: seq<Entry>) {
    forall id :: id in s.index ==>
      var e := Latest(j, id);
      e.Some? && e.value.values == s.index[id].values && (e.value.Settled? <==> s.index[id].reconciled)
  }

  function Share(e: Scored, start: int, f: Field, settled: set<string>): nat {
    if e.score >= start && (e.member.id !in settled || e.member.reconciled) then e.member.values.Get(f) else 0
  }

  /** The set's total, leaving out the unreconciled charges of the requests in `settled`. */
  function TotalExcept(z: seq<Scored>, start: int, f: Field, settled: set<string>): nat {
    if z == [] then 0
    else TotalExcept(z[..|z| - 1], start, f, settled) + Share(z[|z| - 1], start, f, settled)
  }

  ghost predicate Tracks(w: Window, s: State, now: nat)
    requires Defined(w)
  {
    forall start: int, f: Field, settled: set<string> :: start >= Start(w, now) ==>
      TotalSince(s.journal, start, f, settled) == TotalExcept(s.store.zset, start, f, settled)
  }

  ghost predicate Inv(w: Window, s: State, now: nat, server: int)
    requires Defined(w)
  {
    && Agrees(s.store)
    && Kept(w, s.store, server)
    && Recorded(s.store, s.journal)
    && Dated(s.journal)
    && Tracks(w, s, now)
  }

  // ---------- Sums and filters ----------

  lemma {:induction false} TotalExceptNothing(z: seq<Scored>, start: int, f: Field)
    ensures TotalExcept(z, start, f, {}) == Total(z, start, f)
  {
    if z != [] {
      TotalExceptNothing(z[..|z| - 1], start, f);
    }
  }

  lemma {:induction false} PruneKeeps(z: seq<Scored>, start: int, x: Scored)
    ensures x in Prune(z, start) <==> x in z && x.score >= start
  {
    if z != [] {
      PruneKeeps(z[..|z| - 1], start, x);
      assert z == z[..|z| - 1] + [z[|z| - 1]];
    }
  }

  lemma {:induction false} RemoveKeeps(z: seq<Scored>, m: Charge, x: Scored)
    ensures x in Remove(z, m) <==> x in z && x.member != m
  {
    if z != [] {
      RemoveKeeps(z[..|z| - 1], m, x);
      assert z == z[..|z| - 1] + [z[|z| - 1]];
    }
  }

  lemma {:induction false} RemoveAbsent(z: seq<Scored>, m: Charge)
    requires forall i :: 0 <= i < |z| ==> z[i].member != m
    ensures Remove(z, m) == z
  {
    if z != [] {
      RemoveAbsent(z[..|z| - 1], m);
    }
  }

  lemma {:induction false} PruneSameTotal(z: seq<Scored>, bound: int, start: int, f: Field, settled: set<string>)
    requires bound <= start
    ensures TotalExcept(Prune(z, bound), start, f, settled) == TotalExcept(z, start, f, settled)
  {
    if z != [] {
      var rest, last := z[..|z| - 1], z[|z| - 1];
      PruneSameTotal(rest, bound, start, f, settled);
      if last.score > bound - 1 {
        assert (Prune(rest, bound) + [last])[..|Prune(rest, bound)|] == Prune(rest, bound);
      }
    }
  }

  lemma {:induction false} OldTotalsNothing(z: seq<Scored>, start: int, f: Field, settled: set<string>)
    requires forall i :: 0 <= i < |z| ==> z[i].score < start
    ensures TotalExcept(z, start, f, settled) == 0
  {
    if z != [] {
      OldTotalsNothing(z[..|z| - 1], start, f, settled);
    }
  }

  lemma TotalAppend(z: seq<Scored>, e: Scored, start: int, f: Field, settled: set<string>)
    ensures TotalExcept(z + [e], start, f, settled) == TotalExcept(z, start, f, settled) + Share(e, start, f, settled)
  {
    assert (z + [e])[..|z|] == z;
  }

  /** Taking out a request's one unreconciled charge is leaving it out of the total. */
  lemma {:induction false} RemoveTotal(z: seq<Scored>, m: Charge, start: int, f: Field, settled: set<string>)
    requires !m.reconciled
    requires forall i :: 0 <= i < |z| && z[i].member.id == m.id ==> z[i].member == m
    ensures TotalExcept(Remove(z, m), start, f, settled) == TotalExcept(z, start, f, settled + {m.id})
  {
    if z != [] {
      var rest, last := z[..|z| - 1], z[|z| - 1];
      RemoveTotal(rest, m, start, f, settled);
      if last.member == m {
        assert Share(last, start, f, settled + {m.id}) == 0;
      } else {
        assert last.member.id != m.id;
        assert Share(last, start, f, settled) == Share(last, start, f, settled + {m.id});
        TotalAppend(Remove(rest, m), last, start, f, settled);
      }
    }
  }

  lemma {:induction false} AbsentTotal(z: seq<Scored>, id: string, start: int, f: Field, settled: set<string>)
    requires forall i :: 0 <= i < |z| ==> z[i].member.id != id
    ensures TotalExcept(z, start, f, settled - {id}) == TotalExcept(z, start, f, settled)
  {
    if z != [] {
      AbsentTotal(z[..|z| - 1], id, start, f, settled);
    }
  }

  // ---------- Structure of pruned and rewritten sets ----------

  lemma {:induction false} PruneDistinct(z: seq<Scored>, start: int)
    requires forall i, j :: 0 <= i < j < |z| ==> z[i].member.id != z[j].member.id
    ensures var p := Prune(z, start);
            forall i, j :: 0 <= i < j < |p| ==> p[i].member.id != p[j].member.id
  {
    if z != [] {
      var rest, last := z[..|z| - 1], z[|z| - 1];
      PruneDistinct(rest, start);
      var p := Prune(rest, start);
      forall i | 0 <= i < |p|
        ensures p[i].member.id != last.member.id
      {
        PruneKeeps(rest, start, p[i]);
      }
    }
  }

  lemma {:induction false} RemoveDistinct(z: seq<Scored>, m: Charge)
    requires forall i, j :: 0 <= i < j < |z| ==> z[i].member.id != z[j].member.id
    ensures var p := Remove(z, m);
            forall i, j :: 0 <= i < j < |p| ==> p[i].member.id != p[j].member.id
  {
    if z != [] {
      var rest, last := z[..|z| - 1], z[|z| - 1];
      RemoveDistinct(rest, m);
      var p := Remove(rest, m);
      forall i | 0 <= i < |p|
        ensures p[i].member.id != last.member.id
      {
        RemoveKeeps(rest, m, p[i]);
      }
    }
  }

  /** Time passing breaks nothing. */
  lemma Advance(w: Window, s: State, now: nat, server: int, now': nat, server': int)
    requires Defined(w) && Inv(w, s, now, server) && now <= now' && server <= server'
    ensures Inv(w, s, now', server')
  {
    StartMonotone(w, now, now');
  }

  /** When the set's key expires, everything in it has already left the window. */
  lemma ExpireKeeps(w: Window, s: State, now: nat, server: int)
    requires Defined(w) && Retained(w) && Inv(w, s, now, server) && Close(now, server)
    ensures Inv(w, s.(store := Expire(s.store, server)), now, server)
  {
    var z := s.store.zset;
    if z != [] && server >= s.store.zDeadline {
      forall i | 0 <= i < |z|
        ensures z[i].score < Start(w, now)
      {
        if z[i].score >= Start(w, now) {
          InWindowAge(w, z[i].score, now);
        }
      }
      forall start, f, settled | start >= Start(w, now)
        ensures TotalSince(s.journal, start, f, settled) == TotalExcept([], start, f, settled)
      {
        OldTotalsNothing(z, start, f, settled);
      }
    }
  }

  /** Pruning below the current start changes no total from that start on. */
  lemma PruneInv(w: Window, s: State, now: nat, server: int)
    requires Defined(w) && Inv(w, s, now, server)
    ensures Inv(w, s.(store := s.store.(zset := Prune(s.store.zset, Start(w, now)))), now, server)
  {
    var z, start := s.store.zset, Start(w, now);
    var p := Prune(z, start);
    PruneDistinct(z, start);
    forall i | 0 <= i < |p|
      ensures p[i] in z
    {
      PruneKeeps(z, start, p[i]);
    }
    forall start', f, settled | start' >= start
      ensures TotalSince(s.journal, start', f, settled) == TotalExcept(p, start', f, settled)
    {
      PruneSameTotal(z, start, start', f, settled);
    }
  }

  lemma PrunedInv(w: Window, s: State, now: nat, server: int)
    requires Defined(w) && Retained(w) && Inv(w, s, now, server) && Close(now, server)
    ensures Inv(w, s.(store := Pruned(s.store, Start(w, now), server)), now, server)
  {
    ExpireKeeps(w, s, now, server);
    PruneInv(w, s.(store := Expire(s.store, server)), now, server);
  }

  /** Writing a charge for a request that has none in the set keeps the structure. */
  lemma WriteAgrees(w: Window, s: Store, m: Charge, now: nat, server: int)
    requires Agrees(s) && Kept(w, s, server) && Close(now, server)
    requires forall i :: 0 <= i < |s.zset| ==> s.zset[i].member.id != m.id
    ensures var s' := Write(s, m, now, server + TtlMs(w));
            s'.zset == s.zset + [Scored(m, now)] && Agrees(s') && Kept(w, s', server)
  {
    RemoveAbsent(s.zset, m);
  }

  /** Writing a charge and its journal entry keeps index and journal in step. */
  lemma WriteRecorded(s: Store, j: seq<Entry>, e: Entry, m: Charge, now: int, deadline: int)
    requires Recorded(s, j) && m.id == e.id && m.values == e.values && (e.Settled? <==> m.reconciled)
    ensures Recorded(Write(s, m, now, deadline), j + [e])
  {
    assert (j + [e])[..|j|] == j;
  }

  lemma ReserveInv(w: Window, s: State, id: string, values: Values, now: nat, server: int)
    requires Defined(w) && Inv(w, s, now, server) && Close(now, server) && id !in s.store.index
    ensures Inv(w, State(Write(s.store, Charge(id, values, false), now, server + TtlMs(w)),
                         s.journal + [Reserved(id, values, now)]), now, server)
  {
    var m, z, e := Charge(id, values, false), s.store.zset, Reserved(id, values, now);
    WriteAgrees(w, s.store, m, now, server);
    WriteRecorded(s.store, s.journal, e, m, now, server + TtlMs(w));
    assert (s.journal + [e])[..|s.journal|] == s.journal;
    forall start, f, settled | start >= Start(w, now)
      ensures TotalSince(s.journal + [e], start, f, settled) == TotalExcept(z + [Scored(m, now)], start, f, settled)
    {
      AbsentTotal(z, id, start, f, settled);
      assert TotalSince(s.journal, start, f, settled - {id}) == TotalExcept(z, start, f, settled - {id});
      TotalAppend(z, Scored(m, now), start, f, settled);
    }
  }

  /** Freeing a request's charge leaves a set with nothing of that request in it. */
  lemma FreeAgrees(w: Window, s: Store, id: string, server: int)
    requires Agrees(s) && Kept(w, s, server) && id in s.index
    ensures var freed := s.(zset := Remove(s.zset, s.index[id]));
            && Agrees(freed) && Kept(w, freed, server)
            && (forall i :: 0 <= i < |freed.zset| ==> freed.zset[i].member.id != id)
  {
    var freed := Remove(s.zset, s.index[id]);
    RemoveDistinct(s.zset, s.index[id]);
    forall i | 0 <= i < |freed|
      ensures freed[i] in s.zset && freed[i].member.id != id
    {
      RemoveKeeps(s.zset, s.index[id], freed[i]);
    }
  }

  lemma SettleTracks(w: Window, s: State, id: string, values: Values, now: nat)
    requires Defined(w) && Tracks(w, s, now) && Agrees(s.store)
    requires id in s.store.index && !s.store.index[id].reconciled
    ensures var freed := Remove(s.store.zset, s.store.index[id]);
            Tracks(w, State(s.store.(zset := freed + [Scored(Charge(id, values, true), now)]),
                            s.journal + [Settled(id, values, now)]), now)
  {
    var z, current, e := s.store.zset, s.store.index[id], Settled(id, values, now);
    var freed, x := Remove(z, current), Scored(Charge(id, values, true), now);
    assert (s.journal + [e])[..|s.journal|] == s.journal;
    forall start, f, settled | start >= Start(w, now)
      ensures TotalSince(s.journal + [e], start, f, settled) == TotalExcept(freed + [x], start, f, settled)
    {
      RemoveTotal(z, current, start, f, settled);
      assert TotalSince(s.journal, start, f, settled + {id}) == TotalExcept(z, start, f, settled + {id});
      TotalAppend(freed, x, start, f, settled);
    }
  }

  lemma SettleInv(w: Window, s: State, id: string, values: Values, now: nat, server: int)
    requires Defined(w) && Inv(w, s, now, server) && Close(now, server)
    requires id in s.store.index && !s.store.index[id].reconciled
    ensures var freed := s.store.(zset := Remove(s.store.zset, s.store.index[id]));
            Inv(w, State(Write(freed, Charge(id, values, true), now, server + TtlMs(w)),
                         s.journal + [Settled(id, values, now)]), now, server)
  {
    var freed, m := s.store.(zset := Remove(s.store.zset, s.store.index[id])), Charge(id, values, true);
    FreeAgrees(w, s.store, id, server);
    WriteAgrees(w, freed, m, now, server);
    WriteRecorded(freed, s.journal, Settled(id, values, now), m, now, server + TtlMs(w));
    SettleTracks(w, s, id, values, now);
  }

  lemma ReserveStepInv(k: Config, s: State, c: Call)
    requires Defined(k.window) && Retained(k.window) && c.action.Reserve?
    requires Inv(k.window, s, c.now, c.server) && Close(c.now, c.server)
    ensures Inv(k.window, Step(k, s, c), c.now, c.server)
  {
    var w, start := k.window, Start(k.window, c.now);
    PrunedInv(w, s, c.now, c.server);
    var p := s.(store := Pruned(s.store, start, c.server));
    if RunScript(k, s.store, c).1.Allowed? {
      ReserveInv(w, p, c.action.id, c.action.values, c.now, c.server);
    } else {
      assert s.journal + [] == s.journal;
    }
  }

  lemma ReconcileStepInv(k: Config, s: State, c: Call)
    requires Defined(k.window) && Retained(k.window) && c.action.Reconcile?
    requires Inv(k.window, s, c.now, c.server) && Close(c.now, c.server)
    ensures Inv(k.window, Step(k, s, c), c.now, c.server)
  {
    ExpireKeeps(k.window, s, c.now, c.server);
    var e := s.(store := Expire(s.store, c.server));
    if RunScript(k, s.store, c).1.applied {
      SettleInv(k.window, e, c.action.id, c.action.observed, c.now, c.server);
    } else {
      assert s.journal + [] == s.journal;
    }
  }

  lemma StepInv(k: Config, s: State, c: Call)
    requires Defined(k.window) && Retained(k.window)
    requires Inv(k.window, s, c.now, c.server) && Close(c.now, c.server)
    ensures Inv(k.window, Step(k, s, c), c.now, c.server)
  {
    match c.action {
      case Reserve(_, _) => ReserveStepInv(k, s, c);
      case Reconcile(_, _) => ReconcileStepInv(k, s, c);
      case Inspect =>
        PrunedInv(k.window, s, c.now, c.server);
        assert s.journal + [] == s.journal;
    }
  }

  lemma {:induction false} RunInv(k: Config, calls: seq<Call>, now: nat, server: int)
    requires Defined(k.window) && Retained(k.window) && Clocked(calls)
    requires calls != [] ==> calls[|calls| - 1].now <= now && calls[|calls| - 1].server <= server
    ensures Inv(k.window, Run(k, calls), now, server)
  {
    if calls != [] {
      var rest, c := calls[..|calls| - 1], calls[|calls| - 1];
      RunInv(k, rest, c.now, c.server);
      StepInv(k, Run(k, rest), c);
      Advance(k.window, Run(k, calls), c.now, c.server, now, server);
    }
  }
}
