/** A chat request from its reservation on: cache, lock, provider, stream, and how its reservation
    is settled on each way out. */
module Settlement {
  import opened Options
  import Replay
  import opened UsageLimits
  import opened UsageTracker
  import opened UsageWindow
  import opened WindowBounds

  datatype Effect =
    | Settle(provider: Values, served: Values)
    | Unlocked(token: string)
    | Recorded(usage: Replay.Usage)
    | Cached

  function UsageOf(input: nat, output: nat, cost: nat): Values {
    Values(1, input, output, input + output, cost)
  }

  const NOTHING := UsageOf(0, 0, 0)

  function Tokens(t: Option<nat>): nat {
    if t.Some? then t.value else 0
  }

  function ReplayedUsage(u: Replay.Usage): Values {
    UsageOf(Tokens(u.inputTokens), Tokens(u.outputTokens), 0)
  }

  function Observed(u: Replay.Usage, cost: nat): Values {
    UsageOf(Tokens(u.inputTokens), Tokens(u.outputTokens), cost)
  }

  /** What the semantic cache does with a request that reaches it. */
  datatype Semantic = Skipped | Breaks | Missed | Serves(usage: Replay.Usage)

  /** What the provider answers: an error, a whole response, or a stream of events that may break
      off, by its own error or because the client has gone. */
  datatype Provider = Throws | Whole(response: Replay.Response) | Streams(events: seq<Replay.Event>, broken: bool)

  /** What a run meets. `reserved` says that every window granted the request, `caching` that it may
      use the exact cache, `looking` that it may also be answered from it, `recordFails` that
      something after settling fails; `length` measures a response's JSON text. */
  datatype Scenario = Scenario(reserved: bool, caching: bool, looking: bool, hit: Option<Replay.Usage>,
                               token: string, locked: bool, populated: Option<Replay.Usage>,
                               semantic: Semantic, provider: Provider, cost: nat, recordFails: bool,
                               noStore: bool, length: Replay.Response -> nat, maxBytes: nat)

  // ---------- Which way a run goes ----------

  predicate ServedFromExact(c: Scenario) {
    c.caching && ((c.looking && c.hit.Some?) || (!c.locked && c.populated.Some?))
  }

  /** The error leaves before anything would settle the request. */
  predicate BreaksOutsideTry(c: Scenario) {
    !c.reserved || (!ServedFromExact(c) && c.semantic.Breaks?)
  }

  predicate ReachesProvider(c: Scenario) {
    c.reserved && !ServedFromExact(c) && !c.semantic.Breaks? && !c.semantic.Serves?
  }

  predicate Stores(c: Scenario, r: Replay.Response) {
    !c.recordFails && !c.noStore && Replay.ResponseEligible(r, c.length, c.maxBytes) && c.caching
  }

  /** The response a run through the provider ends with, if any. */
  function Completed(c: Scenario): Option<Replay.Response> {
    match c.provider
    case Throws => None
    case Whole(response) => Some(response)
    case Streams(events, broken) => if broken then None else Replay.Final(events)
  }

  function DueFor(response: Option<Replay.Response>, cost: nat): Effect {
    if response.None? then Settle(NOTHING, NOTHING)
    else Settle(Observed(response.value.usage, cost), Observed(response.value.usage, cost))
  }

  /** What the reservation is to be settled with. */
  function Due(c: Scenario): Effect {
    if c.caching && c.looking && c.hit.Some? then Settle(NOTHING, ReplayedUsage(c.hit.value))
    else if ServedFromExact(c) then Settle(NOTHING, ReplayedUsage(c.populated.value))
    else if c.semantic.Serves? then Settle(NOTHING, ReplayedUsage(c.semantic.usage))
    else DueFor(Completed(c), c.cost)
  }

  // ---------- What a run is to be charged ----------

  /** One request and nothing else. */
  predicate OnlyRequest(v: Values) {
    && v.Get(Requests) == 1 && v.Get(InputTokens) == 0 && v.Get(OutputTokens) == 0
    && v.Get(TotalTokens) == 0 && v.Get(CostEquivalentMicros) == 0
  }

  /** One request with the tokens that were reported, none where none were, and a cost. */
  predicate Counts(v: Values, u: Replay.Usage, cost: nat) {
    && v.Get(Requests) == 1
    && (match u.inputTokens case Some(n) => v.Get(InputTokens) == n case None => v.Get(InputTokens) == 0)
    && (match u.outputTokens case Some(n) => v.Get(OutputTokens) == n case None => v.Get(OutputTokens) == 0)
    && v.Get(TotalTokens) == v.Get(InputTokens) + v.Get(OutputTokens)
    && v.Get(CostEquivalentMicros) == cost
  }

  /** The usage of the cached response that answers a run, if one does. */
  function FromCache(c: Scenario): Option<Replay.Usage> {
    if c.caching && c.looking && c.hit.Some? then c.hit
    else if ServedFromExact(c) then c.populated
    else if c.semantic.Serves? then Some(c.semantic.usage)
    else None
  }

  /** A run answered from a cache costs its provider one request and is served what was cached; one
      that the provider answers counts in full on both sides; one without a response is one request. */
  ghost predicate Fair(c: Scenario, provider: Values, served: Values) {
    if FromCache(c).Some? then OnlyRequest(provider) && Counts(served, FromCache(c).value, 0)
    else if Completed(c).Some? then
      Counts(provider, Completed(c).value.usage, c.cost) && Counts(served, Completed(c).value.usage, c.cost)
    else OnlyRequest(provider) && OnlyRequest(served)
  }

  lemma DueIsFair(c: Scenario)
    ensures Due(c).Settle? && Fair(c, Due(c).provider, Due(c).served)
  {
  }

  /** What that makes of a window's charge: a window that counts requests gets one, one that counts
      provider usage gets nothing more for an answer from a cache, and one that counts served usage
      gets what the client got. */
  ghost predicate FairCharge(c: Scenario, basis: Basis, v: Values) {
    match basis
    case RequestsOnly => OnlyRequest(v)
    case Provider =>
      if FromCache(c).None? && Completed(c).Some? then Counts(v, Completed(c).value.usage, c.cost) else OnlyRequest(v)
    case Served =>
      if FromCache(c).Some? then Counts(v, FromCache(c).value, 0)
      else if Completed(c).Some? then Counts(v, Completed(c).value.usage, c.cost)
      else OnlyRequest(v)
  }

  lemma SelectedIsFair(c: Scenario, basis: Basis, provider: Values, served: Values)
    requires Fair(c, provider, served)
    ensures FairCharge(c, basis, Select(basis, provider, served))
  {
    hide Completed, FromCache;
  }

  function Settlements(log: seq<Effect>): seq<Effect> {
    if log == [] then []
    else Settlements(log[..|log| - 1]) + (if log[|log| - 1].Settle? then [log[|log| - 1]] else [])
  }

  /** The first settlement is the one due, and any later one settles with nothing. */
  predicate SettledWith(log: seq<Effect>, due: Effect) {
    var s := Settlements(log);
    s != [] && s[0] == due && forall i :: 0 < i < |s| ==> s[i] == Settle(NOTHING, NOTHING)
  }

  lemma {:induction false} SettlementsJoin(a: seq<Effect>, b: seq<Effect>)
    ensures Settlements(a + b) == Settlements(a) + Settlements(b)
  {
    if b == [] {
      assert a + b == a;
    } else {
      SettlementsJoin(a, b[..|b| - 1]);
      assert (a + b)[..|a + b| - 1] == a + b[..|b| - 1];
    }
  }

  lemma SettledOnce(log: seq<Effect>, due: Effect)
    requires Settlements(log) == [due]
    ensures SettledWith(log, due)
  {
  }

  lemma FirstIsDue(c: Scenario)
    ensures forall log :: SettledWith(log, Due(c)) ==> Settlements(log) != [] && Settlements(log)[0] == Due(c)
  {
  }

  lemma NotSettled(due: Effect)
    ensures Settlements([]) == [] && !SettledWith([], due)
  {
  }

  lemma OneSettlement(e: Effect)
    ensures Settlements([e]) == if e.Settle? then [e] else []
  {
    assert [e][..0] == [];
  }

  // ---------- The run ----------

  class Request {
    const scenario: Scenario
    var log: seq<Effect>
    var gauge: int
    var active: bool

    constructor (scenario: Scenario, gauge: int)
      ensures this.scenario == scenario && log == [] && this.gauge == gauge && !active
    {
      this.scenario, log, this.gauge, active := scenario, [], gauge, false;
    }

    method Do(e: Effect)
      modifies this`log
      ensures log == old(log) + [e]
      ensures Settlements(log) == Settlements(old(log)) + (if e.Settle? then [e] else [])
    {
      SettlementsJoin(log, [e]);
      OneSettlement(e);
      log := log + [e];
    }

    method ReleaseActive()
      modifies this`gauge, this`active
      ensures !active && gauge == if old(active) then old(gauge) - 1 else old(gauge)
    {
      if !active {
        return;
      }
      active := false;
      gauge := gauge - 1;
    }

    /** Settles with what was observed, or with nothing, and gives the lock back whatever fails. */
    method Finalize(response: Option<Replay.Response>, lockToken: Option<string>) returns (threw: bool)
      modifies this
      ensures !active && gauge == if old(active) then old(gauge) - 1 else old(gauge)
      ensures old(log) <= log
      ensures Settlements(log) == Settlements(old(log)) + [DueFor(response, scenario.cost)]
      ensures Cached in log <==> Cached in old(log) || (response.Some? && Stores(scenario, response.value))
      ensures lockToken.Some? ==> Unlocked(lockToken.value) in log
      ensures forall t :: Unlocked(t) in log ==> Unlocked(t) in old(log) || lockToken == Some(t)
      ensures forall u :: Recorded(u) in log ==>
        Recorded(u) in old(log) || (response.Some? && u == response.value.usage)
      ensures response.Some? && !scenario.recordFails ==> Recorded(response.value.usage) in log
      ensures threw <==> response.Some? && scenario.recordFails
    {
      hide Settlements, Observed, Replay.ResponseEligible;
      threw := false;
      ReleaseActive();
      if response.None? {
        Do(Settle(NOTHING, NOTHING));
      } else {
        var observed := Observed(response.value.usage, scenario.cost);
        Do(Settle(observed, observed));
        if scenario.recordFails {
          threw := true;
        } else {
          Do(Recorded(response.value.usage));
          var eligible := Replay.ResponseEligible(response.value, scenario.length, scenario.maxBytes);
          if !scenario.noStore && eligible && scenario.caching {
            Do(Cached);
          }
        }
      }
      if lockToken.Some? {
        Do(Unlocked(lockToken.value));
      }
    }

    /** From the provider call on: an error settles with nothing, and so, a second time, does a
        failure after settling. */
    method CallProvider(lockToken: Option<string>) returns (threw: bool)
      requires !active && Settlements(log) == []
      modifies this
      ensures !active && gauge == old(gauge)
      ensures SettledWith(log, DueFor(Completed(scenario), scenario.cost)) && |Settlements(log)| <= 2
      ensures lockToken.Some? ==> Unlocked(lockToken.value) in log
      ensures forall t :: Unlocked(t) in log ==> Unlocked(t) in old(log) || lockToken == Some(t)
      ensures threw <==> scenario.provider.Throws? || (scenario.provider.Whole? && scenario.recordFails)
      ensures Cached in log <==>
        Cached in old(log) || (Completed(scenario).Some? && Stores(scenario, Completed(scenario).value))
    {
      hide Settlements, Replay.Final, Replay.ResponseEligible, Stores;
      gauge := gauge + 1;
      active := true;
      threw := false;
      match scenario.provider {
        case Throws =>
          threw := true;
        case Whole(response) =>
          threw := Finalize(Some(response), lockToken);
        case Streams(events, broken) =>
          var chunks, completed := Replay.StreamResponse(events, broken, false);
          var late := Finalize(completed, lockToken);
      }
      ghost var settled := Settlements(log);
      if threw {
        ReleaseActive();
        if lockToken.Some? {
          Do(Unlocked(lockToken.value));
        }
        Do(Settle(NOTHING, NOTHING));
        assert Settlements(log) == settled + [Settle(NOTHING, NOTHING)];
      }
    }

    /** Except when a window refuses the request or the semantic stage breaks, every run settles its
        reservation once with what is due, restores the gauge, and offers back a lock it took; the
        zero settlement that the error path adds comes second. What is due is what the run used. A run
        that ends there settles nothing and keeps its lock; no other token is ever offered back. */
    method Execute() returns (threw: bool)
      requires log == [] && !active
      modifies this
      ensures SettledWith(log, Due(scenario)) <==> !BreaksOutsideTry(scenario)
      ensures !BreaksOutsideTry(scenario) ==>
        && Settlements(log) != [] && Settlements(log)[0].Settle?
        && Fair(scenario, Settlements(log)[0].provider, Settlements(log)[0].served)
      ensures BreaksOutsideTry(scenario) ==> log == [] && threw
      ensures !active && gauge == old(gauge)
      ensures forall t :: Unlocked(t) in log <==>
        && !BreaksOutsideTry(scenario) && t == scenario.token
        && scenario.caching && scenario.locked && (scenario.looking ==> scenario.hit.None?)
      ensures threw <==>
        || BreaksOutsideTry(scenario)
        || (ReachesProvider(scenario)
            && (scenario.provider.Throws? || (scenario.provider.Whole? && scenario.recordFails)))
      ensures Cached in log <==>
        && ReachesProvider(scenario) && Completed(scenario).Some?
        && scenario.caching && !scenario.noStore && !scenario.recordFails
        && Replay.ResponseEligible(Completed(scenario).value, scenario.length, scenario.maxBytes)
      ensures |Settlements(log)| <= 2
    {
      hide Settlements, SettledWith, DueFor, Completed, ReplayedUsage, Fair;
      var c := scenario;
      DueIsFair(c);
      FirstIsDue(c);
      NotSettled(Due(c));
      if !c.reserved {
        return true;
      }
      var lockToken: Option<string> := None;
      if c.caching && c.looking {
        if c.hit.Some? {
          Do(Settle(NOTHING, ReplayedUsage(c.hit.value)));
          SettledOnce(log, Due(c));
          return false;
        }
      }
      if c.caching {
        lockToken := if c.locked then Some(c.token) else None;
        if lockToken.None? && c.populated.Some? {
          Do(Settle(NOTHING, ReplayedUsage(c.populated.value)));
          SettledOnce(log, Due(c));
          return false;
        }
      }
      if c.semantic.Breaks? {
        return true;
      }
      if c.semantic.Serves? {
        Do(Settle(NOTHING, ReplayedUsage(c.semantic.usage)));
        if lockToken.Some? {
          Do(Unlocked(lockToken.value));
        }
        SettledOnce(log, Due(c));
        return false;
      }
      threw := CallProvider(lockToken);
    }
  }

  // ---------- Against a usage window ----------

  /** What a request's run tells a window that counts by `basis`. */
  function Told(log: seq<Effect>, basis: Basis): seq<Values> {
    if log == [] then []
    else
      var last := log[|log| - 1];
      Told(log[..|log| - 1], basis) + if last.Settle? then [Select(basis, last.provider, last.served)] else []
  }

  lemma {:induction false} ToldSettlements(log: seq<Effect>, basis: Basis)
    ensures |Told(log, basis)| == |Settlements(log)|
    ensures forall i :: 0 <= i < |Settlements(log)| ==>
      && Settlements(log)[i].Settle?
      && Told(log, basis)[i] == Select(basis, Settlements(log)[i].provider, Settlements(log)[i].served)
  {
    if log != [] {
      ToldSettlements(log[..|log| - 1], basis);
    }
  }

  /** What a window is told about a request, among all its calls. */
  function Observations(calls: seq<Call>, id: string): seq<Values> {
    if calls == [] then []
    else (if Settles(calls[0], id) then [calls[0].action.observed] else []) + Observations(calls[1..], id)
  }

  lemma {:induction false} FirstObservation(calls: seq<Call>, id: string) returns (i: nat)
    requires Observations(calls, id) != []
    ensures i < |calls| && Settles(calls[i], id) && Observations(calls, id)[0] == calls[i].action.observed
    ensures forall j :: 0 <= j < i ==> !Settles(calls[j], id)
  {
    i := 0;
    if !Settles(calls[0], id) {
      i := FirstObservation(calls[1..], id);
      i := i + 1;
    }
  }

  lemma ReservedIsOpen(k: Config, calls: seq<Call>)
    requires Defined(k.window) && calls != [] && calls[|calls| - 1].action.Reserve?
    requires RunScript(k, Run(k, calls[..|calls| - 1]).store, calls[|calls| - 1]).1.Allowed?
    ensures var id := calls[|calls| - 1].action.id;
            id in Run(k, calls).store.index && !Run(k, calls).store.index[id].reconciled
  {
    RunLast(k, calls);
  }

  /** Settled once, end to end. A window grants a request as the last of its first `n` calls, and is
      then told what the request's run settled, among any calls for other requests. As long as its
      index lives, the request's charge is what was due, and the journal settles it exactly once
      more than before; so exactly once, if its identifier was never settled before. */
  lemma DueStands(k: Config, calls: seq<Call>, n: nat, log: seq<Effect>, due: Effect, basis: Basis)
    requires Defined(k.window) && 0 < n <= |calls| && calls[n - 1].action.Reserve?
    requires RunScript(k, Run(k, calls[..n - 1]).store, calls[n - 1]).1.Allowed?
    requires IndexLives(k, calls, n)
    requires SettledWith(log, due)
    requires Observations(calls[n..], calls[n - 1].action.id) == Told(log, basis)
    ensures var id, s := calls[n - 1].action.id, Run(k, calls);
            && due.Settle? && id in s.store.index
            && s.store.index[id] == Charge(id, Select(basis, due.provider, due.served), true)
            && SettledCount(s.journal, id) == SettledCount(Run(k, calls[..n]).journal, id) + 1
            && ((forall j :: 0 <= j < n ==> !Settles(calls[j], id)) ==> SettledCount(s.journal, id) == 1)
  {
    hide Run, RunScript, SettledCount, Settlements, IndexLives;
    var id := calls[n - 1].action.id;
    assert calls[..n][..n - 1] == calls[..n - 1];
    ReservedIsOpen(k, calls[..n]);
    ToldSettlements(log, basis);
    var i := FirstObservation(calls[n..], id);
    assert forall j :: n <= j < n + i ==> calls[j] == calls[n..][j - n];
    FirstSettlementStands(k, calls, n, n + i, id);
    if forall j :: 0 <= j < n ==> !Settles(calls[j], id) {
      NeverSettled(k, calls[..n], id);
    }
  }

  /** So the window's charge, in the end, is what the run used, counted by the window's basis. */
  lemma ChargedFairly(k: Config, calls: seq<Call>, n: nat, log: seq<Effect>, c: Scenario, basis: Basis)
    requires Defined(k.window) && 0 < n <= |calls| && calls[n - 1].action.Reserve?
    requires RunScript(k, Run(k, calls[..n - 1]).store, calls[n - 1]).1.Allowed?
    requires IndexLives(k, calls, n)
    requires SettledWith(log, Due(c))
    requires Observations(calls[n..], calls[n - 1].action.id) == Told(log, basis)
    ensures var id, s := calls[n - 1].action.id, Run(k, calls);
            && id in s.store.index && s.store.index[id].reconciled
            && FairCharge(c, basis, s.store.index[id].values)
  {
    hide Run, RunScript, SettledWith, IndexLives, Due, Told, Observations, FairCharge, Fair;
    DueStands(k, calls, n, log, Due(c), basis);
    DueIsFair(c);
    SelectedIsFair(c, basis, Due(c).provider, Due(c).served);
  }
}
