/** Reserving, settling and inspecting a request over every configured window in turn. */
module UsageTracker {
  import opened Options
  import opened UsageLimits
  import opened UsageWindow
  import opened WindowBounds

  datatype Operation = Chat | Embedding | Mcp

  datatype Basis = Provider | Served | RequestsOnly

  /** An unset scope part is the empty string, which matches everything. */
  datatype Scope = Scope(client: string, provider: string, model: string)

  /** A configured window. */
  datatype Rule = Rule(config: Config, scope: Scope, operations: set<Operation>, basis: Basis)

  /** One request's reservation, with the store's clock as each window's script runs. */
  datatype Reservation = Reservation(id: string, values: Values, who: Scope, op: Operation, now: nat, servers: seq<int>)

  datatype Verdict = Granted(warning: bool) | Exhausted(window: nat, field: Field)

  datatype Status = Ok | Warning | Spent

  datatype WindowStatus = WindowStatus(window: nat, basis: Basis, used: Values, status: Status, resetAt: int)

  predicate ScopeMatches(scope: Scope, who: Scope) {
    && (scope.client == "" || scope.client == who.client)
    && (scope.provider == "" || scope.provider == who.provider)
    && (scope.model == "" || scope.model == who.model)
  }

  predicate Applies(r: Rule, who: Scope, op: Operation) {
    op in r.operations && ScopeMatches(r.scope, who)
  }

  function Select(basis: Basis, provider: Values, served: Values): Values {
    match basis
    case Provider => provider
    case Served => served
    case RequestsOnly => ZERO.(requests := served.requests)
  }

  function StatusOf(used: Values, hard: Limits, soft: Limits): Status {
    if exists f :: f in hard && used.Get(f) >= hard[f] then Spent
    else if exists f :: f in soft && used.Get(f) >= soft[f] then Warning
    else Ok
  }

  /** Which of a window's counters a request goes to: one for each client, provider or model that the
      window's scope tells apart. */
  function KeysFor(scope: Scope, who: Scope): Scope {
    Scope(if scope.client == "" then "*" else who.client,
          if scope.provider == "" then "*" else who.provider,
          if scope.model == "" then "*" else who.model)
  }

  /** A window has one counter: of the requests that share it with one that matches, all match, and no
      other does. */
  lemma MatchingShareKeys(scope: Scope, a: Scope, b: Scope)
    requires ScopeMatches(scope, a)
    ensures ScopeMatches(scope, b) <==> KeysFor(scope, b) == KeysFor(scope, a)
  {
  }

  /** A window is reported spent exactly when a request that uses one of everything would be refused, and
      otherwise with a warning exactly when its soft limits would give one. */
  lemma StatusForetells(used: Values, hard: Limits, soft: Limits)
    ensures StatusOf(used, hard, soft).Spent? <==> Exceeds(used.Plus(Values(1, 1, 1, 1, 1)), hard)
    ensures StatusOf(used, hard, soft).Warning? <==> !StatusOf(used, hard, soft).Spent? && Warns(used, soft)
  {
    var more := used.Plus(Values(1, 1, 1, 1, 1));
    assert forall f: Field :: more.Get(f) == used.Get(f) + 1;
  }

  // ---------- Reserving over the windows in turn ----------

  predicate Ready(rules: seq<Rule>, states: seq<State>, servers: seq<int>) {
    && |rules| == |states| == |servers|
    && forall i :: 0 <= i < |rules| ==> Defined(rules[i].config.window)
  }

  /** The windows after a reservation, the one that refused it if any did, and whether one warned. */
  datatype Pass = Pass(states: seq<State>, refused: Option<nat>, warning: bool)

  function CallAt(q: Reservation, i: nat): Call
    requires i < |q.servers|
  {
    Call(UsageWindow.Reserve(q.id, q.values), q.now, q.servers[i])
  }

  function Answer(rules: seq<Rule>, states: seq<State>, q: Reservation, i: nat): Outcome
    requires Ready(rules, states, q.servers) && i < |rules|
  {
    RunScript(rules[i].config, states[i].store, CallAt(q, i)).1
  }

  /** From window `i` on, up to the first that refuses. */
  function ReserveFrom(rules: seq<Rule>, states: seq<State>, q: Reservation, i: nat, warning: bool): Pass
    requires Ready(rules, states, q.servers) && i <= |rules|
    decreases |rules| - i
  {
    if i == |rules| then Pass(states, None, warning)
    else if !Applies(rules[i], q.who, q.op) then ReserveFrom(rules, states, q, i + 1, warning)
    else
      var out := Answer(rules, states, q, i);
      var states' := states[i := Step(rules[i].config, states[i], CallAt(q, i))];
      if out.Rejected? then Pass(states', Some(i), warning)
      else ReserveFrom(rules, states', q, i + 1, warning || (out.Allowed? && out.warning))
  }

  predicate Reached(p: Pass, i: nat) {
    p.refused.Some? ==> i <= p.refused.value
  }

  /** What a reservation over the windows from `i` on comes to, window by window. */
  ghost predicate Charges(rules: seq<Rule>, states: seq<State>, q: Reservation, i: nat, p: Pass)
    requires Ready(rules, states, q.servers) && i <= |rules|
  {
    && |p.states| == |states|
    && (forall j :: 0 <= j < |rules| ==>
          p.states[j] == (if i <= j && Reached(p, j) && Applies(rules[j], q.who, q.op)
                          then Step(rules[j].config, states[j], CallAt(q, j)) else states[j]))
    && (p.refused.Some? ==>
          && i <= p.refused.value < |rules|
          && Applies(rules[p.refused.value], q.who, q.op) && Answer(rules, states, q, p.refused.value).Rejected?)
    && (forall j :: i <= j < |rules| && Reached(p, j) && Applies(rules[j], q.who, q.op) && p.refused != Some(j) ==>
          !Answer(rules, states, q, j).Rejected?)
  }

  ghost predicate Warned(rules: seq<Rule>, states: seq<State>, q: Reservation, i: nat)
    requires Ready(rules, states, q.servers)
  {
    exists j :: i <= j < |rules| && Applies(rules[j], q.who, q.op)
      && Answer(rules, states, q, j).Allowed? && Answer(rules, states, q, j).warning
  }

  /** Windows are charged in order up to the first that refuses, those after it are untouched and
      those before it stay charged; the answer is a warning exactly when a window warned. */
  lemma {:induction false} ReserveCharges(rules: seq<Rule>, states: seq<State>, q: Reservation, i: nat, warning: bool)
    requires Ready(rules, states, q.servers) && i <= |rules|
    ensures Charges(rules, states, q, i, ReserveFrom(rules, states, q, i, warning))
    ensures var p := ReserveFrom(rules, states, q, i, warning);
            p.refused.None? ==> (p.warning <==> warning || Warned(rules, states, q, i))
    decreases |rules| - i
  {
    hide RunScript, Step;
    if i < |rules| {
      var out := Answer(rules, states, q, i);
      if !Applies(rules[i], q.who, q.op) {
        ReserveCharges(rules, states, q, i + 1, warning);
      } else {
        var states' := states[i := Step(rules[i].config, states[i], CallAt(q, i))];
        ReserveCharges(rules, states', q, i + 1, warning || (out.Allowed? && out.warning));
        assert forall j :: i < j < |rules| ==> Answer(rules, states', q, j) == Answer(rules, states, q, j);
      }
    }
  }

  // ---------- What a refused request leaves behind ----------

  /** The window's index has the request already. */
  predicate Holds(s: State, id: string, server: int) {
    id in s.store.index && server < s.store.iDeadline
  }

  lemma GrantGrows(k: Config, s: State, c: Call)
    requires Defined(k.window) && c.action.Reserve?
    ensures var out := RunScript(k, s.store, c).1;
            && (out.Allowed? || out.Rejected? || out.Idempotent?)
            && (out.Idempotent? <==> Holds(s, c.action.id, c.server))
            && Step(k, s, c).journal ==
               s.journal + if out.Allowed? then [Reserved(c.action.id, c.action.values, c.now)] else []
  {
  }

  ghost predicate NothingCharged(before: seq<State>, after: seq<State>)
    requires |before| == |after|
  {
    forall j :: 0 <= j < |before| ==> after[j].journal == before[j].journal
  }

  ghost predicate AllHeldBefore(rules: seq<Rule>, states: seq<State>, q: Reservation, r: nat)
    requires Ready(rules, states, q.servers) && r <= |rules|
  {
    forall j :: 0 <= j < r && Applies(rules[j], q.who, q.op) ==> Holds(states[j], q.id, q.servers[j])
  }

  /** Window `r` refuses the request in the state it is in. */
  predicate Refuses(rules: seq<Rule>, states: seq<State>, q: Reservation, r: nat)
    requires Ready(rules, states, q.servers) && r < |rules|
  {
    Applies(rules[r], q.who, q.op) && Answer(rules, states, q, r).Rejected?
  }

  /** A request is refused and leaves no charge exactly when some window refuses it that every
      applicable window before holds it already, all as the windows are before the call. */
  lemma RefusalLeavesNothingIff(rules: seq<Rule>, states: seq<State>, q: Reservation)
    requires Ready(rules, states, q.servers)
    ensures var p := ReserveFrom(rules, states, q, 0, false);
            && |p.states| == |states|
            && (p.refused.Some? <==> exists r :: 0 <= r < |rules| && Refuses(rules, states, q, r))
            && (p.refused.Some? && NothingCharged(states, p.states) <==>
                exists r :: 0 <= r < |rules| && Refuses(rules, states, q, r) && AllHeldBefore(rules, states, q, r))
  {
    hide ReserveFrom, RunScript, Step;
    var p := ReserveFrom(rules, states, q, 0, false);
    ReserveCharges(rules, states, q, 0, false);
    if r :| 0 <= r < |rules| && Refuses(rules, states, q, r) {
      assert p.refused.Some? && p.refused.value <= r;
    }
    if p.refused.Some? {
      RefusedAt(rules, states, q, p);
      assert Refuses(rules, states, q, p.refused.value);
      forall r | 0 <= r < |rules| && Refuses(rules, states, q, r) && AllHeldBefore(rules, states, q, r)
        ensures r == p.refused.value
      {
        GrantGrows(rules[p.refused.value].config, states[p.refused.value], CallAt(q, p.refused.value));
      }
    }
  }

  lemma RefusedAt(rules: seq<Rule>, states: seq<State>, q: Reservation, p: Pass)
    requires Ready(rules, states, q.servers) && Charges(rules, states, q, 0, p) && p.refused.Some?
    ensures NothingCharged(states, p.states) <==> AllHeldBefore(rules, states, q, p.refused.value)
  {
    hide RunScript, Step;
    forall j | 0 <= j < |rules|
      ensures p.states[j].journal == states[j].journal <==>
              (j < p.refused.value && Applies(rules[j], q.who, q.op) ==> Holds(states[j], q.id, q.servers[j]))
    {
      GrantGrows(rules[j].config, states[j], CallAt(q, j));
      assert states[j].journal + [] == states[j].journal;
      assert |states[j].journal + [Reserved(q.id, q.values, q.now)]| > |states[j].journal|;
    }
  }

  /** In each window that granted it, a request refused later stays charged at its full prediction. */
  lemma RefusalLeavesEarlierCharge(rules: seq<Rule>, states: seq<State>, q: Reservation, j: nat, f: Field)
    requires Ready(rules, states, q.servers)
    requires var p := ReserveFrom(rules, states, q, 0, false);
             p.refused.Some? && j < p.refused.value < |rules|
    requires Applies(rules[j], q.who, q.op) && !Holds(states[j], q.id, q.servers[j])
    ensures var s := ReserveFrom(rules, states, q, 0, false).states;
            && |s| == |states|
            && Scored(Charge(q.id, q.values, false), q.now) in s[j].store.zset
            && Latest(s[j].journal, q.id) == Some(Reserved(q.id, q.values, q.now))
            && Used(s[j].journal, q.now, f) >= q.values.Get(f)
  {
    hide ReserveFrom;
    ReserveCharges(rules, states, q, 0, false);
    GrantCharges(rules[j].config, states[j], CallAt(q, j), f);
  }

  lemma GrantCharges(k: Config, s: State, c: Call, f: Field)
    requires Defined(k.window) && c.action.Reserve?
    requires !RunScript(k, s.store, c).1.Rejected? && !Holds(s, c.action.id, c.server)
    ensures var s', e := Step(k, s, c), Reserved(c.action.id, c.action.values, c.now);
            && Scored(Charge(e.id, e.values, false), e.at) in s'.store.zset
            && Latest(s'.journal, e.id) == Some(e)
            && Used(s'.journal, e.at, f) >= e.values.Get(f)
  {
    var e := Reserved(c.action.id, c.action.values, c.now);
    assert (s.journal + [e])[..|s.journal|] == s.journal;
  }

  lemma FirstGrant(k: Config, q: Reservation)
    requires Defined(k.window) && q.servers != []
    ensures var out := RunScript(k, EMPTY, CallAt(q, 0)).1;
            out == if Exceeds(ZERO.Plus(q.values), k.hard) then Rejected(ZERO.Plus(q.values))
                   else Allowed(Warns(ZERO.Plus(q.values), k.soft), ZERO.Plus(q.values))
  {
    assert Totals([], Start(k.window, q.now)) == ZERO;
  }

  /** A first window without limits grants a request that the second, which allows none, refuses:
      the first has charged it. */
  lemma RefusedButCharged(scope: Scope, now: nat)
    ensures
      var hour := Window(Rolling, 1, Hour);
      var open, shut := Config(hour, map[], map[]), Config(hour, map[Requests := 0], map[]);
      var rules := [Rule(open, scope, {Chat}, Provider), Rule(shut, scope, {Chat}, Provider)];
      var states := [State(EMPTY, []), State(EMPTY, [])];
      var q := Reservation("a", Values(1, 0, 0, 0, 0), scope, Chat, now, [now, now]);
      var p := ReserveFrom(rules, states, q, 0, false);
      p.refused == Some(1) && |p.states| == 2 && Used(p.states[0].journal, now, Requests) >= 1
  {
    var hour := Window(Rolling, 1, Hour);
    var open, shut := Config(hour, map[], map[]), Config(hour, map[Requests := 0], map[]);
    var rules := [Rule(open, scope, {Chat}, Provider), Rule(shut, scope, {Chat}, Provider)];
    var states := [State(EMPTY, []), State(EMPTY, [])];
    var q := Reservation("a", Values(1, 0, 0, 0, 0), scope, Chat, now, [now, now]);
    FirstGrant(open, q);
    FirstGrant(shut, q);
    assert CallAt(q, 1) == CallAt(q, 0);
    assert ZERO.Plus(q.values).Get(Requests) > shut.hard[Requests];
    hide RunScript, Step, Used;
    ReserveCharges(rules, states, q, 0, false);
    assert !Answer(rules, states, q, 0).Rejected? && Answer(rules, states, q, 1).Rejected?;
    var p := ReserveFrom(rules, states, q, 0, false);
    assert p.refused == Some(1);
    RefusalLeavesEarlierCharge(rules, states, q, 0, Requests);
  }

  // ---------- The tracker as it runs ----------

  class Tracker {
    const rules: seq<Rule>
    const keys: seq<WindowKeys>

    ghost predicate Valid() {
      && |rules| == |keys|
      && (forall i :: 0 <= i < |keys| ==> keys[i].config == rules[i].config && Defined(rules[i].config.window))
      && (forall i, j :: 0 <= i < j < |keys| ==> keys[i] != keys[j])
    }

    ghost function Objects(): set<object> {
      set i | 0 <= i < |keys| :: keys[i] as object
    }

    ghost function States(): (states: seq<State>)
      reads Objects()
      ensures |states| == |keys|
    {
      seq(|keys|, i requires 0 <= i < |keys| reads Objects() => keys[i].Contents())
    }

    constructor (rules: seq<Rule>, keys: seq<WindowKeys>)
      ensures this.rules == rules && this.keys == keys
    {
      this.rules, this.keys := rules, keys;
    }

    /** The windows in turn, as far as the first refusal. */
    method Reserve(q: Reservation) returns (verdict: Verdict)
      requires Valid() && |q.servers| == |keys|
      modifies Objects()
      ensures var p := ReserveFrom(rules, old(States()), q, 0, false);
              && States() == p.states
              && match verdict
                 case Granted(warning) => p.refused.None? && p.warning == warning
                 case Exhausted(window, field) =>
                   p.refused == Some(window) && window < |rules| && field in rules[window].config.hard
    {
      hide Step, RunScript, Applies;
      var warning := false;
      var i := 0;
      while i < |keys|
        invariant 0 <= i <= |keys|
        invariant ReserveFrom(rules, old(States()), q, 0, false) == ReserveFrom(rules, States(), q, i, warning)
      {
        if Applies(rules[i], q.who, q.op) {
          ghost var before := States();
          var result, field := keys[i].Reserve(q.id, q.values, q.now, q.servers[i]);
          assert States() == before[i := Step(rules[i].config, before[i], CallAt(q, i))];
          assert result == Answer(rules, before, q, i);
          if result.Rejected? {
            return Exhausted(i, field);
          }
          warning := warning || (result.Allowed? && result.warning);
        }
        i := i + 1;
      }
      verdict := Granted(warning);
    }

    /** Every applicable window is settled with the usage its basis selects. */
    method Reconcile(id: string, provider: Values, served: Values, who: Scope, op: Operation, now: nat,
                     servers: seq<int>)
      requires Valid() && |servers| == |keys|
      modifies Objects()
      ensures forall j :: 0 <= j < |keys| ==>
        var c := Call(UsageWindow.Reconcile(id, Select(rules[j].basis, provider, served)), now, servers[j]);
        keys[j].Contents() ==
        if Applies(rules[j], who, op) then Step(rules[j].config, old(keys[j].Contents()), c)
        else old(keys[j].Contents())
    {
      hide Step;
      var i := 0;
      while i < |keys|
        invariant 0 <= i <= |keys|
        invariant forall j :: 0 <= j < i ==>
          var c := Call(UsageWindow.Reconcile(id, Select(rules[j].basis, provider, served)), now, servers[j]);
          keys[j].Contents() ==
          if Applies(rules[j], who, op) then Step(rules[j].config, old(keys[j].Contents()), c)
          else old(keys[j].Contents())
        invariant forall j :: i <= j < |keys| ==> keys[j].Contents() == old(keys[j].Contents())
      {
        if Applies(rules[i], who, op) {
          var selected := Select(rules[i].basis, provider, served);
          var applied := keys[i].Reconcile(id, selected, now, servers[i]);
        }
        i := i + 1;
      }
    }

    /** What inspecting reports of window `j`. */
    ghost function Line(j: nat, s: State, now: nat, server: int): WindowStatus
      requires Valid() && j < |keys|
    {
      var r := rules[j];
      var used := RunScript(r.config, s.store, Call(UsageWindow.Inspect, now, server)).1.totals;
      WindowStatus(j, r.basis, used, StatusOf(used, r.config.hard, r.config.soft), ResetAt(r.config.window, now))
    }

    /** One status line for each window in scope, in order, whatever operations it covers. */
    method Inspect(who: Scope, now: nat, servers: seq<int>) returns (output: seq<WindowStatus>)
      requires Valid() && |servers| == |keys|
      modifies Objects()
      ensures forall j :: 0 <= j < |keys| ==>
        keys[j].Contents() ==
        if ScopeMatches(rules[j].scope, who)
        then Step(rules[j].config, old(keys[j].Contents()), Call(UsageWindow.Inspect, now, servers[j]))
        else old(keys[j].Contents())
      ensures forall a, b :: 0 <= a < b < |output| ==> output[a].window < output[b].window
      ensures forall line :: line in output <==>
        && line.window < |keys|
        && ScopeMatches(rules[line.window].scope, who)
        && line == Line(line.window, old(keys[line.window].Contents()), now, servers[line.window])
    {
      hide Step, RunScript, StatusOf, ScopeMatches, ResetAt;
      output := [];
      var i := 0;
      while i < |keys|
        invariant 0 <= i <= |keys|
        invariant forall j :: 0 <= j < i ==>
          keys[j].Contents() ==
          if ScopeMatches(rules[j].scope, who)
          then Step(rules[j].config, old(keys[j].Contents()), Call(UsageWindow.Inspect, now, servers[j]))
          else old(keys[j].Contents())
        invariant forall j :: i <= j < |keys| ==> keys[j].Contents() == old(keys[j].Contents())
        invariant forall a :: 0 <= a < |output| ==> output[a].window < i
        invariant forall a, b :: 0 <= a < b < |output| ==> output[a].window < output[b].window
        invariant forall line :: line in output <==>
          && line.window < i
          && ScopeMatches(rules[line.window].scope, who)
          && line == Line(line.window, old(keys[line.window].Contents()), now, servers[line.window])
      {
        if ScopeMatches(rules[i].scope, who) {
          var r := rules[i];
          var used := keys[i].Inspect(now, servers[i]);
          output := output + [WindowStatus(i, r.basis, used, StatusOf(used, r.config.hard, r.config.soft),
                                           ResetAt(r.config.window, now))];
        }
        i := i + 1;
      }
    }
  }
}
