/** What bringing up and reconciling a stack come to over several commands, and over changes of its
    resolver between them. */
module Convergence {
  import opened Delimited
  import DnsState
  import opened Lease
  import opened Options
  import Publisher
  import opened Reconciler
  import Zone

  // ---------- A full reconcile ----------

  ghost predicate StateWellFormed(env: Env, persisted: Option<DnsState.DnsState>) {
    persisted.Some? ==> WellFormed(env, persisted.value.resolver)
  }

  /** A full reconcile that publishes leaves the stack converged exactly when it was converged before
      or the resolver's generation differs from the persisted one; and then it publishes, and if it
      returns persists, the resolver's own generation. */
  lemma FullReconcileIff(k: Stack, w: World, s: Sys, now: int)
    requires ValidStack(k) && StateWellFormed(w.env, s.persisted)
    ensures
      var (s', e) := Reconciled(k, w, s, now, false);
      && StateWellFormed(w.env, s'.persisted)
      && (!e.ThrewBeforePublish? ==>
            && k.resolver in s.runtime.containers && k.resolver in s'.runtime.containers
            && s'.runtime.containers[k.resolver] == s.runtime.containers[k.resolver]
            && var own := OwnGeneration(w.env, s.runtime.containers[k.resolver]);
               && own.Some? && s'.bundle.Some? && s'.bundle.value.lease.generation == own.value.generation
               && (e.Returned? ==> s'.persisted.Some? && s'.persisted.value.resolver.generation == own.value.generation)
               && (Converged(k, s'.runtime.containers, own) <==>
                     Converged(k, s.runtime.containers, own) || Changes(s.persisted, own.value)))
  {
    hide Reconciled, Current, OwnGeneration, WellFormed, AllManagedCarry, Faithful, Zone.Renderable;
    ReconcileAllOrNothing(k, w, s, now, false);
    ReconcileKeeps(k, w, s, now, false);
    if k.resolver in s.runtime.containers {
      CurrentIsOwn(w.env, s.persisted, s.runtime.containers[k.resolver]);
    }
  }

  // ---------- The lease that is published ----------

  /** The sequence of the lease that is persisted for a generation. */
  function PersistedSequence(persisted: Option<DnsState.DnsState>, generation: string): nat {
    if persisted.Some? && persisted.value.resolver.generation == generation && persisted.value.lease.Some?
    then persisted.value.lease.value.sequence else 0
  }

  /** A published lease is for the resolver's own generation, one above the lease persisted for it, and
      lasts the stack's lease time from the reconcile on. */
  lemma PublishedLease(k: Stack, w: World, s: Sys, now: int, bootstrap: bool)
    requires ValidStack(k) && StateWellFormed(w.env, s.persisted)
    ensures
      var (s', e) := Reconciled(k, w, s, now, bootstrap);
      !e.ThrewBeforePublish? ==>
        && k.resolver in s.runtime.containers && s'.bundle.Some?
        && var own := OwnGeneration(w.env, s.runtime.containers[k.resolver]);
           var lease := s'.bundle.value.lease;
           && own.Some? && lease.schemaVersion == 1 && lease.stackId == k.stackId
           && lease.generation == own.value.generation && lease.validUntil == Some(now + k.lease)
           && lease.sequence == PersistedSequence(s.persisted, own.value.generation) + 1
  {
    hide Reconciled, Current, OwnGeneration, WellFormed, AllManagedCarry, Faithful, Zone.Renderable;
    ReconcileAllOrNothing(k, w, s, now, bootstrap);
    if k.resolver in s.runtime.containers {
      CurrentIsOwn(w.env, s.persisted, s.runtime.containers[k.resolver]);
    }
  }

  /** The publish protocol's setting for a stack and its resolver. */
  function SettingOf(k: Stack, env: Env, resolver: Snapshot): Publisher.Setting {
    var hash := env.hash(Joined(AddressSet(env, resolver.addresses), ','));
    Publisher.Setting(k.stackId, InstanceOf(resolver), hash, k.lease)
  }

  lemma OwnIsSetting(k: Stack, env: Env, resolver: Snapshot)
    ensures var own := OwnGeneration(env, resolver);
            own.Some? ==> own.value.generation == SettingOf(k, env, resolver).Generation()
  {
  }

  /** A reconcile publishes what the protocol's publisher puts out next, for the committed lease that
      is persisted: so what holds of the protocol holds of reconciles. */
  lemma PublishesNext(k: Stack, w: World, s: Sys, now: int, bootstrap: bool, protocol: Publisher.Sys)
    requires ValidStack(k) && StateWellFormed(w.env, s.persisted) && Lawful(w.env)
    requires k.resolver in s.runtime.containers && protocol.now == now
    requires var own := OwnGeneration(w.env, s.runtime.containers[k.resolver]);
             own.Some? ==> protocol.committed == PreviousLease(s.persisted, own.value)
    ensures
      var (s', e) := Reconciled(k, w, s, now, bootstrap);
      var setting := SettingOf(k, w.env, s.runtime.containers[k.resolver]);
      && setting.Valid()
      && (!e.ThrewBeforePublish? ==>
            s'.bundle.Some? && s'.bundle.value.lease == Publisher.Next(setting, protocol))
  {
    hide Reconciled, OwnGeneration, WellFormed, Joined;
    PublishedLease(k, w, s, now, bootstrap);
    OwnIsSetting(k, w.env, s.runtime.containers[k.resolver]);
  }

  /** A supervisor of the resolver's instance that holds no lease, or one of a lower sequence, takes the
      published one at any instant before it ends. */
  lemma PublishedLeaseIsTaken(k: Stack, w: World, s: Sys, now: int, bootstrap: bool, held: Option<Lease>, at: int)
    requires ValidStack(k) && StateWellFormed(w.env, s.persisted) && Lawful(w.env)
    requires k.resolver in s.runtime.containers && at < now + k.lease
    ensures
      var (s', e) := Reconciled(k, w, s, now, bootstrap);
      !e.ThrewBeforePublish? ==>
        && s'.bundle.Some?
        && var lease := s'.bundle.value.lease;
           var me := Self(k.stackId, InstanceOf(s.runtime.containers[k.resolver]));
           held.None? || held.value.sequence < lease.sequence ==>
             GoAccept(me, held, Offer(lease, at)) == (Some(lease), true) && Active(Some(lease), at)
  {
    hide Reconciled, OwnGeneration, WellFormed, Joined, Matches;
    PublishedLease(k, w, s, now, bootstrap);
    var resolver := s.runtime.containers[k.resolver];
    OwnIsSetting(k, w.env, resolver);
    var setting := SettingOf(k, w.env, resolver);
    MatchesIff(setting.instance, setting.instance, setting.hash);
  }

  // ---------- Bringing up ----------

  /** Every managed service carries the generation of a resolver with an identity, and the gateway
      is not about to be replaced. */
  ghost predicate Settled(k: Stack, env: Env, containers: map<string, Snapshot>)
    requires k.gateway < |k.services|
  {
    && k.resolver in containers
    && OwnGeneration(env, containers[k.resolver]).Some?
    && Converged(k, containers, OwnGeneration(env, containers[k.resolver]))
    && !Unfit(k, containers)
  }

  lemma CarryingIsFit(k: Stack, containers: map<string, Snapshot>, own: Option<GenerationState>)
    requires ValidStack(k) && CarriesOwn(k, k.services[k.gateway], containers, own)
    ensures !Unfit(k, containers)
  {
  }

  /** Changing the gateway's container alone changes what no other service carries. */
  lemma OthersCarry(k: Stack, before: map<string, Snapshot>, after: map<string, Snapshot>, own: Option<GenerationState>)
    requires ValidStack(k)
    requires forall name :: name != k.services[k.gateway].container ==> Kept(before, after, name)
    ensures AllManagedCarry(k, before, own, true) ==> AllManagedCarry(k, after, own, true)
    ensures Kept(before, after, k.resolver)
    ensures var gateway := k.services[k.gateway];
            AllManagedCarry(k, after, own, true) && (gateway.managed ==> CarriesOwn(k, gateway, after, own)) ==>
              Converged(k, after, own)
  {
    hide CarriesOwn;
    forall i | 0 <= i < |k.services| && i != k.gateway
      ensures CarriesOwn(k, k.services[i], before, own) <==> CarriesOwn(k, k.services[i], after, own)
    {
      CarriesKept(k, k.services[i], before, after, own);
    }
  }

  lemma PreparedCarries(k: Stack, w: World, s: Sys, now: int)
    requires ValidStack(k) && k.resolver in s.runtime.containers
    ensures
      var (s', ok) := Prepared(k, w, s, now);
      var own := OwnGeneration(w.env, s.runtime.containers[k.resolver]);
      && Kept(s.runtime.containers, s'.runtime.containers, k.resolver)
      && (ok ==> own.Some? && AllManagedCarry(k, s'.runtime.containers, own, true) && !Unfit(k, s'.runtime.containers))
      && (Settled(k, w.env, s.runtime.containers) ==> s'.runtime == s.runtime)
  {
    hide Reconciled, ManagedFrom, OwnGeneration, Current, Faithful, Zone.Renderable, CarriesOwn;
    var resolver := s.runtime.containers[k.resolver];
    var own, gateway := OwnGeneration(w.env, resolver), k.services[k.gateway].container;
    var (r, ran) := ManagedFrom(k, w, resolver, true, 0, s.runtime);
    AllManagedCarries(k, w, resolver, true, s.runtime);
    var fit := if Unfit(k, r.containers) then Removed(r, gateway) else r;
    OthersCarry(k, r.containers, fit.containers, own);
    ReconcileAllOrNothing(k, w, s.(runtime := fit), now, true);
    ReconcileKeeps(k, w, s.(runtime := fit), now, true);
    CurrentExists(w.env, s.persisted, resolver);
  }

  /** The gateway that is there before the others are run stays as it is exactly if it runs and is not
      labelled with another description; otherwise it is gone when the others are. */
  lemma GatewayStaysIff(k: Stack, w: World, s: Sys, now: int)
    requires ValidStack(k) && k.resolver in s.runtime.containers
    requires k.services[k.gateway].container in s.runtime.containers
    ensures
      var (s', ok) := Prepared(k, w, s, now);
      var gateway := k.services[k.gateway];
      var c := s.runtime.containers[gateway.container];
      ok ==>
        && (gateway.container in s'.runtime.containers <==>
              && c.running
              && (|| c.labels.descriptor == None || c.labels.descriptor == Some("")
                  || c.labels.descriptor == Some(gateway.descriptor)))
        && (gateway.container in s'.runtime.containers ==> s'.runtime.containers[gateway.container] == c)
  {
    hide Reconciled, ManagedFrom, OwnGeneration, AllManagedCarry, AllCarry;
    var resolver, gateway := s.runtime.containers[k.resolver], k.services[k.gateway].container;
    var (r, ran) := ManagedFrom(k, w, resolver, true, 0, s.runtime);
    AllManagedCarries(k, w, resolver, true, s.runtime);
    var fit := if Unfit(k, r.containers) then Removed(r, gateway) else r;
    ReconcileKeeps(k, w, s.(runtime := fit), now, true);
  }

  lemma FinishedSettles(k: Stack, w: World, s: Sys, resolver: Snapshot, later: int)
    requires ValidStack(k) && k.resolver in s.runtime.containers && s.runtime.containers[k.resolver] == resolver
    requires OwnGeneration(w.env, resolver).Some? && !Unfit(k, s.runtime.containers)
    requires AllManagedCarry(k, s.runtime.containers, OwnGeneration(w.env, resolver), true)
    ensures
      var (s', ok) := Finished(k, w, s, resolver, later);
      && (ok ==> Settled(k, w.env, s'.runtime.containers))
      && (Converged(k, s.runtime.containers, OwnGeneration(w.env, resolver)) ==> s'.runtime == s.runtime)
  {
    hide Reconciled, Managed, OwnGeneration, CarriesOwn;
    var own, gateway := OwnGeneration(w.env, resolver), k.services[k.gateway];
    var (r, ran) := Managed(k, w, gateway, resolver, s.runtime);
    ManagedCarries(k, w, gateway, resolver, s.runtime);
    OthersCarry(k, s.runtime.containers, r.containers, own);
    if ran {
      if gateway.managed {
        CarryingIsFit(k, r.containers, own);
      }
      ReconcileKeeps(k, w, s.(runtime := r), later, false);
    }
  }

  /** A completed `up` leaves the stack settled, and an `up` on a settled stack changes no container;
      so a second `up` runs and removes nothing. */
  lemma UpSettles(k: Stack, w: World, s: Sys, now: int, later: int)
    requires ValidStack(k)
    ensures
      var (s', ok) := BroughtUp(k, w, s, now, later);
      && (ok ==> Settled(k, w.env, s'.runtime.containers))
      && (Settled(k, w.env, s.runtime.containers) ==> s'.runtime == s.runtime)
  {
    hide Prepared, Finished, OwnGeneration, Converged, AllManagedCarry, Unfit, Zone.Renderable;
    var (s1, started) := if k.resolver in s.runtime.containers then (s, true) else ResolverStarted(k, w, s, now);
    if started {
      PreparedCarries(k, w, s1, now);
      var (s2, prepared) := Prepared(k, w, s1, now);
      if prepared {
        FinishedSettles(k, w, s2, s1.runtime.containers[k.resolver], later);
      }
    }
  }

  lemma ReconcileWellFormed(k: Stack, w: World, s: Sys, now: int, bootstrap: bool)
    requires ValidStack(k) && StateWellFormed(w.env, s.persisted)
    ensures StateWellFormed(w.env, Reconciled(k, w, s, now, bootstrap).0.persisted)
  {
    hide Reconciled, Current, OwnGeneration, WellFormed, AllManagedCarry, Faithful, Zone.Renderable;
    ReconcileAllOrNothing(k, w, s, now, bootstrap);
    if k.resolver in s.runtime.containers {
      CurrentIsOwn(w.env, s.persisted, s.runtime.containers[k.resolver]);
    }
  }

  lemma PreparedStays(k: Stack, w: World, s: Sys, now: int)
    requires ValidStack(k) && k.resolver in s.runtime.containers && StateWellFormed(w.env, s.persisted)
    ensures
      var (s', _) := Prepared(k, w, s, now);
      Kept(s.runtime.containers, s'.runtime.containers, k.resolver) && StateWellFormed(w.env, s'.persisted)
  {
    PreparedCarries(k, w, s, now);
    var (r, _) := ManagedFrom(k, w, s.runtime.containers[k.resolver], true, 0, s.runtime);
    var fit := if Unfit(k, r.containers) then Removed(r, k.services[k.gateway].container) else r;
    ReconcileWellFormed(k, w, s.(runtime := fit), now, true);
    hide Reconciled, ManagedFrom, WellFormed, Unfit;
  }

  /** What a completed `up` leaves published is faithful to the containers it leaves, without a
      placeholder, and persisted, for the resolver's own generation and the lease time from its last
      reconcile on. */
  lemma UpPublishes(k: Stack, w: World, s: Sys, now: int, later: int)
    requires ValidStack(k) && StateWellFormed(w.env, s.persisted)
    ensures
      var (s', ok) := BroughtUp(k, w, s, now, later);
      ok ==>
        && k.resolver in s'.runtime.containers && s'.bundle.Some? && s'.persisted.Some?
        && Faithful(k, w, s'.runtime.containers, false, s'.bundle.value.records)
        && s'.persisted.value.lease == Some(s'.bundle.value.lease)
        && s'.bundle.value.lease.validUntil == Some(later + k.lease)
        && var own := OwnGeneration(w.env, s'.runtime.containers[k.resolver]);
           own.Some? && s'.bundle.value.lease.generation == own.value.generation
  {
    hide Prepared, Reconciled, Managed, OwnGeneration, Faithful, Zone.Renderable, WellFormed, AllManagedCarry;
    hide ResolverReady;
    var (s1, started) := if k.resolver in s.runtime.containers then (s, true) else ResolverStarted(k, w, s, now);
    if started {
      PreparedStays(k, w, s1, now);
      var resolver := s1.runtime.containers[k.resolver];
      var (s2, prepared) := Prepared(k, w, s1, now);
      if prepared {
        ManagedCarries(k, w, k.services[k.gateway], resolver, s2.runtime);
        var r := Managed(k, w, k.services[k.gateway], resolver, s2.runtime).0;
        ReconcileAllOrNothing(k, w, s2.(runtime := r), later, false);
        PublishedLease(k, w, s2.(runtime := r), later, false);
        ReconcileKeeps(k, w, s2.(runtime := r), later, false);
      }
    }
  }

  // ---------- Reconciling while the resolver changes ----------

  /** A full reconcile that returns from here leaves the stack converged. */
  ghost predicate Repairable(k: Stack, env: Env, s: Sys) {
    k.resolver in s.runtime.containers &&
    var own := OwnGeneration(env, s.runtime.containers[k.resolver]);
    own.Some? ==> Converged(k, s.runtime.containers, own) || Changes(s.persisted, own.value)
  }

  /** Whichever way a reconcile ends, the next one still repairs the stack. */
  lemma ReconcileKeepsRepairable(k: Stack, w: World, s: Sys, now: int)
    requires ValidStack(k) && StateWellFormed(w.env, s.persisted) && Repairable(k, w.env, s)
    ensures
      var (s', e) := Reconciled(k, w, s, now, false);
      && Repairable(k, w.env, s')
      && (e.Returned? ==> Converged(k, s'.runtime.containers, OwnGeneration(w.env, s'.runtime.containers[k.resolver])))
  {
    hide Reconciled, OwnGeneration, AllManagedCarry, Current, Faithful, WellFormed, Zone.Renderable;
    FullReconcileIff(k, w, s, now);
    ReconcileKeeps(k, w, s, now, false);
    ReconcileAllOrNothing(k, w, s, now, false);
  }

  datatype Event = Moves(resolver: Snapshot) | Reconciles(w: World, now: int)

  function Happens(k: Stack, s: Sys, e: Event): Sys
    requires k.gateway < |k.services|
  {
    match e
    case Moves(resolver) => s.(runtime := s.runtime.(containers := s.runtime.containers[k.resolver := resolver]))
    case Reconciles(w, now) => Reconciled(k, w, s, now, false).0
  }

  function After(k: Stack, s: Sys, events: seq<Event>): Sys
    requires k.gateway < |k.services|
  {
    if events == [] then s else Happens(k, After(k, s, events[..|events| - 1]), events[|events| - 1])
  }

  /** The resolver never comes to the generation that is persisted at the time. */
  ghost predicate MovesAway(k: Stack, env: Env, s: Sys, events: seq<Event>)
    requires k.gateway < |k.services|
  {
    forall i :: 0 <= i < |events| ==>
      match events[i]
      case Moves(resolver) =>
        var own := OwnGeneration(env, resolver);
        own.Some? ==> Changes(After(k, s, events[..i]).persisted, own.value)
      case Reconciles(w, _) => w.env == env
  }

  /** From a settled stack, through any changes of the resolver's address or instance and any
      attempts to reconcile, however they ended, a full reconcile that returns leaves the stack
      converged, as long as the resolver never came to the generation persisted at the time. */
  lemma {:induction false} EveryChangeIsRepaired(k: Stack, env: Env, s: Sys, events: seq<Event>)
    requires ValidStack(k) && Settled(k, env, s.runtime.containers) && StateWellFormed(env, s.persisted)
    requires MovesAway(k, env, s, events)
    ensures
      var s' := After(k, s, events);
      && StateWellFormed(env, s'.persisted) && Repairable(k, env, s')
      && forall w: World, now :: w.env == env ==>
           var (s'', e) := Reconciled(k, w, s', now, false);
           e.Returned? ==> Converged(k, s''.runtime.containers, OwnGeneration(env, s'.runtime.containers[k.resolver]))
  {
    hide Reconciled, OwnGeneration, AllManagedCarry, WellFormed, Unfit;
    var s' := After(k, s, events);
    if events != [] {
      var rest, last := events[..|events| - 1], events[|events| - 1];
      forall i | 0 <= i < |rest|
        ensures rest[i] == events[i] && rest[..i] == events[..i]
      {
      }
      EveryChangeIsRepaired(k, env, s, rest);
      if last.Reconciles? {
        FullReconcileIff(k, last.w, After(k, s, rest), last.now);
        ReconcileKeepsRepairable(k, last.w, After(k, s, rest), last.now);
      }
    }
    forall w: World, now | w.env == env
      ensures var (s'', e) := Reconciled(k, w, s', now, false);
              var own := OwnGeneration(env, s'.runtime.containers[k.resolver]);
              e.Returned? ==> Converged(k, s''.runtime.containers, own)
    {
      ReconcileKeepsRepairable(k, w, s', now);
      ReconcileKeeps(k, w, s', now, false);
    }
  }

  // ---------- What a full reconcile cannot repair ----------

  /** Everything a full reconcile asks of a service but that the gateway resolves it: the gateway's
      container is there and healthy, and takes the connections it must. */
  predicate Connects(k: Stack, w: World, containers: map<string, Snapshot>)
    requires k.gateway < |k.services|
  {
    && Listed(w, k.services[k.gateway], containers)
    && forall i :: 0 <= i < |k.services| && MustReach(k.services[i], containers) ==> w.reached(k.services[i].container)
  }

  /** The gateway asks the resolver, which already answers for every required service with the address
      its container has. */
  predicate Resolves(k: Stack, w: World, containers: map<string, Snapshot>)
    requires k.gateway < |k.services|
  {
    && AsksResolver(k, containers)
    && forall i :: 0 <= i < |k.services| && MustReach(k.services[i], containers) ==>
         Answered(w, k.services[i], containers)
  }

  /** Of the required services but the gateway, every record is one the resolver answers with. */
  ghost predicate OnlyAnswered(k: Stack, w: World, records: seq<Zone.DnsRecord>)
    requires k.gateway < |k.services|
  {
    forall i :: 0 <= i < |k.services| && k.services[i].required && i != k.gateway ==>
      forall r :: r in records && r.name == k.services[i].dns ==> r in w.served
  }

  /** The gateway's first nameserver is the resolver's address, and the resolver answers for the storage
      with the address it has. */
  predicate AsksAndAnswers(k: Stack, w: World, containers: map<string, Snapshot>)
    requires k.gateway < |k.services| && k.storage < |k.services|
  {
    var gateway, storage := k.services[k.gateway].container, k.services[k.storage].container;
    && gateway in containers && storage in containers && k.resolver in containers
    && containers[gateway].nameservers != [] && |containers[k.resolver].addresses| == 1
    && containers[gateway].nameservers[0] == containers[k.resolver].addresses[0]
    && |containers[storage].addresses| == 1
    && Zone.DnsRecord(STORAGE, containers[storage].addresses[0]) in w.served
  }

  lemma FaithfulResolves(k: Stack, w: World, containers: map<string, Snapshot>, records: seq<Zone.DnsRecord>)
    requires ValidStack(k) && Faithful(k, w, containers, false, records)
    ensures Resolves(k, w, containers) && Connects(k, w, containers) && OnlyAnswered(k, w, records)
    ensures AsksAndAnswers(k, w, containers)
  {
    assert Needed(k.services[k.storage], containers, false);
    assert MustReach(k.services[k.storage], containers);
    IdentifiedAddress(k, k.services[k.storage], containers[k.services[k.storage].container]);
    assert |containers[k.resolver].addresses| == 1;
    hide Identified, ResolverReady;
    forall i, r | 0 <= i < |k.services| && k.services[i].required && i != k.gateway
        && r in records && r.name == k.services[i].dns
      ensures r in w.served
    {
      assert Needed(k.services[i], containers, false);
      assert MustReach(k.services[i], containers);
      assert Lists(w, k.services[i], containers, r);
    }
  }

  /** A full reconcile publishes only records the resolver already answered with: for no required
      service a new address, and nothing at all while the resolver does not serve. */
  lemma FullReconcileNeedsAnswers(k: Stack, w: World, s: Sys, now: int)
    requires ValidStack(k)
    ensures
      var (s', e) := Reconciled(k, w, s, now, false);
      !e.ThrewBeforePublish? ==>
        && Resolves(k, w, s'.runtime.containers) && Connects(k, w, s'.runtime.containers)
        && AsksAndAnswers(k, w, s'.runtime.containers)
        && s'.bundle.Some? && OnlyAnswered(k, w, s'.bundle.value.records)
  {
    hide Reconciled, Current, OwnGeneration, NextLease, Faithful, Zone.Renderable, AllManagedCarry, Committed;
    ReconcileAllOrNothing(k, w, s, now, false);
    var (s', e) := Reconciled(k, w, s, now, false);
    if !e.ThrewBeforePublish? {
      FaithfulResolves(k, w, s'.runtime.containers, s'.bundle.value.records);
    }
  }

  /** The resolver and every service's container that is there is what it is taken for: running on the
      network at one address, under the stack's labels, a service's with its ports and, unless it was
      adopted without one, its own description. */
  predicate Genuine(k: Stack, containers: map<string, Snapshot>) {
    && k.resolver in containers
    && (var c := containers[k.resolver];
        && c.running && c.network == k.network && |c.addresses| == 1
        && c.labels.stack == Some(k.stackId) && c.labels.service == Some("dns") && c.labels.role == Some(Role.Dns)
        && c.labels.instance.Some? && c.labels.instance.value != "")
    && forall i :: 0 <= i < |k.services| && k.services[i].container in containers ==>
         var s, c := k.services[i], containers[k.services[i].container];
         && c.running && c.network == k.network && |c.addresses| == 1
         && c.labels.stack == Some(k.stackId) && c.labels.service == Some(s.id) && c.labels.role == Some(s.role)
         && c.ports == s.ports
         && (s.managed ==> c.labels.descriptor in {None, Some(""), Some(s.descriptor)})
  }

  /** Every required service is there and healthy, but for a gateway that is not there yet. */
  predicate RequiredHealthy(k: Stack, w: World, containers: map<string, Snapshot>) {
    forall i :: 0 <= i < |k.services| && k.services[i].required ==>
      var s := k.services[i];
      if s.container in containers then w.healthy(s.container) else s.role.Gateway?
  }

  lemma PassedIff(k: Stack, w: World, containers: map<string, Snapshot>)
    requires ResolverReady(k, containers)
    ensures Passed(k, w, containers, true, |k.services|) <==>
            Genuine(k, containers) && RequiredHealthy(k, w, containers)
  {
  }

  lemma NextApplies(k: Stack, persisted: Option<DnsState.DnsState>, current: GenerationState, now: int)
    requires k.lease > 0 && current.generation != ""
    requires persisted.Some? && persisted.value.lease.Some? ==> persisted.value.lease.value.stackId == k.stackId
    ensures ApplyLease(PreviousLease(persisted, current), NextLease(k, persisted, current, now), now, k.stackId).Ok?
  {
  }

  lemma PutPublishesIff(k: Stack, w: World, s: Sys, records: seq<Zone.DnsRecord>, current: GenerationState, now: int)
    requires k.lease > 0 && current.generation != ""
    requires s.persisted.Some? && s.persisted.value.lease.Some? ==> s.persisted.value.lease.value.stackId == k.stackId
    ensures !Put(k, w, s, records, current, now).1.ThrewBeforePublish? <==>
            Zone.Renderable(records, k.ttl / 1000) && !w.publishFails
  {
    NextApplies(k, s.persisted, current, now);
    hide NextLease, ApplyLease, PreviousLease, Zone.Renderable;
  }

  lemma BeginsIff(k: Stack, w: World, s: Sys)
    requires StateWellFormed(w.env, s.persisted)
    ensures Begins(k, w, s) <==>
            && ResolverReady(k, s.runtime.containers)
            && (s.persisted.Some? ==> s.persisted.value.stackId == k.stackId)
            && OwnGeneration(w.env, s.runtime.containers[k.resolver]).Some?
    ensures Begins(k, w, s) ==>
            |Current(w.env, s.persisted, s.runtime.containers[k.resolver]).value.generation| > 0
  {
    hide OwnGeneration, Current;
    if k.resolver in s.runtime.containers {
      CurrentExists(w.env, s.persisted, s.runtime.containers[k.resolver]);
      CurrentIsOwn(w.env, s.persisted, s.runtime.containers[k.resolver]);
    }
  }

  /** The records of a bootstrap reconcile: with a placeholder if the gateway has none. */
  function BootstrapRecords(k: Stack, w: World, containers: map<string, Snapshot>): seq<Zone.DnsRecord>
    requires ResolverReady(k, containers)
  {
    AllRecords(k, w, containers, !NamesZone(AllRecords(k, w, containers, false)))
  }

  /** With the generation unchanged, a bootstrap reconcile publishes exactly when the resolver's identity
      is accepted, everything that is there is genuine, the required services are healthy, the records
      can be rendered, and publishing does not fail: an impostor stops it. */
  lemma BootstrapPublishesIff(k: Stack, w: World, s: Sys, now: int)
    requires ValidStack(k) && Unchanged(k, w, s) && StateWellFormed(w.env, s.persisted)
    requires s.persisted.Some? && s.persisted.value.lease.Some? ==> s.persisted.value.lease.value.stackId == k.stackId
    ensures
      var containers := s.runtime.containers;
      !Reconciled(k, w, s, now, true).1.ThrewBeforePublish? <==>
        && Genuine(k, containers) && RequiredHealthy(k, w, containers)
        && OwnGeneration(w.env, containers[k.resolver]).Some?
        && (s.persisted.Some? ==> s.persisted.value.stackId == k.stackId)
        && Zone.Renderable(BootstrapRecords(k, w, containers), k.ttl / 1000)
        && !w.publishFails
  {
    var containers := s.runtime.containers;
    assert Genuine(k, containers) ==> ResolverReady(k, containers);
    BeginsIff(k, w, s);
    hide Genuine, RequiredHealthy, OwnGeneration, Current, Zone.Renderable, WellFormed, Begins, ResolverReady;
    if Begins(k, w, s) {
      BootstrapEnds(k, w, s, now);
    } else {
      assert Reconciled(k, w, s, now, true) == (s, ThrewBeforePublish);
    }
  }

  lemma BootstrapEnds(k: Stack, w: World, s: Sys, now: int)
    requires k.lease > 0 && k.gateway < |k.services| && Begins(k, w, s) && Unchanged(k, w, s)
    requires StateWellFormed(w.env, s.persisted)
    requires s.persisted.Some? && s.persisted.value.lease.Some? ==> s.persisted.value.lease.value.stackId == k.stackId
    ensures
      var containers := s.runtime.containers;
      !Reconciled(k, w, s, now, true).1.ThrewBeforePublish? <==>
        && Genuine(k, containers) && RequiredHealthy(k, w, containers)
        && Zone.Renderable(BootstrapRecords(k, w, containers), k.ttl / 1000) && !w.publishFails
  {
    var containers := s.runtime.containers;
    var current := Current(w.env, s.persisted, containers[k.resolver]).value;
    BeginsIff(k, w, s);
    PassedIff(k, w, containers);
    hide Put, Passed, Current, OwnGeneration, NamesZone, Zone.Renderable, WellFormed, Changes;
    hide AllRecords, Genuine, RequiredHealthy, ResolverReady;
    PutPublishesIff(k, w, s, BootstrapRecords(k, w, containers), current, now);
  }

  /** The resolver has the generation that is persisted, if any is. */
  predicate Unchanged(k: Stack, w: World, s: Sys) {
    Begins(k, w, s) ==>
      !Changes(s.persisted, Current(w.env, s.persisted, s.runtime.containers[k.resolver]).value)
  }

  lemma CollectsEither(k: Stack, w: World, containers: map<string, Snapshot>)
    requires ValidStack(k) && ResolverReady(k, containers) && Connects(k, w, containers)
    requires Collected(k, w, containers, true).Some?
    ensures Collected(k, w, containers, false) ==
            if Resolves(k, w, containers) then Collected(k, w, containers, true) else None
  {
    hide Identified, ResolverReady, ServiceRecords, NamesZone;
    var n := |k.services|;
    assert Passed(k, w, containers, false, n);
    var gateway := k.services[k.gateway];
    IdentifiedAddress(k, gateway, containers[gateway.container]);
    ZoneNamedByGateway(k, w, containers);
    assert Needed(k.services[k.storage], containers, true);
    assert MustReach(k.services[k.storage], containers);
    assert Reached(k, w, containers, n) <==> Resolves(k, w, containers);
  }

  /** Where a bootstrap reconcile would publish, the gateway connects and no generation changes, a full
      one publishes exactly when the resolver already answers for all required services. */
  lemma FullPublishesIff(k: Stack, w: World, s: Sys, now: int)
    requires ValidStack(k) && Unchanged(k, w, s) && Connects(k, w, s.runtime.containers)
    requires !Reconciled(k, w, s, now, true).1.ThrewBeforePublish?
    ensures !Reconciled(k, w, s, now, false).1.ThrewBeforePublish? <==> Resolves(k, w, s.runtime.containers)
  {
    hide Put, Collected, Current, Changes, Connects, Resolves;
    CollectsEither(k, w, s.runtime.containers);
  }

  function Published(s: Sys): seq<Zone.DnsRecord> {
    if s.bundle.Some? then s.bundle.value.records else []
  }

  /** The resolver answers with nothing but what is published. */
  predicate Serves(w: World, s: Sys) {
    forall r :: r in w.served ==> r in Published(s)
  }

  /** A required service has an address that is not published. */
  ghost predicate Stale(k: Stack, s: Sys)
    requires k.gateway < |k.services|
  {
    exists i :: 0 <= i < |k.services| && Misplaced(k.services[i], s)
  }

  predicate Misplaced(s: Service, sys: Sys) {
    var containers := sys.runtime.containers;
    && MustReach(s, containers) && containers[s.container].addresses != []
    && Zone.DnsRecord(s.dns, containers[s.container].addresses[0]) !in Published(sys)
  }

  lemma StaleStays(k: Stack, w: World, s: Sys, now: int)
    requires ValidStack(k) && Stale(k, s) && Serves(w, s) && Unchanged(k, w, s)
    ensures Reconciled(k, w, s, now, false) == (s, ThrewBeforePublish)
  {
    hide Current, Changes, ResolverReady, AsksResolver, Passed, NamesZone, ServiceRecords;
    var i :| 0 <= i < |k.services| && Misplaced(k.services[i], s);
    assert !Answered(w, k.services[i], s.runtime.containers);
  }

  /** Once a required service has an address that is not published, no number of full reconciles
      publishes it or renews the lease, whatever else they meet. */
  lemma {:induction false} StaleForEver(k: Stack, s: Sys, events: seq<Event>)
    requires ValidStack(k) && Stale(k, s)
    requires forall i :: 0 <= i < |events| ==>
      events[i].Reconciles? && Serves(events[i].w, s) && Unchanged(k, events[i].w, s)
    ensures After(k, s, events) == s
  {
    if events != [] {
      var last := events[|events| - 1];
      StaleForEver(k, s, events[..|events| - 1]);
      StaleStays(k, last.w, s, last.now);
    }
  }

  /** A bootstrap reconcile that publishes puts an end to it. */
  lemma BootstrapPublishesPresent(k: Stack, w: World, s: Sys, now: int)
    requires ValidStack(k)
    ensures
      var (s', e) := Reconciled(k, w, s, now, true);
      !e.ThrewBeforePublish? ==> !Stale(k, s')
  {
    hide Reconciled, Current, OwnGeneration, NextLease, Identified, Zone.Renderable, AllManagedCarry, Committed;
    hide ResolverReady;
    ReconcileAllOrNothing(k, w, s, now, true);
    var (s', e) := Reconciled(k, w, s, now, true);
    if !e.ThrewBeforePublish? {
      var containers := s'.runtime.containers;
      forall i | 0 <= i < |k.services|
        ensures !Misplaced(k.services[i], s')
      {
        var service := k.services[i];
        if MustReach(service, containers) && containers[service.container].addresses != [] {
          assert Needed(service, containers, true);
          assert Lists(w, service, containers, Zone.DnsRecord(service.dns, containers[service.container].addresses[0]));
        }
      }
    }
  }

  // ---------- When bringing up completes ----------

  /** The persisted state is this stack's, as commits leave it. */
  predicate Sound(k: Stack, env: Env, persisted: Option<DnsState.DnsState>) {
    persisted.Some? ==>
      && persisted.value.stackId == k.stackId
      && WellFormed(env, persisted.value.resolver) && env.isIp(persisted.value.resolver.hostAddress)
      && (persisted.value.lease.Some? ==> persisted.value.lease.value.stackId == k.stackId)
  }

  lemma CommitsIff(k: Stack, w: World, s: Sys, now: int, records: seq<Zone.DnsRecord>)
    requires Sound(k, w.env, s.persisted) && k.resolver in s.runtime.containers
    requires Current(w.env, s.persisted, s.runtime.containers[k.resolver]).Some?
    ensures
      var current := Current(w.env, s.persisted, s.runtime.containers[k.resolver]).value;
      var (s', e) := Put(k, w, s, records, current, now);
      && (!e.ThrewBeforePublish? ==> (e.Returned? <==> !w.commitFails && !w.reportFails))
      && Sound(k, w.env, s'.persisted)
  {
    var resolver := s.runtime.containers[k.resolver];
    var current := Current(w.env, s.persisted, resolver).value;
    var lease := NextLease(k, s.persisted, current, now);
    CurrentIsOwn(w.env, s.persisted, resolver);
    DnsState.FreshPersists(w.env, PreviousResolver(s.persisted), resolver.addresses, InstanceOf(resolver),
                           resolver.hostAddress, k.stackId, lease, now);
    hide WellFormed, Zone.Renderable, UpdateDnsGeneration, ApplyLease;
  }

  /** With the generation unchanged, a reconcile that publishes returns exactly when neither committing
      nor reporting fails, and after it the generation is still unchanged. */
  lemma ReturnsIff(k: Stack, w: World, s: Sys, now: int, bootstrap: bool)
    requires ValidStack(k) && Sound(k, w.env, s.persisted) && Unchanged(k, w, s)
    ensures
      var (s', e) := Reconciled(k, w, s, now, bootstrap);
      && s'.runtime == s.runtime && Sound(k, w.env, s'.persisted)
      && (e.ThrewBeforePublish? ==> s' == s)
      && (!e.ThrewBeforePublish? ==> (e.Returned? <==> !w.commitFails && !w.reportFails))
      && (e.Returned? ==> Unchanged(k, w, s'))
  {
    if Begins(k, w, s) {
      CurrentIsOwn(w.env, s.persisted, s.runtime.containers[k.resolver]);
      var current := Current(w.env, s.persisted, s.runtime.containers[k.resolver]).value;
      var records := Collected(k, w, s.runtime.containers, bootstrap);
      hide Put, Collected, Current, OwnGeneration, WellFormed, ResolverReady;
      if records.Some? {
        CommitsIff(k, w, s, now, records.value);
        PutOutcome(k, w, s, records.value, current, now);
        var s' := Put(k, w, s, records.value, current, now).0;
        CurrentIsOwn(w.env, s'.persisted, s.runtime.containers[k.resolver]);
        assert Reconciled(k, w, s, now, bootstrap) == Put(k, w, s, records.value, current, now);
      }
    }
  }

  /** Nothing a reconcile of this stack does fails. */
  predicate Smooth(k: Stack, w: World) {
    !w.publishFails && !w.commitFails && !w.reportFails && Prepares(k, w, false, 0)
  }

  /** On a settled stack whose resolver's generation is the persisted one, an `up` completes exactly
      when no operation fails, everything that is there is genuine, the required services are healthy,
      the records can be rendered, and the gateway connects to every required service and resolves it. */
  lemma UpCompletesIff(k: Stack, w: World, s: Sys, now: int, later: int)
    requires ValidStack(k) && Settled(k, w.env, s.runtime.containers)
    requires Sound(k, w.env, s.persisted) && Unchanged(k, w, s)
    ensures
      var containers := s.runtime.containers;
      BroughtUp(k, w, s, now, later).1 <==>
        && Smooth(k, w) && Genuine(k, containers) && RequiredHealthy(k, w, containers)
        && ResolverReady(k, containers)
        && Zone.Renderable(BootstrapRecords(k, w, containers), k.ttl / 1000)
        && Connects(k, w, containers) && Resolves(k, w, containers)
  {
    var containers, resolver := s.runtime.containers, s.runtime.containers[k.resolver];
    var gateway := k.services[k.gateway];
    AllManagedCarries(k, w, resolver, true, s.runtime);
    ManagedCarries(k, w, gateway, resolver, s.runtime);
    assert AllCarry(k, containers, OwnGeneration(w.env, resolver), true);
    assert gateway.managed ==> CarriesOwn(k, gateway, containers, OwnGeneration(w.env, resolver));
    PreparesApart(k, w);
    BootstrapPublishesIff(k, w, s, now);
    ReturnsIff(k, w, s, now, true);
    var (s1, e) := Reconciled(k, w, s, now, true);
    hide Reconciled, Managed, ManagedFrom, OwnGeneration, Genuine, RequiredHealthy, Zone.Renderable, Connects;
    hide Resolves, Unchanged, WellFormed, ResolverReady;
    if e.Returned? {
      BootstrapPublishesIff(k, w, s1, later);
      ReturnsIff(k, w, s1, later, false);
      FullReconcileNeedsAnswers(k, w, s1, later);
      if Connects(k, w, containers) {
        FullPublishesIff(k, w, s1, later);
      }
    }
  }

  lemma PreparesApart(k: Stack, w: World)
    requires ValidStack(k)
    ensures var gateway := k.services[k.gateway];
            Prepares(k, w, false, 0) <==>
              Prepares(k, w, true, 0) && (gateway.managed ==> !w.fault(gateway.container).Preparing?)
  {
  }
}
