/** Three runs of a stack of storage and gateway, brought up from nothing: two in which a full reconcile
    returns and still leaves a container on a generation that its resolver has not, and one in which
    a storage container at a new address keeps every full reconcile from publishing. */
module Setbacks {
  import opened Convergence
  import DnsState
  import opened Lease
  import opened Options
  import opened Reconciler
  import opened Sorting
  import Zone

  const VALKEY: Service := Service("valkey", Storage, "vk", STORAGE, true, true, "v", multiset{})
  const GATEWAY: Service := Service("barback", Gateway, "gw", Zone.ZONE, true, true, "d", multiset{})
  const PAIR: Stack := Stack("s", "net", "dns", 2000, 60_000, [VALKEY, GATEWAY], 1, 0)

  /** The environment, two addresses for the resolver, two for the storage, the gateway's and the host's. */
  datatype Site = Site(env: Env, here: string, there: string, store: string, elsewhere: string,
                       gateway: string, host: string)

  /** The addresses are addresses, and the hash tells the resolver's two apart. */
  predicate Supports(p: Site) {
    && p.env.isIp(p.here) && p.env.isIp(p.there) && p.env.isIp(p.host) && p.host != ""
    && Zone.IsIPv4(p.here) && Zone.IsIPv4(p.there) && Zone.IsIPv4(p.gateway)
    && Zone.IsIPv4(p.store) && Zone.IsIPv4(p.elsewhere) && p.store != p.elsewhere
    && p.env.hash(p.here) != p.env.hash(p.there)
  }

  /** A resolver as it is for a time. */
  datatype Epoch = Epoch(address: string, instance: string)

  function First(p: Site): Epoch {
    Epoch(p.here, "i")
  }

  /** The same resolver at another address. */
  function Moved(p: Site): Epoch {
    Epoch(p.there, "i")
  }

  /** Another resolver at the same address. */
  function Second(p: Site): Epoch {
    Epoch(p.here, "j")
  }

  predicate Known(p: Site, e: Epoch) {
    e == First(p) || e == Moved(p) || e == Second(p)
  }

  /** Nothing fails but what `fault` says of the gateway; a storage container gets `store`. */
  function Calm(p: Site, e: Epoch, store: string, fault: Fault, served: seq<Zone.DnsRecord>): World {
    World(p.env, _ => 0.0, name => if name == "gw" then fault else NoFault, _ => true, _ => true, served,
          name => if name == "dns" then e.address else if name == "vk" then store else p.gateway,
          p.host, e.instance, false, false, false)
  }

  /** What such a world does to the stack. */
  ghost predicate Meets(p: Site, w: World, e: Epoch, store: string, fault: Fault) {
    && w.env == p.env && w.host == p.host && w.instance == e.instance
    && w.fault("dns") == NoFault && w.fault("vk") == NoFault && w.fault("gw") == fault
    && w.address("dns") == e.address && w.address("vk") == store && w.address("gw") == p.gateway
    && w.healthy("vk") && w.healthy("gw") && w.reached("vk")
    && !w.publishFails && !w.commitFails && !w.reportFails
  }

  lemma CalmMeets(p: Site, e: Epoch, store: string, fault: Fault, served: seq<Zone.DnsRecord>)
    ensures Meets(p, Calm(p, e, store, fault, served), e, store, fault)
  {
  }

  function Own(p: Site, e: Epoch): GenerationState {
    GenerationState(Generation(p.env, [e.address], e.instance), [e.address], p.host, e.instance)
  }

  function Dns(p: Site, e: Epoch): Snapshot {
    Snapshot(true, "net", [e.address], p.host, [],
             Labels(Some("s"), Some("dns"), Some(Role.Dns), None, None, Some(e.instance)), multiset{})
  }

  /** A service's container as it is run for a resolver. */
  function Box(p: Site, s: Service, address: string, e: Epoch): Snapshot {
    Snapshot(true, "net", [address], p.host, [e.address], LabelsFor(PAIR, s, Own(p, e).generation), multiset{})
  }

  predicate Is(containers: map<string, Snapshot>, name: string, c: Option<Snapshot>) {
    (name in containers <==> c.Some?) && (c.Some? ==> containers[name] == c.value)
  }

  function BoxFor(p: Site, s: Service, address: string, e: Option<Epoch>): Option<Snapshot> {
    if e.Some? then Some(Box(p, s, address, e.value)) else None
  }

  /** The resolver `e`, the storage at `store` as run for `v`, and the gateway as run for `g`. */
  predicate Runs(p: Site, containers: map<string, Snapshot>, e: Epoch, store: string,
                 v: Option<Epoch>, g: Option<Epoch>)
  {
    && Is(containers, "dns", Some(Dns(p, e)))
    && Is(containers, "vk", BoxFor(p, VALKEY, store, v))
    && Is(containers, "gw", BoxFor(p, GATEWAY, p.gateway, g))
  }

  predicate Persists(p: Site, s: Sys, e: Epoch) {
    && s.persisted.Some? && s.persisted.value.stackId == "s" && s.persisted.value.resolver == Own(p, e)
    && s.persisted.value.lease.Some? && s.persisted.value.lease.value.stackId == "s"
  }

  lemma Names()
    ensures |STORAGE| == 23 && |Zone.ZONE| == 16 && |Zone.RESOLVER| == 20
  {
  }

  lemma PairValid()
    ensures ValidStack(PAIR)
  {
    Names();
  }

  // ---------- There is such a site ----------

  lemma Digits()
    ensures Zone.Octet("10") && Zone.Octet("0") && Zone.Octet("127")
    ensures forall d :: '0' <= d <= '9' ==> Zone.Octet([d])
  {
    assert "10"[..1] == "1" && "127"[..2] == "12" && "12"[..1] == "1" && "1"[..0] == "";
    forall d | '0' <= d <= '9'
      ensures Zone.Octet([d])
    {
      assert [d][..0] == "";
    }
  }

  lemma InNetwork(address: string, d: char)
    requires '0' <= d <= '9' && address == "10.0.0." + [d]
    ensures Zone.IsIPv4(address)
  {
    Digits();
    hide Zone.Octet;
    assert address[0..2] == "10" && address[3..4] == "0" && address[5..6] == "0" && address[7..8] == [d];
    assert Zone.Dotted(address, 2, 4, 6);
  }

  lemma SiteExists() returns (p: Site)
    ensures Supports(p)
  {
    var here, there, other := "10.0.0." + "2", "10.0.0." + "3", "10.0.0." + "4";
    assert here[7] != there[7];
    InNetwork(here, '2');
    InNetwork(there, '3');
    InNetwork(other, '4');
    hide Zone.IsIPv4;
    p := Site(Env(s => s, _ => 0.0, _ => true), here, there, here, there, other, here);
  }

  // ---------- Generations ----------

  lemma OneAddress(env: Env, address: string)
    ensures AddressSet(env, [address]) == [address]
  {
    assert [address][..0] == [] && [address][1..] == [];
    assert Unique([]) == [] && Unique([address]) == [address];
    assert Sort([], env.rank) == [];
  }

  lemma OwnOf(p: Site, persisted: Option<DnsState.DnsState>, e: Epoch, q: Epoch)
    requires Supports(p) && Known(p, e)
    requires persisted.Some? ==> persisted.value.resolver == Own(p, q)
    ensures OwnGeneration(p.env, Dns(p, e)) == Some(Own(p, e))
    ensures Current(p.env, persisted, Dns(p, e)) == Some(Own(p, e))
  {
    hide Zone.IsIPv4;
    OneAddress(p.env, e.address);
    OneAddress(p.env, q.address);
    assert [e.address][0] == e.address && [q.address][0] == q.address;
  }

  predicate Apart(p: Site, e: Epoch, q: Epoch) {
    Own(p, e).generation != Own(p, q).generation
  }

  lemma EpochsApart(p: Site)
    requires p.env.hash(p.here) != p.env.hash(p.there)
    ensures Apart(p, First(p), Moved(p)) && Apart(p, Moved(p), First(p))
    ensures Apart(p, First(p), Second(p)) && Apart(p, Second(p), First(p))
  {
    assert Own(p, First(p)).generation[2..] == p.env.hash(p.here);
    assert Own(p, Moved(p)).generation[2..] == p.env.hash(p.there);
    assert Own(p, First(p)).generation[0] != Own(p, Second(p)).generation[0];
  }

  // ---------- Containers ----------

  /** A container that is missing or was run for another generation is run anew. */
  lemma RunAnew(p: Site, w: World, s: Service, address: string, e: Epoch, r: Runtime, was: Option<Epoch>)
    requires Supports(p) && Known(p, e) && s.managed && s.ports == multiset{} && w.env == p.env && w.host == p.host
    requires w.fault(s.container).NoFault? && w.address(s.container) == address
    requires Is(r.containers, s.container, BoxFor(p, s, address, was)) && (was.Some? ==> Apart(p, was.value, e))
    ensures var (r', ok) := Managed(PAIR, w, s, Dns(p, e), r);
            && ok && Is(r'.containers, s.container, Some(Box(p, s, address, e)))
            && forall name :: name != s.container ==> Kept(r.containers, r'.containers, name)
  {
    hide OwnGeneration, Own, Supports, Known, Kept;
    OwnOf(p, None, e, e);
    ManagedCarries(PAIR, w, s, Dns(p, e), r);
    assert !Carries(PAIR, s, r.containers, Own(p, e).generation);
    hide Carries, CarriesOwn;
    var labels := LabelsFor(PAIR, s, Own(p, e).generation);
    assert Managed(PAIR, w, s, Dns(p, e), r) ==
           (Started(PAIR, w, Removed(r, s.container), s.container, [e.address], labels, s.ports), true);
  }

  /** One that was run for this very generation is left alone. */
  lemma LeftAlone(p: Site, w: World, s: Service, address: string, e: Epoch, r: Runtime)
    requires Supports(p) && Known(p, e) && w.env == p.env && w.fault(s.container).NoFault?
    requires Is(r.containers, s.container, Some(Box(p, s, address, e)))
    ensures Managed(PAIR, w, s, Dns(p, e), r) == (r, true)
  {
    OwnOf(p, None, e, e);
    hide OwnGeneration, Own, Supports;
  }

  lemma BootstrapManages(w: World, resolver: Snapshot, r: Runtime)
    ensures ManagedFrom(PAIR, w, resolver, true, 0, r) == Managed(PAIR, w, VALKEY, resolver, r)
  {
    hide Managed;
    var (r', ok) := Managed(PAIR, w, VALKEY, resolver, r);
    assert ManagedFrom(PAIR, w, resolver, true, 2, r') == (r', true);
    assert ManagedFrom(PAIR, w, resolver, true, 1, r') == (r', true);
  }

  lemma FullManages(w: World, resolver: Snapshot, r: Runtime)
    ensures var (r', ok) := Managed(PAIR, w, VALKEY, resolver, r);
            ManagedFrom(PAIR, w, resolver, false, 0, r) ==
            if ok then Managed(PAIR, w, GATEWAY, resolver, r') else (r', false)
  {
    hide Managed;
    var (r', ok) := Managed(PAIR, w, VALKEY, resolver, r);
    var (r'', ok') := Managed(PAIR, w, GATEWAY, resolver, r');
    assert ManagedFrom(PAIR, w, resolver, false, 2, r'') == (r'', true);
    assert ManagedFrom(PAIR, w, resolver, false, 1, r') == (r'', ok');
  }

  // ---------- Publishing ----------

  function Records(p: Site, e: Epoch, store: string, g: Option<Epoch>): seq<Zone.DnsRecord> {
    [Zone.DnsRecord(Zone.RESOLVER, e.address), Zone.DnsRecord(STORAGE, store),
     if g.Some? then Zone.DnsRecord(Zone.ZONE, p.gateway) else PLACEHOLDER]
  }

  lemma LoopbackIsAddress()
    ensures Zone.IsIPv4("127.0.0.1")
  {
    Digits();
    hide Zone.Octet;
    var local := "127.0.0.1";
    assert local[0..3] == "127" && local[4..5] == "0" && local[6..7] == "0" && local[8..9] == "1";
    assert Zone.Dotted(local, 3, 5, 7);
  }

  lemma LabelInZone(front: string, name: string)
    requires Zone.Label(front) && name == front + "." + Zone.ZONE
    ensures Zone.InZone(name)
  {
    hide Zone.Label;
    assert name[..|front|] == front && name[|front|] == '.' && name[|front| + 1..] == Zone.ZONE;
    assert Zone.Under(Zone.ZONE, Zone.ZONE);
  }

  lemma ResolverInZone()
    ensures Zone.InZone(Zone.RESOLVER)
  {
    assert Zone.RESOLVER == "dns" + "." + Zone.ZONE;
    LabelInZone("dns", Zone.RESOLVER);
  }

  lemma StorageInZone()
    ensures Zone.InZone(STORAGE)
  {
    assert STORAGE == "valkey" + "." + Zone.ZONE;
    LabelInZone("valkey", STORAGE);
  }

  lemma NamesInZone()
    ensures Zone.InZone(Zone.RESOLVER) && Zone.InZone(STORAGE) && Zone.InZone(Zone.ZONE)
  {
    ResolverInZone();
    StorageInZone();
  }

  lemma Renders(p: Site, e: Epoch, store: string, g: Option<Epoch>)
    requires Zone.IsIPv4(e.address) && Zone.IsIPv4(store) && Zone.IsIPv4(p.gateway)
    ensures Zone.Renderable(Records(p, e, store, g), 2)
  {
    LoopbackIsAddress();
    NamesInZone();
    Names();
    hide Zone.IsIPv4, Zone.InZone;
    var records := Records(p, e, store, g);
    assert records[0].name == Zone.RESOLVER && records[1].name == STORAGE && records[2].name == Zone.ZONE;
    assert Zone.Fine(records, 0) && Zone.Fine(records, 1) && Zone.Fine(records, 2);
  }

  lemma LoopbackRenders()
    ensures Zone.Renderable(LOOPBACK, 2)
  {
    LoopbackIsAddress();
    NamesInZone();
    Names();
    hide Zone.IsIPv4, Zone.InZone;
    assert LOOPBACK[0].name == Zone.ZONE && LOOPBACK[1].name == Zone.RESOLVER;
    assert Zone.Fine(LOOPBACK, 0) && Zone.Fine(LOOPBACK, 1);
  }

  lemma LeaseApplies(p: Site, persisted: Option<DnsState.DnsState>, e: Epoch, now: int)
    requires persisted.Some? && persisted.value.lease.Some? ==> persisted.value.lease.value.stackId == "s"
    ensures var next := NextLease(PAIR, persisted, Own(p, e), now);
            ApplyLease(PreviousLease(persisted, Own(p, e)), next, now, "s") == Ok(next)
  {
    assert |Own(p, e).generation| > 0;
  }

  lemma OwnPersists(p: Site, e: Epoch, lease: Lease, now: int)
    requires Supports(p) && Known(p, e)
    requires lease.schemaVersion == 1 && lease.stackId == "s" && lease.validUntil.Some?
    requires lease.generation == Own(p, e).generation
    ensures DnsState.Persistable(p.env, DnsState.DnsState("s", Own(p, e), Some(lease), Some(now)))
  {
    hide Zone.IsIPv4;
    assert |Own(p, e).generation| > 0;
  }

  lemma PutReturns(p: Site, w: World, e: Epoch, store: string, s: Sys, g: Option<Epoch>, now: int)
    requires Supports(p) && Known(p, e) && Zone.IsIPv4(store)
    requires w.env == p.env && !w.publishFails && !w.commitFails && !w.reportFails
    requires s.persisted.Some? && s.persisted.value.lease.Some? ==> s.persisted.value.lease.value.stackId == "s"
    ensures var records := Records(p, e, store, g);
            var (s', ending) := Put(PAIR, w, s, records, Own(p, e), now);
            ending.Returned? && s'.runtime == s.runtime && Persists(p, s', e) && Published(s') == records
  {
    hide Zone.IsIPv4, Zone.Renderable, ApplyLease, DnsState.Persistable, Own, PreviousLease, Records;
    Renders(p, e, store, g);
    LeaseApplies(p, s.persisted, e, now);
    OwnPersists(p, e, NextLease(PAIR, s.persisted, Own(p, e), now), now);
  }

  // ---------- One reconcile ----------

  /** What a reconcile finds in order, and its full form that the gateway can resolve the storage. */
  ghost predicate InOrder(p: Site, w: World, containers: map<string, Snapshot>, e: Epoch, store: string,
                          v: Epoch, g: Option<Epoch>, bootstrap: bool)
  {
    && Runs(p, containers, e, store, Some(v), g)
    && w.healthy("vk") && w.healthy("gw") && w.reached("vk")
    && (!bootstrap ==> g.Some? && g.value.address == e.address && Zone.DnsRecord(STORAGE, store) in w.served)
  }

  lemma StorageRecord(p: Site, w: World, containers: map<string, Snapshot>, e: Epoch, store: string,
                      v: Epoch, g: Option<Epoch>)
    requires InOrder(p, w, containers, e, store, v, g, true)
    ensures ServiceRecords(w, [VALKEY, GATEWAY], containers) ==
            [Zone.DnsRecord(STORAGE, store)] + if g.Some? then [Zone.DnsRecord(Zone.ZONE, p.gateway)] else []
  {
    var both := [VALKEY, GATEWAY];
    assert both[..1] == [VALKEY] && [VALKEY][..0] == [];
    assert ServiceRecords(w, [], containers) == [];
    assert ServiceRecords(w, [VALKEY], containers) == [Zone.DnsRecord(STORAGE, store)];
  }

  lemma Collects(p: Site, w: World, containers: map<string, Snapshot>, e: Epoch, store: string,
                 v: Epoch, g: Option<Epoch>, bootstrap: bool)
    requires e.instance != "" && InOrder(p, w, containers, e, store, v, g, bootstrap)
    ensures ResolverReady(PAIR, containers)
    ensures Collected(PAIR, w, containers, bootstrap) == Some(Records(p, e, store, g))
  {
    PairValid();
    hide Own;
    StorageRecord(p, w, containers, e, store, v, g);
    ZoneNamedByGateway(PAIR, w, containers);
    hide ServiceRecords, NamesZone;
    assert AllRecords(PAIR, w, containers, g.None?) == Records(p, e, store, g);
    assert Passed(PAIR, w, containers, bootstrap, 2);
    assert !bootstrap ==> Reached(PAIR, w, containers, 2);
  }

  /** Where all is in order and no container is to be run, a reconcile returns, leaves the containers
      alone, and persists and publishes the resolver as it is. */
  lemma ReconcileReturns(p: Site, w: World, s: Sys, now: int, bootstrap: bool, e: Epoch, store: string,
                         v: Epoch, g: Option<Epoch>, q: Epoch)
    requires Supports(p) && Known(p, e) && Zone.IsIPv4(store)
    requires w.env == p.env && !w.publishFails && !w.commitFails && !w.reportFails && w.fault("vk").NoFault?
    requires InOrder(p, w, s.runtime.containers, e, store, v, g, bootstrap)
    requires s.persisted.Some? ==> Persists(p, s, q)
    requires if bootstrap then v == e else s.persisted.Some? ==> q == e
    ensures var (s', ending) := Reconciled(PAIR, w, s, now, bootstrap);
            && ending.Returned? && s'.runtime == s.runtime
            && Persists(p, s', e) && Published(s') == Records(p, e, store, g)
  {
    hide Zone.IsIPv4;
    OwnOf(p, s.persisted, e, q);
    Collects(p, w, s.runtime.containers, e, store, v, g, bootstrap);
    PutReturns(p, w, e, store, s, g, now);
    if bootstrap {
      LeftAlone(p, w, VALKEY, store, e, s.runtime);
      BootstrapManages(w, Dns(p, e), s.runtime);
    }
    hide Put, Collected, Current, ResolverReady, Own, Records, Managed, ManagedFrom;
    assert Regenerated(PAIR, w, s, bootstrap) == (s.runtime, true);
  }

  // ---------- The steps of `up` ----------

  lemma RunsKept(p: Site, c: map<string, Snapshot>, c': map<string, Snapshot>, e: Epoch, store: string,
                 v: Option<Epoch>, g: Option<Epoch>)
    requires Runs(p, c, e, store, v, g) && Kept(c, c', "dns")
    ensures Kept(c, c', "gw") && Is(c', "vk", BoxFor(p, VALKEY, store, Some(e))) ==> Runs(p, c', e, store, Some(e), g)
    ensures Kept(c, c', "vk") && Is(c', "gw", BoxFor(p, GATEWAY, p.gateway, Some(e))) ==>
      Runs(p, c', e, store, v, Some(e))
  {
    hide Own;
  }

  /** The storage is run for the resolver unless it already was. */
  lemma StorageManaged(p: Site, w: World, r: Runtime, e: Epoch, store: string,
                       v: Option<Epoch>, g: Option<Epoch>, fault: Fault)
    requires Supports(p) && Known(p, e) && Meets(p, w, e, store, fault)
    requires Runs(p, r.containers, e, store, v, g) && (v.Some? ==> v.value == e || Apart(p, v.value, e))
    ensures var (r', ok) := Managed(PAIR, w, VALKEY, Dns(p, e), r);
            ok && Runs(p, r'.containers, e, store, Some(e), g)
  {
    hide Supports, Own, Apart;
    if v == Some(e) {
      LeftAlone(p, w, VALKEY, store, e, r);
    } else {
      RunAnew(p, w, VALKEY, store, e, r, v);
      RunsKept(p, r.containers, Managed(PAIR, w, VALKEY, Dns(p, e), r).0.containers, e, store, v, g);
    }
  }

  lemma GatewayManaged(p: Site, w: World, r: Runtime, e: Epoch, store: string, v: Option<Epoch>, g: Option<Epoch>)
    requires Supports(p) && Known(p, e) && Meets(p, w, e, store, NoFault)
    requires Runs(p, r.containers, e, store, v, g) && (g.Some? ==> g.value == e || Apart(p, g.value, e))
    ensures var (r', ok) := Managed(PAIR, w, GATEWAY, Dns(p, e), r);
            ok && Runs(p, r'.containers, e, store, v, Some(e))
  {
    hide Supports, Own, Apart;
    if g == Some(e) {
      LeftAlone(p, w, GATEWAY, p.gateway, e, r);
    } else {
      RunAnew(p, w, GATEWAY, p.gateway, e, r, g);
      RunsKept(p, r.containers, Managed(PAIR, w, GATEWAY, Dns(p, e), r).0.containers, e, store, v, g);
    }
  }

  /** The gateway, if it is there, is fit to stay. */
  lemma GatewayFit(p: Site, c: map<string, Snapshot>, e: Epoch, store: string, v: Option<Epoch>, g: Option<Epoch>)
    requires Runs(p, c, e, store, v, g)
    ensures !Unfit(PAIR, c)
  {
    hide Own;
  }

  lemma PreparedRuns(p: Site, w: World, s: Sys, now: int, e: Epoch, store: string,
                     v: Option<Epoch>, g: Option<Epoch>, q: Epoch, fault: Fault)
    requires Supports(p) && Known(p, e) && Zone.IsIPv4(store) && Meets(p, w, e, store, fault)
    requires Runs(p, s.runtime.containers, e, store, v, g) && (v.Some? ==> v.value == e || Apart(p, v.value, e))
    requires s.persisted.Some? ==> Persists(p, s, q)
    ensures "dns" in s.runtime.containers
    ensures var (s', ok) := Prepared(PAIR, w, s, now);
            && ok && Runs(p, s'.runtime.containers, e, store, Some(e), g)
            && Persists(p, s', e) && Published(s') == Records(p, e, store, g)
  {
    hide Supports, Own, Apart, Managed, ManagedFrom, Reconciled, Zone.IsIPv4, Unfit, Records;
    StorageManaged(p, w, s.runtime, e, store, v, g, fault);
    BootstrapManages(w, Dns(p, e), s.runtime);
    var (r, _) := Managed(PAIR, w, VALKEY, Dns(p, e), s.runtime);
    GatewayFit(p, r.containers, e, store, Some(e), g);
    ReconcileReturns(p, w, s.(runtime := r), now, true, e, store, e, g, q);
  }

  lemma FinishedRuns(p: Site, w: World, s: Sys, later: int, e: Epoch, store: string, g: Option<Epoch>)
    requires Supports(p) && Known(p, e) && Zone.IsIPv4(store) && Meets(p, w, e, store, NoFault)
    requires Zone.DnsRecord(STORAGE, store) in w.served
    requires Runs(p, s.runtime.containers, e, store, Some(e), g) && (g.Some? ==> g.value == e || Apart(p, g.value, e))
    requires Persists(p, s, e)
    ensures var (s', ok) := Finished(PAIR, w, s, Dns(p, e), later);
            && ok && Runs(p, s'.runtime.containers, e, store, Some(e), Some(e))
            && Persists(p, s', e) && Published(s') == Records(p, e, store, Some(e))
  {
    hide Supports, Own, Apart, Managed, Reconciled, Zone.IsIPv4, Records;
    GatewayManaged(p, w, s.runtime, e, store, Some(e), g);
    var (r, _) := Managed(PAIR, w, GATEWAY, Dns(p, e), s.runtime);
    ReconcileReturns(p, w, s.(runtime := r), later, false, e, store, e, Some(e), e);
  }

  /** The gateway's preparation fails, and `up` with it. */
  lemma FinishedStops(p: Site, w: World, s: Sys, later: int, e: Epoch, store: string)
    requires Meets(p, w, e, store, Preparing)
    ensures Finished(PAIR, w, s, Dns(p, e), later) == (s, false)
  {
    hide OwnGeneration;
  }

  /** There is no resolver: `up` runs one, and leaves the rest as it was. */
  lemma ResolverStarts(p: Site, w: World, s: Sys, now: int, e: Epoch, store: string, fault: Fault)
    requires Meets(p, w, e, store, fault)
    ensures var (s', ok) := ResolverStarted(PAIR, w, s, now);
            && ok && s'.persisted == s.persisted && Is(s'.runtime.containers, "dns", Some(Dns(p, e)))
            && Kept(s.runtime.containers, s'.runtime.containers, "vk")
            && Kept(s.runtime.containers, s'.runtime.containers, "gw")
  {
    LoopbackRenders();
    hide Zone.Renderable;
  }

  // ---------- Bringing up ----------

  /** The storage and the gateway as they are, and no resolver. */
  predicate Bereft(p: Site, c: map<string, Snapshot>, store: string, v: Option<Epoch>, g: Option<Epoch>) {
    && Is(c, "dns", None)
    && Is(c, "vk", BoxFor(p, VALKEY, store, v))
    && Is(c, "gw", BoxFor(p, GATEWAY, p.gateway, g))
  }

  /** The resolver that an `up` works with: the one there is, or one that it runs. */
  lemma ResolverThere(p: Site, w: World, s: Sys, now: int, e: Epoch, store: string,
                      v: Option<Epoch>, g: Option<Epoch>, fault: Fault)
    requires Meets(p, w, e, store, fault)
    requires Runs(p, s.runtime.containers, e, store, v, g) || Bereft(p, s.runtime.containers, store, v, g)
    ensures var (s', ok) := if "dns" in s.runtime.containers then (s, true) else ResolverStarted(PAIR, w, s, now);
            ok && s'.persisted == s.persisted && Runs(p, s'.runtime.containers, e, store, v, g)
  {
    ResolverStarts(p, w, s, now, e, store, fault);
    hide ResolverStarted, Own;
  }

  /** An `up` in which nothing fails completes, with every container run for the resolver. */
  lemma UpRuns(p: Site, w: World, s: Sys, now: int, later: int, e: Epoch, store: string,
               v: Option<Epoch>, g: Option<Epoch>, q: Epoch)
    requires Supports(p) && Known(p, e) && Zone.IsIPv4(store) && Meets(p, w, e, store, NoFault)
    requires Zone.DnsRecord(STORAGE, store) in w.served
    requires Runs(p, s.runtime.containers, e, store, v, g) || Bereft(p, s.runtime.containers, store, v, g)
    requires (v.Some? ==> v.value == e || Apart(p, v.value, e)) && (g.Some? ==> g.value == e || Apart(p, g.value, e))
    requires s.persisted.Some? ==> Persists(p, s, q)
    ensures var (s', ok) := BroughtUp(PAIR, w, s, now, later);
            && ok && Runs(p, s'.runtime.containers, e, store, Some(e), Some(e))
            && Persists(p, s', e) && Published(s') == Records(p, e, store, Some(e))
  {
    hide Supports, Own, Apart, Prepared, Finished, ResolverStarted, Zone.IsIPv4, Records, Meets;
    ResolverThere(p, w, s, now, e, store, v, g, NoFault);
    var (s1, _) := if "dns" in s.runtime.containers then (s, true) else ResolverStarted(PAIR, w, s, now);
    PreparedRuns(p, w, s1, now, e, store, v, g, q, NoFault);
    var (s2, _) := Prepared(PAIR, w, s1, now);
    FinishedRuns(p, w, s2, later, e, store, g);
  }

  const NOTHING: Sys := Sys(Runtime(map[], 0), None, None)

  /** A first `up`: once it has published, the resolver answers with the storage's record. */
  function FirstUp(p: Site, t: int): (Sys, bool) {
    BroughtUp(PAIR, Calm(p, First(p), p.store, NoFault, Records(p, First(p), p.store, None)), NOTHING, t, t)
  }

  /** All runs for the resolver `e` but the storage for `v` and the gateway for `g`, and `q` is persisted
      and published. */
  predicate Stands(p: Site, s: Sys, e: Epoch, store: string, v: Epoch, g: Epoch, q: Epoch) {
    && Runs(p, s.runtime.containers, e, store, Some(v), Some(g)) && Persists(p, s, q)
    && Zone.DnsRecord(STORAGE, p.store) in Published(s)
  }

  lemma FirstUpStands(p: Site, t: int)
    requires Supports(p)
    ensures var (s, ok) := FirstUp(p, t);
            && ok && Stands(p, s, First(p), p.store, First(p), First(p), First(p))
            && Published(s) == Records(p, First(p), p.store, Some(First(p)))
  {
    var e, served := First(p), Records(p, First(p), p.store, None);
    CalmMeets(p, e, p.store, NoFault, served);
    assert Zone.DnsRecord(STORAGE, p.store) == served[1];
    assert Zone.DnsRecord(STORAGE, p.store) == Records(p, e, p.store, Some(e))[1];
    hide Zone.IsIPv4, BroughtUp, Meets, Own, Apart;
    UpRuns(p, Calm(p, e, p.store, NoFault, served), NOTHING, t, t, e, p.store, None, None, e);
  }

  predicate ConvergedNow(k: Stack, s: Sys, env: Env)
    requires k.gateway < |k.services|
  {
    k.resolver in s.runtime.containers
    && Converged(k, s.runtime.containers, OwnGeneration(env, s.runtime.containers[k.resolver]))
  }

  /** A container run for another generation is not what its resolver wants. */
  lemma NotCarried(p: Site, s: Sys, e: Epoch, store: string, v: Epoch, g: Epoch)
    requires Supports(p) && Known(p, e) && Runs(p, s.runtime.containers, e, store, Some(v), Some(g))
    requires Apart(p, v, e) || Apart(p, g, e)
    ensures !ConvergedNow(PAIR, s, p.env)
  {
    hide OwnGeneration, Own, Supports, Known;
    OwnOf(p, None, e, e);
    assert PAIR.services[0] == VALKEY && PAIR.services[1] == GATEWAY;
    if Apart(p, v, e) {
      BoxCarries(p, VALKEY, s.runtime.containers, store, e, v);
    } else {
      BoxCarries(p, GATEWAY, s.runtime.containers, p.gateway, e, g);
    }
    hide CarriesOwn, Runs, Apart;
  }

  lemma BoxCarries(p: Site, s: Service, c: map<string, Snapshot>, address: string, e: Epoch, was: Epoch)
    requires Is(c, s.container, Some(Box(p, s, address, was))) && Apart(p, was, e)
    ensures !CarriesOwn(PAIR, s, c, Some(Own(p, e)))
  {
    hide Own;
  }

  /** The resolver being as it is persisted and the gateway asking it, a reconcile returns, and leaves
      the storage and the gateway for whatever they were run. */
  lemma ReturnsAsIs(p: Site, s: Sys, t: int, e: Epoch, v: Epoch, g: Epoch)
    requires Supports(p) && Known(p, e) && Stands(p, s, e, p.store, v, g, e) && g.address == e.address
    requires Apart(p, v, e) || Apart(p, g, e)
    ensures var (s', ending) := Reconciled(PAIR, Calm(p, e, p.store, NoFault, Published(s)), s, t, false);
            ending.Returned? && !ConvergedNow(PAIR, s', p.env)
  {
    hide Zone.IsIPv4, Own, Apart, Reconciled, ConvergedNow, Records;
    var w := Calm(p, e, p.store, NoFault, Published(s));
    CalmMeets(p, e, p.store, NoFault, Published(s));
    ReconcileReturns(p, w, s, t, false, e, p.store, v, Some(g), e);
    NotCarried(p, Reconciled(PAIR, w, s, t, false).0, e, p.store, v, g);
  }

  // ---------- The resolver comes back ----------

  function MovedTo(p: Site, s: Sys, e: Epoch): Sys {
    Happens(PAIR, s, Moves(Dns(p, e)))
  }

  lemma StillStands(p: Site, s: Sys, e: Epoch, v: Epoch, g: Epoch, q: Epoch, to: Epoch)
    requires Stands(p, s, e, p.store, v, g, q)
    ensures Stands(p, MovedTo(p, s, to), to, p.store, v, g, q)
  {
    hide Own;
  }

  /** A reconcile runs the storage for the new address and then fails at the gateway. */
  lemma FailsAtGateway(p: Site, s: Sys, t: int)
    requires Supports(p) && Stands(p, s, Moved(p), p.store, First(p), First(p), First(p))
    ensures var (s', e) := Reconciled(PAIR, Calm(p, Moved(p), p.store, Preparing, Published(s)), s, t, false);
            e.ThrewBeforePublish? && Stands(p, s', Moved(p), p.store, Moved(p), First(p), First(p))
  {
    var e, w := Moved(p), Calm(p, Moved(p), p.store, Preparing, Published(s));
    EpochsApart(p);
    CalmMeets(p, e, p.store, Preparing, Published(s));
    OwnOf(p, s.persisted, e, First(p));
    StorageManaged(p, w, s.runtime, e, p.store, Some(First(p)), Some(First(p)), Preparing);
    FullManages(w, Dns(p, e), s.runtime);
    var (r, _) := Managed(PAIR, w, VALKEY, Dns(p, e), s.runtime);
    assert Managed(PAIR, w, GATEWAY, Dns(p, e), r) == (r, false);
    hide Managed, ManagedFrom, Own, OwnGeneration, Current, Collected, Put, Supports;
    assert Regenerated(PAIR, w, s, false) == (r, false);
  }

  /** A stack is brought up, its resolver moves, and a reconcile runs the storage for the new address
      and then fails at the gateway; then the resolver comes back. The next reconcile meets no fault,
      finds the persisted generation and a gateway that asks the resolver, and returns, with the
      storage still on the other generation. */
  lemma ComesBack(p: Site, t: int)
    requires Supports(p)
    ensures
      var (s0, up) := FirstUp(p, t);
      var m := MovedTo(p, s0, Moved(p));
      var (s1, failed) := Reconciled(PAIR, Calm(p, Moved(p), p.store, Preparing, Published(m)), m, t, false);
      var b := MovedTo(p, s1, First(p));
      var (s2, e) := Reconciled(PAIR, Calm(p, First(p), p.store, NoFault, Published(b)), b, t, false);
      up && failed.ThrewBeforePublish? && e.Returned? && !ConvergedNow(PAIR, s2, p.env)
  {
    EpochsApart(p);
    hide FirstUp, Reconciled, Own, Supports, Stands, MovedTo, ConvergedNow, Apart;
    FirstUpStands(p, t);
    var (s0, _) := FirstUp(p, t);
    StillStands(p, s0, First(p), First(p), First(p), First(p), Moved(p));
    var m := MovedTo(p, s0, Moved(p));
    FailsAtGateway(p, m, t);
    var (s1, _) := Reconciled(PAIR, Calm(p, Moved(p), p.store, Preparing, Published(m)), m, t, false);
    StillStands(p, s1, Moved(p), Moved(p), First(p), First(p), First(p));
    ReturnsAsIs(p, MovedTo(p, s1, First(p)), t, First(p), Moved(p), First(p));
  }

  // ---------- An `up` that stops half-way ----------

  /** The resolver's container is gone. */
  function Gone(s: Sys): Sys {
    s.(runtime := s.runtime.(containers := s.runtime.containers - {"dns"}))
  }

  lemma BereftWhenGone(p: Site, s: Sys, e: Epoch, v: Epoch, g: Epoch, q: Epoch)
    requires Stands(p, s, e, p.store, v, g, q)
    ensures Bereft(p, Gone(s).runtime.containers, p.store, Some(v), Some(g)) && Persists(p, Gone(s), q)
  {
    hide Own;
  }

  /** An `up` runs another resolver and the storage for it, persists its generation at the bootstrap
      reconcile, and then fails at the gateway. */
  lemma StopsAtGateway(p: Site, s: Sys, t: int)
    requires Supports(p) && Bereft(p, s.runtime.containers, p.store, Some(First(p)), Some(First(p)))
    requires Persists(p, s, First(p))
    ensures var (s', ok) := BroughtUp(PAIR, Calm(p, Second(p), p.store, Preparing, []), s, t, t);
            !ok && Stands(p, s', Second(p), p.store, Second(p), First(p), Second(p))
  {
    var e, w := Second(p), Calm(p, Second(p), p.store, Preparing, []);
    hide Own, Apart, Prepared, Finished, ResolverStarted, Zone.IsIPv4, Meets, Reconciled;
    EpochsApart(p);
    CalmMeets(p, e, p.store, Preparing, []);
    ResolverThere(p, w, s, t, e, p.store, Some(First(p)), Some(First(p)), Preparing);
    var (s1, _) := if "dns" in s.runtime.containers then (s, true) else ResolverStarted(PAIR, w, s, t);
    PreparedRuns(p, w, s1, t, e, p.store, Some(First(p)), Some(First(p)), First(p), Preparing);
    var (s2, _) := Prepared(PAIR, w, s1, t);
    FinishedStops(p, w, s2, t, e, p.store);
    assert Records(p, e, p.store, Some(First(p)))[1] == Zone.DnsRecord(STORAGE, p.store);
  }

  /** A stack is brought up, its resolver is lost, and an `up` runs another at the same address and
      persists its generation, but fails at the gateway. The next reconcile meets no fault, finds the
      persisted generation and a gateway that asks the resolver's address, and returns, with the gateway
      still on the old generation. */
  lemma StopsHalfWay(p: Site, t: int)
    requires Supports(p)
    ensures
      var (s0, up) := FirstUp(p, t);
      var (s1, again) := BroughtUp(PAIR, Calm(p, Second(p), p.store, Preparing, []), Gone(s0), t, t);
      var (s2, e) := Reconciled(PAIR, Calm(p, Second(p), p.store, NoFault, Published(s1)), s1, t, false);
      up && !again && e.Returned? && !ConvergedNow(PAIR, s2, p.env)
  {
    EpochsApart(p);
    hide FirstUp, BroughtUp, Reconciled, Own, Supports, Stands, Gone, ConvergedNow, Apart, Bereft, Persists;
    FirstUpStands(p, t);
    var (s0, _) := FirstUp(p, t);
    BereftWhenGone(p, s0, First(p), First(p), First(p), First(p));
    StopsAtGateway(p, Gone(s0), t);
    var (s1, _) := BroughtUp(PAIR, Calm(p, Second(p), p.store, Preparing, []), Gone(s0), t, t);
    ReturnsAsIs(p, s1, t, Second(p), Second(p), First(p));
  }

  // ---------- The storage moves ----------

  /** The storage's container has another address, and is otherwise as it was. */
  function StoreMoved(p: Site, s: Sys): Sys {
    var c := Box(p, VALKEY, p.elsewhere, First(p));
    s.(runtime := s.runtime.(containers := s.runtime.containers["vk" := c]))
  }

  lemma StoreMovedStale(p: Site, s: Sys)
    requires Supports(p) && Stands(p, s, First(p), p.store, First(p), First(p), First(p))
    requires Published(s) == Records(p, First(p), p.store, Some(First(p)))
    ensures var m := StoreMoved(p, s);
            && Runs(p, m.runtime.containers, First(p), p.elsewhere, Some(First(p)), Some(First(p)))
            && Persists(p, m, First(p)) && Stale(PAIR, m)
  {
    Names();
    hide Own, Zone.IsIPv4;
    assert PAIR.services[0] == VALKEY;
    assert Misplaced(PAIR.services[0], StoreMoved(p, s));
  }

  /** A stack is brought up, and its storage gets another address. A full reconcile that meets no
      fault then throws and changes nothing, as any number of them would; an `up` publishes the new
      address. */
  lemma StorageMoves(p: Site, t: int)
    requires Supports(p)
    ensures
      var (s0, up) := FirstUp(p, t);
      var m, e := StoreMoved(p, s0), First(p);
      var after := Records(p, e, p.elsewhere, Some(e));
      var (s1, again) := BroughtUp(PAIR, Calm(p, e, p.elsewhere, NoFault, after), m, t, t);
      && up && Stale(PAIR, m)
      && Reconciled(PAIR, Calm(p, e, p.elsewhere, NoFault, Published(m)), m, t, false) == (m, ThrewBeforePublish)
      && again && Published(s1) == after
  {
    var e, after := First(p), Records(p, First(p), p.elsewhere, Some(First(p)));
    var w := Calm(p, e, p.elsewhere, NoFault, after);
    assert after[1] == Zone.DnsRecord(STORAGE, p.elsewhere);
    CalmMeets(p, e, p.elsewhere, NoFault, after);
    PairValid();
    hide FirstUp, BroughtUp, Reconciled, Own, StoreMoved, Apart, Stale, Zone.IsIPv4, Records, Meets;
    FirstUpStands(p, t);
    var m := StoreMoved(p, FirstUp(p, t).0);
    StoreMovedStale(p, FirstUp(p, t).0);
    OwnOf(p, m.persisted, e, e);
    StaleStays(PAIR, Calm(p, e, p.elsewhere, NoFault, Published(m)), m, t);
    UpRuns(p, w, m, t, t, e, p.elsewhere, Some(e), Some(e), e);
  }
}
