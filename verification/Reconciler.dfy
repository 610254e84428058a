/** Bringing a stack up and reconciling it: containers, the published records and lease, and the
    persisted state, against a runtime that may fail at any of its operations. */
module Reconciler {
  import DnsState
  import opened Lease
  import opened Options
  import Zone

  datatype Role = Gateway | Storage | Mcp | Dns

  datatype Port = Port(hostIp: string, hostPort: nat, containerPort: nat)

  datatype Labels = Labels(stack: Option<string>, service: Option<string>, role: Option<Role>,
                           descriptor: Option<string>, generation: Option<string>, instance: Option<string>)

  /** A container as it runs. `nameservers` are those it was run with. */
  datatype Snapshot = Snapshot(running: bool, network: string, addresses: seq<string>, hostAddress: string,
                               nameservers: seq<string>, labels: Labels, ports: multiset<Port>)

  /** `descriptor` is the digest of the service's runtime description. */
  datatype Service = Service(id: string, role: Role, container: string, dns: string, required: bool, managed: bool,
                             descriptor: string, ports: multiset<Port>)

  datatype Stack = Stack(stackId: string, network: string, resolver: string, ttl: int, lease: int,
                         services: seq<Service>, gateway: nat, storage: nat)

  const STORAGE: string := "valkey." + Zone.ZONE

  /** What the manifest's own checks establish. */
  ghost predicate ValidStack(k: Stack) {
    && k.gateway < |k.services| && k.services[k.gateway].required
    && k.storage < |k.services| && k.services[k.storage].required && k.services[k.storage].dns == STORAGE
    && (forall i :: 0 <= i < |k.services| ==>
          && (k.services[i].role.Gateway? <==> i == k.gateway)
          && (k.services[i].role.Storage? <==> i == k.storage)
          && (k.services[i].dns == Zone.ZONE <==> i == k.gateway)
          && k.services[i].dns != Zone.RESOLVER
          && k.services[i].container != k.resolver
          && k.services[i].descriptor != "")
    && (forall i, j :: 0 <= i < j < |k.services| ==>
          && k.services[i].container != k.services[j].container
          && k.services[i].dns != k.services[j].dns)
    && k.lease > 0
  }

  /** Where an operation on a managed service fails: before the container is looked at, in
      removing it, in running it, or in waiting for it. */
  datatype Fault = NoFault | Preparing | Removing | Running | Waiting

  /** What one command meets: which services the runtime fails, which are healthy, which take the
      gateway's connections, what the resolver answers (nothing when it does not serve), what address
      a container gets, and whether publishing, committing and the reports after it fail. */
  datatype World = World(env: Env, collate: string -> real, fault: string -> Fault,
                         healthy: string -> bool, reached: string -> bool, served: seq<Zone.DnsRecord>,
                         address: string -> string, host: string, instance: string,
                         publishFails: bool, commitFails: bool, reportFails: bool)

  datatype Bundle = Bundle(records: seq<Zone.DnsRecord>, lease: Lease)

  datatype Ending = Returned | ThrewBeforePublish | ThrewAfterPublish

  /** The containers, and how many have been run or removed. */
  datatype Runtime = Runtime(containers: map<string, Snapshot>, changes: nat)

  /** What commands read and write: the runtime, what resolvers see, and the persisted state. */
  datatype Sys = Sys(runtime: Runtime, bundle: Option<Bundle>, persisted: Option<DnsState.DnsState>)

  /** The container runs what the service describes, for this resolver generation. */
  predicate Carries(k: Stack, s: Service, containers: map<string, Snapshot>, generation: string) {
    s.container in containers &&
    var c := containers[s.container];
    && c.running && c.network == k.network && |c.addresses| == 1
    && c.labels.descriptor == Some(s.descriptor) && c.labels.generation == Some(generation)
  }

  predicate CarriesOwn(k: Stack, s: Service, containers: map<string, Snapshot>, own: Option<GenerationState>) {
    own.Some? && Carries(k, s, containers, own.value.generation)
  }

  predicate AllManagedCarry(k: Stack, containers: map<string, Snapshot>, own: Option<GenerationState>,
                            bootstrap: bool)
  {
    forall i :: 0 <= i < |k.services| && k.services[i].managed && !Skipped(k.services[i], bootstrap) ==>
      CarriesOwn(k, k.services[i], containers, own)
  }

  predicate AllCarry(k: Stack, containers: map<string, Snapshot>, own: Option<GenerationState>, bootstrap: bool) {
    own.Some? && AllManagedCarry(k, containers, own, bootstrap)
  }

  /** Every managed service carries its descriptor and the resolver's generation. */
  predicate Converged(k: Stack, containers: map<string, Snapshot>, own: Option<GenerationState>) {
    AllManagedCarry(k, containers, own, false)
  }

  predicate ResolverReady(k: Stack, containers: map<string, Snapshot>) {
    k.resolver in containers &&
    var c := containers[k.resolver];
    && c.running && c.network == k.network && |c.addresses| == 1
    && c.labels.stack == Some(k.stackId) && c.labels.service == Some("dns") && c.labels.role == Some(Dns)
    && c.labels.instance.Some? && c.labels.instance.value != ""
  }

  predicate Identified(k: Stack, s: Service, c: Snapshot) {
    && c.running && c.network == k.network && |c.addresses| == 1
    && c.labels.stack == Some(k.stackId) && c.labels.service == Some(s.id) && c.labels.role == Some(s.role)
    && (s.managed && c.labels.descriptor.Some? && c.labels.descriptor.value != "" ==>
          c.labels.descriptor.value == s.descriptor)
    && c.ports == s.ports
  }

  function InstanceOf(c: Snapshot): string {
    if c.labels.instance.Some? then c.labels.instance.value else ""
  }

  /** The generation a resolver stands for on its own. */
  function OwnGeneration(env: Env, resolver: Snapshot): Option<GenerationState> {
    UpdateDnsGeneration(env, None, resolver.addresses, InstanceOf(resolver), resolver.hostAddress)
  }

  function PreviousResolver(persisted: Option<DnsState.DnsState>): Option<GenerationState> {
    if persisted.Some? then Some(persisted.value.resolver) else None
  }

  function Current(env: Env, persisted: Option<DnsState.DnsState>, resolver: Snapshot): Option<GenerationState> {
    var previous := PreviousResolver(persisted);
    UpdateDnsGeneration(env, previous, resolver.addresses, InstanceOf(resolver), resolver.hostAddress)
  }

  predicate Changes(persisted: Option<DnsState.DnsState>, current: GenerationState) {
    persisted.Some? && persisted.value.resolver.generation != current.generation
  }

  /** Left to a bootstrap reconcile to start later. */
  predicate Skipped(s: Service, bootstrap: bool) {
    bootstrap && s.role.Gateway?
  }

  predicate Listed(w: World, s: Service, containers: map<string, Snapshot>) {
    s.container in containers && w.healthy(s.container)
  }

  /** The records of the services that are there and healthy, in order. */
  function ServiceRecords(w: World, services: seq<Service>, containers: map<string, Snapshot>): seq<Zone.DnsRecord> {
    if services == [] then []
    else
      var rest, s := ServiceRecords(w, services[..|services| - 1], containers), services[|services| - 1];
      if Listed(w, s, containers) && containers[s.container].addresses != []
      then rest + [Zone.DnsRecord(s.dns, containers[s.container].addresses[0])] else rest
  }

  const PLACEHOLDER := Zone.DnsRecord(Zone.ZONE, "127.0.0.1")

  /** A required service that this reconcile may not do without. */
  predicate Needed(s: Service, containers: map<string, Snapshot>, bootstrap: bool) {
    s.required && !(Skipped(s, bootstrap) && s.container !in containers)
  }

  /** The gateway's container was run with the resolver, at its present address, as nameserver. */
  predicate AsksResolver(k: Stack, containers: map<string, Snapshot>)
    requires k.gateway < |k.services|
  {
    var gateway := k.services[k.gateway].container;
    && gateway in containers && containers[gateway].nameservers != []
    && k.resolver in containers && containers[k.resolver].addresses != []
    && containers[gateway].nameservers[0] == containers[k.resolver].addresses[0]
  }

  /** The resolver answers for the service with the address its container has. */
  predicate Answered(w: World, s: Service, containers: map<string, Snapshot>) {
    && s.container in containers && containers[s.container].addresses != []
    && Zone.DnsRecord(s.dns, containers[s.container].addresses[0]) in w.served
  }

  /** A service that the gateway must resolve and reach. */
  predicate MustReach(s: Service, containers: map<string, Snapshot>) {
    s.required && !s.role.Gateway? && s.container in containers
  }

  /** Of the first `n` services, the gateway resolves and reaches those it must. */
  predicate Reached(k: Stack, w: World, containers: map<string, Snapshot>, n: nat)
    requires n <= |k.services| && k.gateway < |k.services|
  {
    forall i :: 0 <= i < n && MustReach(k.services[i], containers) ==>
      && AsksResolver(k, containers) && Answered(w, k.services[i], containers)
      && w.reached(k.services[i].container)
  }

  /** The first `n` services have passed: whatever is there is what it should be, and what is needed
      is there and healthy. */
  predicate Passed(k: Stack, w: World, containers: map<string, Snapshot>, bootstrap: bool, n: nat)
    requires n <= |k.services|
  {
    && (forall i :: 0 <= i < n && k.services[i].container in containers ==>
          Identified(k, k.services[i], containers[k.services[i].container]))
    && (forall i :: 0 <= i < n && Needed(k.services[i], containers, bootstrap) ==> Listed(w, k.services[i], containers))
  }

  /** What a set of records promises a resolver's clients: one record for the resolver and for each
      service that is there, identified and healthy, no other but a bootstrap placeholder for a
      gateway without a record, nothing twice, and nothing needed left out. */
  ghost predicate Faithful(k: Stack, w: World, containers: map<string, Snapshot>, bootstrap: bool,
                           records: seq<Zone.DnsRecord>)
    requires ValidStack(k)
  {
    && ResolverReady(k, containers)
    && (forall i, j :: 0 <= i < j < |records| ==> records[i].name != records[j].name)
    && Passed(k, w, containers, bootstrap, |k.services|)
    && (!bootstrap ==> Listed(w, k.services[k.gateway], containers) && Reached(k, w, containers, |k.services|))
    && (forall r :: r in records <==>
          || r == Zone.DnsRecord(Zone.RESOLVER, containers[k.resolver].addresses[0])
          || (exists i :: 0 <= i < |k.services| && Lists(w, k.services[i], containers, r))
          || (bootstrap && !Listed(w, k.services[k.gateway], containers) && r == PLACEHOLDER))
  }

  predicate Lists(w: World, s: Service, containers: map<string, Snapshot>, r: Zone.DnsRecord) {
    && Listed(w, s, containers) && containers[s.container].addresses != []
    && r == Zone.DnsRecord(s.dns, containers[s.container].addresses[0])
  }

  lemma {:induction false} ServiceRecordsMembers(w: World, services: seq<Service>, containers: map<string, Snapshot>)
    ensures forall r :: r in ServiceRecords(w, services, containers) <==>
      exists i :: 0 <= i < |services| && Lists(w, services[i], containers, r)
  {
    if services != [] {
      var rest, last := services[..|services| - 1], services[|services| - 1];
      ServiceRecordsMembers(w, rest, containers);
      forall r
        ensures r in ServiceRecords(w, services, containers) <==>
          exists i :: 0 <= i < |services| && Lists(w, services[i], containers, r)
      {
        if i :| 0 <= i < |rest| && Lists(w, rest[i], containers, r) {
          assert services[i] == rest[i];
        }
        if i :| 0 <= i < |services| && Lists(w, services[i], containers, r) {
          assert i < |rest| ==> rest[i] == services[i];
        }
      }
    }
  }

  ghost predicate DistinctNames(records: seq<Zone.DnsRecord>) {
    forall i, j :: 0 <= i < j < |records| ==> records[i].name != records[j].name
  }

  lemma {:induction false} ServiceNamesDistinct(w: World, services: seq<Service>, containers: map<string, Snapshot>)
    requires forall i, j :: 0 <= i < j < |services| ==> services[i].dns != services[j].dns
    ensures DistinctNames(ServiceRecords(w, services, containers))
  {
    if services != [] {
      var rest := services[..|services| - 1];
      ServiceNamesDistinct(w, rest, containers);
      ServiceRecordsMembers(w, rest, containers);
      var before := ServiceRecords(w, rest, containers);
      forall i | 0 <= i < |before|
        ensures before[i].name != services[|services| - 1].dns
      {
        assert before[i] in before;
        var j :| 0 <= j < |rest| && Lists(w, rest[j], containers, before[i]);
        assert rest[j] == services[j];
      }
    }
  }

  /** The records of a reconcile: the resolver's, the services', and a placeholder if wanted. */
  function AllRecords(k: Stack, w: World, containers: map<string, Snapshot>, placeholder: bool): seq<Zone.DnsRecord>
    requires ResolverReady(k, containers)
  {
    [Zone.DnsRecord(Zone.RESOLVER, containers[k.resolver].addresses[0])] + ServiceRecords(w, k.services, containers)
    + if placeholder then [PLACEHOLDER] else []
  }

  predicate NamesZone(records: seq<Zone.DnsRecord>) {
    exists i :: 0 <= i < |records| && records[i].name == Zone.ZONE
  }

  lemma ZoneNamedByGateway(k: Stack, w: World, containers: map<string, Snapshot>)
    requires ValidStack(k) && ResolverReady(k, containers)
    requires Listed(w, k.services[k.gateway], containers) ==>
      containers[k.services[k.gateway].container].addresses != []
    ensures NamesZone(AllRecords(k, w, containers, false)) <==> Listed(w, k.services[k.gateway], containers)
  {
    var records, mine := AllRecords(k, w, containers, false), ServiceRecords(w, k.services, containers);
    ServiceRecordsMembers(w, k.services, containers);
    if Listed(w, k.services[k.gateway], containers) {
      var r := Zone.DnsRecord(Zone.ZONE, containers[k.services[k.gateway].container].addresses[0]);
      assert Lists(w, k.services[k.gateway], containers, r);
      assert r in records;
    }
    if i :| 0 <= i < |records| && records[i].name == Zone.ZONE {
      assert Zone.ZONE != Zone.RESOLVER by { assert |Zone.ZONE| != |Zone.RESOLVER|; }
      assert records[i] == mine[i - 1] && mine[i - 1] in mine;
      var j :| 0 <= j < |k.services| && Lists(w, k.services[j], containers, records[i]);
      assert j == k.gateway;
    }
  }

  lemma AllRecordsNames(k: Stack, w: World, containers: map<string, Snapshot>, placeholder: bool)
    requires ValidStack(k) && ResolverReady(k, containers)
    requires placeholder ==> !NamesZone(AllRecords(k, w, containers, false))
    ensures DistinctNames(AllRecords(k, w, containers, placeholder))
  {
    var mine := ServiceRecords(w, k.services, containers);
    var plain := AllRecords(k, w, containers, false);
    ServiceNamesDistinct(w, k.services, containers);
    ServiceRecordsMembers(w, k.services, containers);
    forall i | 0 <= i < |mine|
      ensures mine[i].name != Zone.RESOLVER
    {
      assert mine[i] in mine;
      var j :| 0 <= j < |k.services| && Lists(w, k.services[j], containers, mine[i]);
    }
    assert forall i :: 0 < i < |plain| ==> plain[i] == mine[i - 1];
    assert DistinctNames(plain);
    assert AllRecords(k, w, containers, placeholder) == plain + if placeholder then [PLACEHOLDER] else [];
    if placeholder {
      assert forall i :: 0 <= i < |plain| ==> plain[i].name != Zone.ZONE;
    }
  }

  // ---------- What each command comes to ----------

  function Removed(r: Runtime, name: string): Runtime {
    Runtime(r.containers - {name}, r.changes + 1)
  }

  /** The runtime keeps what it was run with. */
  function Started(k: Stack, w: World, r: Runtime, name: string, nameservers: seq<string>,
                   labels: Labels, ports: multiset<Port>): Runtime {
    var c := Snapshot(true, k.network, [w.address(name)], w.host, nameservers, labels, ports);
    Runtime(r.containers[name := c], r.changes + 1)
  }

  function LabelsFor(k: Stack, s: Service, generation: string): Labels {
    Labels(Some(k.stackId), Some(s.id), Some(s.role), Some(s.descriptor), Some(generation), None)
  }

  /** Replacing a managed container unless it already is what it should be. */
  function Managed(k: Stack, w: World, s: Service, resolver: Snapshot, r: Runtime): (Runtime, bool) {
    var own := OwnGeneration(w.env, resolver);
    var fault := w.fault(s.container);
    if !s.managed then (r, true)
    else if fault.Preparing? || own.None? then (r, false)
    else if Carries(k, s, r.containers, own.value.generation) then (r, true)
    else if fault.Removing? then (r, false)
    else if fault.Running? then (Removed(r, s.container), false)
    else
      var labels := LabelsFor(k, s, own.value.generation);
      (Started(k, w, Removed(r, s.container), s.container, resolver.addresses, labels, s.ports), !fault.Waiting?)
  }

  /** Every managed service from the `i`th on, in order, or up to the first that fails. */
  function ManagedFrom(k: Stack, w: World, resolver: Snapshot, bootstrap: bool, i: nat, r: Runtime): (Runtime, bool)
    requires i <= |k.services|
    decreases |k.services| - i
  {
    if i == |k.services| then (r, true)
    else if Skipped(k.services[i], bootstrap) then ManagedFrom(k, w, resolver, bootstrap, i + 1, r)
    else
      var (r', ok) := Managed(k, w, k.services[i], resolver, r);
      if ok then ManagedFrom(k, w, resolver, bootstrap, i + 1, r') else (r', false)
  }

  /** The records to publish, or nothing if anything needed is amiss. */
  function Collected(k: Stack, w: World, containers: map<string, Snapshot>, bootstrap: bool)
    : Option<seq<Zone.DnsRecord>>
    requires ResolverReady(k, containers) && k.gateway < |k.services|
  {
    var placeholder := !NamesZone(AllRecords(k, w, containers, false));
    if !Passed(k, w, containers, bootstrap, |k.services|) then None
    else if !bootstrap && (placeholder || !Reached(k, w, containers, |k.services|)) then None
    else Some(AllRecords(k, w, containers, placeholder))
  }

  function PreviousLease(persisted: Option<DnsState.DnsState>, current: GenerationState): Option<Lease> {
    if persisted.Some? && persisted.value.resolver.generation == current.generation then persisted.value.lease else None
  }

  function NextLease(k: Stack, persisted: Option<DnsState.DnsState>, current: GenerationState, now: int): Lease {
    Following(PreviousLease(persisted, current), k.stackId, current.generation, now + k.lease)
  }

  /** Validating, replacing the bundle, and committing; what fails after the bundle is replaced ends
      as such. */
  function Put(k: Stack, w: World, s: Sys, records: seq<Zone.DnsRecord>, current: GenerationState, now: int)
    : (Sys, Ending)
  {
    var lease := NextLease(k, s.persisted, current, now);
    var applied := ApplyLease(PreviousLease(s.persisted, current), lease, now, k.stackId);
    var valid := Zone.Renderable(records, k.ttl / 1000) && applied.Ok?;
    var document := DnsState.DnsState(k.stackId, current, Some(lease), Some(now));
    if !valid || w.publishFails then (s, ThrewBeforePublish)
    else
      var published := s.(bundle := Some(Bundle(records, lease)));
      if w.commitFails || !DnsState.Persistable(w.env, document) then (published, ThrewAfterPublish)
      else (published.(persisted := Some(document)), if w.reportFails then ThrewAfterPublish else Returned)
  }

  /** There is a resolver to reconcile for, and the state is this stack's. */
  predicate Begins(k: Stack, w: World, s: Sys) {
    && ResolverReady(k, s.runtime.containers)
    && (s.persisted.Some? ==> s.persisted.value.stackId == k.stackId)
    && Current(w.env, s.persisted, s.runtime.containers[k.resolver]).Some?
  }

  /** A changed generation is brought to the managed services. */
  function Regenerated(k: Stack, w: World, s: Sys, bootstrap: bool): (Runtime, bool)
    requires Begins(k, w, s)
  {
    var resolver := s.runtime.containers[k.resolver];
    if Changes(s.persisted, Current(w.env, s.persisted, resolver).value)
    then ManagedFrom(k, w, resolver, bootstrap, 0, s.runtime)
    else (s.runtime, true)
  }

  /** One reconcile. */
  function Reconciled(k: Stack, w: World, s: Sys, now: int, bootstrap: bool): (Sys, Ending)
    requires k.gateway < |k.services|
  {
    if !Begins(k, w, s) then (s, ThrewBeforePublish)
    else
      var current := Current(w.env, s.persisted, s.runtime.containers[k.resolver]).value;
      var (runtime, ok) := Regenerated(k, w, s, bootstrap);
      var s' := s.(runtime := runtime);
      if !ok || !ResolverReady(k, runtime.containers) then (s', ThrewBeforePublish)
      else
        var records := Collected(k, w, runtime.containers, bootstrap);
        if records.None? then (s', ThrewBeforePublish) else Put(k, w, s', records.value, current, now)
  }

  const LOOPBACK: seq<Zone.DnsRecord> := [PLACEHOLDER, Zone.DnsRecord(Zone.RESOLVER, "127.0.0.1")]

  /** A bootstrap bundle of loopback placeholders and a lease of sequence 0, and then the resolver. */
  function ResolverStarted(k: Stack, w: World, s: Sys, now: int): (Sys, bool) {
    if !Zone.Renderable(LOOPBACK, k.ttl / 1000) || w.publishFails then (s, false)
    else
      var published := s.(bundle := Some(Bundle(LOOPBACK, Lease(1, k.stackId, w.instance, 0, Some(now + k.lease)))));
      if w.fault(k.resolver).Running? then (published, false)
      else
        var labels := Labels(Some(k.stackId), Some("dns"), Some(Dns), None, None, Some(w.instance));
        (published.(runtime := Started(k, w, s.runtime, k.resolver, [], labels, multiset{})), true)
  }

  /** Not running, or run from another description. */
  predicate Replaceable(s: Service, c: Snapshot) {
    || !c.running
    || (c.labels.descriptor.Some? && c.labels.descriptor.value != "" && c.labels.descriptor.value != s.descriptor)
  }

  predicate Unfit(k: Stack, containers: map<string, Snapshot>)
    requires k.gateway < |k.services|
  {
    var gateway := k.services[k.gateway];
    gateway.container in containers && Replaceable(gateway, containers[gateway.container])
  }

  /** The steps of `up` once there is a resolver, up to the bootstrap reconcile. */
  function Prepared(k: Stack, w: World, s: Sys, now: int): (Sys, bool)
    requires k.gateway < |k.services| && k.resolver in s.runtime.containers
  {
    var gateway := k.services[k.gateway].container;
    var (r, ran) := ManagedFrom(k, w, s.runtime.containers[k.resolver], true, 0, s.runtime);
    if !ran || (Unfit(k, r.containers) && w.fault(gateway).Removing?) then (s.(runtime := r), false)
    else
      var fit := if Unfit(k, r.containers) then Removed(r, gateway) else r;
      var (s', e) := Reconciled(k, w, s.(runtime := fit), now, true);
      (s', e.Returned?)
  }

  /** The rest of `up`: the gateway, and a full reconcile. */
  function Finished(k: Stack, w: World, s: Sys, resolver: Snapshot, later: int): (Sys, bool)
    requires k.gateway < |k.services|
  {
    var (r, ran) := Managed(k, w, k.services[k.gateway], resolver, s.runtime);
    if !ran then (s.(runtime := r), false)
    else
      var (s', e) := Reconciled(k, w, s.(runtime := r), later, false);
      (s', e.Returned?)
  }

  function BroughtUp(k: Stack, w: World, s: Sys, now: int, later: int): (Sys, bool)
    requires k.gateway < |k.services|
  {
    var (s1, started) := if k.resolver in s.runtime.containers then (s, true) else ResolverStarted(k, w, s, now);
    if !started then (s1, false)
    else
      var resolver := s1.runtime.containers[k.resolver];
      var (s2, prepared) := Prepared(k, w, s1, now);
      if !prepared then (s2, false) else Finished(k, w, s2, resolver, later)
  }

  // ---------- The commands as they run ----------

  class StackReconciler {
    const stack: Stack
    var containers: map<string, Snapshot>
    var bundle: Option<Bundle>
    var persisted: Option<DnsState.DnsState>
    /** How many containers have been run or removed. */
    var changes: nat

    function Now(): Sys
      reads this
    {
      Sys(Runtime(containers, changes), bundle, persisted)
    }

    constructor (stack: Stack, containers: map<string, Snapshot>)
      ensures this.stack == stack && Now() == Sys(Runtime(containers, 0), None, None)
    {
      this.stack, this.containers, bundle, persisted, changes := stack, containers, None, None, 0;
    }

    method Remove(name: string)
      modifies this`containers, this`changes
      ensures Now().runtime == Removed(old(Now()).runtime, name)
    {
      containers := containers - {name};
      changes := changes + 1;
    }

    method RunContainer(name: string, nameservers: seq<string>, labels: Labels, ports: multiset<Port>, w: World)
      modifies this`containers, this`changes
      ensures Now().runtime == Started(stack, w, old(Now()).runtime, name, nameservers, labels, ports)
    {
      var c := Snapshot(true, stack.network, [w.address(name)], w.host, nameservers, labels, ports);
      containers := containers[name := c];
      changes := changes + 1;
    }

    method RunManaged(s: Service, resolver: Snapshot, w: World) returns (ok: bool)
      modifies this`containers, this`changes
      ensures (Now().runtime, ok) == Managed(stack, w, s, resolver, old(Now()).runtime)
    {
      if !s.managed {
        return true;
      }
      var fault := w.fault(s.container);
      if fault.Preparing? {
        return false;
      }
      var own := OwnGeneration(w.env, resolver);
      if own.None? {
        return false;
      }
      if Carries(stack, s, containers, own.value.generation) {
        return true;
      }
      if fault.Removing? {
        return false;
      }
      Remove(s.container);
      if fault.Running? {
        return false;
      }
      RunContainer(s.container, resolver.addresses, LabelsFor(stack, s, own.value.generation), s.ports, w);
      return !fault.Waiting?;
    }

    method RunAll(resolver: Snapshot, bootstrap: bool, w: World) returns (ok: bool)
      modifies this`containers, this`changes
      ensures (Now().runtime, ok) == ManagedFrom(stack, w, resolver, bootstrap, 0, old(Now()).runtime)
    {
      hide Managed;
      var i := 0;
      while i < |stack.services|
        invariant 0 <= i <= |stack.services|
        invariant ManagedFrom(stack, w, resolver, bootstrap, 0, old(Now()).runtime) ==
                  ManagedFrom(stack, w, resolver, bootstrap, i, Now().runtime)
      {
        var s := stack.services[i];
        if !Skipped(s, bootstrap) {
          var done := RunManaged(s, resolver, w);
          if !done {
            return false;
          }
        }
        i := i + 1;
      }
      return true;
    }

    /** The gateway resolves and reaches every other required service that is there. */
    method CheckReached(w: World) returns (ok: bool)
      requires ValidStack(stack)
      ensures ok <==> Reached(stack, w, containers, |stack.services|)
    {
      var i := 0;
      while i < |stack.services|
        invariant 0 <= i <= |stack.services|
        invariant Reached(stack, w, containers, i)
      {
        var s := stack.services[i];
        if s.required && !s.role.Gateway? && s.container in containers {
          if !AsksResolver(stack, containers) || !Answered(w, s, containers) {
            return false;
          }
          if !w.reached(s.container) {
            return false;
          }
        }
        i := i + 1;
      }
      return true;
    }

    /** Each service in order: what is there must be what it should be, what is needed must be there
        and healthy, and whatever is there and healthy is recorded. */
    method SurveyServices(bootstrap: bool, w: World) returns (ok: bool, records: seq<Zone.DnsRecord>)
      ensures ok <==> Passed(stack, w, containers, bootstrap, |stack.services|)
      ensures ok ==> records == ServiceRecords(w, stack.services, containers)
    {
      hide Identified;
      records := [];
      var i := 0;
      while i < |stack.services|
        invariant 0 <= i <= |stack.services|
        invariant records == ServiceRecords(w, stack.services[..i], containers)
        invariant Passed(stack, w, containers, bootstrap, i)
      {
        var s := stack.services[i];
        assert stack.services[..i + 1][..i] == stack.services[..i];
        if s.container !in containers {
          if !Skipped(s, bootstrap) && s.required {
            assert Needed(stack.services[i], containers, bootstrap);
            return false, [];
          }
        } else {
          if !Identified(stack, s, containers[s.container]) {
            return false, [];
          }
          IdentifiedAddress(stack, s, containers[s.container]);
          if !w.healthy(s.container) {
            if s.required {
              assert Needed(stack.services[i], containers, bootstrap);
              return false, [];
            }
          } else {
            records := records + [Zone.DnsRecord(s.dns, containers[s.container].addresses[0])];
          }
        }
        i := i + 1;
      }
      assert stack.services[..|stack.services|] == stack.services;
      ok := true;
    }

    method CollectRecords(bootstrap: bool, w: World) returns (ok: bool, records: seq<Zone.DnsRecord>)
      requires ValidStack(stack) && ResolverReady(stack, containers)
      ensures Collected(stack, w, containers, bootstrap) == if ok then Some(records) else None
    {
      hide NamesZone, Passed, Reached;
      var passed, services := SurveyServices(bootstrap, w);
      if !passed {
        return false, [];
      }
      records := [Zone.DnsRecord(Zone.RESOLVER, containers[stack.resolver].addresses[0])] + services;
      assert records == AllRecords(stack, w, containers, false);
      var placeholder := !NamesZone(records);
      if placeholder {
        if !bootstrap {
          return false, [];
        }
        records := records + [PLACEHOLDER];
      }
      if !bootstrap {
        var reached := CheckReached(w);
        if !reached {
          return false, [];
        }
      }
      assert records == AllRecords(stack, w, containers, placeholder);
      ok := true;
    }

    method Publish(records: seq<Zone.DnsRecord>, current: GenerationState, now: int, w: World) returns (e: Ending)
      modifies this`bundle, this`persisted
      ensures (Now(), e) == Put(stack, w, old(Now()), records, current, now)
    {
      var lease := NextLease(stack, persisted, current, now);
      var rendered := Zone.RenderDnsRecords(records, stack.ttl / 1000, w.collate);
      var applied := ApplyLease(PreviousLease(persisted, current), lease, now, stack.stackId);
      if rendered.Error? || !applied.Ok? || w.publishFails {
        return ThrewBeforePublish;
      }
      bundle := Some(Bundle(records, lease));
      var document := DnsState.DnsState(stack.stackId, current, Some(lease), Some(now));
      if w.commitFails || !DnsState.Persistable(w.env, document) {
        return ThrewAfterPublish;
      }
      persisted := Some(document);
      if w.reportFails {
        return ThrewAfterPublish;
      }
      return Returned;
    }

    method Reconcile(now: int, bootstrap: bool, w: World) returns (e: Ending)
      requires ValidStack(stack)
      modifies this
      ensures (Now(), e) == Reconciled(stack, w, old(Now()), now, bootstrap)
    {
      hide Put, Collected, ManagedFrom, Current, Changes;
      if !ResolverReady(stack, containers) {
        return ThrewBeforePublish;
      }
      var resolver := containers[stack.resolver];
      if persisted.Some? && persisted.value.stackId != stack.stackId {
        return ThrewBeforePublish;
      }
      var current := Current(w.env, persisted, resolver);
      if current.None? {
        return ThrewBeforePublish;
      }
      if Changes(persisted, current.value) {
        ManagedKeepsResolver(stack, w, resolver, bootstrap, Now().runtime);
        var ok := RunAll(resolver, bootstrap, w);
        if !ok {
          return ThrewBeforePublish;
        }
      }
      var collected, records := CollectRecords(bootstrap, w);
      if !collected {
        return ThrewBeforePublish;
      }
      e := Publish(records, current.value, now, w);
    }

    method StartResolver(now: int, w: World) returns (ok: bool)
      modifies this
      ensures (Now(), ok) == ResolverStarted(stack, w, old(Now()), now)
    {
      var lease := Lease(1, stack.stackId, w.instance, 0, Some(now + stack.lease));
      var rendered := Zone.RenderDnsRecords(LOOPBACK, stack.ttl / 1000, w.collate);
      if rendered.Error? || w.publishFails {
        return false;
      }
      bundle := Some(Bundle(LOOPBACK, lease));
      if w.fault(stack.resolver).Running? {
        return false;
      }
      RunContainer(stack.resolver, [],
                   Labels(Some(stack.stackId), Some("dns"), Some(Dns), None, None, Some(w.instance)), multiset{}, w);
      return true;
    }

    method Up(now: int, later: int, w: World) returns (ok: bool)
      requires ValidStack(stack)
      modifies this
      ensures (Now(), ok) == BroughtUp(stack, w, old(Now()), now, later)
    {
      hide Reconciled, Managed, ManagedFrom, Zone.Renderable, ResolverReady;
      if stack.resolver !in containers {
        var started := StartResolver(now, w);
        if !started {
          return false;
        }
      }
      var resolver := containers[stack.resolver];
      var ran := RunAll(resolver, true, w);
      if !ran {
        return false;
      }
      var gateway := stack.services[stack.gateway];
      if gateway.container in containers && Replaceable(gateway, containers[gateway.container]) {
        if w.fault(gateway.container).Removing? {
          return false;
        }
        Remove(gateway.container);
      }
      var e := Reconcile(now, true, w);
      if !e.Returned? {
        return false;
      }
      ran := RunManaged(gateway, resolver, w);
      if !ran {
        return false;
      }
      e := Reconcile(later, false, w);
      return e.Returned?;
    }
  }

  lemma IdentifiedAddress(k: Stack, s: Service, c: Snapshot)
    requires Identified(k, s, c)
    ensures |c.addresses| == 1
  {
  }

  // ---------- Managed containers ----------

  predicate Kept(before: map<string, Snapshot>, after: map<string, Snapshot>, name: string) {
    && (name in before <==> name in after)
    && (name in before ==> after[name] == before[name])
  }

  /** A managed container ends up carrying the resolver's generation if all goes well, is left alone
      if it already does, and no other container is touched. */
  lemma ManagedCarries(k: Stack, w: World, s: Service, resolver: Snapshot, r: Runtime)
    ensures var (r', ok) := Managed(k, w, s, resolver, r);
            var own := OwnGeneration(w.env, resolver);
            && (forall name :: name != s.container ==> Kept(r.containers, r'.containers, name))
            && (!s.managed ==> ok && r' == r)
            && (ok && s.managed ==> CarriesOwn(k, s, r'.containers, own))
            && (CarriesOwn(k, s, r.containers, own) ==>
                  r' == r && (s.managed ==> ok == !w.fault(s.container).Preparing?))
            && (w.fault(s.container).NoFault? && own.Some? ==> ok)
  {
    hide OwnGeneration;
  }

  /** To carry a generation is to run on the network at one address, labelled with it and the service's
      own description; a container run for that has the resolver as nameserver, the stack's labels and
      the service's ports. */
  lemma CarryingMeans(k: Stack, w: World, s: Service, resolver: Snapshot, r: Runtime)
    requires s.managed
    ensures var (r', ok) := Managed(k, w, s, resolver, r);
            var own := OwnGeneration(w.env, resolver);
            && (forall g :: Carries(k, s, r'.containers, g) <==>
                  && s.container in r'.containers
                  && var c := r'.containers[s.container];
                     && c.running && c.network == k.network && |c.addresses| == 1
                     && c.labels.descriptor == Some(s.descriptor) && c.labels.generation == Some(g))
            && (ok && r' != r ==>
                  && own.Some? && s.container in r'.containers
                  && var c := r'.containers[s.container];
                     && c.nameservers == resolver.addresses && c.ports == s.ports
                     && c.labels.stack == Some(k.stackId) && c.labels.service == Some(s.id)
                     && c.labels.role == Some(s.role) && c.labels.generation == Some(own.value.generation))
  {
    hide OwnGeneration;
  }

  ghost predicate ContainerFrom(k: Stack, name: string, bootstrap: bool, i: nat) {
    exists j :: i <= j < |k.services| && k.services[j].container == name && !Skipped(k.services[j], bootstrap)
  }

  ghost predicate AllCarryFrom(k: Stack, containers: map<string, Snapshot>, own: Option<GenerationState>,
                               bootstrap: bool, i: nat)
  {
    forall j :: i <= j < |k.services| && k.services[j].managed && !Skipped(k.services[j], bootstrap) ==>
      CarriesOwn(k, k.services[j], containers, own)
  }

  lemma {:induction false} ManagedFromKeeps(k: Stack, w: World, resolver: Snapshot, bootstrap: bool, i: nat,
                                            r: Runtime, name: string)
    requires i <= |k.services| && !ContainerFrom(k, name, bootstrap, i)
    ensures Kept(r.containers, ManagedFrom(k, w, resolver, bootstrap, i, r).0.containers, name)
    decreases |k.services| - i
  {
    if i < |k.services| {
      hide Managed, OwnGeneration;
      var s := k.services[i];
      assert !ContainerFrom(k, name, bootstrap, i + 1);
      if Skipped(s, bootstrap) {
        ManagedFromKeeps(k, w, resolver, bootstrap, i + 1, r, name);
      } else {
        ManagedCarries(k, w, s, resolver, r);
        ManagedFromKeeps(k, w, resolver, bootstrap, i + 1, Managed(k, w, s, resolver, r).0, name);
      }
    }
  }

  lemma {:induction false} ManagedFromCarries(k: Stack, w: World, resolver: Snapshot, bootstrap: bool, i: nat,
                                              r: Runtime)
    requires ValidStack(k) && i <= |k.services|
    ensures var (r', ok) := ManagedFrom(k, w, resolver, bootstrap, i, r);
            ok ==> AllCarryFrom(k, r'.containers, OwnGeneration(w.env, resolver), bootstrap, i)
    decreases |k.services| - i
  {
    if i < |k.services| {
      hide Managed, OwnGeneration, CarriesOwn;
      var s := k.services[i];
      if Skipped(s, bootstrap) {
        ManagedFromCarries(k, w, resolver, bootstrap, i + 1, r);
      } else {
        var (r1, ok) := Managed(k, w, s, resolver, r);
        ManagedCarries(k, w, s, resolver, r);
        if ok {
          ManagedFromCarries(k, w, resolver, bootstrap, i + 1, r1);
          ManagedFromKeeps(k, w, resolver, bootstrap, i + 1, r1, s.container);
          var (r2, _) := ManagedFrom(k, w, resolver, bootstrap, i + 1, r1);
          CarriesKept(k, s, r1.containers, r2.containers, OwnGeneration(w.env, resolver));
        }
      }
    }
  }

  /** No managed service from the `i`th on fails before its container is looked at. */
  predicate Prepares(k: Stack, w: World, bootstrap: bool, i: nat) {
    forall j :: i <= j < |k.services| && k.services[j].managed && !Skipped(k.services[j], bootstrap) ==>
      !w.fault(k.services[j].container).Preparing?
  }

  lemma {:induction false} ManagedFromRests(k: Stack, w: World, resolver: Snapshot, bootstrap: bool, i: nat, r: Runtime)
    requires i <= |k.services| && OwnGeneration(w.env, resolver).Some?
    requires AllCarryFrom(k, r.containers, OwnGeneration(w.env, resolver), bootstrap, i)
    ensures ManagedFrom(k, w, resolver, bootstrap, i, r) == (r, Prepares(k, w, bootstrap, i))
    decreases |k.services| - i
  {
    if i < |k.services| {
      hide Managed, OwnGeneration, CarriesOwn;
      ManagedCarries(k, w, k.services[i], resolver, r);
      ManagedFromRests(k, w, resolver, bootstrap, i + 1, r);
    }
  }

  lemma CarriesKept(k: Stack, s: Service, before: map<string, Snapshot>, after: map<string, Snapshot>,
                    own: Option<GenerationState>)
    requires Kept(before, after, s.container)
    ensures CarriesOwn(k, s, before, own) <==> CarriesOwn(k, s, after, own)
  {
  }

  /** Every managed service carries the resolver's generation if all goes well, and nothing happens
      if each already does; the resolver, and at bootstrap the gateway, are left alone. */
  lemma AllManagedCarries(k: Stack, w: World, resolver: Snapshot, bootstrap: bool, r: Runtime)
    requires ValidStack(k)
    ensures var (r', ok) := ManagedFrom(k, w, resolver, bootstrap, 0, r);
            var own := OwnGeneration(w.env, resolver);
            && Kept(r.containers, r'.containers, k.resolver)
            && (bootstrap ==> Kept(r.containers, r'.containers, k.services[k.gateway].container))
            && (ok ==> AllManagedCarry(k, r'.containers, own, bootstrap))
            && (AllCarry(k, r.containers, own, bootstrap) ==> r' == r && ok == Prepares(k, w, bootstrap, 0))
  {
    hide ManagedFrom, OwnGeneration, CarriesOwn;
    ManagedFromKeeps(k, w, resolver, bootstrap, 0, r, k.resolver);
    if bootstrap {
      ManagedFromKeeps(k, w, resolver, bootstrap, 0, r, k.services[k.gateway].container);
    }
    ManagedFromCarries(k, w, resolver, bootstrap, 0, r);
    if AllCarry(k, r.containers, OwnGeneration(w.env, resolver), bootstrap) {
      ManagedFromRests(k, w, resolver, bootstrap, 0, r);
    }
  }

  lemma ManagedKeepsResolver(k: Stack, w: World, resolver: Snapshot, bootstrap: bool, r: Runtime)
    requires ValidStack(k) && ResolverReady(k, r.containers)
    ensures ResolverReady(k, ManagedFrom(k, w, resolver, bootstrap, 0, r).0.containers)
  {
    AllManagedCarries(k, w, resolver, bootstrap, r);
  }

  // ---------- Starting a resolver ----------

  /** A new resolver is there only with a bootstrap bundle in place: a zone that reads as the loopback
      address for itself and the gateway, and a lease that its own supervisor takes at once and that
      any reconcile's lease is above. */
  lemma StartsOnLoopback(k: Stack, w: World, s: Sys, now: int)
    requires ValidStack(k) && k.resolver !in s.runtime.containers
    ensures
      var (s', ok) := ResolverStarted(k, w, s, now);
      && (k.resolver in s'.runtime.containers <==> ok)
      && (forall name :: name != k.resolver ==> Kept(s.runtime.containers, s'.runtime.containers, name))
      && (w.instance != "" && ok ==> ResolverReady(k, s'.runtime.containers))
      && (ok ==> InstanceOf(s'.runtime.containers[k.resolver]) == w.instance)
      && (ok ==>
            && s'.bundle.Some? && 1 <= k.ttl / 1000 <= 30
            && Zone.ReadZone(Zone.RenderText(s'.bundle.value.records, k.ttl / 1000, w.collate)) ==
               Some(Zone.HeaderSays(k.ttl / 1000).(addresses := {(Zone.ZONE + ".", "127.0.0.1"),
                                                                 (Zone.RESOLVER + ".", "127.0.0.1")}))
            && var lease := s'.bundle.value.lease;
               && lease.sequence == 0 && lease.validUntil == Some(now + k.lease)
               && GoAccept(Self(k.stackId, w.instance), None, Offer(lease, now)) == (Some(lease), true))
  {
    if Zone.Renderable(LOOPBACK, k.ttl / 1000) {
      Zone.ReadRendered(LOOPBACK, k.ttl / 1000, w.collate);
      hide Zone.ReadZone, Zone.RenderText, Zone.HeaderSays;
      assert forall r :: r in LOOPBACK <==> r == PLACEHOLDER || r == Zone.DnsRecord(Zone.RESOLVER, "127.0.0.1") by {
        assert LOOPBACK[0] == PLACEHOLDER && LOOPBACK[1] == Zone.DnsRecord(Zone.RESOLVER, "127.0.0.1");
      }
      assert Zone.Pairs(LOOPBACK) == {(Zone.ZONE + ".", "127.0.0.1"), (Zone.RESOLVER + ".", "127.0.0.1")};
    }
  }

  // ---------- One reconcile ----------

  lemma FaithfulRecords(k: Stack, w: World, containers: map<string, Snapshot>, bootstrap: bool)
    requires ValidStack(k) && ResolverReady(k, containers)
    ensures var records := Collected(k, w, containers, bootstrap);
            && (records.Some? ==> Faithful(k, w, containers, bootstrap, records.value))
            && (records.None? <==>
                  || !Passed(k, w, containers, bootstrap, |k.services|)
                  || (!bootstrap && !Listed(w, k.services[k.gateway], containers))
                  || (!bootstrap && !Reached(k, w, containers, |k.services|)))
  {
    if Passed(k, w, containers, bootstrap, |k.services|) {
      var placeholder := !NamesZone(AllRecords(k, w, containers, false));
      ZoneNamedByGateway(k, w, containers);
      AllRecordsNames(k, w, containers, placeholder);
      ServiceRecordsMembers(w, k.services, containers);
    }
  }

  /** The state says what was published, for which resolver, and when. */
  ghost predicate Committed(k: Stack, persisted: Option<DnsState.DnsState>, bundle: Option<Bundle>,
                            current: GenerationState, now: int)
  {
    && persisted.Some? && bundle.Some?
    && persisted.value.lease == Some(bundle.value.lease) && persisted.value.resolver == current
    && persisted.value.stackId == k.stackId && persisted.value.reconciledAt == Some(now)
  }

  /** What publishing leaves, whichever way it ends. */
  ghost predicate Outcome(k: Stack, before: Sys, after: Sys, e: Ending, records: seq<Zone.DnsRecord>,
                          current: GenerationState, now: int)
  {
    && after.runtime == before.runtime
    && (e.ThrewBeforePublish? ==> after == before)
    && (!e.ThrewBeforePublish? ==>
          && after.bundle == Some(Bundle(records, NextLease(k, before.persisted, current, now)))
          && Zone.Renderable(records, k.ttl / 1000)
          && (after.persisted == before.persisted || Committed(k, after.persisted, after.bundle, current, now)))
    && (e.Returned? ==> Committed(k, after.persisted, after.bundle, current, now))
  }

  lemma PutOutcome(k: Stack, w: World, s: Sys, records: seq<Zone.DnsRecord>, current: GenerationState, now: int)
    ensures var (s', e) := Put(k, w, s, records, current, now);
            Outcome(k, s, s', e, records, current, now)
  {
  }

  /** One reconcile. If it ends before publishing, resolvers and the persisted state see nothing of
      it. Otherwise what is published is faithful to the containers and carries a lease one after the
      persisted one of its generation, and if it returns the same lease is persisted. A changed
      generation has been brought to every managed service, but for a gateway left to bootstrap; an
      unchanged one leaves the containers alone. */
  lemma ReconcileAllOrNothing(k: Stack, w: World, s: Sys, now: int, bootstrap: bool)
    requires ValidStack(k)
    ensures
      var (s', e) := Reconciled(k, w, s, now, bootstrap);
      && (e.ThrewBeforePublish? ==> s'.bundle == s.bundle && s'.persisted == s.persisted)
      && (!e.ThrewBeforePublish? ==>
            && ResolverReady(k, s.runtime.containers)
            && var resolver := s.runtime.containers[k.resolver];
               var current := Current(w.env, s.persisted, resolver);
               && current.Some? && s'.bundle.Some?
               && s'.bundle.value.lease == NextLease(k, s.persisted, current.value, now)
               && Faithful(k, w, s'.runtime.containers, bootstrap, s'.bundle.value.records)
               && Zone.Renderable(s'.bundle.value.records, k.ttl / 1000)
               && (e.Returned? ==> Committed(k, s'.persisted, s'.bundle, current.value, now))
               && (s'.persisted == s.persisted || Committed(k, s'.persisted, s'.bundle, current.value, now))
               && if Changes(s.persisted, current.value)
                  then AllManagedCarry(k, s'.runtime.containers, OwnGeneration(w.env, resolver), bootstrap)
                  else s'.runtime == s.runtime)
  {
    hide Put, Collected, ManagedFrom, Current, Changes, OwnGeneration, NextLease, Faithful, Zone.Renderable;
    hide AllManagedCarry;
    if Begins(k, w, s) {
      var current := Current(w.env, s.persisted, s.runtime.containers[k.resolver]).value;
      var (r, ok) := Regenerated(k, w, s, bootstrap);
      AllManagedCarries(k, w, s.runtime.containers[k.resolver], bootstrap, s.runtime);
      if ok && ResolverReady(k, r.containers) {
        FaithfulRecords(k, w, r.containers, bootstrap);
        var records := Collected(k, w, r.containers, bootstrap);
        if records.Some? {
          PutOutcome(k, w, s.(runtime := r), records.value, current, now);
          assert Reconciled(k, w, s, now, bootstrap) == Put(k, w, s.(runtime := r), records.value, current, now);
        }
      }
    }
  }

  /** No reconcile touches the resolver's container, a bootstrap one the gateway's, or any if all
      carry what they should. */
  lemma ReconcileKeeps(k: Stack, w: World, s: Sys, now: int, bootstrap: bool)
    requires ValidStack(k)
    ensures
      var (s', _) := Reconciled(k, w, s, now, bootstrap);
      && Kept(s.runtime.containers, s'.runtime.containers, k.resolver)
      && (bootstrap ==> Kept(s.runtime.containers, s'.runtime.containers, k.services[k.gateway].container))
      && (k.resolver in s.runtime.containers
          && AllCarry(k, s.runtime.containers, OwnGeneration(w.env, s.runtime.containers[k.resolver]), bootstrap) ==>
            s'.runtime == s.runtime)
  {
    hide Put, Collected, ManagedFrom, Current, Changes, OwnGeneration, AllCarry;
    if Begins(k, w, s) {
      var current := Current(w.env, s.persisted, s.runtime.containers[k.resolver]).value;
      var (r, ok) := Regenerated(k, w, s, bootstrap);
      AllManagedCarries(k, w, s.runtime.containers[k.resolver], bootstrap, s.runtime);
      if ok && ResolverReady(k, r.containers) {
        var records := Collected(k, w, r.containers, bootstrap);
        if records.Some? {
          PutOutcome(k, w, s.(runtime := r), records.value, current, now);
          assert Reconciled(k, w, s, now, bootstrap) == Put(k, w, s.(runtime := r), records.value, current, now);
        }
      }
    }
  }

  // ---------- The generation of containers and of the state ----------

  lemma CurrentExists(env: Env, persisted: Option<DnsState.DnsState>, resolver: Snapshot)
    ensures Current(env, persisted, resolver).Some? <==> OwnGeneration(env, resolver).Some?
  {
  }

  /** What the persisted state makes of a resolver is the generation it stands for. */
  lemma CurrentIsOwn(env: Env, persisted: Option<DnsState.DnsState>, resolver: Snapshot)
    requires persisted.Some? ==> WellFormed(env, persisted.value.resolver)
    ensures Current(env, persisted, resolver).Some? ==>
      && OwnGeneration(env, resolver).Some?
      && Current(env, persisted, resolver).value.generation == OwnGeneration(env, resolver).value.generation
      && WellFormed(env, Current(env, persisted, resolver).value)
  {
    AddressSetFixed(env, resolver.addresses);
  }
}
