/** The persisted control-plane state: the resolver's generation and the lease made for it. */
module DnsState {
  import opened Lease
  import opened Options

  datatype DnsState = DnsState(stackId: string, resolver: GenerationState, lease: Option<Lease>,
                               reconciledAt: Option<int>)

  datatype StateError = WrongStack | BadResolver | NoState | BadLease(error: LeaseError) | BadState

  datatype Result<+T> = Success(value: T) | Failure(error: StateError)

  /** What the persisted form is checked for before it is written. */
  predicate Persistable(env: Env, s: DnsState) {
    && s.resolver.generation != ""
    && s.resolver.addresses != []
    && (forall i :: 0 <= i < |s.resolver.addresses| ==> env.isIp(s.resolver.addresses[i]))
    && (forall i, j :: 0 <= i < j < |s.resolver.addresses| ==> s.resolver.addresses[i] != s.resolver.addresses[j])
    && env.isIp(s.resolver.hostAddress)
    && s.resolver.instance != ""
    && (s.lease.Some? ==>
          && s.lease.value.schemaVersion == 1 && s.lease.value.validUntil.Some? && s.lease.value.generation != ""
          && s.lease.value.stackId == s.stackId && s.lease.value.generation == s.resolver.generation)
  }

  /** A lease for a generation that is given to a resolver can be persisted with it. */
  lemma FreshPersists(env: Env, previous: Option<GenerationState>, addresses: seq<string>, instance: string,
                      host: string, stackId: string, lease: Lease, now: int)
    requires previous.Some? ==> WellFormed(env, previous.value) && env.isIp(previous.value.hostAddress)
    requires lease.schemaVersion == 1 && lease.validUntil.Some? && lease.stackId == stackId
    ensures var next := UpdateDnsGeneration(env, previous, addresses, instance, host);
            next.Some? && lease.generation == next.value.generation ==>
              Persistable(env, DnsState(stackId, next.value, Some(lease), Some(now)))
  {
    AddressSetMembers(env, addresses);
    if previous.Some? {
      AddressSetMembers(env, previous.value.addresses);
    }
  }

  class DnsStateStore {
    const env: Env
    const stackId: string
    var state: Option<DnsState>

    ghost predicate Valid()
      reads this
    {
      state.Some? ==> Persistable(env, state.value)
    }

    constructor (env: Env, stackId: string)
      ensures this.env == env && this.stackId == stackId && state == None && Valid()
    {
      this.env, this.stackId, state := env, stackId, None;
    }

    /** The write replaces the whole document, or is refused and changes nothing. */
    method Persist(next: DnsState) returns (ok: bool)
      requires Valid()
      modifies this`state
      ensures Valid() && ok == Persistable(env, next)
      ensures state == if ok then Some(next) else old(state)
    {
      ok := Persistable(env, next);
      if ok {
        state := Some(next);
      }
    }

    /** Recording the resolver keeps the lease exactly when its generation is unchanged. */
    method UpdateResolver(addresses: seq<string>, instance: string, host: string) returns (r: Result<DnsState>)
      requires Valid()
      modifies this`state
      ensures Valid()
      ensures r.Failure? ==> state == old(state)
      ensures
        var previous := if old(state).None? then None else Some(old(state).value.resolver);
        var next := UpdateDnsGeneration(env, previous, addresses, instance, host);
        if old(state).Some? && old(state).value.stackId != stackId then r == Failure(WrongStack)
        else if next.None? then r == Failure(BadResolver)
        else
          && r.Success? && state == Some(r.value)
          && r.value.stackId == stackId && r.value.resolver == next.value
          && r.value.lease ==
             (if old(state).Some? && old(state).value.resolver.generation == next.value.generation
              then old(state).value.lease else None)
          && r.value.reconciledAt ==
             (if old(state).Some? && old(state).value.resolver == next.value
              then old(state).value.reconciledAt else None)
    {
      if state.Some? && state.value.stackId != stackId {
        return Failure(WrongStack);
      }
      var previous := if state.None? then None else Some(state.value.resolver);
      var next := UpdateDnsGeneration(env, previous, addresses, instance, host);
      if next.None? {
        return Failure(BadResolver);
      }
      AddressSetMembers(env, addresses);
      var kept := state.Some? && state.value.resolver.generation == next.value.generation;
      var same := state.Some? && Some(state.value.resolver) == next;
      var document := DnsState(stackId, next.value, if kept then state.value.lease else None,
                               if same then state.value.reconciledAt else None);
      var ok := Persist(document);
      return Success(document);
    }

    /** A replacement lease is applied against the stored one; the stored sequence never falls. */
    method ReplaceLease(replacement: Lease, now: int) returns (r: Result<Lease>)
      requires Valid()
      modifies this`state
      ensures Valid()
      ensures r.Failure? ==> state == old(state)
      ensures r.Success? ==>
        && old(state).Some? && r.value.generation == old(state).value.resolver.generation
        && Ok(r.value) == ApplyLease(old(state).value.lease, replacement, now, stackId)
        && state == Some(old(state).value.(lease := Some(r.value)))
        && (old(state).value.lease.Some? ==> r.value.sequence >= old(state).value.lease.value.sequence)
      ensures r.Success? <==>
        && old(state).Some? && old(state).value.stackId == stackId
        && var a := ApplyLease(old(state).value.lease, replacement, now, stackId);
           a.Ok? && a.lease.generation == old(state).value.resolver.generation && a.lease.stackId == stackId
    {
      if state.Some? && state.value.stackId != stackId {
        return Failure(WrongStack);
      }
      if state.None? {
        return Failure(NoState);
      }
      var applied := ApplyLease(state.value.lease, replacement, now, stackId);
      if applied.Refused? {
        return Failure(BadLease(applied.error));
      }
      if applied.lease.generation != state.value.resolver.generation {
        return Failure(BadLease(OtherGeneration));
      }
      var ok := Persist(state.value.(lease := Some(applied.lease)));
      if !ok {
        return Failure(BadState);
      }
      return Success(applied.lease);
    }

    /** After a publish: the generation and its lease together, or nothing. */
    method Commit(resolver: GenerationState, lease: Lease, now: int) returns (ok: bool)
      requires Valid()
      modifies this`state
      ensures Valid()
      ensures ok <==> Persistable(env, DnsState(stackId, resolver, Some(lease), Some(now)))
      ensures ok ==> lease.generation == resolver.generation && lease.stackId == stackId && lease.validUntil.Some?
      ensures state == if ok then Some(DnsState(stackId, resolver, Some(lease), Some(now))) else old(state)
    {
      if lease.generation != resolver.generation {
        return false;
      }
      ok := Persist(DnsState(stackId, resolver, Some(lease), Some(now)));
    }
  }
}
