/** Resolver generations, and which lease a resolver supervisor holds: the Go supervisor inside
    the resolver, and the TypeScript one beside the control plane. */
module Lease {
  import opened Delimited
  import opened Options
  import opened Sorting

  /** A lease as decoded: `validUntil` is absent when its text is no timestamp. */
  datatype Lease = Lease(schemaVersion: int, stackId: string, generation: string, sequence: nat,
                         validUntil: Option<int>)

  // ---------- Generations ----------

  predicate AddressHash(s: string) {
    |s| == 16 && forall i :: 0 <= i < 16 ==> '0' <= s[i] <= '9' || 'a' <= s[i] <= 'f'
  }

  /** What the runtime supplies: the first sixteen hexadecimal digits of a hash, the default
      string order, and the test for an IP literal. */
  datatype Env = Env(hash: string -> string, rank: string -> real, isIp: string -> bool)

  /** Hashes have their form, the string order tells all strings apart, and no IP literal is empty
      or has a comma. */
  ghost predicate Lawful(env: Env) {
    && (forall s :: AddressHash(env.hash(s)))
    && (forall s, t :: env.rank(s) == env.rank(t) ==> s == t)
    && (forall s :: env.isIp(s) ==> s != "" && Free(s, ','))
  }

  /** A rank of its own for every string. */
  function Numeral(s: string): nat {
    if s == "" then 0 else Numeral(s[..|s| - 1]) * 0x11_0000 + s[|s| - 1] as int + 1
  }

  lemma {:induction false} NumeralInjective(s: string, t: string)
    requires Numeral(s) == Numeral(t)
    ensures s == t
  {
    if s != "" && t != "" {
      NumeralInjective(s[..|s| - 1], t[..|t| - 1]);
    }
  }

  /** There is such an environment. */
  lemma LawfulExists() returns (env: Env)
    ensures Lawful(env)
  {
    env := Env(_ => seq(16, _ => '0'), s => Numeral(s) as real, s => s != "" && Free(s, ','));
    forall s, t | env.rank(s) == env.rank(t)
      ensures s == t
    {
      NumeralInjective(s, t);
    }
  }

  function Unique(xs: seq<string>): (r: seq<string>)
    ensures forall x :: x in r <==> x in xs
    ensures Distinct(r)
  {
    if xs == [] then []
    else
      var rest, last := Unique(xs[..|xs| - 1]), xs[|xs| - 1];
      assert xs == xs[..|xs| - 1] + [last];
      if last in rest then rest else rest + [last]
  }

  function AddressSet(env: Env, addresses: seq<string>): seq<string> {
    Sort(Unique(addresses), env.rank)
  }

  function Generation(env: Env, addresses: seq<string>, instance: string): string {
    instance + "." + env.hash(Joined(addresses, ','))
  }

  datatype GenerationState =
    GenerationState(generation: string, addresses: seq<string>, hostAddress: string, instance: string)

  /** The resolver's generation, kept when neither its instance nor its address set changed;
      nothing when the identity is refused. */
  function UpdateDnsGeneration(env: Env, previous: Option<GenerationState>, addresses: seq<string>,
                               instance: string, host: string): Option<GenerationState> {
    var wanted := AddressSet(env, addresses);
    if instance == "" then None
    else if wanted == [] || (exists i :: 0 <= i < |wanted| && !env.isIp(wanted[i])) then None
    else if host == "" || !env.isIp(host) then None
    else if previous.Some? && previous.value.instance == instance && AddressSet(env, previous.value.addresses) == wanted
    then previous
    else Some(GenerationState(Generation(env, wanted, instance), wanted, host, instance))
  }

  /** A resolver is refused exactly without an instance, without addresses, or with one, the host's
      included, that is no IP literal. */
  lemma RefusedIff(env: Env, previous: Option<GenerationState>, addresses: seq<string>, instance: string, host: string)
    ensures UpdateDnsGeneration(env, previous, addresses, instance, host).None? <==>
            || instance == "" || addresses == [] || host == "" || !env.isIp(host)
            || exists x :: x in addresses && !env.isIp(x)
  {
    AddressSetMembers(env, addresses);
    var wanted := AddressSet(env, addresses);
    if addresses != [] {
      assert addresses[0] in wanted;
    }
    if x :| x in addresses && !env.isIp(x) {
      assert x in wanted;
    }
    if i :| 0 <= i < |wanted| && !env.isIp(wanted[i]) {
      assert wanted[i] in addresses;
    }
  }

  predicate WellFormed(env: Env, g: GenerationState) {
    && g.addresses != []
    && (forall i :: 0 <= i < |g.addresses| ==> env.isIp(g.addresses[i]))
    && AddressSet(env, g.addresses) == g.addresses
    && g.generation == Generation(env, g.addresses, g.instance)
  }

  lemma AddressSetMembers(env: Env, xs: seq<string>)
    ensures forall x :: x in AddressSet(env, xs) <==> x in xs
    ensures Distinct(AddressSet(env, xs))
  {
    SortMembers(Unique(xs), env.rank);
    SortPermutes(Unique(xs), env.rank);
    DistinctFromMultiset(Unique(xs), AddressSet(env, xs));
  }

  /** The address set forgets order and repetition and nothing else. */
  lemma AddressSetIff(env: Env, xs: seq<string>, ys: seq<string>)
    requires Lawful(env)
    ensures AddressSet(env, xs) == AddressSet(env, ys) <==> forall x :: x in xs <==> x in ys
  {
    AddressSetMembers(env, xs);
    AddressSetMembers(env, ys);
    if forall x :: x in xs <==> x in ys {
      SameMembers(Unique(xs), Unique(ys));
      SortCanonical(Unique(xs), Unique(ys), env.rank);
    }
  }

  lemma {:induction false} UniqueFixed(xs: seq<string>)
    requires Distinct(xs)
    ensures Unique(xs) == xs
  {
    if xs != [] {
      UniqueFixed(xs[..|xs| - 1]);
    }
  }

  lemma AddressSetFixed(env: Env, xs: seq<string>)
    ensures AddressSet(env, AddressSet(env, xs)) == AddressSet(env, xs)
  {
    AddressSetMembers(env, xs);
    UniqueFixed(AddressSet(env, xs));
    SortSorts(Unique(xs), env.rank);
    SortFixed(AddressSet(env, xs), env.rank);
  }

  lemma GenerationParts(a: string, h: string, b: string, k: string)
    requires |h| == |k|
    ensures a + "." + h == b + "." + k <==> a == b && h == k
  {
    var s, t := a + "." + h, b + "." + k;
    assert s[..|s| - |h| - 1] == a && s[|s| - |h|..] == h;
    assert t[..|t| - |k| - 1] == b && t[|t| - |k|..] == k;
  }

  /** Two lists of addresses whose hashes do not tell them apart. */
  predicate Collides(env: Env, xs: seq<string>, ys: seq<string>) {
    xs != ys && env.hash(Joined(xs, ',')) == env.hash(Joined(ys, ','))
  }

  lemma GenerationInjective(env: Env, xs: seq<string>, i: string, ys: seq<string>, j: string)
    requires Lawful(env)
    ensures Generation(env, xs, i) == Generation(env, ys, j) <==> (xs == ys || Collides(env, xs, ys)) && i == j
  {
    assert AddressHash(env.hash(Joined(xs, ','))) && AddressHash(env.hash(Joined(ys, ',')));
    GenerationParts(i, env.hash(Joined(xs, ',')), j, env.hash(Joined(ys, ',')));
  }

  /** Different addresses collide only if the hash maps two different texts to one. */
  lemma CollisionIsTheHash(env: Env, xs: seq<string>, ys: seq<string>)
    requires Lawful(env) && xs != [] && ys != [] && Collides(env, xs, ys)
    requires forall x :: x in xs ==> env.isIp(x)
    requires forall y :: y in ys ==> env.isIp(y)
    ensures Joined(xs, ',') != Joined(ys, ',')
  {
    SplitJoined(xs, ',');
    SplitJoined(ys, ',');
  }

  /** The generation changes exactly when the instance or the set of addresses does, short of a
      collision of hashes. */
  lemma GenerationChangesIff(env: Env, previous: GenerationState, addresses: seq<string>, instance: string,
                             host: string)
    requires Lawful(env) && WellFormed(env, previous)
    ensures var next := UpdateDnsGeneration(env, Some(previous), addresses, instance, host);
            var same := forall x :: x in addresses <==> x in previous.addresses;
            next.Some? ==>
              && WellFormed(env, next.value)
              && (next.value.generation == previous.generation <==>
                    && instance == previous.instance
                    && (same || Collides(env, AddressSet(env, addresses), previous.addresses)))
              && (instance == previous.instance && same ==> next.value == previous)
  {
    var wanted := AddressSet(env, addresses);
    var next := UpdateDnsGeneration(env, Some(previous), addresses, instance, host);
    if next.Some? {
      AddressSetIff(env, previous.addresses, addresses);
      AddressSetFixed(env, addresses);
      GenerationInjective(env, wanted, instance, previous.addresses, previous.instance);
    }
  }

  // ---------- Matching a generation to an instance ----------

  predicate Matches(own: string, generation: string) {
    generation == own ||
    (|generation| > |own| && generation[..|own| + 1] == own + "." && AddressHash(generation[|own| + 1..]))
  }

  /** A supervisor accepts a generation built for an instance exactly when it is its own, or when
      its own name already is that instance's generation. */
  lemma MatchesIff(own: string, instance: string, hash: string)
    requires AddressHash(hash)
    ensures Matches(own, instance + "." + hash) <==> instance == own || own == instance + "." + hash
  {
    var g := instance + "." + hash;
    if instance == own {
      assert g[..|own| + 1] == own + "." && g[|own| + 1..] == hash;
    }
    if Matches(own, g) && g != own {
      var suffix := g[|own| + 1..];
      assert g == own + "." + suffix by {
        assert g == g[..|own| + 1] + g[|own| + 1..];
      }
      GenerationParts(own, suffix, instance, hash);
    }
  }

  /** A name without dots accepts every generation of its own instance and of no other. */
  lemma DotFreeMatchesOwnOnly(own: string, instance: string, hash: string)
    requires AddressHash(hash) && Free(own, '.')
    ensures Matches(own, instance + "." + hash) <==> instance == own
  {
    MatchesIff(own, instance, hash);
    assert (instance + "." + hash)[|instance|] == '.';
  }

  // ---------- The next lease ----------

  /** What a publisher puts out next: one after the lease it committed for this generation. */
  function Following(previous: Option<Lease>, stackId: string, generation: string, validUntil: int): Lease {
    Lease(1, stackId, generation, (if previous.Some? then previous.value.sequence else 0) + 1, Some(validUntil))
  }

  // ---------- Holding a lease ----------

  /** What a supervisor is told it is. */
  datatype Self = Self(stackId: string, generation: string)

  datatype Offer = Offer(lease: Lease, now: int)

  predicate GoAcceptable(me: Self, o: Offer) {
    && o.lease.validUntil.Some?
    && o.lease.schemaVersion == 1
    && o.lease.stackId == me.stackId
    && Matches(me.generation, o.lease.generation)
    && o.lease.validUntil.value > o.now
  }

  /** One offer to the Go supervisor: the lease it then holds, and whether it said yes. */
  function GoAccept(me: Self, held: Option<Lease>, o: Offer): (Option<Lease>, bool) {
    if !GoAcceptable(me, o) then (held, false)
    else if held.Some? && o.lease.sequence < held.value.sequence then (held, false)
    else if held.None? || o.lease.sequence > held.value.sequence then (Some(o.lease), true)
    else (held, true)
  }

  datatype LeaseError = Malformed | OtherStack | Expired | Decreasing | OtherGeneration

  datatype Applied = Ok(lease: Lease) | Refused(error: LeaseError)

  function ApplyLease(previous: Option<Lease>, next: Lease, now: int, expectedStackId: string): Applied {
    if next.schemaVersion != 1 || next.validUntil.None? || next.generation == "" then Refused(Malformed)
    else if expectedStackId != "" && next.stackId != expectedStackId then Refused(OtherStack)
    else if next.validUntil.value <= now then Refused(Expired)
    else if previous.None? then Ok(next)
    else if previous.value.stackId != next.stackId then Refused(OtherStack)
    else if next.sequence < previous.value.sequence then Refused(Decreasing)
    else if next.sequence == previous.value.sequence then Ok(previous.value)
    else Ok(next)
  }

  /** One renewal of the TypeScript supervisor; a refusal leaves it as it is. */
  function TsRenew(me: Self, held: Option<Lease>, o: Offer): (Option<Lease>, bool) {
    if o.lease.generation != me.generation then (held, false)
    else
      var applied := ApplyLease(held, o.lease, o.now, me.stackId);
      if applied.Ok? then (Some(applied.lease), true) else (held, false)
  }

  function GoHeld(me: Self, offers: seq<Offer>): Option<Lease> {
    if offers == [] then None
    else GoAccept(me, GoHeld(me, offers[..|offers| - 1]), offers[|offers| - 1]).0
  }

  function TsHeld(me: Self, offers: seq<Offer>): Option<Lease> {
    if offers == [] then None
    else TsRenew(me, TsHeld(me, offers[..|offers| - 1]), offers[|offers| - 1]).0
  }

  /** The earliest of the acceptable offers of highest sequence. */
  ghost predicate IsBest(me: Self, offers: seq<Offer>, i: int) {
    && 0 <= i < |offers|
    && GoAcceptable(me, offers[i])
    && forall j :: 0 <= j < |offers| && GoAcceptable(me, offers[j]) ==>
         if j < i then offers[j].lease.sequence < offers[i].lease.sequence
         else offers[j].lease.sequence <= offers[i].lease.sequence
  }

  /** After any offers the supervisor holds the earliest acceptable one of highest sequence, of which
      there is one at most, and nothing exactly when none was acceptable. */
  lemma {:induction false} HoldsBest(me: Self, offers: seq<Offer>) returns (i: int)
    ensures GoHeld(me, offers).Some? ==> IsBest(me, offers, i) && GoHeld(me, offers).value == offers[i].lease
    ensures forall j :: IsBest(me, offers, j) ==> j == i
    ensures GoHeld(me, offers).None? ==> forall j :: 0 <= j < |offers| ==> !GoAcceptable(me, offers[j])
  {
    i := -1;
    if offers != [] {
      var rest, last := offers[..|offers| - 1], offers[|offers| - 1];
      i := HoldsBest(me, rest);
      assert forall j :: 0 <= j < |rest| ==> offers[j] == rest[j];
      var held := GoHeld(me, rest);
      if GoAcceptable(me, last) && (held.None? || last.lease.sequence > held.value.sequence) {
        i := |offers| - 1;
      }
    }
  }

  /** The held sequence never decreases. */
  lemma {:induction false} HeldSequenceGrows(me: Self, offers: seq<Offer>, n: nat)
    requires n <= |offers| && GoHeld(me, offers[..n]).Some?
    ensures GoHeld(me, offers).Some? && GoHeld(me, offers).value.sequence >= GoHeld(me, offers[..n]).value.sequence
  {
    if n == |offers| {
      assert offers[..n] == offers;
    } else {
      var rest := offers[..|offers| - 1];
      assert rest[..n] == offers[..n];
      HeldSequenceGrows(me, rest, n);
    }
  }

  /** When every offer carries the exact generation, both supervisors hold the same lease. */
  lemma {:induction false} BothHoldTheSame(me: Self, offers: seq<Offer>)
    requires me.stackId != "" && me.generation != ""
    requires forall i :: 0 <= i < |offers| ==> offers[i].lease.generation == me.generation
    ensures GoHeld(me, offers) == TsHeld(me, offers)
    ensures GoHeld(me, offers).Some? ==> GoHeld(me, offers).value.stackId == me.stackId
  {
    if offers != [] {
      BothHoldTheSame(me, offers[..|offers| - 1]);
    }
  }

  // ---------- A renewal that does not renew ----------

  predicate Active(held: Option<Lease>, now: int) {
    held.Some? && held.value.validUntil.Some? && held.value.validUntil.value > now
  }

  /** After polling a valid, unexpired lease made for it, a supervisor is active exactly when the
      lease's sequence is higher than the held one's, or the held one is still valid. A resolver
      that changed address starts its sequence again at 1, so a supervisor of the same instance
      that held a higher one lets its lease run out and refuses the new ones. */
  lemma RenewalWorksIff(me: Self, held: Option<Lease>, o: Offer)
    requires GoAcceptable(me, o)
    ensures Active(GoAccept(me, held, o).0, o.now) <==>
            held.None? || o.lease.sequence > held.value.sequence || Active(held, o.now)
  {
  }

  lemma AddressChangeStarves(me: Self, h: string, h': string)
    requires AddressHash(h) && AddressHash(h')
    ensures
      var before := Lease(1, me.stackId, me.generation + "." + h, 2, Some(30));
      var after := Lease(1, me.stackId, me.generation + "." + h', 1, Some(70));
      var held := GoHeld(me, [Offer(before, 0), Offer(after, 40)]);
      GoAcceptable(me, Offer(after, 40)) && held == Some(before) && !Active(held, 40)
  {
    var before := Offer(Lease(1, me.stackId, me.generation + "." + h, 2, Some(30)), 0);
    var after := Offer(Lease(1, me.stackId, me.generation + "." + h', 1, Some(70)), 40);
    MatchesIff(me.generation, me.generation, h);
    MatchesIff(me.generation, me.generation, h');
    hide Matches, AddressHash;
    assert [before, after][..1] == [before] && [before][..0] == [];
    assert GoHeld(me, []) == None;
    assert GoHeld(me, [before]) == Some(before.lease);
  }
}
