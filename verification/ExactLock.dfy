/** The exact cache's lock: a token stored with an expiry if none is there, and removed only by
    whoever presents the same token. */
module ExactLock {

  datatype Held = Held(token: string, deadline: int)

  type Locks = map<string, Held>

  datatype Op =
    | Lock(id: string, token: string, ttl: nat, now: int)
    | Unlock(id: string, token: string, now: int)

  /** The entry a command sees: keys whose deadline has come are gone. */
  predicate Alive(s: Locks, id: string, now: int) {
    id in s && now < s[id].deadline
  }

  function Step(s: Locks, op: Op): Locks {
    match op
    case Lock(id, token, ttl, now) => if Alive(s, id, now) then s else s[id := Held(token, now + ttl)]
    case Unlock(id, token, now) => if Alive(s, id, now) && s[id].token == token then s - {id} else s
  }

  function Run(ops: seq<Op>): Locks {
    if ops == [] then map[] else Step(Run(ops[..|ops| - 1]), ops[|ops| - 1])
  }

  class ExactCache {
    var locks: Locks

    constructor ()
      ensures locks == map[]
    {
      locks := map[];
    }

    /** A fresh token is offered; it is the caller's lock if the store took it. */
    method TakeLock(id: string, token: string, ttl: nat, now: int) returns (granted: bool)
      modifies this
      ensures locks == Step(old(locks), Lock(id, token, ttl, now))
      ensures granted <==> !Alive(old(locks), id, now)
    {
      if id in locks && now < locks[id].deadline {
        return false;
      }
      locks := locks[id := Held(token, now + ttl)];
      return true;
    }

    /** The release script: the key is deleted if it still holds the caller's token. */
    method ReleaseLock(id: string, token: string, now: int) returns (removed: nat)
      modifies this
      ensures locks == Step(old(locks), Unlock(id, token, now))
      ensures removed == if Alive(old(locks), id, now) && old(locks)[id].token == token then 1 else 0
    {
      if id in locks && now < locks[id].deadline && locks[id].token == token {
        locks := locks - {id};
        return 1;
      }
      return 0;
    }
  }

  // ---------- Whose lock is live ----------

  predicate Clocked(ops: seq<Op>) {
    forall i, j :: 0 <= i < j < |ops| ==> ops[i].now <= ops[j].now
  }

  /** Every attempt to lock uses a token of its own. */
  predicate DistinctTokens(ops: seq<Op>) {
    forall i, j :: 0 <= i < j < |ops| && ops[i].Lock? && ops[j].Lock? ==> ops[i].token != ops[j].token
  }

  predicate Granted(ops: seq<Op>, i: nat)
    requires i < |ops|
  {
    ops[i].Lock? && !Alive(Run(ops[..i]), ops[i].id, ops[i].now)
  }

  /** After `ops`, at `now`, the holder that locked at `i` still has its lock: it was granted, its
      time is not up, and nobody has presented its token since. */
  predicate Live(ops: seq<Op>, i: nat, now: int)
    requires i < |ops|
  {
    && Granted(ops, i)
    && now < ops[i].now + ops[i].ttl
    && forall j :: i < j < |ops| && ops[j].Unlock? && ops[j].id == ops[i].id ==> ops[j].token != ops[i].token
  }

  predicate UpTo(ops: seq<Op>, now: int) {
    ops == [] || ops[|ops| - 1].now <= now
  }

  /** A live holder's token is what the store holds. */
  lemma {:induction false} LiveIsStored(ops: seq<Op>, i: nat, now: int)
    requires Clocked(ops) && DistinctTokens(ops) && UpTo(ops, now) && i < |ops| && Live(ops, i, now)
    ensures ops[i].id in Run(ops) && Run(ops)[ops[i].id] == Held(ops[i].token, ops[i].now + ops[i].ttl)
  {
    var rest, last := ops[..|ops| - 1], ops[|ops| - 1];
    if i < |rest| {
      assert rest[..i] == ops[..i];
      LiveIsStored(rest, i, last.now);
    }
  }

  /** What the store holds was granted to some holder and not released since. */
  lemma {:induction false} StoredIsLive(ops: seq<Op>, id: string, now: int) returns (i: nat)
    requires Clocked(ops) && UpTo(ops, now) && id in Run(ops)
    ensures i < |ops| && ops[i].Lock? && ops[i].id == id && Run(ops)[id] == Held(ops[i].token, ops[i].now + ops[i].ttl)
    ensures Granted(ops, i) && (now < Run(ops)[id].deadline ==> Live(ops, i, now))
    ensures forall j :: i < j < |ops| && ops[j].Unlock? && ops[j].id == id && ops[j].token == ops[i].token ==>
      ops[j].now >= ops[i].now + ops[i].ttl
  {
    var rest, last := ops[..|ops| - 1], ops[|ops| - 1];
    if last.Lock? && last.id == id && !Alive(Run(rest), id, last.now) {
      i := |rest|;
    } else {
      i := StoredIsLive(rest, id, last.now);
      assert rest[..i] == ops[..i];
      assert forall j :: 0 <= j < |rest| ==> rest[j] == ops[j];
    }
  }

  /** At any instant at most one holder of an identifier's lock is live. */
  lemma MutualExclusion(ops: seq<Op>, i: nat, j: nat, now: int)
    requires Clocked(ops) && DistinctTokens(ops) && UpTo(ops, now) && i < |ops| && j < |ops|
    requires Live(ops, i, now) && Live(ops, j, now) && ops[i].id == ops[j].id
    ensures i == j
  {
    LiveIsStored(ops, i, now);
    LiveIsStored(ops, j, now);
    assert ops[i].token == ops[j].token;
  }

  /** Presenting a token whose lock has run out or was never granted removes nobody's lock. */
  lemma StaleReleaseIsHarmless(ops: seq<Op>, token: string, id: string, now: int)
    requires Clocked(ops) && DistinctTokens(ops) && UpTo(ops, now)
    requires forall i :: 0 <= i < |ops| && ops[i].Lock? && ops[i].id == id && ops[i].token == token ==>
      !Live(ops, i, now)
    ensures Step(Run(ops), Unlock(id, token, now)) == Run(ops)
  {
    if Alive(Run(ops), id, now) && Run(ops)[id].token == token {
      var i := StoredIsLive(ops, id, now);
    }
  }
}
