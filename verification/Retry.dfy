/** The provider adapter's request: admitted by the breaker, retried with exponential backoff, and
    reported to the breaker once at most. */
module Retry {
  import opened Breaker
  import opened Options

  /** What one fetch comes to: a response, or the kind of error thrown instead. */
  datatype Fetch = Response(status: nat) | NetworkError | Aborted | TimedOut | OtherError

  datatype Outcome = Ok | HttpError(status: nat) | Cancelled | Unavailable | CircuitOpen

  datatype Retries = Retries(attempts: nat, baseDelay: nat, maxDelay: nat)

  predicate Succeeds(f: Fetch) {
    f.Response? && 200 <= f.status < 300
  }

  /** Rate limits and bad gateways, network errors and aborts; a timeout is an error of its own. */
  predicate Retryable(f: Fetch) {
    match f
    case Response(status) => status == 429 || status == 502 || status == 503 || status == 504
    case NetworkError => true
    case Aborted => true
    case TimedOut => false
    case OtherError => false
  }

  /** An answer that is the caller's fault says nothing about the provider. */
  predicate Callers(f: Fetch) {
    f.Response? && !Succeeds(f) && f.status < 500 && f.status != 429
  }

  function Pow2(n: nat): nat {
    if n == 0 then 1 else 2 * Pow2(n - 1)
  }

  function Delay(r: Retries, attempt: nat): nat {
    var d := r.baseDelay * Pow2(attempt);
    if r.maxDelay < d then r.maxDelay else d
  }

  /** The fetch that decides: the first that is not retryable, or the last allowed. */
  predicate Decides(r: Retries, fetch: nat -> Fetch, n: nat) {
    && n <= r.attempts
    && (forall i :: 0 <= i < n ==> !Succeeds(fetch(i)) && Retryable(fetch(i)))
    && (n == r.attempts || Succeeds(fetch(n)) || !Retryable(fetch(n)))
  }

  function Report(f: Fetch): Option<Action> {
    if Succeeds(f) then Some(Success) else if Callers(f) then None else Some(Failure)
  }

  function OutcomeOf(f: Fetch, aborted: bool): Outcome {
    if Succeeds(f) then Ok
    else if f.Response? then HttpError(f.status)
    else if aborted then Cancelled
    else Unavailable
  }

  /** A fetch that another attempt may do better than. */
  predicate Transient(f: Fetch) {
    f == NetworkError || f == Aborted || (f.Response? && f.status in {429, 502, 503, 504})
  }

  /** How a request ends with its last fetch, and what the breaker hears of it: of a success and a
      failure, but nothing where the caller is at fault. */
  predicate EndsWith(f: Fetch, aborted: bool, outcome: Outcome, report: Option<Action>) {
    if f.Response? then
      if 200 <= f.status <= 299 then outcome == Ok && report == Some(Success)
      else if f.status >= 500 || f.status == 429 then outcome == HttpError(f.status) && report == Some(Failure)
      else outcome == HttpError(f.status) && report == None
    else outcome == (if aborted then Cancelled else Unavailable) && report == Some(Failure)
  }

  /** The backoff before another attempt: doubled each time, as far as its maximum. */
  lemma DelayDoubles(r: Retries, attempt: nat)
    ensures Delay(r, 0) == if r.baseDelay < r.maxDelay then r.baseDelay else r.maxDelay
    ensures Delay(r, attempt + 1) == if 2 * Delay(r, attempt) < r.maxDelay then 2 * Delay(r, attempt) else r.maxDelay
  {
    Doubled(r.baseDelay, attempt);
  }

  lemma Doubled(base: nat, attempt: nat)
    ensures base * Pow2(attempt + 1) == 2 * (base * Pow2(attempt))
    ensures base * Pow2(0) == base
  {
  }

  /** What a deciding fetch means: all before it were transient, it is not or was the last allowed, and it
      makes the request's end and the breaker's report. */
  lemma DecidingFetch(r: Retries, fetch: nat -> Fetch, n: nat, aborted: bool)
    ensures Decides(r, fetch, n) <==>
            && n <= r.attempts && (forall i :: 0 <= i < n ==> Transient(fetch(i)))
            && (n == r.attempts || !Transient(fetch(n)))
    ensures EndsWith(fetch(n), aborted, OutcomeOf(fetch(n), aborted), Report(fetch(n)))
  {
  }

  function Slept(jitter: nat -> nat, n: nat): nat {
    if n == 0 then 0 else Slept(jitter, n - 1) + jitter(n - 1)
  }

  /** One request. `fetch` says what each attempt meets, `jitter` how much of each delay is slept,
      and the clock is read at `start` and, for the report, at `end`. */
  method Request(breaker: CircuitBreaker, r: Retries, fetch: nat -> Fetch, jitter: nat -> nat, aborted: bool,
                 start: int, end: int)
    returns (outcome: Outcome, fetches: nat, slept: nat)
    requires breaker.Valid()
    requires forall i: nat :: jitter(i) <= Delay(r, i)
    modifies breaker
    ensures breaker.Valid()
    ensures outcome.CircuitOpen? <==> !Admits(breaker.settings, old(breaker.Now()), start)
    ensures outcome.CircuitOpen? ==>
      fetches == 0 && slept == 0 && breaker.history == old(breaker.history) + [Event(Ask, start)]
    ensures !outcome.CircuitOpen? ==>
      && fetches >= 1 && (forall n :: Decides(r, fetch, n) <==> n == fetches - 1)
      && outcome == OutcomeOf(fetch(fetches - 1), aborted)
      && breaker.history == old(breaker.history) + [Event(Ask, start)] +
           (var report := Report(fetch(fetches - 1)); if report.Some? then [Event(report.value, end)] else [])
    ensures !outcome.CircuitOpen? ==> slept == Slept(jitter, fetches - 1)
    ensures fetches <= r.attempts + 1
    ensures slept <= r.attempts * r.maxDelay && slept <= r.baseDelay * (Pow2(r.attempts) - 1)
  {
    hide Delay, Pow2, Decides;
    fetches, slept := 0, 0;
    var admitted := breaker.AssertAvailable(start);
    SleptBounds(r, jitter, 0);
    if !admitted {
      return CircuitOpen, 0, 0;
    }
    var attempt := 0;
    while attempt <= r.attempts
      invariant attempt <= r.attempts && fetches == attempt
      invariant breaker.Valid() && breaker.history == old(breaker.history) + [Event(Ask, start)]
      invariant forall i :: 0 <= i < attempt ==> !Succeeds(fetch(i)) && Retryable(fetch(i))
      invariant slept == Slept(jitter, attempt)
    {
      var f := fetch(attempt);
      SleptBounds(r, jitter, attempt);
      fetches := fetches + 1;
      if Succeeds(f) {
        OneDecides(r, fetch, attempt);
        breaker.ReportSuccess(end);
        return Ok, fetches, slept;
      }
      if Callers(f) {
        OneDecides(r, fetch, attempt);
        return HttpError(f.status), fetches, slept;
      }
      if !Retryable(f) || attempt >= r.attempts {
        OneDecides(r, fetch, attempt);
        breaker.ReportFailure(end);
        if f.Response? {
          return HttpError(f.status), fetches, slept;
        }
        if aborted {
          return Cancelled, fetches, slept;
        }
        return Unavailable, fetches, slept;
      }
      slept := slept + jitter(attempt);
      attempt := attempt + 1;
    }
    assert false;
  }

  lemma OneDecides(r: Retries, fetch: nat -> Fetch, n: nat)
    requires n <= r.attempts && forall i :: 0 <= i < n ==> !Succeeds(fetch(i)) && Retryable(fetch(i))
    requires n == r.attempts || Succeeds(fetch(n)) || !Retryable(fetch(n))
    ensures forall m :: Decides(r, fetch, m) <==> m == n
  {
  }

  lemma {:induction false} Pow2Monotone(m: nat, n: nat)
    requires m <= n
    ensures Pow2(m) <= Pow2(n)
  {
    if m < n {
      Pow2Monotone(m, n - 1);
    }
  }

  lemma {:induction false} SleptSoFar(r: Retries, jitter: nat -> nat, n: nat)
    requires forall i: nat :: jitter(i) <= Delay(r, i)
    ensures Slept(jitter, n) <= n * r.maxDelay && Slept(jitter, n) <= r.baseDelay * (Pow2(n) - 1)
  {
    if n > 0 {
      SleptSoFar(r, jitter, n - 1);
      BackoffGrows(r, n - 1);
    }
  }

  /** What is slept before any allowed attempt is within both bounds on all that may be. */
  lemma SleptBounds(r: Retries, jitter: nat -> nat, n: nat)
    requires n <= r.attempts && forall i: nat :: jitter(i) <= Delay(r, i)
    ensures Slept(jitter, n) <= r.attempts * r.maxDelay
    ensures Slept(jitter, n) <= r.baseDelay * (Pow2(r.attempts) - 1)
  {
    hide *;
    SleptSoFar(r, jitter, n);
    BoundsGrow(r, n);
  }

  lemma BoundsGrow(r: Retries, n: nat)
    requires n <= r.attempts
    ensures n * r.maxDelay <= r.attempts * r.maxDelay
    ensures r.baseDelay * (Pow2(n) - 1) <= r.baseDelay * (Pow2(r.attempts) - 1)
  {
    Pow2Monotone(n, r.attempts);
    assert (r.attempts - n) * r.maxDelay >= 0;
    assert r.baseDelay * (Pow2(r.attempts) - Pow2(n)) >= 0;
  }

  /** One more delay keeps both bounds. */
  lemma BackoffGrows(r: Retries, attempt: nat)
    ensures attempt * r.maxDelay + Delay(r, attempt) <= (attempt + 1) * r.maxDelay
    ensures r.baseDelay * (Pow2(attempt) - 1) + Delay(r, attempt) <= r.baseDelay * (Pow2(attempt + 1) - 1)
  {
    assert r.baseDelay * (Pow2(attempt + 1) - 1) == r.baseDelay * (Pow2(attempt) - 1) + r.baseDelay * Pow2(attempt);
  }
}
