/** The circuit breaker that a provider's concurrent calls share. */
module Breaker {
  import opened Options

  datatype Settings = Settings(threshold: nat, openDuration: nat)

  datatype Action = Ask | Success | Failure

  /** A call asks to be admitted, or reports, at an instant. */
  datatype Event = Event(action: Action, now: int)

  datatype State = State(failures: nat, openedAt: Option<int>)

  const CLOSED := State(0, None)

  function Admits(k: Settings, s: State, now: int): bool {
    s.openedAt.None? || now - s.openedAt.value >= k.openDuration
  }

  function Step(k: Settings, s: State, e: Event): State {
    match e.action
    case Ask => if s.openedAt.Some? && Admits(k, s, e.now) then CLOSED else s
    case Success => CLOSED
    case Failure =>
      State(s.failures + 1, if s.failures + 1 >= k.threshold then Some(e.now) else s.openedAt)
  }

  function Run(k: Settings, events: seq<Event>): State {
    if events == [] then CLOSED else Step(k, Run(k, events[..|events| - 1]), events[|events| - 1])
  }

  class CircuitBreaker {
    const settings: Settings
    var failures: nat
    var openedAt: Option<int>
    ghost var history: seq<Event>

    ghost function Now(): State
      reads this
    {
      State(failures, openedAt)
    }

    ghost predicate Valid()
      reads this
    {
      Now() == Run(settings, history)
    }

    constructor (settings: Settings)
      ensures this.settings == settings && Valid() && history == []
    {
      this.settings := settings;
      failures, openedAt, history := 0, None, [];
    }

    method AssertAvailable(now: int) returns (admitted: bool)
      requires Valid()
      modifies this
      ensures Valid() && history == old(history) + [Event(Ask, now)]
      ensures admitted <==> Admits(settings, old(Now()), now)
    {
      AppendEvent(settings, history, Event(Ask, now));
      history := history + [Event(Ask, now)];
      if openedAt.None? {
        return true;
      }
      if now - openedAt.value >= settings.openDuration {
        openedAt := None;
        failures := 0;
        return true;
      }
      return false;
    }

    method ReportSuccess(now: int)
      requires Valid()
      modifies this
      ensures Valid() && history == old(history) + [Event(Success, now)]
    {
      AppendEvent(settings, history, Event(Success, now));
      history := history + [Event(Success, now)];
      failures := 0;
      openedAt := None;
    }

    method ReportFailure(now: int)
      requires Valid()
      modifies this
      ensures Valid() && history == old(history) + [Event(Failure, now)]
    {
      AppendEvent(settings, history, Event(Failure, now));
      history := history + [Event(Failure, now)];
      failures := failures + 1;
      if failures >= settings.threshold {
        openedAt := Some(now);
      }
    }
  }

  lemma AppendEvent(k: Settings, events: seq<Event>, e: Event)
    ensures Run(k, events + [e]) == Step(k, Run(k, events), e)
  {
    assert (events + [e])[..|events|] == events;
  }

  // ---------- Open exactly when enough calls have failed ----------

  /** The instant of the latest failure, before which nothing is known. */
  function LatestFailure(events: seq<Event>): int {
    if events == [] then 0
    else if events[|events| - 1].action.Failure? then events[|events| - 1].now
    else LatestFailure(events[..|events| - 1])
  }

  /** The failures since the last success or cool-down: a call asking at least the open duration
      after the latest of a full count of failures cools the count down. */
  function FailuresSinceReset(k: Settings, events: seq<Event>): nat {
    if events == [] then 0
    else
      var rest, e := events[..|events| - 1], events[|events| - 1];
      var count := FailuresSinceReset(k, rest);
      match e.action
      case Success => 0
      case Failure => count + 1
      case Ask => if count >= k.threshold && e.now - LatestFailure(rest) >= k.openDuration then 0 else count
  }

  /** Over any interleaving of calls, the breaker is open exactly when at least the threshold of
      failures has occurred since the last success or cool-down, and it opened at the latest. */
  lemma {:induction false} OpenIff(k: Settings, events: seq<Event>)
    requires k.threshold >= 1
    ensures var s := Run(k, events);
            && s.failures == FailuresSinceReset(k, events)
            && (s.openedAt.Some? <==> FailuresSinceReset(k, events) >= k.threshold)
            && (s.openedAt.Some? ==> s.openedAt.value == LatestFailure(events))
  {
    if events != [] {
      OpenIff(k, events[..|events| - 1]);
    }
  }

  // ---------- Nobody is admitted too early ----------

  predicate Clocked(events: seq<Event>) {
    forall i, j :: 0 <= i < j < |events| ==> events[i].now <= events[j].now
  }

  /** Since the failure at `i` left it open, and with no success since, the breaker is open as of
      that failure or a later one, or the open duration has passed. */
  lemma {:induction false} StaysOpen(k: Settings, events: seq<Event>, i: nat, m: nat)
    requires Clocked(events) && i < m <= |events| && k.threshold >= 1
    requires events[i].action.Failure? && Run(k, events[..i + 1]).openedAt.Some?
    requires forall j :: i < j < m ==> !events[j].action.Success?
    ensures var s := Run(k, events[..m]);
            || (s.openedAt.Some? && s.openedAt.value >= events[i].now)
            || events[m - 1].now >= events[i].now + k.openDuration
    decreases m
  {
    assert events[..m][..m - 1] == events[..m - 1];
    if m == i + 1 {
      OpenIff(k, events[..i]);
      assert events[..m] == events[..i] + [events[i]];
    } else {
      StaysOpen(k, events, i, m - 1);
    }
  }

  /** No call is admitted within the open duration of a failure that left the breaker open, unless
      a success came between. */
  lemma NoEarlyAdmission(k: Settings, events: seq<Event>, i: nat, j: nat)
    requires Clocked(events) && i < j < |events| && k.threshold >= 1
    requires events[i].action.Failure? && Run(k, events[..i + 1]).openedAt.Some?
    requires forall m :: i < m < j ==> !events[m].action.Success?
    requires events[j].action.Ask? && Admits(k, Run(k, events[..j]), events[j].now)
    ensures events[j].now >= events[i].now + k.openDuration
  {
    StaysOpen(k, events, i, j);
  }
}
