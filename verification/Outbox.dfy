/** Delivery of one outbox event: claimed under a lease, delivered outside any transaction,
    and finished by whoever still holds the newest attempt
    (backend/apps/notifications/outbox_services.py). Times are in seconds. */
module Outbox {
  import opened Basics
  import opened Options

  datatype State = Pending | Delivering | Delivered | Failed

  datatype Event = Event(
    state: State, attempts: nat, nextAttemptAt: Option<int>, leaseExpiresAt: Option<int>,
    deliveredAt: Option<int>, errorCode: string)

  const LEASE_SECONDS: int := 60

  function Created(now: int): Event {
    Event(Pending, 0, Some(now), None, None, "")
  }

  function Power2(n: nat): int {
    if n == 0 then 1 else 2 * Power2(n - 1)
  }

  function Backoff(attempt: nat): int {
    Min(3600, Power2(if attempt < 10 then attempt else 10))
  }

  predicate After(at: Option<int>, now: int) {
    at.Some? && at.value > now
  }

  predicate Claimable(e: Event, now: int) {
    && e.state != Delivered
    && !(e.state == Delivering && After(e.leaseExpiresAt, now))
    && !After(e.nextAttemptAt, now)
  }

  function Claimed(e: Event, now: int): Event {
    e.(state := Delivering, attempts := e.attempts + 1, leaseExpiresAt := Some(now + LEASE_SECONDS), errorCode := "")
  }

  /** The fence: this attempt is still the one being delivered. */
  predicate Holds(e: Event, attempt: nat) {
    e.state == Delivering && e.attempts == attempt
  }

  function AfterFailure(e: Event, attempt: nat, now: int): Event {
    if Holds(e, attempt)
    then e.(state := Failed, nextAttemptAt := Some(now + Backoff(attempt)), leaseExpiresAt := None,
            errorCode := "external_delivery_failed")
    else e
  }

  function AfterSuccess(e: Event, attempt: nat, now: int): Event {
    if Holds(e, attempt)
    then e.(state := Delivered, deliveredAt := Some(now),
            nextAttemptAt := None, leaseExpiresAt := None, errorCode := "")
    else e
  }

  /** The row, and the transactions of a dispatch on it. */
  class ActionOutboxEvent {
    var row: Event

    constructor (now: int)
      ensures row == Created(now)
    {
      row := Created(now);
    }

    method Claim(now: int) returns (attempt: Option<nat>)
      modifies this
      ensures row == if Claimable(old(row), now) then Claimed(old(row), now) else old(row)
      ensures attempt == if Claimable(old(row), now) then Some(old(row).attempts + 1) else None
    {
      if row.state == Delivered {
        return None;
      }
      if row.state == Delivering && row.leaseExpiresAt.Some? && row.leaseExpiresAt.value > now {
        return None;
      }
      if row.nextAttemptAt.Some? && row.nextAttemptAt.value > now {
        return None;
      }
      row := row.(state := Delivering);
      row := row.(attempts := row.attempts + 1);
      row := row.(leaseExpiresAt := Some(now + LEASE_SECONDS), errorCode := "");
      return Some(row.attempts);
    }

    /** The end of a dispatch: what the provider call led to, and what the dispatch returns. */
    method Finish(attempt: nat, delivered: bool, now: int) returns (result: bool)
      modifies this
      ensures row == if delivered then AfterSuccess(old(row), attempt, now) else AfterFailure(old(row), attempt, now)
      ensures result <==> delivered && Holds(old(row), attempt)
    {
      if !delivered {
        if row.state == Delivering && row.attempts == attempt {
          var retryAt := now + Backoff(attempt);
          row := row.(state := Failed, nextAttemptAt := Some(retryAt), leaseExpiresAt := None,
                      errorCode := "external_delivery_failed");
        }
        return false;
      }
      if row.state == Delivering && row.attempts == attempt {
        row := row.(state := Delivered, deliveredAt := Some(now),
                    nextAttemptAt := None, leaseExpiresAt := None, errorCode := "");
        return true;
      }
      return false;
    }
  }

  // ---------- any number of dispatchers ----------

  /** `inFlight` are the attempts that were claimed and have not finished; a dispatcher that
      crashes leaves its attempt there for good. `successes` counts dispatches that returned
      true. */
  datatype World = World(event: Event, inFlight: seq<nat>, successes: nat)

  datatype Step = Claim(now: int) | Finish(which: nat, delivered: bool, now: int)

  function Remove(s: seq<nat>, i: nat): seq<nat>
    requires i < |s|
  {
    s[..i] + s[i + 1..]
  }

  function Next(w: World, step: Step): World {
    match step
    case Claim(now) =>
      if Claimable(w.event, now)
      then w.(event := Claimed(w.event, now), inFlight := w.inFlight + [w.event.attempts + 1])
      else w
    case Finish(which, delivered, now) =>
      if which >= |w.inFlight| then w
      else
        var attempt := w.inFlight[which];
        World(if delivered then AfterSuccess(w.event, attempt, now) else AfterFailure(w.event, attempt, now),
              Remove(w.inFlight, which),
              w.successes + if delivered && Holds(w.event, attempt) then 1 else 0)
  }

  function Run(w: World, steps: seq<Step>): World {
    if steps == [] then w else Next(Run(w, steps[..|steps| - 1]), steps[|steps| - 1])
  }

  function Start(now: int): World {
    World(Created(now), [], 0)
  }

  /** In-flight attempt numbers are distinct, and none is above the row's. */
  predicate Fenced(w: World) {
    && (forall i :: 0 <= i < |w.inFlight| ==> 1 <= w.inFlight[i] <= w.event.attempts)
    && (forall i, j :: 0 <= i < j < |w.inFlight| ==> w.inFlight[i] < w.inFlight[j])
  }

  lemma FencedStep(w: World, step: Step)
    requires Fenced(w)
    ensures Fenced(Next(w, step))
  {
    if step.Finish? && step.which < |w.inFlight| {
      var r := Remove(w.inFlight, step.which);
      assert forall i :: 0 <= i < |r| ==> r[i] == w.inFlight[if i < step.which then i else i + 1];
    }
  }

  lemma {:induction false} AttemptsAreFenced(now: int, steps: seq<Step>)
    ensures Fenced(Run(Start(now), steps))
  {
    if steps != [] {
      AttemptsAreFenced(now, steps[..|steps| - 1]);
      FencedStep(Run(Start(now), steps[..|steps| - 1]), steps[|steps| - 1]);
    }
  }

  /** Only the newest attempt can write a result: any other dispatcher's end leaves the row
      as it is and reports no success. */
  lemma OnlyNewestWrites(w: World, which: nat, delivered: bool, now: int)
    requires Fenced(w) && which < |w.inFlight|
    ensures Next(w, Finish(which, delivered, now)).event != w.event ==> which == |w.inFlight| - 1
    ensures Next(w, Finish(which, delivered, now)).successes > w.successes ==>
              which == |w.inFlight| - 1 && w.inFlight[which] == w.event.attempts
  {
    if which < |w.inFlight| - 1 {
      assert w.inFlight[which] < w.inFlight[|w.inFlight| - 1];
    }
  }

  /** Delivered is final: no field of the row ever changes again, so neither does the time of
      delivery. */
  lemma {:induction false} DeliveredIsFinal(w: World, steps: seq<Step>)
    requires w.event.state == Delivered
    ensures Run(w, steps).event == w.event && Run(w, steps).successes == w.successes
  {
    if steps != [] {
      DeliveredIsFinal(w, steps[..|steps| - 1]);
    }
  }

  /** At most one dispatch ever reports success, and it does exactly when the row is
      delivered. */
  lemma {:induction false} DeliveredAtMostOnce(now: int, steps: seq<Step>)
    ensures var w := Run(Start(now), steps);
            && w.successes == (if w.event.state == Delivered then 1 else 0)
            && (w.event.deliveredAt.Some? <==> w.event.state == Delivered)
  {
    if steps != [] {
      DeliveredAtMostOnce(now, steps[..|steps| - 1]);
    }
  }

  // ---------- spacing of attempts ----------

  function Time(step: Step): int {
    match step
    case Claim(now) => now
    case Finish(_, _, now) => now
  }

  predicate Claims(now: int, steps: seq<Step>, i: nat)
    requires i < |steps|
  {
    steps[i].Claim? && Claimable(Run(Start(now), steps[..i]).event, steps[i].now)
  }

  /** Step `k` records that the attempt `attempt` failed. */
  predicate RecordsFailure(now: int, steps: seq<Step>, k: nat, attempt: nat)
    requires k < |steps|
  {
    var w := Run(Start(now), steps[..k]);
    && steps[k].Finish? && !steps[k].delivered && steps[k].which < |w.inFlight|
    && w.inFlight[steps[k].which] == attempt && Holds(w.event, attempt)
  }

  /** What a step that claims nothing can do to an attempt that is being delivered. */
  lemma OtherStep(w: World, step: Step)
    requires !(step.Claim? && Claimable(w.event, step.now)) && w.event.state != Pending
    ensures var e := Next(w, step).event;
            && e.attempts == w.event.attempts && e.state != Pending
            && (e.state == Delivering ==> e == w.event)
            && (e.state == Failed && w.event.state == Failed ==> e == w.event)
            && (w.event.state == Failed ==> e.state == Failed)
            && (e.state == Failed && w.event.state != Failed ==>
                  && step.Finish? && !step.delivered && step.which < |w.inFlight|
                  && w.inFlight[step.which] == w.event.attempts && Holds(w.event, w.event.attempts)
                  && e.nextAttemptAt == Some(step.now + Backoff(e.attempts)))
  {
  }

  lemma RunTo(now: int, steps: seq<Step>, j: nat)
    requires 0 < j <= |steps|
    ensures Run(Start(now), steps[..j]) == Next(Run(Start(now), steps[..j - 1]), steps[j - 1])
  {
    assert steps[..j][..j - 1] == steps[..j - 1];
  }

  /** What the row `e` is, before step `j`, after attempt `attempt` was claimed at time `at`
      by step `i` and nobody claimed since: still being delivered under that lease, or
      delivered, or failed by the recorded step `k`. */
  predicate Since(now: int, steps: seq<Step>, i: nat, j: nat, k: nat, e: Event, attempt: nat, at: int)
    requires j <= |steps|
  {
    && e.attempts == attempt && e.state != Pending
    && (e.state == Delivering ==> e.leaseExpiresAt == Some(at + LEASE_SECONDS))
    && (e.state == Failed ==>
          && i < k < j && RecordsFailure(now, steps, k, attempt)
          && e.nextAttemptAt == Some(Time(steps[k]) + Backoff(attempt)))
  }

  lemma SinceStep(now: int, steps: seq<Step>, i: nat, j: nat, k: nat, w: World, attempt: nat, at: int) returns (k': nat)
    requires i < j < |steps| && w == Run(Start(now), steps[..j]) && !Claims(now, steps, j)
    requires Since(now, steps, i, j, k, w.event, attempt, at)
    ensures Since(now, steps, i, j + 1, k', Next(w, steps[j]).event, attempt, at)
  {
    OtherStep(w, steps[j]);
    k' := if w.event.state == Failed then k else j;
  }

  lemma {:induction false} SinceClaim(now: int, steps: seq<Step>, i: nat, j: nat) returns (k: nat)
    requires i < j <= |steps| && Claims(now, steps, i)
    requires forall m :: i < m < j ==> !Claims(now, steps, m)
    ensures Since(now, steps, i, j, k, Run(Start(now), steps[..j]).event,
                  Run(Start(now), steps[..i]).event.attempts + 1, steps[i].now)
    decreases j
  {
    RunTo(now, steps, j);
    if i == j - 1 {
      k := 0;
    } else {
      k := SinceClaim(now, steps, i, j - 1);
      k := SinceStep(now, steps, i, j - 1, k, Run(Start(now), steps[..j - 1]),
                     Run(Start(now), steps[..i]).event.attempts + 1, steps[i].now);
    }
  }

  /** Two claims in a row are a full lease apart, or the first attempt's failure was recorded
      between them and its backoff has passed. */
  lemma ClaimsAreSpaced(now: int, steps: seq<Step>, i: nat, j: nat)
    requires i < j < |steps| && Claims(now, steps, i) && Claims(now, steps, j)
    requires forall m :: i < m < j ==> !Claims(now, steps, m)
    ensures var attempt := Run(Start(now), steps[..i]).event.attempts + 1;
            || steps[j].now >= steps[i].now + LEASE_SECONDS
            || exists k :: i < k < j && RecordsFailure(now, steps, k, attempt)
                           && steps[j].now >= steps[k].now + Backoff(attempt)
  {
    var k := SinceClaim(now, steps, i, j);
  }

  /** The backoff doubles up to 1024 seconds; its cap of an hour is never reached. */
  lemma BackoffIsPowerOfTwo(attempt: nat)
    ensures Backoff(attempt) == Power2(if attempt < 10 then attempt else 10) <= 1024
  {
    PowerGrows(if attempt < 10 then attempt else 10, 10);
    assert Power2(10) == 1024 by { assert Power2(5) == 32; }
  }

  lemma {:induction false} PowerGrows(a: nat, b: nat)
    requires a <= b
    ensures 1 <= Power2(a) <= Power2(b)
    decreases b
  {
    if a < b {
      PowerGrows(a, b - 1);
    } else if a > 0 {
      PowerGrows(a - 1, b - 1);
    }
  }

  // ---------- no event is stuck ----------

  /** No later than the last step plus the longest wait. */
  predicate Bounded(at: Option<int>, latest: int) {
    at.Some? ==> at.value <= latest
  }

  lemma {:induction false} WaitsAreBounded(now: int, steps: seq<Step>, latest: int)
    requires now <= latest && forall i :: 0 <= i < |steps| ==> Time(steps[i]) <= latest
    ensures var e := Run(Start(now), steps).event;
            Bounded(e.nextAttemptAt, latest + 1024) && Bounded(e.leaseExpiresAt, latest + LEASE_SECONDS)
  {
    if steps != [] {
      var n := |steps| - 1;
      WaitsAreBounded(now, steps[..n], latest);
      var w := Run(Start(now), steps[..n]);
      if steps[n].Finish? && steps[n].which < |w.inFlight| {
        BackoffIsPowerOfTwo(w.inFlight[steps[n].which]);
      }
      assert Time(steps[n]) <= latest;
    }
  }

  /** Whatever the dispatchers did, crashes included, an event that is not delivered can be
      claimed again 1024 seconds after the last thing that happened to it. */
  lemma {:induction false} NeverStuck(now: int, steps: seq<Step>, latest: int, later: int)
    requires now <= latest && forall i :: 0 <= i < |steps| ==> Time(steps[i]) <= latest
    requires later >= latest + 1024
    ensures Claimable(Run(Start(now), steps).event, later) <==> Run(Start(now), steps).event.state != Delivered
  {
    WaitsAreBounded(now, steps, latest);
  }

  // ---------- what an attempt leads to ----------

  /** Over any run: when the row can be claimed, by its state. */
  predicate WaitsProperly(e: Event, created: int) {
    match e.state
    case Pending => e.nextAttemptAt == Some(created)
    case Delivering => e.leaseExpiresAt.Some? &&
      (e.nextAttemptAt.Some? ==> e.nextAttemptAt.value <= e.leaseExpiresAt.value - 60)
    case Failed => e.nextAttemptAt.Some?
    case Delivered => true
  }

  lemma {:induction false} AlwaysWaitsProperly(now: int, steps: seq<Step>)
    ensures WaitsProperly(Run(Start(now), steps).event, now)
  {
    if steps != [] {
      AlwaysWaitsProperly(now, steps[..|steps| - 1]);
    }
  }

  /** A row can be claimed from its creation on, from the end of its lease on while it is being
      delivered, from its next attempt on once it failed, and never once it is delivered. */
  lemma {:induction false} ClaimableIff(now: int, steps: seq<Step>, later: int)
    ensures var e := Run(Start(now), steps).event;
      match e.state
      case Pending => Claimable(e, later) <==> later >= now
      case Delivering => e.leaseExpiresAt.Some? && (Claimable(e, later) <==> later >= e.leaseExpiresAt.value)
      case Failed => e.nextAttemptAt.Some? && (Claimable(e, later) <==> later >= e.nextAttemptAt.value)
      case Delivered => !Claimable(e, later)
  {
    AlwaysWaitsProperly(now, steps);
  }

  /** A claim that is possible starts the next attempt, under a lease of a minute. */
  lemma ClaimLeads(w: World, at: int)
    requires Claimable(w.event, at)
    ensures var v := Next(w, Claim(at));
      && v.event.state == Delivering && v.event.attempts == w.event.attempts + 1
      && v.event.leaseExpiresAt == Some(at + 60)
      && v.inFlight == w.inFlight + [v.event.attempts] && v.successes == w.successes
  {
  }

  /** The newest attempt is still in flight and being delivered. */
  predicate IsCurrent(w: World, which: nat) {
    which < |w.inFlight| && w.inFlight[which] == w.event.attempts && w.event.state == Delivering
  }

  /** Its failure is recorded, and the row can be claimed from exactly the backoff on. */
  lemma {:induction false} FailureLeads(w: World, which: nat, at: int, later: int)
    requires IsCurrent(w, which)
    ensures var v := Next(w, Finish(which, false, at));
      && v.event.state == Failed && v.event.attempts == w.event.attempts && v.event.errorCode != ""
      && v.successes == w.successes
      && (Claimable(v.event, later) <==>
            later >= at + Power2(if w.event.attempts < 10 then w.event.attempts else 10))
  {
    BackoffIsPowerOfTwo(w.event.attempts);
  }

  /** Its success makes the row delivered at that time, and is the one that is reported. */
  lemma SuccessLeads(w: World, which: nat, at: int)
    requires IsCurrent(w, which)
    ensures var v := Next(w, Finish(which, true, at));
      && v.event.state == Delivered && v.event.deliveredAt == Some(at) && v.event.errorCode == ""
      && v.event.attempts == w.event.attempts && v.successes == w.successes + 1
  {
  }

  /** An attempt that was overtaken, or whose row has ended, changes nothing. */
  lemma OthersLeadNowhere(w: World, which: nat, delivered: bool, at: int)
    requires which < |w.inFlight| && !IsCurrent(w, which)
    ensures var v := Next(w, Finish(which, delivered, at)); v.event == w.event && v.successes == w.successes
  {
  }
}
