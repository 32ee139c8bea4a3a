/** Sequence numbers of the protocol-v2 event buffer: a Redis counter without expiry, backed
    by a checkpoint in the database (RedisTurnEventStore in
    backend/apps/chat/stream_events.py and _checkpoint_turn_sequence in
    backend/apps/chat/views.py). One attempt is active at a time. */
module EventStoreV2 {
  import opened Basics

  const CHECKPOINT_INTERVAL: nat := 25
  const EVENT_TTL_SECONDS: int := 900

  datatype Record = Record(sequence: nat, at: int)

  /** `counter` is the Redis counter, zero when the key is missing; `durable` the database
      column; `initial` what the active store object starts from. */
  datatype Store = Store(counter: nat, events: seq<Record>, durable: nat, initial: nat)

  /** Append may fail at its checkpoint; the number is then given out all the same. */
  datatype Step =
    | NewAttempt
    | Append(terminal: bool, now: int, checkpointFails: bool)
    | ClearEvents
    | ExpireBuffer
    | LoseCounter

  function NextSequence(s: Store): nat {
    Max(s.counter, s.initial) + 1
  }

  predicate Checkpoints(sequence: nat, terminal: bool) {
    terminal || sequence % CHECKPOINT_INTERVAL == 0
  }

  /** ZREMRANGEBYSCORE up to the cutoff. */
  function Fresh(events: seq<Record>, cutoff: int): seq<Record> {
    if events == [] then []
    else
      var kept, last := Fresh(events[..|events| - 1], cutoff), events[|events| - 1];
      if last.at > cutoff then kept + [last] else kept
  }

  function Next(s: Store, step: Step): Store {
    match step
    case NewAttempt => s.(initial := s.durable)
    case ClearEvents => s.(events := [])
    case ExpireBuffer => s.(events := [])
    case LoseCounter => s.(counter := 0, events := [])
    case Append(terminal, now, checkpointFails) =>
      var n := NextSequence(s);
      var events := Fresh(s.events + [Record(n, now)], now - EVENT_TTL_SECONDS);
      if Checkpoints(n, terminal) && !checkpointFails
      then Store(n, events, Max(s.durable, n), Max(s.initial, n))
      else s.(counter := n, events := events)
  }

  class RedisTurnEventStore {
    var counter: nat
    var events: seq<Record>
    var durable: nat
    var initial: nat

    function State(): Store
      reads this
    {
      Store(counter, events, durable, initial)
    }

    constructor ()
      ensures State() == Store(0, [], 0, 0)
    {
      counter, events, durable, initial := 0, [], 0, 0;
    }

    /** failed: the event is stored, but the store reports itself unavailable. */
    method AppendEvent(terminal: bool, now: int, checkpointFails: bool) returns (sequence: nat, failed: bool)
      modifies this
      ensures State() == Next(old(State()), Append(terminal, now, checkpointFails))
      ensures sequence == NextSequence(old(State()))
      ensures failed <==> Checkpoints(sequence, terminal) && checkpointFails
    {
      sequence := (if counter > initial then counter else initial) + 1;
      counter := sequence;
      events := events + [Record(sequence, now)];
      events := Fresh(events, now - EVENT_TTL_SECONDS);
      failed := false;
      if terminal || sequence % CHECKPOINT_INTERVAL == 0 {
        if checkpointFails {
          return sequence, true;
        }
        Checkpoint(sequence);
        if sequence > initial {
          initial := sequence;
        }
      }
    }

    /** UPDATE ... WHERE last_event_seq < sequence. */
    method Checkpoint(sequence: nat)
      modifies this`durable
      ensures durable == Max(old(durable), sequence)
    {
      if durable < sequence {
        durable := sequence;
      }
    }

    method Clear()
      modifies this`events
      ensures State() == Next(old(State()), ClearEvents)
    {
      events := [];
    }
  }

  // ---------- runs ----------

  function Run(s: Store, steps: seq<Step>): Store {
    if steps == [] then s else Next(Run(s, steps[..|steps| - 1]), steps[|steps| - 1])
  }

  const EMPTY := Store(0, [], 0, 0)

  /** The numbers given out from state `s` on, in order. */
  function IssuedFrom(s: Store, steps: seq<Step>): seq<nat> {
    if steps == [] then []
    else
      var before := steps[..|steps| - 1];
      if steps[|steps| - 1].Append? then IssuedFrom(s, before) + [NextSequence(Run(s, before))]
      else IssuedFrom(s, before)
  }

  function Issued(steps: seq<Step>): seq<nat> {
    IssuedFrom(EMPTY, steps)
  }

  /** The numbers that were checkpointed when they were given out. */
  function Checkpointed(steps: seq<Step>): set<nat> {
    if steps == [] then {}
    else
      var before := steps[..|steps| - 1];
      var n := NextSequence(Run(EMPTY, before));
      var last := steps[|steps| - 1];
      if last.Append? && Checkpoints(n, last.terminal) && !last.checkpointFails
      then Checkpointed(before) + {n} else Checkpointed(before)
  }

  function Highest(ns: seq<nat>): nat {
    if ns == [] then 0 else Max(Highest(ns[..|ns| - 1]), ns[|ns| - 1])
  }

  lemma {:induction false} HighestBounds(ns: seq<nat>)
    ensures forall i :: 0 <= i < |ns| ==> ns[i] <= Highest(ns)
  {
    if ns != [] {
      HighestBounds(ns[..|ns| - 1]);
    }
  }

  lemma HighestAppend(ns: seq<nat>, n: nat)
    ensures Highest(ns + [n]) == Max(Highest(ns), n)
  {
    assert (ns + [n])[..|ns|] == ns;
  }

  lemma SameQuotient(n: nat)
    requires n % CHECKPOINT_INTERVAL != 0
    ensures n / CHECKPOINT_INTERVAL == (n - 1) / CHECKPOINT_INTERVAL
  {
  }

  predicate Reliable(steps: seq<Step>) {
    forall i :: 0 <= i < |steps| ==> steps[i].Append? ==> !steps[i].checkpointFails
  }

  /** What the counter, the checkpoint and the store object know of the highest number. */
  lemma {:induction false} Bounds(steps: seq<Step>)
    ensures var s, high := Run(EMPTY, steps), Highest(Issued(steps));
            && s.initial == s.durable <= high
            && s.counter <= high
            && (s.counter < high ==> LoseCounter in steps)
            && (Reliable(steps) ==> s.durable / CHECKPOINT_INTERVAL == high / CHECKPOINT_INTERVAL)
  {
    if steps != [] {
      var k := |steps| - 1;
      Bounds(steps[..k]);
      if steps[k].Append? {
        var s := Run(EMPTY, steps[..k]);
        var n := NextSequence(s);
        HighestAppend(Issued(steps[..k]), n);
        if n % CHECKPOINT_INTERVAL != 0 {
          SameQuotient(n);
        }
      }
    }
  }

  lemma {:induction false} CheckpointsAreDurable(steps: seq<Step>)
    ensures forall n :: n in Checkpointed(steps) ==> n <= Run(EMPTY, steps).durable
  {
    if steps != [] {
      CheckpointsAreDurable(steps[..|steps| - 1]);
    }
  }

  /** Without counter loss the numbers strictly increase, over all attempts and even after
      the buffered events were cleared. */
  lemma {:induction false} SequencesIncrease(steps: seq<Step>)
    requires LoseCounter !in steps
    ensures forall i, j :: 0 <= i < j < |Issued(steps)| ==> Issued(steps)[i] < Issued(steps)[j]
  {
    if steps != [] {
      var k := |steps| - 1;
      SequencesIncrease(steps[..k]);
      Bounds(steps[..k]);
      HighestBounds(Issued(steps[..k]));
    }
  }

  /** With successful checkpoints the durable value is at least the last multiple of the interval,
      so at any moment fewer than 25 numbers were given out above it. */
  lemma DurableKeepsUp(steps: seq<Step>)
    requires Reliable(steps)
    ensures var s, high := Run(EMPTY, steps), Highest(Issued(steps));
            && s.durable >= CHECKPOINT_INTERVAL * (high / CHECKPOINT_INTERVAL)
            && high - s.durable <= CHECKPOINT_INTERVAL - 1
  {
    Bounds(steps);
  }

  /** A number becomes durable when it is given out exactly if it ends the stream or is a multiple of 25,
      unless the checkpoint fails. */
  lemma DurableIff(s: Store, terminal: bool, now: int, checkpointFails: bool)
    requires s.durable < NextSequence(s)
    ensures var t := Next(s, Append(terminal, now, checkpointFails));
      && t.durable == (if (terminal || NextSequence(s) % 25 == 0) && !checkpointFails
                       then NextSequence(s) else s.durable)
      && t.counter == NextSequence(s) > Max(s.counter, s.initial)
  {
  }

  /** Until the counter is lost again, the numbers after a loss go up one by one from the
      durable value, whichever attempts follow. */
  lemma {:induction false} CountsFromDurable(s: Store, steps: seq<Step>)
    requires s.counter == 0 && s.initial == s.durable && LoseCounter !in steps
    ensures var issued, t := IssuedFrom(s, steps), Run(s, steps);
            && (forall j :: 0 <= j < |issued| ==> issued[j] == s.durable + j + 1)
            && Max(t.counter, t.initial) == s.durable + |issued|
            && t.durable <= Max(t.counter, t.initial) && t.initial <= t.durable
            && s.durable <= t.durable
  {
    if steps != [] {
      CountsFromDurable(s, steps[..|steps| - 1]);
    }
  }

  /** Losing the counter at any moment never makes a checkpointed number repeat, and with successful
      checkpoints at most the 24 above the durable value do. */
  lemma {:induction false} LossReissuesFew(steps: seq<Step>, later: seq<Step>, i: nat)
    requires LoseCounter !in later
    requires i < |IssuedFrom(Run(EMPTY, steps + [LoseCounter]), later)|
    ensures var n, high := IssuedFrom(Run(EMPTY, steps + [LoseCounter]), later)[i], Highest(Issued(steps));
            && n == Run(EMPTY, steps).durable + i + 1
            && n !in Checkpointed(steps)
            && (Reliable(steps) && n <= high ==> i < CHECKPOINT_INTERVAL - 1 && high - n < CHECKPOINT_INTERVAL - 1)
  {
    assert (steps + [LoseCounter])[..|steps|] == steps;
    if Reliable(steps) {
      DurableKeepsUp(steps);
    }
    Bounds(steps);
    CheckpointsAreDurable(steps);
    CountsFromDurable(Run(EMPTY, steps + [LoseCounter]), later);
  }

  /** The bound is reached: after 24 numbers without a checkpoint a loss repeats them all. */
  lemma AllTwentyFourRepeat(now: int)
    ensures var steps := seq(24, i => Append(false, now, false));
            && Highest(Issued(steps)) == 24
            && IssuedFrom(Run(EMPTY, steps + [LoseCounter]), steps) == Issued(steps)
  {
    var steps := seq(24, i => Append(false, now, false));
    var later := steps + [LoseCounter];
    assert later[..24] == steps;
    CountsFromDurable(EMPTY, steps);
    AllIssued(EMPTY, steps);
    Bounds(steps);
    HighestBounds(Issued(steps));
    NoCheckpointYet(now, 24);
    CountsFromDurable(Run(EMPTY, later), steps);
    AllIssued(Run(EMPTY, later), steps);
    assert Highest(Issued(steps)) == 24 by {
      assert Issued(steps)[23] == 24;
      assert Highest(Issued(steps)) <= 24 by { LastIsHighest(Issued(steps)); }
    }
  }

  lemma {:induction false} AllIssued(s: Store, steps: seq<Step>)
    requires forall i :: 0 <= i < |steps| ==> steps[i].Append?
    ensures |IssuedFrom(s, steps)| == |steps|
  {
    if steps != [] {
      AllIssued(s, steps[..|steps| - 1]);
    }
  }

  lemma {:induction false} LastIsHighest(ns: seq<nat>)
    requires forall i, j :: 0 <= i < j < |ns| ==> ns[i] < ns[j]
    ensures ns != [] ==> Highest(ns) == ns[|ns| - 1]
  {
    if |ns| > 1 {
      LastIsHighest(ns[..|ns| - 1]);
      assert ns[|ns| - 2] < ns[|ns| - 1];
    }
  }

  lemma {:induction false} NoCheckpointYet(now: int, k: nat)
    requires k < CHECKPOINT_INTERVAL
    ensures var s := Run(EMPTY, seq(k, i => Append(false, now, false)));
      s.durable == 0 && s.initial == 0 && s.counter == k
  {
    if k > 0 {
      NoCheckpointYet(now, k - 1);
      assert seq(k, i => Append(false, now, false))[..k - 1] == seq(k - 1, i => Append(false, now, false));
    }
  }

  // ---------- what is buffered ----------

  predicate Empties(step: Step) {
    step in {ClearEvents, ExpireBuffer, LoseCounter}
  }

  /** Step i gave out the number of r, and no append from then on found it 900 seconds old. */
  predicate IsKept(s: Store, steps: seq<Step>, i: nat, r: Record) {
    && i < |steps| && steps[i].Append?
    && r == Record(NextSequence(Run(s, steps[..i])), steps[i].now)
    && forall j :: i <= j < |steps| && steps[j].Append? ==> r.at > steps[j].now - 900
  }

  lemma {:induction false} FreshHas(events: seq<Record>, cutoff: int)
    ensures forall r :: r in Fresh(events, cutoff) <==> r in events && r.at > cutoff
  {
    if events != [] {
      var n := |events| - 1;
      FreshHas(events[..n], cutoff);
      assert events == events[..n] + [events[n]];
    }
  }

  lemma {:induction false} FreshInOrder(events: seq<Record>, cutoff: int)
    requires InOrder(events)
    ensures InOrder(Fresh(events, cutoff))
  {
    if events != [] {
      var n := |events| - 1;
      var kept := Fresh(events[..n], cutoff);
      FreshInOrder(events[..n], cutoff);
      FreshHas(events[..n], cutoff);
      forall i | 0 <= i < |kept| ensures kept[i].sequence < events[n].sequence {
        assert kept[i] in kept;
      }
    }
  }

  predicate InOrder(events: seq<Record>) {
    forall i, j :: 0 <= i < j < |events| ==> events[i].sequence < events[j].sequence
  }

  lemma OneMoreBuffered(w: Store, step: Step, r: Record)
    requires !Empties(step)
    ensures r in Next(w, step).events <==>
      (step.Append? ==> r.at > step.now - 900) &&
      (r in w.events || (step.Append? && r == Record(NextSequence(w), step.now)))
  {
    if step.Append? {
      FreshHas(w.events + [Record(NextSequence(w), step.now)], step.now - EVENT_TTL_SECONDS);
    }
  }

  lemma {:induction false} BufferedSince(s: Store, steps: seq<Step>, r: Record)
    requires s.events == [] && forall i :: 0 <= i < |steps| ==> !Empties(steps[i])
    ensures r in Run(s, steps).events <==> exists i :: IsKept(s, steps, i, r)
  {
    if steps != [] {
      var n := |steps| - 1;
      BufferedSince(s, steps[..n], r);
      OneMoreBuffered(Run(s, steps[..n]), steps[n], r);
      OneMoreKept(s, steps, r);
    } else if i :| IsKept(s, steps, i, r) {
      assert false;
    }
  }

  lemma {:induction false} OneMoreKept(s: Store, steps: seq<Step>, r: Record)
    requires steps != []
    ensures var n := |steps| - 1;
      (exists i :: IsKept(s, steps, i, r)) <==>
        (steps[n].Append? ==> r.at > steps[n].now - 900) &&
        ((exists i :: IsKept(s, steps[..n], i, r)) ||
         (steps[n].Append? && r == Record(NextSequence(Run(s, steps[..n])), steps[n].now)))
  {
    var n := |steps| - 1;
    var before := steps[..n];
    forall i: nat | i < n ensures before[..i] == steps[..i] && before[i] == steps[i] {
    }
    forall i: nat | i < n
      ensures IsKept(s, steps, i, r) <==>
              IsKept(s, before, i, r) && (steps[n].Append? ==> r.at > steps[n].now - 900)
    {
    }
    assert IsKept(s, steps, n, r) <==>
      steps[n].Append? && r == Record(NextSequence(Run(s, before)), steps[n].now) && r.at > steps[n].now - 900;
  }

  lemma {:induction false} BufferInOrder(s: Store, steps: seq<Step>)
    requires s.events == [] && forall i :: 0 <= i < |steps| ==> !Empties(steps[i])
    ensures var t := Run(s, steps);
      InOrder(t.events) && forall i :: 0 <= i < |t.events| ==> t.events[i].sequence <= t.counter
    ensures Run(s, steps).counter >= s.counter
  {
    if steps != [] {
      var n := |steps| - 1;
      BufferInOrder(s, steps[..n]);
      var w := Run(s, steps[..n]);
      if steps[n].Append? {
        var more := w.events + [Record(NextSequence(w), steps[n].now)];
        FreshInOrder(more, steps[n].now - EVENT_TTL_SECONDS);
        FreshHas(more, steps[n].now - EVENT_TTL_SECONDS);
        var t := Run(s, steps);
        forall i | 0 <= i < |t.events| ensures t.events[i].sequence <= t.counter {
          assert t.events[i] in t.events;
        }
      }
    }
  }

  /** The buffer holds, in order, exactly the numbers that were given out since the events were last
      cleared, expired or lost, but for those that an append since then found 900 seconds old. */
  lemma {:induction false} BufferIff(steps: seq<Step>, emptied: Step, later: seq<Step>, r: Record)
    requires Empties(emptied) && forall i :: 0 <= i < |later| ==> !Empties(later[i])
    ensures var s := Run(EMPTY, steps + [emptied]);
      && InOrder(Run(s, later).events)
      && (r in Run(s, later).events <==> exists i :: IsKept(s, later, i, r))
  {
    var s := Run(EMPTY, steps + [emptied]);
    assert s.events == [];
    BufferInOrder(s, later);
    BufferedSince(s, later, r);
  }

  /** When the clock does not go back, those are the numbers that are not that old at the last append. */
  lemma KeptAtLast(s: Store, steps: seq<Step>, i: nat, r: Record, last: nat)
    requires i <= last < |steps| && steps[i].Append? && steps[last].Append?
    requires forall j, k :: 0 <= j < k < |steps| && steps[j].Append? && steps[k].Append? ==>
      steps[j].now <= steps[k].now
    requires forall j :: last < j < |steps| ==> !steps[j].Append?
    requires r == Record(NextSequence(Run(s, steps[..i])), steps[i].now)
    ensures IsKept(s, steps, i, r) <==> r.at > steps[last].now - 900
  {
  }
}
