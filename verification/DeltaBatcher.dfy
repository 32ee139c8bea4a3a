/** Coalescing of small answer deltas before they are written to the event log
    (AnswerDeltaBatcher in backend/apps/chat/stream_events_v3.py and the event loop of
    generate_chat_turn_v3 in backend/apps/chat/tasks.py). */
module DeltaBatcher {
  import opened Options
  import opened Events
  import opened PythonText

  class AnswerDeltaBatcher {
    const maxDelay: real
    const maxChars: nat
    var parts: seq<string>
    var charCount: nat
    var startedAt: Option<real>

    predicate Valid()
      reads this
    {
      && maxChars > 0 && maxDelay > 0.0
      && charCount == |Join(parts)| < maxChars
      && (parts == [] <==> startedAt.None?)
      && forall i :: 0 <= i < |parts| ==> parts[i] != ""
    }

    /** The text that waits to be written. */
    ghost function Pending(): string
      reads this
    {
      Join(parts)
    }

    constructor (maxDelay: real, maxChars: nat)
      requires maxDelay > 0.0 && maxChars > 0
      ensures Valid() && Pending() == ""
      ensures this.maxChars == maxChars && this.maxDelay == maxDelay
    {
      this.maxDelay, this.maxChars := maxDelay, maxChars;
      parts, charCount, startedAt := [], 0, None;
    }

    /** Returns the text to write, if it is time; then nothing waits. Otherwise what waits
        is short and young. */
    method Push(text: string, now: real) returns (out: Option<string>)
      requires Valid()
      modifies this
      ensures Valid()
      ensures Pending() == if out.Some? then "" else old(Pending()) + text
      ensures out.Some? ==> out.value == old(Pending()) + text && out.value != ""
      ensures out.Some? <==>
                (text != "" && (|old(Pending()) + text| >= maxChars || now - old(startedAt.GetOr(now)) >= maxDelay))
      ensures out.None? && text != "" ==> startedAt == Some(old(startedAt.GetOr(now)))
    {
      if text == "" {
        return None;
      }
      if parts == [] {
        startedAt := Some(now);
      }
      JoinOne(parts, text);
      parts := parts + [text];
      charCount := charCount + |text|;
      var elapsed := now - startedAt.value;
      if charCount >= maxChars || elapsed >= maxDelay {
        out := Take();
      } else {
        out := None;
      }
    }

    method Take() returns (out: Option<string>)
      requires maxChars > 0 && maxDelay > 0.0
      modifies this
      ensures Valid() && Pending() == ""
      ensures out == if old(parts) == [] then None else Some(old(Pending()))
    {
      if parts == [] {
        startedAt, charCount := None, 0;
        return None;
      }
      out := Some(Join(parts));
      parts, charCount, startedAt := [], 0, None;
    }

    method Flush() returns (out: Option<string>)
      requires Valid()
      modifies this
      ensures Valid() && Pending() == ""
      ensures out == if old(Pending()) == "" then None else Some(old(Pending()))
    {
      if parts != [] {
        JoinOne(parts[..|parts| - 1], parts[|parts| - 1]);
        assert parts == parts[..|parts| - 1] + [parts[|parts| - 1]];
      }
      out := Take();
    }
  }

  /** How many pieces of answer text the log holds. */
  function Deltas(es: seq<Event>): nat {
    if es == [] then 0 else Deltas(es[..|es| - 1]) + if es[|es| - 1].Delta? then 1 else 0
  }

  lemma AppendOne(es: seq<Event>, e: Event)
    ensures ViewOf(es + [e]) == Look(ViewOf(es), e)
    ensures Deltas(es + [e]) == Deltas(es) + if e.Delta? then 1 else 0
  {
    assert (es + [e])[..|es|] == es;
  }

  lemma LookTwice(v: View, a: string, b: string)
    ensures Look(Look(v, Delta(a)), Delta(b)) == Look(v, Delta(a + b))
    ensures Look(v, Delta("")) == v
  {
    assert v.tail + a + b == v.tail + (a + b);
    assert v.tail + "" == v.tail;
  }

  /** Writes the batch, if there is one. */
  method WriteBatch(log: seq<Event>, batches: nat, text: Option<string>) returns (log': seq<Event>, batches': nat)
    requires text != Some("")
    ensures ViewOf(log') == Look(ViewOf(log), Delta(text.GetOr("")))
    ensures log' == if text.Some? then log + [Delta(text.value)] else log
    ensures batches' - batches == Deltas(log') - Deltas(log)
  {
    LookTwice(ViewOf(log), "", "");
    log', batches' := log, batches;
    if text.Some? {
      AppendOne(log, Delta(text.value));
      log' := log + [Delta(text.value)];
      batches' := batches + 1;
    }
  }

  /** What a reader of the log will have seen once the waiting text is written. */
  ghost function Seen(log: seq<Event>, pending: string): View {
    Look(ViewOf(log), Delta(pending))
  }

  predicate NoEmptyDelta(log: seq<Event>) {
    forall i :: 0 <= i < |log| ==> log[i] != Delta("")
  }

  lemma SeenAfter(log: seq<Event>, log': seq<Event>, out: Option<string>, before: string, rest: string)
    requires ViewOf(log') == Look(ViewOf(log), Delta(out.GetOr("")))
    requires if out.Some? then out.value == before && rest == "" else rest == before
    ensures Seen(log', rest) == Seen(log, before)
  {
    LookTwice(ViewOf(log), out.GetOr(""), rest);
    assert out.GetOr("") + rest == before;
  }

  /** A piece of answer text waits until there is enough of it, or for long enough. */
  method ForwardText(batcher: AnswerDeltaBatcher, log: seq<Event>, batches: nat, text: string, now: real)
      returns (log': seq<Event>, batches': nat)
    requires batcher.Valid() && NoEmptyDelta(log) && batches == Deltas(log)
    modifies batcher
    ensures batcher.Valid() && NoEmptyDelta(log') && batches' == Deltas(log')
    ensures Seen(log', batcher.Pending()) == Look(Seen(log, old(batcher.Pending())), Delta(text))
    ensures var all := old(batcher.Pending()) + text;
      if text != "" && (|all| >= batcher.maxChars || now - old(batcher.startedAt.GetOr(now)) >= batcher.maxDelay)
      then log' == log + [Delta(all)] && batcher.Pending() == ""
      else log' == log && batcher.Pending() == all
  {
    ghost var before := batcher.Pending();
    var out := batcher.Push(text, now);
    log', batches' := WriteBatch(log, batches, out);
    SeenAfter(log, log', out, before + text, batcher.Pending());
    LookTwice(ViewOf(log), before, text);
  }

  /** Every other event is written at once, after the text that waits. */
  method ForwardItem(batcher: AnswerDeltaBatcher, log: seq<Event>, batches: nat, event: Event)
      returns (log': seq<Event>, batches': nat)
    requires batcher.Valid() && NoEmptyDelta(log) && batches == Deltas(log) && event.Item?
    modifies batcher
    ensures batcher.Valid() && NoEmptyDelta(log') && batches' == Deltas(log')
    ensures Seen(log', batcher.Pending()) == Look(Seen(log, old(batcher.Pending())), event)
    ensures batcher.Pending() == ""
    ensures log' == (if old(batcher.Pending()) == "" then log else log + [Delta(old(batcher.Pending()))]) + [event]
  {
    ghost var before := batcher.Pending();
    var text := batcher.Flush();
    log', batches' := WriteBatch(log, batches, text);
    SeenAfter(log, log', text, before, "");
    LookTwice(ViewOf(log'), "", "");
    AppendOne(log', event);
    log' := log' + [event];
    LookTwice(ViewOf(log'), "", "");
  }

  /** The body of the loop. */
  method ForwardOne(batcher: AnswerDeltaBatcher, log: seq<Event>, batches: nat, event: Event, now: real)
      returns (log': seq<Event>, batches': nat)
    requires batcher.Valid() && NoEmptyDelta(log) && batches == Deltas(log)
    modifies batcher
    ensures batcher.Valid() && NoEmptyDelta(log') && batches' == Deltas(log')
    ensures Seen(log', batcher.Pending()) == Look(Seen(log, old(batcher.Pending())), event)
    ensures event.Delta? ==> (log' == log || batcher.Pending() == "")
    ensures event.Item? ==> batcher.Pending() == "" && log' != [] && log'[|log'| - 1] == event
  {
    if event.Delta? {
      log', batches' := ForwardText(batcher, log, batches, event.text, now);
    } else {
      log', batches' := ForwardItem(batcher, log, batches, event);
    }
  }

  /** Writes what waits. */
  method FlushInto(batcher: AnswerDeltaBatcher, log: seq<Event>, batches: nat)
      returns (log': seq<Event>, batches': nat)
    requires batcher.Valid() && NoEmptyDelta(log) && batches == Deltas(log)
    modifies batcher
    ensures batcher.Valid() && NoEmptyDelta(log') && batches' == Deltas(log')
    ensures ViewOf(log') == Seen(log, old(batcher.Pending()))
  {
    var pending := batcher.Flush();
    log', batches' := WriteBatch(log, batches, pending);
  }

  /** The loop that forwards a run's events to the log. `clock[i]` is what the clock shows
      at event `i`; it need not be monotone. */
  method ForwardAll(batcher: AnswerDeltaBatcher, input: seq<Event>, clock: seq<real>)
      returns (log: seq<Event>, batches: nat)
    requires |clock| == |input| && batcher.Valid() && batcher.Pending() == ""
    modifies batcher
    ensures batcher.Valid() && Seen(log, batcher.Pending()) == ViewOf(input)
    ensures NoEmptyDelta(log) && batches == Deltas(log)
  {
    log, batches := [], 0;
    LookTwice(ViewOf([]), "", "");
    for i := 0 to |input|
      invariant batcher.Valid()
      invariant Seen(log, batcher.Pending()) == ViewOf(input[..i])
      invariant NoEmptyDelta(log) && batches == Deltas(log)
    {
      assert input[..i + 1] == input[..i] + [input[i]];
      AppendOne(input[..i], input[i]);
      log, batches := ForwardOne(batcher, log, batches, input[i], clock[i]);
    }
    assert input[..|input|] == input;
  }

  /** The loop and the text that waits at its end. */
  method ForwardEvents(input: seq<Event>, clock: seq<real>, maxDelay: real, maxChars: nat)
      returns (log: seq<Event>, batches: nat)
    requires |clock| == |input| && maxDelay > 0.0 && maxChars > 0
    ensures ViewOf(log) == ViewOf(input)
    ensures NoEmptyDelta(log)
    ensures batches == Deltas(log)
  {
    var batcher := new AnswerDeltaBatcher(maxDelay, maxChars);
    log, batches := ForwardAll(batcher, input, clock);
    log, batches := FlushInto(batcher, log, batches);
  }
}
