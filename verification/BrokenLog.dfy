/** The worker's loop when an append to the event log fails (generate_chat_turn_v3 and
    _mark_task_failed in backend/apps/chat/tasks.py): the generator is dropped where it stands and
    the Turn is marked. */
module BrokenLog {
  import opened Options
  import opened Events
  import opened DeltaBatcher
  import EventStream
  import opened AnswerVersions
  import opened TurnLifecycle
  import opened EndToEnd
  import G = Generation

  /** The append that fails: that of the queued event, one for what the first k raw events gave, or
      one for the terminal event. flushed: the text that waited was still written; landed: the event
      is in the log all the same, only the reply was lost. */
  datatype Failing = AtQueued | Within(k: nat, flushed: bool, landed: bool) | AtTerminal(flushed: bool, landed: bool)

  predicate Possible(failing: Failing, s: G.Script, start: Status, existing: seq<Event>) {
    match failing
    case AtQueued => QUEUED !in existing
    case Within(k, _, _) => G.OpeningFault(s, start).None? && k <= G.Handled(s.raw, s.answeringStoreFails)
    case AtTerminal(_, _) => true
  }

  /** The events whose append was not the one that broke. */
  function Reached(events: seq<Event>, landed: bool): seq<Event>
    requires events != []
  {
    if landed then events else events[..|events| - 1]
  }

  /** What a run that ends shows: the message it stored, or the error it ended with. */
  predicate EndShown(s: G.Script, start: Status, row: Turn, events: seq<Event>) {
    if G.Judge(s, start).Good?
    then HasAnswer(row) && events == G.Announced(s, G.Shown(s, start), row.answer.value)
    else events == G.Shown(s, start) + [Item(Error, G.CodeOf(G.Judge(s, start)))]
  }

  /** What reaches the log: all but the last event, or all of them, and perhaps the text that waited. */
  method WriteSome(events: seq<Event>, flushed: bool, landed: bool, clock: nat -> real, maxDelay: real, maxChars: nat)
      returns (more: seq<Event>)
    requires maxDelay > 0.0 && maxChars > 0 && events != []
    ensures ViewOf(more).items == ViewOf(Reached(events, landed)).items
    ensures G.NoTerminal(Reached(events, landed)) ==> G.NoTerminal(more)
    ensures landed && EndsOnce(events) ==> EndsOnce(more) && more[|more| - 1] == events[|events| - 1]
    ensures Answer(more) <= Answer(events)
    ensures (flushed || landed) && EndsOnce(events) ==> Answer(more) == Answer(events)
  {
    var batcher := new AnswerDeltaBatcher(maxDelay, maxChars);
    var written := Reached(events, landed);
    var batches;
    more, batches := ForwardAll(batcher, written, seq(|written|, i requires 0 <= i < |written| => clock(i)));
    ghost var first, waiting := more, batcher.Pending();
    if flushed && !events[|events| - 1].Delta? {
      more, batches := FlushInto(batcher, more, batches);
    }
    WrittenSome(written, first, waiting, more);
    if landed && EndsOnce(events) {
      EndWritten(events, first, waiting, more);
    }
  }

  /** A terminal event is written after all text. */
  lemma EndWritten(events: seq<Event>, first: seq<Event>, waiting: string, more: seq<Event>)
    requires EndsOnce(events) && Seen(first, waiting) == ViewOf(events) && NoEmptyDelta(first)
    requires more == first || (ViewOf(more) == Seen(first, waiting) && NoEmptyDelta(more))
    ensures EndsOnce(more) && more[|more| - 1] == events[|events| - 1] && Answer(more) == Answer(events)
  {
    assert ViewOf(events).tail == "";
    assert waiting == "";
    LookTwice(ViewOf(first), "", "");
    CoalescedEndsOnce(events, more);
  }

  lemma WrittenSome(before: seq<Event>, log: seq<Event>, waiting: string, more: seq<Event>)
    requires Seen(log, waiting) == ViewOf(before)
    requires more == log || ViewOf(more) == Seen(log, waiting)
    ensures G.NoTerminal(before) ==> G.NoTerminal(more)
    ensures Answer(more) <= Answer(before)
    ensures ViewOf(more) == Seen(log, waiting) ==> Answer(more) == Answer(before)
  {
    if G.NoTerminal(before) {
      SameTerminals(before, more);
    }
    TextSoFar(before, log, waiting);
    AnswerOfView(before);
    AnswerOfView(more);
  }

  lemma SameTerminals(es: seq<Event>, log: seq<Event>)
    requires ViewOf(log).items == ViewOf(es).items
    requires forall i :: 0 <= i < |es| ==> !Terminal(es[i])
    ensures forall i :: 0 <= i < |log| ==> !Terminal(log[i])
  {
    NoTerminals(es);
    NoTerminals(log);
    TerminalsOfView(es);
    TerminalsOfView(log);
  }

  lemma TextSoFar(es: seq<Event>, log: seq<Event>, waiting: string)
    requires Seen(log, waiting) == ViewOf(es)
    ensures Answer(es) == Answer(log) + waiting
  {
    AnswerOfView(es);
    AnswerOfView(log);
    var v := ViewOf(log);
    assert TextOfItems(v.items) + (v.tail + waiting) == (TextOfItems(v.items) + v.tail) + waiting;
  }

  /** A run that ends shows the beginning of what was said, and all of it unless it is bad. */
  lemma ShownText(s: G.Script, start: Status)
    ensures Answer(G.Shown(s, start)) <= G.Spoken(s.raw)
    ensures !G.Judge(s, start).Bad? ==> Answer(G.Shown(s, start)) == G.Spoken(s.raw)
    ensures forall code :: Answer(G.Shown(s, start) + [Item(Error, code)]) == Answer(G.Shown(s, start))
  {
    G.ShownIsAnswer(s, start);
    G.RunsEndOnce(s, start);
    G.SpokenGrows(s.raw, G.Handled(s.raw, s.answeringStoreFails));
    forall code ensures Answer(G.Shown(s, start) + [Item(Error, code)]) == Answer(G.Shown(s, start)) {
      G.ItemAfter(G.Shown(s, start), Item(Error, code));
    }
  }

  /** What k raw events show. */
  lemma DroppedText(s: G.Script, k: nat)
    requires k <= |s.raw|
    ensures var events := [G.RETRIEVING] + G.Emitted(s.raw[..k], s.transport);
      Answer(events) <= G.Spoken(s.raw) && G.NoTerminal(events)
  {
    var emitted := G.Emitted(s.raw[..k], s.transport);
    G.EmittedIsAnswer(s.raw[..k], s.transport);
    G.ItemBefore(G.RETRIEVING, emitted);
    G.SpokenGrows(s.raw, k);
  }

  /** The append breaks in the middle of a run. */
  method Interrupted(g: G.Generation, s: G.Script, k: nat, markFails: bool,
                     clock: nat -> real, maxDelay: real, maxChars: nat, flushed: bool, landed: bool)
      returns (more: seq<Event>)
    requires g.turn.memory == g.turn.row && g.events == [] && g.turn.row.status !in {Completed, Cancelled}
    requires g.Traced()
    requires G.OpeningFault(s, g.turn.row.status).None? && k <= G.Handled(s.raw, s.answeringStoreFails)
    requires maxDelay > 0.0 && maxChars > 0
    modifies g`events, g`trace, g.turn
    ensures G.NoTerminal(more) && Answer(more) <= G.Spoken(s.raw)
    ensures ViewOf(more).items == ViewOf(Reached([G.RETRIEVING] + G.Emitted(s.raw[..k], s.transport), landed)).items
    ensures g.turn.row.status != Completed
    ensures !markFails ==> G.EndState(g.turn.row, LOG_ERROR)
  {
    DroppedText(s, k);
    g.Dropped(s, k);
    more := WriteSome(g.events, flushed, landed, clock, maxDelay, maxChars);
    TaskErrorsAreRetryable();
    MarkTaskFailed(g.turn, LOG_ERROR, markFails, s.now);
  }

  lemma EndedShows(s: G.Script, start: Status, before: seq<Message>, d: Desk, events: seq<Event>)
    requires G.SourceExists(s, before) && G.Ended(s, start, before, d, events) && EndsOnce(events)
    ensures Answer(events) <= G.Spoken(s.raw)
    ensures G.Judge(s, start).Good? ==> Answer(events) == G.Spoken(s.raw)
    ensures events[|events| - 1].name == Done <==> G.Judge(s, start).Good?
    ensures EndShown(s, start, d.row, events)
  {
    ShownText(s, start);
  }

  /** The append breaks at the last event of a run. */
  method Unannounced(g: G.Generation, s: G.Script, markFails: bool,
                     clock: nat -> real, maxDelay: real, maxChars: nat, flushed: bool, landed: bool)
      returns (more: seq<Event>)
    requires g.turn.memory == g.turn.row && g.events == [] && g.turn.row.status !in {Completed, Cancelled}
    requires !s.acquire.Busy? && g.Traced()
    requires G.SourceExists(s, g.messages)
    requires maxDelay > 0.0 && maxChars > 0
    modifies g, g.turn
    ensures Answer(more) <= G.Spoken(s.raw)
    ensures if landed then EndsOnce(more) else G.NoTerminal(more)
    ensures g.events != [] && ViewOf(more).items == ViewOf(Reached(g.events, landed)).items
    ensures EndShown(s, old(g.turn.row).status, g.turn.row, g.events)
    ensures landed ==> (more[|more| - 1].name == Done <==> G.Judge(s, old(g.turn.row).status).Good?)
    ensures (flushed || landed) && G.Judge(s, old(g.turn.row).status).Good? ==> Answer(more) == G.Spoken(s.raw)
    ensures AfterEnd(s, old(g.turn.row).status, old(g.messages), g.Now(), markFails)
  {
    ghost var start := g.turn.row.status;
    var _ := g.IterChatTurn(s);
    ghost var ended := g.Now();
    EndedShows(s, start, old(g.messages), ended, g.events);
    more := WriteSome(g.events, flushed, landed, clock, maxDelay, maxChars);
    TaskErrorsAreRetryable();
    MarkTaskFailed(g.turn, LOG_ERROR, markFails, s.now);
    MarkedAfterEnd(s, start, old(g.messages), ended, g.Now(), g.events, markFails);
  }

  /** What the whole job leaves if the append of the last event failed: a good run has stored its
      answer, and the task's mark comes too late; a bad one is marked, if it was not yet. */
  ghost predicate AfterEnd(s: G.Script, start: Status, before: seq<Message>, d: Desk, markFails: bool)
    requires G.SourceExists(s, before)
  {
    && d.messages == G.MessagesLeft(s, start, before)
    && (G.Judge(s, start).Good? ==> G.Stored(s, G.Spoken(s.raw), G.Base(s, before), d.row, d.messages))
    && (G.Judge(s, start).Bad? && s.marked.None? && !G.FoundCompleted(s) ==> d.row.status != Completed)
    && (!markFails ==> !Active(d.row.status))
  }

  lemma MarkedAfterEnd(s: G.Script, start: Status, before: seq<Message>, d: Desk, after: Desk, events: seq<Event>,
                       markFails: bool)
    requires G.SourceExists(s, before) && G.Ended(s, start, before, d, events)
    requires TaskMarked(d.row, after.row, LOG_ERROR, markFails) && after.messages == d.messages
    requires EndShown(s, start, d.row, events)
    ensures AfterEnd(s, start, before, after, markFails)
    ensures EndShown(s, start, after.row, events)
  {
  }

  /** The worker whose log breaks. The log then holds the beginning of what was said, and nothing
      terminal unless the last event has landed. Before the end of the run nothing is stored, and the
      Turn admits a retry; at its end a good run has already stored the answer, and the mark comes too
      late. */
  method GenerateChatTurn(g: G.Generation, s: G.Script, existing: seq<Event>, failing: Failing, markFails: bool,
                          clock: nat -> real, maxDelay: real, maxChars: nat)
      returns (more: seq<Event>)
    requires g.turn.memory == g.turn.row && g.events == [] && g.Traced()
    requires !HasTerminal(existing) && g.turn.row.status !in {Completed, Cancelled} && !s.acquire.Busy?
    requires Possible(failing, s, g.turn.row.status, existing)
    requires G.SourceExists(s, g.messages)
    requires maxDelay > 0.0 && maxChars > 0
    modifies g, g.turn
    ensures Answer(more) <= G.Spoken(s.raw)
    ensures if failing.AtTerminal? && failing.landed then EndsOnce(more) else G.NoTerminal(more)
    ensures failing.AtTerminal? && G.Judge(s, old(g.turn.row).status).Good? && (failing.flushed || failing.landed) ==>
      Answer(more) == G.Spoken(s.raw)
    ensures !failing.AtTerminal? ==> g.messages == old(g.messages) && g.turn.row.status != Completed
    ensures !failing.AtTerminal? && !markFails && (failing.AtQueued? ==> Active(old(g.turn.row).status)) ==>
      G.EndState(g.turn.row, LOG_ERROR)
    ensures failing.AtTerminal? ==> AfterEnd(s, old(g.turn.row).status, old(g.messages), g.Now(), markFails)
    ensures match failing
            case AtQueued => more == []
            case Within(k, _, landed) =>
              ViewOf(more).items ==
              ViewOf(Announce(existing) + Reached([G.RETRIEVING] + G.Emitted(s.raw[..k], s.transport), landed)).items
            case AtTerminal(_, landed) =>
              && EndShown(s, old(g.turn.row).status, g.turn.row, g.events) && g.events != []
              && ViewOf(more).items == ViewOf(Announce(existing) + Reached(g.events, landed)).items
  {
    match failing {
      case AtQueued =>
        TaskErrorsAreRetryable();
        MarkTaskFailed(g.turn, LOG_ERROR, markFails, s.now);
        return [];
      case Within(k, flushed, landed) =>
        more := Interrupted(g, s, k, markFails, clock, maxDelay, maxChars, flushed, landed);
        SameViewBehind(existing, more, Reached([G.RETRIEVING] + G.Emitted(s.raw[..k], s.transport), landed));
      case AtTerminal(flushed, landed) =>
        more := Unannounced(g, s, markFails, clock, maxDelay, maxChars, flushed, landed);
        SameViewBehind(existing, more, Reached(g.events, landed));
    }
    AnnouncedFirst(existing, more);
    more := (if QUEUED in existing then [] else [QUEUED]) + more;
  }

  /** A log without a terminal event never lets a reader go, however often it comes back. */
  lemma ReaderWaits(begun: seq<Event>, after: nat, steps: seq<EventStream.Step>, maxLength: nat)
    requires G.NoTerminal(EventStream.Run(EventStream.Begin(begun, after), steps, maxLength).history)
    ensures !EventStream.Run(EventStream.Begin(begun, after), steps, maxLength).connection.closed
  {
    EventStream.EndsAtTerminalOnly(EventStream.Begin(begun, after), steps, maxLength);
  }
}
