/** From the model's tokens to the browser: the worker's loop (generate_chat_turn_v3 in
    backend/apps/chat/tasks.py) over a run of the generation, and any reader of its log. Here no
    append to the log fails; BrokenLog is about those that do. */
module EndToEnd {
  import opened Options
  import opened Events
  import opened DeltaBatcher
  import EventStream
  import opened AnswerVersions
  import opened TurnLifecycle
  import G = Generation

  // ---------- what coalescing keeps ----------

  function Terminals(es: seq<Event>): nat {
    if es == [] then 0 else Terminals(es[..|es| - 1]) + (if Terminal(es[|es| - 1]) then 1 else 0)
  }

  function TerminalItems(items: seq<(string, Event)>): nat {
    if items == [] then 0 else TerminalItems(items[..|items| - 1]) + (if Terminal(items[|items| - 1].1) then 1 else 0)
  }

  lemma {:induction false} TerminalsOfView(es: seq<Event>)
    ensures Terminals(es) == TerminalItems(ViewOf(es).items)
  {
    if es != [] {
      TerminalsOfView(es[..|es| - 1]);
      var v, w := ViewOf(es[..|es| - 1]), ViewOf(es);
      if es[|es| - 1].Item? {
        assert w.items[..|w.items| - 1] == v.items;
      }
    }
  }

  lemma {:induction false} NoTerminals(es: seq<Event>)
    ensures Terminals(es) == 0 <==> forall i :: 0 <= i < |es| ==> !Terminal(es[i])
  {
    if es != [] {
      NoTerminals(es[..|es| - 1]);
    }
  }

  lemma EndsOnceIff(es: seq<Event>)
    ensures EndsOnce(es) <==> es != [] && Terminal(es[|es| - 1]) && Terminals(es) == 1
  {
    if es != [] {
      NoTerminals(es[..|es| - 1]);
    }
  }

  /** Coalescing keeps the last event, and it stays the only terminal one. */
  lemma {:induction false} CoalescedEndsOnce(es: seq<Event>, log: seq<Event>)
    requires EndsOnce(es) && ViewOf(log) == ViewOf(es) && NoEmptyDelta(log)
    ensures EndsOnce(log) && log[|log| - 1] == es[|es| - 1]
    ensures Answer(log) == Answer(es)
  {
    EndsOnceIff(es);
    EndsOnceIff(log);
    TerminalsOfView(es);
    TerminalsOfView(log);
    AnswerOfView(es);
    AnswerOfView(log);
    assert ViewOf(log).tail == "" && ViewOf(log).items != [];
    assert log != [];
    assert log[|log| - 1] != Delta("");
  }

  // ---------- the worker ----------

  predicate HasTerminal(existing: seq<Event>) {
    existing != [] && Terminal(existing[|existing| - 1])
  }

  /** The announcement that the worker adds, unless the log has it. */
  function Announce(existing: seq<Event>): seq<Event> {
    if QUEUED in existing then [] else [QUEUED]
  }

  lemma {:induction false} ViewBehind(e: Event, es: seq<Event>)
    requires e.Item?
    ensures ViewOf([e] + es) == View([("", e)] + ViewOf(es).items, ViewOf(es).tail)
  {
    if es == [] {
      assert [e] + es == [e] && [e][..0] == [];
      assert Look(View([], ""), e) == View([("", e)], "");
    } else {
      var n := |es| - 1;
      assert ([e] + es)[..|[e] + es| - 1] == [e] + es[..n];
      ViewBehind(e, es[..n]);
    }
  }

  lemma SameViewBehind(existing: seq<Event>, log: seq<Event>, es: seq<Event>)
    ensures ViewOf(log).items == ViewOf(es).items ==>
      ViewOf(Announce(existing) + log).items == ViewOf(Announce(existing) + es).items
    ensures ViewOf(log) == ViewOf(es) ==> ViewOf(Announce(existing) + log) == ViewOf(Announce(existing) + es)
  {
    ViewBehind(QUEUED, log);
    ViewBehind(QUEUED, es);
    assert [] + log == log && [] + es == es;
  }

  lemma QueuedFirst(log: seq<Event>)
    ensures EndsOnce(log) ==> EndsOnce([QUEUED] + log)
    ensures Answer([QUEUED] + log) == Answer(log)
    ensures G.NoTerminal(log) ==> G.NoTerminal([QUEUED] + log)
  {
    G.ItemBefore(QUEUED, log);
    var all := [QUEUED] + log;
    assert forall i :: 0 <= i < |log| ==> all[i + 1] == log[i];
  }

  lemma AnnouncedFirst(existing: seq<Event>, log: seq<Event>)
    ensures EndsOnce(log) ==> EndsOnce(Announce(existing) + log)
    ensures Answer(Announce(existing) + log) == Answer(log)
    ensures G.NoTerminal(log) ==> G.NoTerminal(Announce(existing) + log)
  {
    if QUEUED in existing {
      assert [] + log == log;
    } else {
      QueuedFirst(log);
    }
  }

  lemma SomethingIsSeen(log: seq<Event>)
    requires log != [] && NoEmptyDelta(log)
    ensures ViewOf(log) != ViewOf([])
  {
    assert log[|log| - 1] != Delta("");
  }

  /** What the worker adds to the log, besides its announcement if that is missing: every event of the
      run, with neighbouring pieces of text joined; clock: what the clock shows at each event. */
  method WriteLog(existing: seq<Event>, events: seq<Event>, clock: nat -> real, maxDelay: real, maxChars: nat)
      returns (more: seq<Event>)
    requires maxDelay > 0.0 && maxChars > 0
    ensures ViewOf(more) == ViewOf(Announce(existing) + events)
    ensures EndsOnce(events) ==>
      EndsOnce(more) && more[|more| - 1] == events[|events| - 1] && Answer(more) == Answer(events)
    ensures events == [] ==> more == Announce(existing)
  {
    var batches;
    more, batches := ForwardEvents(events, seq(|events|, i requires 0 <= i < |events| => clock(i)), maxDelay, maxChars);
    SameViewBehind(existing, more, events);
    AnnouncedFirst(existing, more);
    if EndsOnce(events) {
      CoalescedEndsOnce(events, more);
    }
    if more != [] {
      SomethingIsSeen(more);
    }
    more := (if QUEUED in existing then [] else [QUEUED]) + more;
  }

  /** The check of the reservation at the start of the job. */
  datatype Renewal = Renewed | Refused | RenewFails

  /** What the task's own mark makes of the row: it is failed if it is still active. */
  predicate TaskMarked(row: Turn, row': Turn, code: string, storeFails: bool) {
    if storeFails || !Active(row.status) then row' == row else G.EndState(row', code)
  }

  /** Loads a fresh object and marks that. */
  method MarkTaskFailed(turn: ChatTurn, code: string, storeFails: bool, now: int)
    requires SafeCode(code) && code in RETRYABLE_ERROR_CODES && code != "cancelled"
    modifies turn`row
    ensures TaskMarked(old(turn.row), turn.row, code, storeFails)
    ensures RowOk(old(turn.row)) ==> RowOk(turn.row)
  {
    var loaded := new ChatTurn(turn.row);
    if Active(loaded.memory.status) {
      var _ := loaded.Transition(Move(Failed, code, None, None, now), storeFails);
      turn.row := loaded.row;
    }
  }

  const LOG_ERROR: string := "coordination_unavailable"
  const LOST_ERROR: string := "worker_lost"

  lemma TaskErrorsAreRetryable()
    ensures SafeCode(LOG_ERROR) && LOG_ERROR in RETRYABLE_ERROR_CODES && LOG_ERROR != "cancelled"
    ensures SafeCode(LOST_ERROR) && LOST_ERROR in RETRYABLE_ERROR_CODES && LOST_ERROR != "cancelled"
  {
    assert G.ErrorCode(G.CoordinationDown, false) == LOG_ERROR;
    assert LOST_ERROR[0] != LOG_ERROR[0];
  }

  /** existing: the log that the worker finds. A log that already ends is left alone. */
  method GenerateChatTurn(g: G.Generation, s: G.Script, renewal: Renewal, markFails: bool, existing: seq<Event>,
                          clock: nat -> real, maxDelay: real, maxChars: nat)
      returns (ran: bool, more: seq<Event>)
    requires g.turn.memory == g.turn.row && g.events == [] && g.Traced()
    requires G.SourceExists(s, g.messages)
    requires maxDelay > 0.0 && maxChars > 0
    modifies g, g.turn
    ensures HasTerminal(existing) <==>
      existing != [] && existing[|existing| - 1].Item? && existing[|existing| - 1].name in {Done, Error}
    ensures ran <==>
      && renewal == Renewed && !HasTerminal(existing)
      && old(g.turn.row).status !in {Completed, Cancelled} && !s.acquire.Busy?
    ensures !ran ==> more == if renewal != Renewed || HasTerminal(existing) then [] else Announce(existing)
    ensures !ran ==> g.messages == old(g.messages)
    ensures !ran ==> TaskMarked(old(g.turn.row), g.turn.row, if renewal == Refused then LOST_ERROR else LOG_ERROR,
                                markFails || renewal == Renewed)
    ensures ran ==> EndsOnce(g.events) && EndsOnce(more)
    ensures ran ==> ViewOf(more) == ViewOf(Announce(existing) + g.events)
    ensures ran ==> more[|more| - 1] == g.events[|g.events| - 1] && Answer(more) == Answer(g.events)
    ensures ran ==> G.Ended(s, old(g.turn.row).status, old(g.messages), g.Now(), g.events)
    ensures ran && s.marked.None? && !G.FoundCompleted(s) ==>
      var verdict := G.Judge(s, old(g.turn.row).status);
      if more[|more| - 1].name == Done
      then && g.turn.row.status == Completed
           && g.messages == Added(G.Base(s, old(g.messages)), G.SourceOf(s), s.newGroup, Answer(more))
      else g.turn.row.status == Completed <==> verdict.Late? && (verdict.known || s.markStoreFails)
  {
    if renewal != Renewed {
      TaskErrorsAreRetryable();
      MarkTaskFailed(g.turn, if renewal == Refused then LOST_ERROR else LOG_ERROR, markFails, s.now);
      return false, [];
    }
    if HasTerminal(existing) {
      return false, [];
    }
    ran := g.IterChatTurn(s);
    more := WriteLog(existing, g.events, clock, maxDelay, maxChars);
    if ran && s.marked.None? && !G.FoundCompleted(s) {
      G.DisagreesIff(s, old(g.turn.row).status, old(g.messages), g.Now(), g.events);
    }
  }

  /** What acceptance writes before the worker starts: no text, nothing terminal. */
  predicate IsAnnouncement(existing: seq<Event>) {
    forall i :: 0 <= i < |existing| ==> existing[i].Item? && !Terminal(existing[i])
  }

  // ---------- a reader ----------

  function EventsOf(rows: seq<EventStream.Row>): seq<Event> {
    seq(|rows|, i requires 0 <= i < |rows| => rows[i].event)
  }

  /** However appends, trims, reads and reconnects interleave: a client that never lagged behind
      the log's length and whose connection has ended was sent the log from its first cursor to
      the end of that connection. That is the end of the log exactly if no earlier attempt left a
      terminal event after the connection's own cursor; and then the text is the last attempt's
      answer exactly if no earlier attempt left text after the first cursor. */
  lemma {:induction false} ReaderIsSent(existing: seq<Event>, more: seq<Event>, begun: seq<Event>, after: nat,
                                        steps: seq<EventStream.Step>, maxLength: nat)
    requires EndsOnce(more) && after <= |existing|
    requires var w := EventStream.Run(EventStream.Begin(begun, after), steps, maxLength);
      !w.lagged && w.history == existing + more && w.connection.closed
    ensures var w := EventStream.Run(EventStream.Begin(begun, after), steps, maxLength);
      var c, text := w.connection.cursor, Answer(EventsOf(w.delivered));
      && after <= c <= |w.history| && EventsOf(w.delivered) == w.history[after..c]
      && (c == |w.history| <==> forall i :: w.since <= i < |existing| ==> !Terminal(existing[i]))
      && (c == |w.history| ==> text == Answer(existing[after..]) + Answer(more))
      && (c == |w.history| ==> (text == Answer(more) <==> Answer(existing[after..]) == ""))
  {
    var w := EventStream.Run(EventStream.Begin(begun, after), steps, maxLength);
    EventStream.ReadsExactlyOnce(begun, after, steps, maxLength);
    SentUpTo(existing, more, after, w.since, w.connection.cursor);
  }

  lemma {:induction false} SentUpTo(existing: seq<Event>, more: seq<Event>, after: nat, since: nat, c: nat)
    requires EndsOnce(more) && after <= |existing|
    requires after <= since < c <= |existing + more| && Terminal((existing + more)[c - 1])
    requires forall i :: since <= i < c - 1 ==> !Terminal((existing + more)[i])
    ensures var log := existing + more; var text := Answer(EventsOf(EventStream.Slice(log, after, c)));
      && EventsOf(EventStream.Slice(log, after, c)) == log[after..c]
      && (c == |log| <==> forall i :: since <= i < |existing| ==> !Terminal(existing[i]))
      && (c == |log| ==> text == Answer(existing[after..]) + Answer(more))
      && (c == |log| ==> (text == Answer(more) <==> Answer(existing[after..]) == ""))
  {
    var log := existing + more;
    assert c > |existing| ==> log[c - 1] == more[c - 1 - |existing|];
    assert forall i :: 0 <= i < |existing| ==> log[i] == existing[i];
    assert EventsOf(EventStream.Slice(log, after, c)) == log[after..c];
    if c == |log| {
      assert log[after..c] == existing[after..] + more;
      AnswerAppend(existing[after..], more);
      assert |Answer(existing[after..]) + Answer(more)| == |Answer(existing[after..])| + |Answer(more)|;
      assert "" + Answer(more) == Answer(more);
    }
  }

  /** So a reader of a Turn's only attempt is shown that attempt's answer. */
  lemma {:induction false} ReaderGetsAnswer(existing: seq<Event>, more: seq<Event>, begun: seq<Event>, after: nat,
                                            steps: seq<EventStream.Step>, maxLength: nat)
    requires IsAnnouncement(existing) && EndsOnce(more) && after <= |existing|
    requires var w := EventStream.Run(EventStream.Begin(begun, after), steps, maxLength);
      !w.lagged && w.history == existing + more && w.connection.closed
    ensures var w := EventStream.Run(EventStream.Begin(begun, after), steps, maxLength);
      && EventsOf(w.delivered) == w.history[after..]
      && Answer(EventsOf(w.delivered)) == Answer(more)
  {
    ReaderIsSent(existing, more, begun, after, steps, maxLength);
    NoText(existing[after..]);
    var w := EventStream.Run(EventStream.Begin(begun, after), steps, maxLength);
    assert w.history[after..|w.history|] == w.history[after..];
  }

  lemma {:induction false} NoText(es: seq<Event>)
    requires forall i :: 0 <= i < |es| ==> es[i].Item?
    ensures Answer(es) == ""
  {
    if es != [] {
      NoText(es[..|es| - 1]);
    }
  }

  // ---------- an attempt that died without a terminal event ----------

  /** What a worker that died after one piece of text and the retry that follows leave in the log:
      the Turn is failed in the database only. */
  function Abandoned(text: string): seq<Event> {
    [Item(Meta, ""), QUEUED, Delta(text), Item(Meta, ""), QUEUED]
  }

  /** A reader from the start is then shown that text in front of the next attempt's answer. */
  lemma {:induction false} AbandonedTextIsShown(text: string, more: seq<Event>, begun: seq<Event>,
                                                steps: seq<EventStream.Step>, maxLength: nat)
    requires text != "" && EndsOnce(more)
    requires var w := EventStream.Run(EventStream.Begin(begun, 0), steps, maxLength);
      !w.lagged && w.history == Abandoned(text) + more && w.connection.closed
    ensures var w := EventStream.Run(EventStream.Begin(begun, 0), steps, maxLength);
      Answer(EventsOf(w.delivered)) == text + Answer(more) != Answer(more)
  {
    var log := Abandoned(text);
    ReaderIsSent(log, more, begun, 0, steps, maxLength);
    assert log[0..] == log;
    AbandonedAnswer(text);
    assert |text + Answer(more)| > |Answer(more)|;
  }

  lemma AbandonedAnswer(text: string)
    ensures Answer(Abandoned(text)) == text
  {
    var log := Abandoned(text);
    NoText(log[..2]);
    NoText(log[3..]);
    G.AnswerOne(Delta(text));
    AnswerAppend(log[..2], [Delta(text)]);
    AnswerAppend(log[..2] + [Delta(text)], log[3..]);
    assert log == log[..2] + [Delta(text)] + log[3..];
    assert "" + text + "" == text;
  }

  /** One replay, and n rows of it. */
  function Reading(n: nat): seq<EventStream.Step> {
    if n == 0 then [EventStream.Poll] else Reading(n - 1) + [EventStream.Yield]
  }

  function HasRead(log: seq<Event>, n: nat): EventStream.World
    requires n <= |log|
  {
    EventStream.World(
      log, EventStream.Connection(n, EventStream.Slice(log, n, |log|), true, n > 0 && Terminal(log[n - 1])),
      EventStream.Slice(log, 0, n), 0, 0, false)
  }

  lemma ReadNext(log: seq<Event>, n: nat, maxLength: nat)
    requires n < |log| && (n > 0 ==> !Terminal(log[n - 1]))
    ensures EventStream.Next(HasRead(log, n), EventStream.Yield, maxLength) == HasRead(log, n + 1)
  {
    var rows := EventStream.Slice(log, n, |log|);
    assert rows[0] == EventStream.Row(n + 1, log[n]);
    assert rows[1..] == EventStream.Slice(log, n + 1, |log|);
    assert EventStream.Slice(log, 0, n + 1) == EventStream.Slice(log, 0, n) + [rows[0]];
  }

  lemma ReadFirst(log: seq<Event>, maxLength: nat)
    requires |log| <= maxLength
    ensures EventStream.Next(EventStream.Begin(log, 0), EventStream.Poll, maxLength) == HasRead(log, 0)
  {
    EventStream.AboveSlice(log, 0, |log|, 0);
    assert EventStream.Slice(log, 0, 0) == [];
  }

  lemma {:induction false} AfterReading(log: seq<Event>, n: nat, maxLength: nat)
    requires n <= |log| <= maxLength && forall i :: 0 <= i < n - 1 ==> !Terminal(log[i])
    ensures EventStream.Run(EventStream.Begin(log, 0), Reading(n), maxLength) == HasRead(log, n)
  {
    if n == 0 {
      assert Reading(0)[..0] == [];
      assert EventStream.Run(EventStream.Begin(log, 0), [], maxLength) == EventStream.Begin(log, 0);
      ReadFirst(log, maxLength);
    } else {
      AfterReading(log, n - 1, maxLength);
      ReadNext(log, n - 1, maxLength);
      ReadingLength(n - 1);
      assert Reading(n)[..n] == Reading(n - 1);
    }
  }

  lemma {:induction false} ReadingLength(n: nat)
    ensures |Reading(n)| == n + 1
  {
    if n > 0 {
      ReadingLength(n - 1);
    }
  }

  /** Every log whose earlier attempts left nothing terminal has such a reader: one that replays
      it all. */
  lemma {:induction false} SomeReaderEnds(existing: seq<Event>, more: seq<Event>, maxLength: nat)
    requires EndsOnce(more) && |existing + more| <= maxLength
    requires forall i :: 0 <= i < |existing| ==> !Terminal(existing[i])
    ensures var log := existing + more;
      var w := EventStream.Run(EventStream.Begin(log, 0), Reading(|log|), maxLength);
      !w.lagged && w.history == log && w.connection.closed
  {
    AfterReading(existing + more, |existing + more|, maxLength);
  }
}
