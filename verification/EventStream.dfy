/** The replayable event log of one Turn and the readers that resume it
    (RedisTurnStreamV3 in backend/apps/chat/stream_events_v3.py and _v3_event_iterator in
    backend/apps/chat/v3_views.py). Both keys of the log are taken not to expire. */
module EventStream {
  import opened Basics
  import opened Options
  import opened Events

  datatype Row = Row(id: nat, event: Event)

  /** The rows that events `a`, ..., `b - 1` of the history get. */
  function Slice(history: seq<Event>, a: nat, b: nat): (r: seq<Row>)
    requires a <= b <= |history|
    ensures |r| == b - a
  {
    seq(b - a, i requires 0 <= i < b - a => Row(a + i + 1, history[a + i]))
  }

  /** Everything that trimming to `maxLength` keeps. */
  function Retained(history: seq<Event>, maxLength: nat): seq<Row> {
    Slice(history, |history| - Min(maxLength, |history|), |history|)
  }

  /** XRANGE and XREAD: the rows above a cursor. */
  function Above(rows: seq<Row>, after: nat): seq<Row> {
    if rows == [] then []
    else if rows[0].id > after then [rows[0]] + Above(rows[1..], after)
    else Above(rows[1..], after)
  }

  const READ_COUNT: nat := 256

  lemma SliceTail(history: seq<Event>, a: nat, b: nat)
    requires a < b <= |history|
    ensures var s := Slice(history, a, b); s != [] && s[0].id == a + 1 && s[1..] == Slice(history, a + 1, b)
    ensures Slice(history, a, b) == [Slice(history, a, b)[0]] + Slice(history, a + 1, b)
  {
  }

  lemma {:induction false} AboveSlice(history: seq<Event>, a: nat, b: nat, after: nat)
    requires a <= b <= |history|
    ensures Above(Slice(history, a, b), after) ==
            if after >= b then [] else Slice(history, if after > a then after else a, b)
    decreases b - a
  {
    if a < b {
      SliceTail(history, a, b);
      AboveSlice(history, a + 1, b, after);
    }
  }

  /** The log as Redis holds it; `history` is what was ever appended. */
  class RedisTurnStreamV3 {
    const maxLength: nat
    var sequence: nat
    var rows: seq<Row>
    ghost var history: seq<Event>

    ghost predicate Valid()
      reads this
    {
      maxLength > 0 && sequence == |history| && rows == Retained(history, maxLength)
    }

    constructor (maxLength: nat)
      requires maxLength > 0
      ensures Valid() && history == [] && this.maxLength == maxLength
    {
      this.maxLength := maxLength;
      sequence, rows, history := 0, [], [];
    }

    /** One script: the counter, the new row, the trim. */
    method Append(event: Event) returns (id: nat)
      requires Valid()
      modifies this
      ensures Valid()
      ensures history == old(history) + [event] && id == |history|
    {
      sequence := sequence + 1;
      rows := rows + [Row(sequence, event)];
      if |rows| > maxLength {
        rows := rows[|rows| - maxLength..];
      }
      history := history + [event];
      id := sequence;
    }

    /** Everything retained above the cursor. */
    method Replay(after: nat) returns (found: seq<Row>)
      requires Valid()
      ensures found == Above(Retained(history, maxLength), after)
    {
      found := [];
      for i := 0 to |rows|
        invariant found + Above(rows[i..], after) == Above(rows, after)
      {
        assert rows[i..][1..] == rows[i + 1..];
        if rows[i].id > after {
          found := found + [rows[i]];
        }
      }
    }

    method Read(after: nat) returns (found: seq<Row>)
      requires Valid()
      ensures found == Take(Above(Retained(history, maxLength), after), 256)
    {
      var all := Replay(after);
      found := Take(all, READ_COUNT);
    }
  }

  // ---------- one connection ----------

  datatype Connection = Connection(cursor: nat, pending: seq<Row>, replayed: bool, closed: bool)

  function Open(after: nat): Connection {
    Connection(after, [], false, false)
  }

  predicate Idle(c: Connection) {
    !c.closed && c.pending == []
  }

  /** The rows a connection asks for: first everything, then a batch at a time. */
  function Asked(c: Connection, retained: seq<Row>): seq<Row> {
    var found := Above(retained, c.cursor);
    if c.replayed then Take(found, READ_COUNT) else found
  }

  function Fetch(c: Connection, retained: seq<Row>): Connection {
    if Idle(c) then c.(pending := Asked(c, retained), replayed := true) else c
  }

  predicate CanDeliver(c: Connection) {
    !c.closed && c.pending != []
  }

  function Deliver(c: Connection): Connection {
    if CanDeliver(c)
    then c.(cursor := c.pending[0].id, pending := c.pending[1..], closed := Terminal(c.pending[0].event))
    else c
  }

  /** The generator that serves one connection: it yields a row at a time and stops at the
      first done or error. */
  class EventReader {
    var cursor: nat
    var pending: seq<Row>
    var replayed: bool
    var closed: bool

    function State(): Connection
      reads this
    {
      Connection(cursor, pending, replayed, closed)
    }

    constructor (after: int)
      ensures State() == Open(if after < 0 then 0 else after)
    {
      cursor := if after < 0 then 0 else after;
      pending, replayed, closed := [], false, false;
    }

    method Poll(log: RedisTurnStreamV3)
      requires log.Valid()
      modifies this
      ensures State() == Fetch(old(State()), Retained(log.history, log.maxLength))
    {
      if closed || pending != [] {
        return;
      }
      if replayed {
        pending := log.Read(cursor);
      } else {
        pending := log.Replay(cursor);
      }
      replayed := true;
    }

    method Yield() returns (sent: Option<Row>)
      modifies this
      ensures State() == Deliver(old(State()))
      ensures sent == if CanDeliver(old(State())) then Some(old(pending)[0]) else None
    {
      if closed || pending == [] {
        return None;
      }
      var row := pending[0];
      cursor, pending := row.id, pending[1..];
      if row.event.Item? && row.event.name in {Done, Error} {
        closed := true;
      }
      return Some(row);
    }

    /** Yields a whole batch, up to the first done or error in it. */
    method YieldBatch() returns (sent: seq<Row>)
      modifies this
      ensures sent <= old(pending)
      ensures old(closed) ==> sent == [] && State() == old(State())
      ensures !old(closed) ==>
                && pending == old(pending)[|sent|..]
                && cursor == (if sent == [] then old(cursor) else sent[|sent| - 1].id)
                && (forall i :: 0 <= i < |sent| - 1 ==> !Terminal(sent[i].event))
                && (closed <==> sent != [] && Terminal(sent[|sent| - 1].event))
                && (closed || pending == [])
    {
      sent := [];
      while !closed && pending != []
        invariant |sent| + |pending| == |old(pending)|
        invariant sent == old(pending)[..|sent|] && pending == old(pending)[|sent|..]
        invariant old(closed) ==> sent == [] && State() == old(State())
        invariant !old(closed) ==>
                    && cursor == (if sent == [] then old(cursor) else sent[|sent| - 1].id)
                    && (forall i :: 0 <= i < |sent| - 1 ==> !Terminal(sent[i].event))
                    && (closed <==> sent != [] && Terminal(sent[|sent| - 1].event))
        decreases |pending|
      {
        var row := Yield();
        sent := sent + [row.value];
      }
    }
  }

  // ---------- runs: appends, fetches, deliveries and reconnects in any order ----------

  /** `start` is the first cursor the client ever sent, `since` the cursor of the current
      connection; `lagged` says whether some fetch came too late for a trimmed event. */
  datatype World = World(
    history: seq<Event>, connection: Connection, delivered: seq<Row>,
    start: nat, since: nat, lagged: bool)

  datatype Step = Append(event: Event) | Poll | Yield | Reconnect

  function Next(w: World, step: Step, maxLength: nat): World {
    match step
    case Append(e) => w.(history := w.history + [e])
    case Poll =>
      w.(connection := Fetch(w.connection, Retained(w.history, maxLength)),
         lagged := w.lagged || (Idle(w.connection) && |w.history| > w.connection.cursor + maxLength))
    case Yield =>
      w.(connection := Deliver(w.connection),
         delivered := if CanDeliver(w.connection) then w.delivered + [w.connection.pending[0]] else w.delivered)
    case Reconnect => w.(connection := Open(w.connection.cursor), since := w.connection.cursor)
  }

  function Run(w: World, steps: seq<Step>, maxLength: nat): World {
    if steps == [] then w
    else Next(Run(w, steps[..|steps| - 1], maxLength), steps[|steps| - 1], maxLength)
  }

  function Begin(history: seq<Event>, after: nat): World {
    World(history, Open(after), [], after, after, false)
  }

  /** Genuine rows: each carries the event that was appended under its number. */
  predicate Genuine(rows: seq<Row>, history: seq<Event>) {
    forall i :: 0 <= i < |rows| ==> 0 < rows[i].id <= |history| && rows[i].event == history[rows[i].id - 1]
  }

  predicate Increasing(rows: seq<Row>, after: nat) {
    && (forall i :: 0 <= i < |rows| ==> rows[i].id > after)
    && (forall i, j :: 0 <= i < j < |rows| ==> rows[i].id < rows[j].id)
  }

  predicate AtMost(rows: seq<Row>, cursor: nat) {
    forall i :: 0 <= i < |rows| ==> rows[i].id <= cursor
  }

  predicate Ordered(w: World) {
    && w.start <= w.since <= w.connection.cursor
    && Genuine(w.delivered, w.history) && Genuine(w.connection.pending, w.history)
    && Increasing(w.delivered, w.start) && Increasing(w.connection.pending, w.connection.cursor)
    && AtMost(w.delivered, w.connection.cursor)
  }

  lemma SliceOrdered(history: seq<Event>, a: nat, b: nat, cursor: nat)
    requires cursor <= a <= b <= |history|
    ensures Genuine(Slice(history, a, b), history) && Increasing(Slice(history, a, b), cursor)
  {
  }

  lemma AskedIsSlice(c: Connection, history: seq<Event>, maxLength: nat) returns (a: nat, b: nat)
    requires Idle(c)
    ensures c.cursor >= |history| ==> Asked(c, Retained(history, maxLength)) == []
    ensures c.cursor < |history| ==>
              && c.cursor <= a <= b <= |history|
              && Asked(c, Retained(history, maxLength)) == Slice(history, a, b)
              && (|history| <= c.cursor + maxLength ==> a == c.cursor && (maxLength > 0 ==> a < b))
              && (|history| > c.cursor + maxLength ==> a == |history| - maxLength)
  {
    var low := |history| - Min(maxLength, |history|);
    AboveSlice(history, low, |history|, c.cursor);
    if c.cursor < |history| {
      a := if c.cursor > low then c.cursor else low;
      b := |history|;
      if c.replayed && b - a > READ_COUNT {
        b := a + READ_COUNT;
        assert Take(Slice(history, a, |history|), READ_COUNT) == Slice(history, a, b);
      }
    } else {
      a, b := 0, 0;
    }
  }

  /** Whatever happens, deliveries strictly increase across all connections, and each is the
      event that was appended under its number. */
  lemma {:induction false} DeliveriesIncrease(w: World, steps: seq<Step>, maxLength: nat)
    requires Ordered(w)
    ensures Ordered(Run(w, steps, maxLength))
  {
    if steps != [] {
      var n := |steps| - 1;
      DeliveriesIncrease(w, steps[..n], maxLength);
      OrderedStep(Run(w, steps[..n], maxLength), steps[n], maxLength);
    }
  }

  lemma AppendIncreasing(rows: seq<Row>, after: nat, cursor: nat, row: Row)
    requires Increasing(rows, after) && AtMost(rows, cursor) && after <= cursor < row.id
    ensures Increasing(rows + [row], after) && AtMost(rows + [row], row.id)
  {
  }

  lemma TailIncreasing(rows: seq<Row>, cursor: nat)
    requires rows != [] && Increasing(rows, cursor)
    ensures Increasing(rows[1..], rows[0].id)
  {
  }

  lemma {:induction false} OrderedYield(w: World, maxLength: nat)
    requires Ordered(w) && CanDeliver(w.connection)
    ensures Ordered(Next(w, Yield, maxLength))
  {
    var pending := w.connection.pending;
    AppendIncreasing(w.delivered, w.start, w.connection.cursor, pending[0]);
    TailIncreasing(pending, w.connection.cursor);
  }

  lemma {:induction false} OrderedStep(w: World, step: Step, maxLength: nat)
    requires Ordered(w)
    ensures Ordered(Next(w, step, maxLength))
  {
    match step {
      case Poll =>
        if Idle(w.connection) {
          var a, b := AskedIsSlice(w.connection, w.history, maxLength);
          if w.connection.cursor < |w.history| {
            SliceOrdered(w.history, a, b, w.connection.cursor);
          }
        }
      case Yield =>
        if CanDeliver(w.connection) {
          OrderedYield(w, maxLength);
        }
      case Append(e) =>
        assert forall i :: 0 <= i < |w.history| ==> (w.history + [e])[i] == w.history[i];
      case Reconnect =>
    }
  }

  /** Without a lag nothing is skipped: what was delivered is the history from the first
      cursor on, and what was fetched continues it. */
  predicate Contiguous(w: World) {
    && w.start <= w.since <= w.connection.cursor
    && (w.connection.cursor <= |w.history| ==>
          && w.connection.cursor + |w.connection.pending| <= |w.history|
          && w.delivered == Slice(w.history, w.start, w.connection.cursor)
          && w.connection.pending == Slice(w.history, w.connection.cursor, w.connection.cursor + |w.connection.pending|)
          && (forall i :: w.since <= i < w.connection.cursor - 1 ==> !Terminal(w.history[i]))
          && (w.connection.closed <==> w.since < w.connection.cursor && Terminal(w.history[w.connection.cursor - 1])))
    && (w.connection.cursor > |w.history| ==>
          w.start == w.connection.cursor && w.delivered == [] && w.connection.pending == [] && !w.connection.closed)
  }

  lemma ContiguousPoll(w: World, maxLength: nat)
    requires Contiguous(w) && !Next(w, Poll, maxLength).lagged
    ensures Contiguous(Next(w, Poll, maxLength))
  {
    if Idle(w.connection) {
      var a, b := AskedIsSlice(w.connection, w.history, maxLength);
    }
  }

  lemma {:induction false} ContiguousYield(w: World, maxLength: nat)
    requires Contiguous(w) && CanDeliver(w.connection)
    ensures Contiguous(Next(w, Yield, maxLength))
  {
    var c := w.connection.cursor;
    assert w.connection.pending[0] == Row(c + 1, w.history[c]);
    assert Slice(w.history, w.start, c + 1) == Slice(w.history, w.start, c) + [Row(c + 1, w.history[c])];
    assert w.connection.pending[1..] == Slice(w.history, c + 1, c + |w.connection.pending|);
  }

  lemma SliceGrows(history: seq<Event>, e: Event, a: nat, b: nat)
    requires a <= b <= |history|
    ensures Slice(history + [e], a, b) == Slice(history, a, b)
  {
  }

  lemma ContiguousAppend(w: World, e: Event, maxLength: nat)
    requires Contiguous(w)
    ensures Contiguous(Next(w, Append(e), maxLength))
  {
    var c := w.connection.cursor;
    if c <= |w.history| {
      SliceGrows(w.history, e, w.start, c);
      SliceGrows(w.history, e, c, c + |w.connection.pending|);
    }
  }

  lemma ContiguousStep(w: World, step: Step, maxLength: nat)
    requires Contiguous(w) && !Next(w, step, maxLength).lagged
    ensures Contiguous(Next(w, step, maxLength)) && !w.lagged
  {
    match step {
      case Append(e) => ContiguousAppend(w, e, maxLength);
      case Poll => ContiguousPoll(w, maxLength);
      case Yield =>
        if CanDeliver(w.connection) {
          ContiguousYield(w, maxLength);
        }
      case Reconnect =>
    }
  }

  lemma {:induction false} ContiguousRun(w: World, steps: seq<Step>, maxLength: nat)
    requires Contiguous(w) && !Run(w, steps, maxLength).lagged
    ensures Contiguous(Run(w, steps, maxLength)) && !w.lagged
  {
    if steps != [] {
      var n := |steps| - 1;
      var v := Run(w, steps[..n], maxLength);
      assert !v.lagged;
      ContiguousRun(w, steps[..n], maxLength);
      ContiguousStep(v, steps[n], maxLength);
    }
  }

  /** Exactly-once reading: a client that never lags by more than the log's length has been
      given, over all its connections, exactly the appended events after its first cursor,
      each once and in order; each connection ends at the first done or error after its own
      cursor and nowhere else. */
  lemma ReadsExactlyOnce(history: seq<Event>, after: nat, steps: seq<Step>, maxLength: nat)
    requires !Run(Begin(history, after), steps, maxLength).lagged
    ensures var w := Run(Begin(history, after), steps, maxLength);
            && after <= w.since <= w.connection.cursor
            && (w.connection.cursor <= |w.history| ==>
                  && w.delivered == Slice(w.history, after, w.connection.cursor)
                  && (w.connection.closed <==>
                        w.since < w.connection.cursor && Terminal(w.history[w.connection.cursor - 1]))
                  && forall i :: w.since <= i < w.connection.cursor - 1 ==> !Terminal(w.history[i]))
            && (w.connection.cursor > |w.history| ==>
                  w.connection.cursor == after && w.delivered == [] && !w.connection.closed)
  {
    var w := Begin(history, after);
    assert after <= |history| ==> w.delivered == Slice(history, after, after);
    assert Contiguous(w);
    ContiguousRun(w, steps, maxLength);
    StartIsFixed(w, steps, maxLength);
  }

  lemma {:induction false} StartIsFixed(w: World, steps: seq<Step>, maxLength: nat)
    ensures Run(w, steps, maxLength).start == w.start
    ensures w.history <= Run(w, steps, maxLength).history
  {
    if steps != [] {
      StartIsFixed(w, steps[..|steps| - 1], maxLength);
    }
  }

  predicate HasTerminal(es: seq<Event>) {
    exists i :: 0 <= i < |es| && Terminal(es[i])
  }

  /** However far a reader lags, its connections end at terminal events only: while the log holds
      none, it is kept waiting. */
  lemma {:induction false} EndsAtTerminalOnly(w: World, steps: seq<Step>, maxLength: nat)
    requires Ordered(w) && (w.connection.closed ==> HasTerminal(w.history))
    ensures var v := Run(w, steps, maxLength);
      v.connection.closed ==> HasTerminal(v.history)
  {
    if steps != [] {
      var n := |steps| - 1;
      var v := Run(w, steps[..n], maxLength);
      EndsAtTerminalOnly(w, steps[..n], maxLength);
      DeliveriesIncrease(w, steps[..n], maxLength);
      if v.connection.closed {
        var i :| 0 <= i < |v.history| && Terminal(v.history[i]);
        assert Terminal(Next(v, steps[n], maxLength).history[i]);
      } else if steps[n].Yield? && CanDeliver(v.connection) {
        var row := v.connection.pending[0];
        assert Terminal(row.event) ==> Terminal(v.history[row.id - 1]);
      }
    }
  }

  /** A fetch that finds nothing means there is nothing left; one that finds something
      starts right after the cursor exactly when the reader does not lag. */
  lemma FetchIsComplete(c: Connection, history: seq<Event>, maxLength: nat)
    requires Idle(c) && maxLength > 0
    ensures var found := Fetch(c, Retained(history, maxLength)).pending;
            && (found == [] <==> |history| <= c.cursor)
            && (found != [] ==> (found[0].id == c.cursor + 1 <==> |history| <= c.cursor + maxLength))
  {
    var a, b := AskedIsSlice(c, history, maxLength);
    if |history| > c.cursor + maxLength {
      assert a < b;
    }
  }

  /** A reader that starts at zero stops at an earlier attempt's error, because a retry does
      not clear the log: the events of the retry are then never delivered. */
  lemma EarlierErrorStopsReader(before: seq<Event>, e: Event, later: seq<Event>, steps: seq<Step>, maxLength: nat)
    requires Terminal(e) && Reconnect !in steps
    requires var w := Run(Begin(before + [e] + later, 0), steps, maxLength); !w.lagged
    ensures Run(Begin(before + [e] + later, 0), steps, maxLength).connection.cursor <= |before| + 1
  {
    var h := before + [e] + later;
    ReadsExactlyOnce(h, 0, steps, maxLength);
    StartIsFixed(Begin(h, 0), steps, maxLength);
    OneConnection(Begin(h, 0), steps, maxLength);
    var w := Run(Begin(h, 0), steps, maxLength);
    assert w.history[|before|] == h[|before|] == e;
    DeliveriesIncrease(Begin(h, 0), steps, maxLength);
    CursorWithin(Begin(h, 0), steps, maxLength);
  }

  lemma {:induction false} OneConnection(w: World, steps: seq<Step>, maxLength: nat)
    requires Reconnect !in steps
    ensures Run(w, steps, maxLength).since == w.since
  {
    if steps != [] {
      OneConnection(w, steps[..|steps| - 1], maxLength);
    }
  }

  lemma {:induction false} CursorWithin(w: World, steps: seq<Step>, maxLength: nat)
    requires Ordered(w) && w.connection.cursor <= |w.history|
    ensures var v := Run(w, steps, maxLength); v.connection.cursor <= |v.history|
  {
    if steps != [] {
      CursorWithin(w, steps[..|steps| - 1], maxLength);
      DeliveriesIncrease(w, steps[..|steps| - 1], maxLength);
    }
  }
}
