/** The text stream sent to browsers (SSEEvent.to_sse in backend/apps/chat/stream_events.py, the
    heartbeat and _event_cursor in backend/apps/chat/v3_views.py), read by the rules of section
    9.2.6 of the HTML standard, "Interpreting an event stream". */
module ServerSentEvents {
  import opened Decimals
  import opened Options
  import opened PythonText

  // ---------- the sender ----------

  datatype Chunk = Frame(sequence: nat, name: string, payload: string) | Heartbeat

  function ToText(c: Chunk): string {
    match c
    case Frame(sequence, name, payload) =>
      Line("id", Decimal(sequence)) + Line("event", name) + Line("data", payload) + "\n"
    case Heartbeat => ": heartbeat\n\n"
  }

  function Line(field: string, value: string): string {
    field + ": " + value + "\n"
  }

  function Text(chunks: seq<Chunk>): string {
    if chunks == [] then "" else Text(chunks[..|chunks| - 1]) + ToText(chunks[|chunks| - 1])
  }

  predicate IsSingleLine(s: string) {
    forall i :: 0 <= i < |s| ==> s[i] != '\n' && s[i] != '\r'
  }

  predicate Sendable(c: Chunk) {
    c.Frame? ==> IsSingleLine(c.name) && c.name != "" && IsSingleLine(c.payload)
  }

  predicate AllSendable(chunks: seq<Chunk>) {
    forall i :: 0 <= i < |chunks| ==> Sendable(chunks[i])
  }

  // ---------- the standard's parser ----------

  datatype Message = Message(lastEventId: string, kind: string, data: string)

  /** line: the characters since the last line end. idBuffer, kind and data are the standard's
      buffers; lastEventId is what the client sends when it reconnects. */
  datatype Parser = Parser(
    line: string, afterReturn: bool,
    idBuffer: string, kind: string, data: string,
    lastEventId: string, messages: seq<Message>)

  function Start(lastEventId: string): Parser {
    Parser("", false, lastEventId, "", "", lastEventId, [])
  }

  function WithoutSpace(s: string): string {
    if s != "" && s[0] == ' ' then s[1..] else s
  }

  function ProcessField(p: Parser, field: string, value: string): Parser {
    if field == "event" then p.(kind := value)
    else if field == "data" then p.(data := p.data + value + "\n")
    else if field == "id" && '\0' !in value then p.(idBuffer := value)
    else p
  }

  function Dispatch(p: Parser): Parser {
    var q := p.(lastEventId := p.idBuffer, data := "", kind := "");
    if p.data == "" then q
    else
      var data := if p.data[|p.data| - 1] == '\n' then p.data[..|p.data| - 1] else p.data;
      q.(messages := p.messages + [Message(p.idBuffer, if p.kind == "" then "message" else p.kind, data)])
  }

  function ProcessLine(p: Parser, line: string): Parser {
    if line == "" then Dispatch(p)
    else
      var k := Colon(line);
      if k == 0 then p
      else if k == |line| then ProcessField(p, line, "")
      else ProcessField(p, line[..k], WithoutSpace(line[k + 1..]))
  }

  /** Lines end with a line feed, a carriage return, or both. */
  function Feed(p: Parser, c: char): Parser {
    if c == '\n' && p.afterReturn then p.(afterReturn := false)
    else if c == '\n' || c == '\r' then ProcessLine(p, p.line).(line := "", afterReturn := c == '\r')
    else p.(line := p.line + [c], afterReturn := false)
  }

  function FeedAll(p: Parser, text: string): Parser {
    if text == "" then p else Feed(FeedAll(p, text[..|text| - 1]), text[|text| - 1])
  }

  /** One leading byte order mark is skipped; an unfinished event at the end is discarded. */
  function Parse(lastEventId: string, text: string): Parser {
    if text != "" && text[0] == '\U{FEFF}' then FeedAll(Start(lastEventId), text[1..])
    else FeedAll(Start(lastEventId), text)
  }

  // ---------- feeding ----------

  lemma {:induction false} FeedAppend(p: Parser, a: string, b: string)
    ensures FeedAll(p, a + b) == FeedAll(FeedAll(p, a), b)
  {
    if b == "" {
      assert a + b == a;
    } else {
      var n := |b| - 1;
      FeedAppend(p, a, b[..n]);
      assert (a + b)[..|a + b| - 1] == a + b[..n];
    }
  }

  lemma {:induction false} FeedPlain(p: Parser, t: string)
    requires IsSingleLine(t) && !p.afterReturn
    ensures FeedAll(p, t) == p.(line := p.line + t)
  {
    if t == "" {
      assert p.line + t == p.line;
    } else {
      var n := |t| - 1;
      FeedPlain(p, t[..n]);
      assert p.line + t[..n] + [t[n]] == p.line + t;
    }
  }

  predicate AtLineStart(p: Parser) {
    p.line == "" && !p.afterReturn
  }

  lemma FeedOneLine(p: Parser, t: string)
    requires AtLineStart(p) && IsSingleLine(t)
    ensures FeedAll(p, t + "\n") == ProcessLine(p, t).(line := "", afterReturn := false)
  {
    FeedPlain(p, t);
    assert (t + "\n")[..|t|] == t;
    assert p.line + t == t;
    var q := p.(line := t);
    assert FeedAll(p, t + "\n") == Feed(q, '\n');
    LineIsNotRead(p, t, t);
  }

  /** Processing a line does not look at the characters gathered so far. */
  lemma LineIsNotRead(p: Parser, t: string, gathered: string)
    ensures ProcessLine(p.(line := gathered), t) == ProcessLine(p, t).(line := gathered)
  {
    var q := p.(line := gathered);
    if t == "" {
      DispatchDoesNotReadLine(p, gathered);
    } else {
      var k := Colon(t);
      if 0 < k < |t| {
        FieldDoesNotReadLine(p, t[..k], WithoutSpace(t[k + 1..]), gathered);
      } else if k == |t| {
        FieldDoesNotReadLine(p, t, "", gathered);
      }
    }
  }

  lemma DispatchDoesNotReadLine(p: Parser, gathered: string)
    ensures Dispatch(p.(line := gathered)) == Dispatch(p).(line := gathered)
  {
  }

  lemma FieldDoesNotReadLine(p: Parser, field: string, value: string, gathered: string)
    ensures ProcessField(p.(line := gathered), field, value) == ProcessField(p, field, value).(line := gathered)
  {
  }

  lemma {:induction false} ColonAt(field: string, value: string)
    requires ':' !in field
    ensures Colon(field + ": " + value) == |field|
  {
    var s := field + ": " + value;
    if field != "" {
      ColonAt(field[1..], value);
      assert s[1..] == field[1..] + ": " + value;
      assert s[0] == field[0];
    }
  }

  lemma ProcessOneField(p: Parser, field: string, value: string)
    requires field != "" && ':' !in field
    ensures ProcessLine(p, field + ": " + value) == ProcessField(p, field, value)
  {
    var t := field + ": " + value;
    ColonAt(field, value);
    assert t[..|field|] == field;
    assert t[|field| + 1..] == " " + value;
    assert WithoutSpace(" " + value) == value;
  }

  lemma FeedField(p: Parser, field: string, value: string)
    requires AtLineStart(p) && field != "" && ':' !in field
    requires IsSingleLine(field) && IsSingleLine(value)
    ensures FeedAll(p, Line(field, value)) == ProcessField(p, field, value)
  {
    var t := field + ": " + value;
    FeedOneLine(p, t);
    ProcessOneField(p, field, value);
  }

  lemma {:induction false} DecimalIsPlain(n: nat)
    ensures IsSingleLine(Decimal(n)) && '\0' !in Decimal(n)
  {
    var s := Decimal(n);
    forall i | 0 <= i < |s| ensures s[i] != '\n' && s[i] != '\r' && s[i] != '\0' {
      assert IsDigit(s[i]);
    }
  }

  // ---------- one chunk ----------

  /** Between chunks nothing is pending. */
  predicate Between(p: Parser) {
    AtLineStart(p) && p.data == "" && p.kind == "" && p.idBuffer == p.lastEventId
  }

  function MessageOf(c: Chunk): Message
    requires c.Frame?
  {
    Message(Decimal(c.sequence), c.name, c.payload)
  }

  function Received(p: Parser, c: Chunk): Parser {
    if c.Heartbeat? then p
    else
      var id := Decimal(c.sequence);
      p.(idBuffer := id, lastEventId := id, messages := p.messages + [MessageOf(c)])
  }

  /** The frame without its last line feed. */
  function Body(c: Chunk): string {
    match c
    case Frame(sequence, name, payload) => Line("id", Decimal(sequence)) + Line("event", name) + Line("data", payload)
    case Heartbeat => ": heartbeat\n"
  }

  function Pending(p: Parser, c: Chunk): Parser {
    if c.Heartbeat? then p
    else p.(idBuffer := Decimal(c.sequence), kind := c.name, data := c.payload + "\n")
  }

  lemma FeedBody(p: Parser, c: Chunk)
    requires Between(p) && Sendable(c)
    ensures FeedAll(p, Body(c)) == Pending(p, c)
  {
    match c
    case Frame(sequence, name, payload) =>
      var id, event, data := Line("id", Decimal(sequence)), Line("event", name), Line("data", payload);
      DecimalIsPlain(sequence);
      var p1 := p.(idBuffer := Decimal(sequence));
      var p2 := p1.(kind := name);
      assert FeedAll(p, id) == p1 by { FeedField(p, "id", Decimal(sequence)); }
      assert FeedAll(p1, event) == p2 by { FeedField(p1, "event", name); }
      assert FeedAll(p2, data) == Pending(p, c) by {
        FeedField(p2, "data", payload);
        assert p2.data + payload == payload;
      }
      FeedAppend(p, id, event);
      FeedAppend(p, id + event, data);
    case Heartbeat =>
      var t := ": heartbeat";
      assert t + "\n" == Body(c);
      FeedOneLine(p, t);
  }

  lemma FeedChunk(p: Parser, c: Chunk)
    requires Between(p) && Sendable(c)
    ensures FeedAll(p, ToText(c)) == Received(p, c) && Between(Received(p, c))
  {
    FeedBody(p, c);
    assert ToText(c) == Body(c) + "\n";
    FeedAppend(p, Body(c), "\n");
    var q := Pending(p, c);
    assert "\n"[..0] == "";
    assert FeedAll(q, "\n") == Feed(q, '\n');
    if c.Frame? {
      assert q.data[..|q.data| - 1] == c.payload;
    }
  }

  // ---------- whole streams ----------

  function Messages(chunks: seq<Chunk>): seq<Message> {
    if chunks == [] then []
    else
      var rest, last := Messages(chunks[..|chunks| - 1]), chunks[|chunks| - 1];
      if last.Frame? then rest + [MessageOf(last)] else rest
  }

  function LastId(lastEventId: string, chunks: seq<Chunk>): string {
    if chunks == [] then lastEventId
    else
      var last := chunks[|chunks| - 1];
      if last.Frame? then Decimal(last.sequence) else LastId(lastEventId, chunks[..|chunks| - 1])
  }

  predicate HasRead(p: Parser, lastEventId: string, chunks: seq<Chunk>) {
    p.messages == Messages(chunks) && p.lastEventId == LastId(lastEventId, chunks)
  }

  lemma {:induction false} FeedText(lastEventId: string, chunks: seq<Chunk>)
    requires AllSendable(chunks)
    ensures Between(FeedAll(Start(lastEventId), Text(chunks)))
    ensures HasRead(FeedAll(Start(lastEventId), Text(chunks)), lastEventId, chunks)
  {
    if chunks != [] {
      var n := |chunks| - 1;
      FeedText(lastEventId, chunks[..n]);
      FeedAppend(Start(lastEventId), Text(chunks[..n]), ToText(chunks[n]));
      FeedChunk(FeedAll(Start(lastEventId), Text(chunks[..n])), chunks[n]);
    }
  }

  lemma {:induction false} NoByteOrderMark(chunks: seq<Chunk>)
    ensures chunks != [] ==> Text(chunks) != "" && (Text(chunks)[0] == 'i' || Text(chunks)[0] == ':')
  {
    if |chunks| == 1 {
      assert Text(chunks) == Text([]) + ToText(chunks[0]) == ToText(chunks[0]);
      FirstCharacter(chunks[0]);
    } else if |chunks| > 1 {
      NoByteOrderMark(chunks[..|chunks| - 1]);
    }
  }

  lemma FirstCharacter(c: Chunk)
    ensures ToText(c) != "" && (ToText(c)[0] == 'i' || ToText(c)[0] == ':')
  {
  }

  /** What the server sends is what the browser reads: the events of all frames, in order, with
      heartbeats anywhere between them. */
  lemma StreamRoundTrip(lastEventId: string, chunks: seq<Chunk>)
    requires AllSendable(chunks)
    ensures Parse(lastEventId, Text(chunks)).messages == Messages(chunks)
    ensures Parse(lastEventId, Text(chunks)).lastEventId == LastId(lastEventId, chunks)
  {
    FeedText(lastEventId, chunks);
    NoByteOrderMark(chunks);
  }

  // ---------- a connection cut in the middle ----------

  /** No line feed on an empty line, and no carriage return. */
  predicate Quiet(line: string, t: string)
    decreases |t|
  {
    t == "" || (
      && t[0] != '\r'
      && (t[0] == '\n' ==> line != "")
      && Quiet(LineAfter(line, t[0]), t[1..]))
  }

  function LineAfter(line: string, c: char): string {
    if c == '\n' then "" else line + [c]
  }

  lemma {:induction false} QuietPrefix(line: string, t: string, j: nat)
    requires j <= |t| && Quiet(line, t)
    ensures Quiet(line, t[..j])
    decreases |t|
  {
    if j > 0 {
      QuietPrefix(LineAfter(line, t[0]), t[1..], j - 1);
      assert t[1..][..j - 1] == t[..j][1..];
    }
  }

  lemma {:induction false} QuietLine(line: string, t: string, rest: string)
    requires IsSingleLine(t) && line + t != "" && Quiet("", rest)
    ensures Quiet(line, t + "\n" + rest)
    decreases |t|
  {
    var s := t + "\n" + rest;
    if t == "" {
      assert s[1..] == rest;
    } else {
      assert line + [t[0]] + t[1..] == line + t;
      QuietLine(line + [t[0]], t[1..], rest);
      assert s[1..] == t[1..] + "\n" + rest;
    }
  }

  lemma QuietField(field: string, value: string, rest: string)
    requires IsSingleLine(field) && IsSingleLine(value) && Quiet("", rest)
    ensures Quiet("", Line(field, value) + rest)
  {
    var t := field + ": " + value;
    QuietLine("", t, rest);
    assert t + "\n" + rest == Line(field, value) + rest;
  }

  lemma FrameIsQuiet(id: string, name: string, payload: string)
    requires IsSingleLine(id) && IsSingleLine(name) && IsSingleLine(payload)
    ensures Quiet("", Line("id", id) + Line("event", name) + Line("data", payload))
  {
    var first, event, data := Line("id", id), Line("event", name), Line("data", payload);
    assert Quiet("", data) by {
      assert data + "" == data;
      QuietField("data", payload, "");
    }
    assert Quiet("", event + data) by { QuietField("event", name, data); }
    assert Quiet("", first + (event + data)) by { QuietField("id", id, event + data); }
    assert first + (event + data) == first + event + data;
  }

  lemma BodyIsQuiet(c: Chunk)
    requires Sendable(c)
    ensures Quiet("", Body(c))
  {
    match c
    case Frame(sequence, name, payload) =>
      DecimalIsPlain(sequence);
      FrameIsQuiet(Decimal(sequence), name, payload);
    case Heartbeat =>
      QuietLine("", ": heartbeat", "");
      assert ": heartbeat" + "\n" + "" == Body(c);
  }

  lemma QuietStep(p: Parser, c: char)
    requires !p.afterReturn && c != '\r' && (c == '\n' ==> p.line != "")
    ensures var q := Feed(p, c);
      && !q.afterReturn && q.line == LineAfter(p.line, c)
      && q.messages == p.messages && q.lastEventId == p.lastEventId
  {
  }

  lemma {:induction false} QuietFeed(p: Parser, t: string)
    requires !p.afterReturn && Quiet(p.line, t)
    ensures FeedAll(p, t).messages == p.messages && FeedAll(p, t).lastEventId == p.lastEventId
    decreases |t|
  {
    if t != "" {
      QuietStep(p, t[0]);
      QuietFeed(Feed(p, t[0]), t[1..]);
      FeedFirst(p, t);
    }
  }

  lemma {:induction false} FeedFirst(p: Parser, t: string)
    requires t != ""
    ensures FeedAll(p, t) == FeedAll(Feed(p, t[0]), t[1..])
  {
    assert [t[0]][..0] == "";
    assert FeedAll(p, [t[0]]) == Feed(p, t[0]);
    FeedAppend(p, [t[0]], t[1..]);
    assert t == [t[0]] + t[1..];
  }

  /** The number of chunks that are complete in the first k characters. */
  function Whole(chunks: seq<Chunk>, k: nat): (n: nat)
    ensures n <= |chunks|
  {
    if chunks == [] || |Text(chunks)| <= k then |chunks|
    else Whole(chunks[..|chunks| - 1], k)
  }

  /** Wherever the connection breaks, the browser has read exactly the whole frames, and the id it
      will send is that of the last of them. */
  lemma {:induction false} CutStream(lastEventId: string, chunks: seq<Chunk>, k: nat)
    requires AllSendable(chunks) && k <= |Text(chunks)|
    ensures HasRead(Parse(lastEventId, Text(chunks)[..k]), lastEventId, chunks[..Whole(chunks, k)])
  {
    var text := Text(chunks);
    NoByteOrderMark(chunks);
    if k == |text| {
      assert text[..k] == text && chunks[..|chunks|] == chunks;
      FeedText(lastEventId, chunks);
    } else {
      var n := |chunks| - 1;
      var before, last := Text(chunks[..n]), ToText(chunks[n]);
      if k <= |before| {
        assert text[..k] == before[..k];
        CutStream(lastEventId, chunks[..n], k);
        assert chunks[..n][..Whole(chunks[..n], k)] == chunks[..Whole(chunks, k)];
      } else {
        var j := k - |before|;
        assert text[..k] == before + last[..j];
        FeedText(lastEventId, chunks[..n]);
        var p := FeedAll(Start(lastEventId), before);
        FeedAppend(Start(lastEventId), before, last[..j]);
        CutChunk(p, chunks[n], j);
        assert Whole(chunks, k) == n;
      }
    }
  }

  lemma CutChunk(p: Parser, c: Chunk, j: nat)
    requires Between(p) && Sendable(c) && j < |ToText(c)|
    ensures FeedAll(p, ToText(c)[..j]).messages == p.messages
    ensures FeedAll(p, ToText(c)[..j]).lastEventId == p.lastEventId
  {
    BodyIsQuiet(c);
    assert ToText(c) == Body(c) + "\n";
    assert ToText(c)[..j] == Body(c)[..j];
    QuietPrefix("", Body(c), j);
    QuietFeed(p, Body(c)[..j]);
  }

  // ---------- reconnecting ----------

  /** int(s) for ASCII digits with an optional sign and white space around. */
  function ParseInt(s: string): Option<int> {
    var t := Strip(s);
    if t != "" && AllDigits(t) then Some(Value(t))
    else if |t| > 1 && (t[0] == '-' || t[0] == '+') && AllDigits(t[1..]) then
      var v: int := Value(t[1..]);
      Some(if t[0] == '-' then -v else v)
    else None
  }

  /** after: the query parameter; header: Last-Event-ID. */
  function EventCursor(after: Option<string>, header: Option<string>): nat {
    var value := if after == None || after == Some("") then header.GetOr("0") else after.value;
    var parsed := ParseInt(value);
    if parsed.None? || parsed.value < 0 then 0 else parsed.value
  }

  /** A browser sends no header while it has no id. */
  function Header(lastEventId: string): Option<string> {
    if lastEventId == "" then None else Some(lastEventId)
  }

  function LastSequence(chunks: seq<Chunk>): nat {
    if chunks == [] then 0
    else
      var last := chunks[|chunks| - 1];
      if last.Frame? then last.sequence else LastSequence(chunks[..|chunks| - 1])
  }

  lemma DigitsAreNotStripped(s: string)
    requires s != "" && AllDigits(s)
    ensures Strip(s) == s
  {
    assert IsDigit(s[0]) && IsDigit(s[|s| - 1]);
  }

  lemma CursorOfId(n: nat)
    ensures EventCursor(None, Header(Decimal(n))) == n
  {
    DigitsAreNotStripped(Decimal(n));
    DecimalValue(n);
  }

  /** The query parameter comes first: with it the header does not matter. */
  lemma CursorOfAfter(n: nat, header: Option<string>)
    ensures EventCursor(Some(Decimal(n)), header) == n
  {
    DigitsAreNotStripped(Decimal(n));
    DecimalValue(n);
  }

  /** No character of a number. */
  predicate IsForeign(c: char) {
    !IsSpace(c) && !IsDigit(c) && c != '+' && c != '-'
  }

  /** Without a parameter and a header, with a negative number, or with anything that is no number, the
      reader starts at the beginning. */
  lemma {:induction false} CursorOtherwise(after: Option<string>, header: Option<string>)
    ensures after in {None, Some("")} && header == None ==> EventCursor(after, header) == 0
    ensures after in {None, Some("")} && header.Some? ==> EventCursor(after, header) == EventCursor(None, header)
    ensures forall n: nat :: after == Some("-" + Decimal(n)) ==> EventCursor(after, header) == 0
    ensures after.Some? && (exists i :: 0 <= i < |after.value| && IsForeign(after.value[i])) ==>
      EventCursor(after, header) == 0
  {
    DigitsAreNotStripped("0");
    forall n: nat | after == Some("-" + Decimal(n)) ensures EventCursor(after, header) == 0 {
      MinusIsNotStripped(n);
    }
    if after.Some? {
      if i :| 0 <= i < |after.value| && IsForeign(after.value[i]) {
        InStripped(after.value, i);
        NoNumber(Strip(after.value), after.value[i]);
      }
    }
  }

  lemma NoNumber(t: string, c: char)
    requires c in t && IsForeign(c)
    ensures t != "" && !AllDigits(t) && (t[0] in "+-" ==> !AllDigits(t[1..]))
  {
    var k :| 0 <= k < |t| && t[k] == c;
    if t[0] in "+-" {
      assert t[1..][k - 1] == c;
    }
  }

  lemma MinusIsNotStripped(n: nat)
    ensures ParseInt("-" + Decimal(n)).Some? && ParseInt("-" + Decimal(n)).value + n == 0
  {
    var s := "-" + Decimal(n);
    DecimalValue(n);
    assert s[1..] == Decimal(n);
    assert IsDigit(s[|s| - 1]) && !IsDigit(s[0]);
    assert Strip(s) == s;
  }

  lemma {:induction false} CursorOfLastId(chunks: seq<Chunk>)
    ensures EventCursor(None, Header(LastId("", chunks))) == LastSequence(chunks)
  {
    if chunks == [] {
      DigitsAreNotStripped("0");
    } else {
      var last := chunks[|chunks| - 1];
      if last.Frame? {
        CursorOfId(last.sequence);
      } else {
        CursorOfLastId(chunks[..|chunks| - 1]);
      }
    }
  }

  /** After a cut anywhere the reconnecting client asks for what follows the last event it read, be
      it by the header alone or by a query parameter that it has kept up to date. A parameter that
      it has not is what it gets. */
  lemma {:induction false} ReconnectContinues(chunks: seq<Chunk>, k: nat)
    requires AllSendable(chunks) && k <= |Text(chunks)|
    ensures var p := Parse("", Text(chunks)[..k]);
      var last := LastSequence(chunks[..Whole(chunks, k)]);
      && EventCursor(None, Header(p.lastEventId)) == last
      && EventCursor(Some(Decimal(last)), Header(p.lastEventId)) == last
      && forall first: nat :: EventCursor(Some(Decimal(first)), Header(p.lastEventId)) == first
  {
    CutStream("", chunks, k);
    var header := Header(Parse("", Text(chunks)[..k]).lastEventId);
    forall first: nat ensures EventCursor(Some(Decimal(first)), header) == first {
      CursorOfAfter(first, header);
    }
    CursorOfLastId(chunks[..Whole(chunks, k)]);
  }
}
