/** One generation of a chat Turn (iter_chat_turn and _persist_completed_turn in
    backend/apps/chat/generation.py), for every stream of the pipeline and every point of failure,
    the commit included. The consumer takes all events, unless it drops the generator half-way
    (Dropped). Others may write the row before the row lock and before the final mark; TurnHistory
    lets them write it anywhere. */
module Generation {
  import opened Options
  import opened Decimals
  import opened Events
  import opened PythonText
  import opened AnswerVersions
  import opened TurnLifecycle

  // ---------- what the outside world does ----------

  datatype Fault = CancelRequested | ProviderError | LeaseLost | CoordinationDown | DeadlineExceeded | OtherError

  /** A raw event of the pipeline. A token has no text when it is not a string; late is the clock
      against the deadline. Every other event, and every payload of the wrong type, is RawOther. */
  datatype RawEvent =
    | RawCitations(data: string)
    | RawQuality(data: string)
    | RawMetrics
    | RawPhase(data: string)
    | RawToken(text: Option<string>, late: bool)
    | RawOther

  /** check: what pulling the event, the cancellation probe or the lease raised before it was
      handled. */
  datatype RawStep = RawStep(check: Option<Fault>, event: RawEvent)

  datatype Acquire = Preacquired | Gained | Busy | AcquireFails(fault: Fault)

  /** How the commit ends: the worker goes on; the answer is stored but its reply never comes, or
      something is raised before the object is updated; or something is raised after that and before
      anything else is shown. */
  datatype Commit = Told | ReplyLost(fault: Fault) | RaisesAfter(fault: Fault)

  /** What others have made of the row and the messages. */
  datatype Met = Met(row: Turn, messages: seq<Message>)

  /** opening, closing, beforeSave and saving: what the calls before the stream, after it, after
      the saving phase and inside the last transaction raised. found and marked: what the row lock and
      the final mark find, if others have written meanwhile. given: the answer to replace, if the
      caller names one; siblings: the Turns of the session as the transaction sees them. */
  datatype Script = Script(
    acquire: Acquire,
    opening: Option<Fault>, openingStoreFails: bool,
    raw: seq<RawStep>, answeringStoreFails: bool,
    closing: Option<Fault>, savingStoreFails: bool,
    beforeSave: Option<Fault>, found: Option<Met>, saving: Option<Fault>, commit: Commit,
    marked: Option<Met>, markStoreFails: bool,
    transport: bool, modelId: string,
    turnId: nat, given: Option<nat>, siblings: seq<Sibling>, newGroup: nat, usage: string, now: int)

  // ---------- what a run should do ----------

  /** The fault of one raw event, and whether it is the first token. */
  function StepFault(step: RawStep, first: bool, storeFails: bool): Option<Fault> {
    if step.check.Some? then step.check
    else if step.event.RawToken? && step.event.late then Some(DeadlineExceeded)
    else if IsText(step.event) && first && storeFails then Some(OtherError)
    else None
  }

  predicate IsText(e: RawEvent) {
    e.RawToken? && e.text.Some?
  }

  predicate HasText(raw: seq<RawStep>) {
    exists i :: 0 <= i < |raw| && IsText(raw[i].event)
  }

  /** How many raw events are handled before the first fault. */
  function Handled(raw: seq<RawStep>, storeFails: bool): (n: nat)
    ensures n <= |raw|
  {
    if raw == [] then 0
    else
      var n := Handled(raw[..|raw| - 1], storeFails);
      if n < |raw| - 1 || StepFault(raw[|raw| - 1], !HasText(raw[..|raw| - 1]), storeFails).Some? then n
      else |raw|
  }

  function StreamFault(raw: seq<RawStep>, storeFails: bool): Option<Fault> {
    var n := Handled(raw, storeFails);
    if n == |raw| then None else StepFault(raw[n], !HasText(raw[..n]), storeFails)
  }

  /** Late is a fault after the answer was stored; known: the worker's object says so. */
  datatype Verdict = Good | Bad(fault: Fault, wasSaving: bool) | Late(fault: Fault, known: bool)

  /** What stops a run before it shows its first event; start is the status that the Turn was
      loaded with. */
  function OpeningFault(s: Script, start: Status): Option<Fault> {
    if s.acquire.AcquireFails? then Some(s.acquire.fault)
    else if s.opening.Some? then s.opening
    else if !CanMove(start, Retrieving) || s.openingStoreFails then Some(OtherError)
    else None
  }

  /** What stops it before the saving phase. */
  function MiddleFault(s: Script): Option<Fault> {
    if StreamFault(s.raw, s.answeringStoreFails).Some? then StreamFault(s.raw, s.answeringStoreFails)
    else if s.closing.Some? then s.closing
    else if s.savingStoreFails then Some(OtherError)
    else None
  }

  /** What stops it after that. */
  function SavingFault(s: Script): Option<Fault> {
    if s.beforeSave.Some? then s.beforeSave
    else if s.saving.Some? then s.saving
    else if s.found.Some? && s.found.value.row.status !in {Saving, Completed} then Some(OtherError)
    else None
  }

  /** The first fault of a run, and whether the Turn counted as saving by then. */
  function Judge(s: Script, start: Status): Verdict {
    if OpeningFault(s, start).Some? then Bad(OpeningFault(s, start).value, start == Saving)
    else if MiddleFault(s).Some? then
      Bad(MiddleFault(s).value, StreamFault(s.raw, s.answeringStoreFails).None? && s.closing.None?)
    else if SavingFault(s).Some? then Bad(SavingFault(s).value, true)
    else match s.commit
      case Told => Good
      case ReplyLost(fault) => Late(fault, false)
      case RaisesAfter(fault) => Late(fault, true)
  }

  /** The code of the error event that a run ends with. */
  function CodeOf(v: Verdict): string
    requires !v.Good?
  {
    ErrorCode(v.fault, if v.Late? then !v.known else v.wasSaving)
  }

  predicate CanMove(from: Status, target: Status) {
    target == from || target in AllowedTransitions(from)
  }

  function ErrorCode(fault: Fault, wasSaving: bool): (code: string)
    ensures SafeCode(code)
    ensures if fault.CancelRequested? then code == "cancelled" else code != "cancelled" && code in RETRYABLE_ERROR_CODES
  {
    match fault
    case CancelRequested => "cancelled"
    case ProviderError => "provider_unavailable"
    case LeaseLost => "lease_lost"
    case CoordinationDown => "coordination_unavailable"
    case DeadlineExceeded => "stream_timeout"
    case OtherError => if wasSaving then "answer_save_error" else "stream_error"
  }

  /** The code tells the fault apart, and whether an unexpected one hit the saving of the answer. */
  lemma CodeTells(fault: Fault, wasSaving: bool)
    ensures ErrorCode(fault, wasSaving) == "cancelled" <==> fault.CancelRequested?
    ensures ErrorCode(fault, wasSaving) == "provider_unavailable" <==> fault.ProviderError?
    ensures ErrorCode(fault, wasSaving) == "lease_lost" <==> fault.LeaseLost?
    ensures ErrorCode(fault, wasSaving) == "coordination_unavailable" <==> fault.CoordinationDown?
    ensures ErrorCode(fault, wasSaving) == "stream_timeout" <==> fault.DeadlineExceeded?
    ensures ErrorCode(fault, wasSaving) == "answer_save_error" <==> fault.OtherError? && wasSaving
  {
    var code := ErrorCode(fault, wasSaving);
    assert code[0] in {'c', 'p', 'l', 's', 'a'};
    assert "stream_timeout"[7] != "stream_error"[7];
    assert "cancelled"[1] != "coordination_unavailable"[1];
  }

  const RETRIEVING := Item(Phase, "retrieving")
  const ANSWERING := Item(Phase, "answering")
  const SAVING := Item(Phase, "saving")

  function EmittedBy(e: RawEvent, announce: bool): seq<Event> {
    match e
    case RawCitations(data) => [Item(Citations, data)]
    case RawQuality(data) => [Item(Quality, data)]
    case RawPhase(data) => [Item(Phase, data)]
    case RawToken(Some(text), _) => (if announce then [ANSWERING] else []) + [Delta(text)]
    case _ => []
  }

  function Emitted(raw: seq<RawStep>, transport: bool): seq<Event> {
    if raw == [] then []
    else
      var before := raw[..|raw| - 1];
      Emitted(before, transport) + EmittedBy(raw[|raw| - 1].event, transport && !HasText(before))
  }

  /** The text of the tokens. */
  function Spoken(raw: seq<RawStep>): string {
    if raw == [] then ""
    else Spoken(raw[..|raw| - 1]) + (if IsText(raw[|raw| - 1].event) then raw[|raw| - 1].event.text.value else "")
  }

  predicate NoTerminal(events: seq<Event>) {
    forall i :: 0 <= i < |events| ==> !Terminal(events[i])
  }

  lemma {:induction false} EmittedIsAnswer(raw: seq<RawStep>, transport: bool)
    ensures NoTerminal(Emitted(raw, transport))
    ensures Answer(Emitted(raw, transport)) == Spoken(raw)
  {
    if raw != [] {
      var before, last := raw[..|raw| - 1], raw[|raw| - 1];
      EmittedIsAnswer(before, transport);
      var more := EmittedBy(last.event, transport && !HasText(before));
      AnswerAppend(Emitted(before, transport), more);
      OneAnswer(last.event, transport && !HasText(before));
    }
  }

  lemma OneAnswer(e: RawEvent, announce: bool)
    ensures NoTerminal(EmittedBy(e, announce))
    ensures Answer(EmittedBy(e, announce)) == (if IsText(e) then e.text.value else "")
  {
    if IsText(e) {
      AnswerOne(Delta(e.text.value));
      AnswerOne(ANSWERING);
      AnswerAppend([ANSWERING], [Delta(e.text.value)]);
      assert "" + e.text.value == e.text.value;
    } else if EmittedBy(e, announce) != [] {
      AnswerOne(EmittedBy(e, announce)[0]);
    }
  }

  lemma AnswerOne(e: Event)
    ensures Answer([e]) == if e.Delta? then e.text else ""
  {
    assert [e][..0] == [];
    assert Answer([]) + (if e.Delta? then e.text else "") == if e.Delta? then e.text else "";
  }

  /** The raw events that are passed on as they are. */
  function PassedOn(raw: seq<RawStep>): seq<Event> {
    if raw == [] then [] else PassedOn(raw[..|raw| - 1]) + PassedOnOf(raw[|raw| - 1].event)
  }

  function PassedOnOf(e: RawEvent): seq<Event> {
    match e
    case RawCitations(data) => [Item(Citations, data)]
    case RawQuality(data) => [Item(Quality, data)]
    case RawPhase(data) => [Item(Phase, data)]
    case _ => []
  }

  /** k is where the first text is, or the end. */
  predicate IsFirstText(raw: seq<RawStep>, k: nat) {
    && k <= |raw| && (k < |raw| ==> IsText(raw[k].event))
    && forall i :: 0 <= i < k ==> !IsText(raw[i].event)
  }

  /** With the transport no text is emitted before the answering phase is announced. */
  lemma {:induction false} TextIsAnnounced(raw: seq<RawStep>, j: nat) returns (i: nat)
    requires j < |Emitted(raw, true)| && Emitted(raw, true)[j].Delta?
    ensures i < j && Emitted(raw, true)[i] == Item(Phase, "answering")
  {
    var n := |raw| - 1;
    var before := Emitted(raw[..n], true);
    if j < |before| {
      i := TextIsAnnounced(raw[..n], j);
    } else if HasText(raw[..n]) {
      var k := TextIsEmitted(raw[..n]);
      i := TextIsAnnounced(raw[..n], k);
    } else {
      i := |before|;
    }
  }

  lemma {:induction false} TextIsEmitted(raw: seq<RawStep>) returns (j: nat)
    requires HasText(raw)
    ensures j < |Emitted(raw, true)| && Emitted(raw, true)[j].Delta?
  {
    var n := |raw| - 1;
    if IsText(raw[n].event) {
      j := |Emitted(raw, true)| - 1;
    } else {
      var i :| 0 <= i < |raw| && IsText(raw[i].event);
      assert IsText(raw[..n][i].event);
      j := TextIsEmitted(raw[..n]);
    }
  }

  lemma ItemsOfEmittedBy(e: RawEvent, announce: bool)
    ensures Items(EmittedBy(e, announce)) == if announce && IsText(e) then [ANSWERING] else PassedOnOf(e)
  {
    if IsText(e) {
      var delta := Delta(e.text.value);
      ItemsOfOne(delta);
      ItemsOfOne(ANSWERING);
      ItemsAppend([ANSWERING], [delta]);
      assert [ANSWERING] + [] == [ANSWERING];
    } else if EmittedBy(e, announce) != [] {
      ItemsOfOne(EmittedBy(e, announce)[0]);
    }
  }

  lemma OneMoreItem(raw: seq<RawStep>, transport: bool)
    requires raw != []
    ensures var before, e := raw[..|raw| - 1], raw[|raw| - 1].event;
      Items(Emitted(raw, transport)) == Items(Emitted(before, transport)) +
        if transport && !HasText(before) && IsText(e) then [ANSWERING] else PassedOnOf(e)
  {
    var before, e := raw[..|raw| - 1], raw[|raw| - 1].event;
    ItemsAppend(Emitted(before, transport), EmittedBy(e, transport && !HasText(before)));
    ItemsOfEmittedBy(e, transport && !HasText(before));
  }

  /** Before the first text nothing is announced. */
  lemma {:induction false} PlainBeginning(raw: seq<RawStep>, transport: bool)
    requires transport ==> forall i :: 0 <= i < |raw| ==> !IsText(raw[i].event)
    ensures Items(Emitted(raw, transport)) == PassedOn(raw)
  {
    if raw != [] {
      PlainBeginning(raw[..|raw| - 1], transport);
      OneMoreItem(raw, transport);
    }
  }

  /** The first text comes with the announcement, */
  lemma TextLast(raw: seq<RawStep>)
    requires raw != [] && IsFirstText(raw, |raw| - 1)
    ensures Items(Emitted(raw, true)) == PassedOn(raw[..|raw| - 1]) + [ANSWERING]
  {
    OneMoreItem(raw, true);
    NoTextBefore(raw, |raw| - 1);
    PlainBeginning(raw[..|raw| - 1], true);
  }

  /** and after it nothing is announced any more. */
  lemma {:induction false} AfterFirstText(raw: seq<RawStep>, k: nat)
    requires k < |raw| && IsFirstText(raw, k)
    ensures Items(Emitted(raw, true)) == (PassedOn(raw[..k]) + [ANSWERING]) + PassedOn(raw[k + 1..])
  {
    var n := |raw| - 1;
    if k == n {
      TextLast(raw);
      assert raw[k + 1..] == [];
    } else {
      var before := raw[..n];
      assert IsText(before[k].event) && before[..k] == raw[..k];
      AfterFirstText(before, k);
      OneMoreItem(raw, true);
      NoTextBefore(raw, k);
      OneMorePassedOn(raw, k + 1);
      Associate(PassedOn(raw[..k]) + [ANSWERING], PassedOn(before[k + 1..]), PassedOnOf(raw[n].event));
    }
  }

  lemma NoTextBefore(raw: seq<RawStep>, k: nat)
    requires k < |raw| && IsFirstText(raw, k)
    ensures HasText(raw[..|raw| - 1]) <==> k < |raw| - 1
  {
    var before := raw[..|raw| - 1];
    if k < |raw| - 1 {
      assert IsText(before[k].event);
    }
  }

  lemma OneMorePassedOn(raw: seq<RawStep>, k: nat)
    requires k < |raw|
    ensures PassedOn(raw[k..]) == PassedOn(raw[..|raw| - 1][k..]) + PassedOnOf(raw[|raw| - 1].event)
  {
    var rest := raw[k..];
    assert rest[..|rest| - 1] == raw[..|raw| - 1][k..];
  }

  lemma Associate(a: seq<Event>, b: seq<Event>, c: seq<Event>)
    ensures (a + b) + c == a + (b + c)
  {
  }

  /** Apart from the text a stream emits what it passes on, in order, and with the transport the
      announcement of the answer just before the first text. */
  lemma {:induction false} ItemsOfEmitted(raw: seq<RawStep>, transport: bool, k: nat)
    requires IsFirstText(raw, k)
    ensures Items(Emitted(raw, transport)) ==
      if transport && k < |raw| then PassedOn(raw[..k]) + [Item(Phase, "answering")] + PassedOn(raw[k + 1..])
      else PassedOn(raw)
  {
    if transport && k < |raw| {
      AfterFirstText(raw, k);
    } else {
      PlainBeginning(raw, transport);
    }
  }

  // ---------- the run itself ----------

  /** The answer that a new one replaces. */
  function SourceOf(s: Script): Option<nat> {
    if s.given.Some? then s.given
    else match RegenerateSource(s.siblings, s.turnId)
      case None => None
      case Some(sibling) => sibling.answer
  }

  /** The one that the caller names, or else the answer of the completed Turn for the same question
      that started last. */
  lemma SourceIs(s: Script)
    ensures s.given.Some? ==> SourceOf(s) == s.given
    ensures s.given.None? && SourceOf(s).None? ==> forall t :: t in s.siblings ==> !Answers(s, t)
    ensures s.given.None? && SourceOf(s).Some? ==>
      exists t :: t in s.siblings && IsLatest(s, t) && t.answer == SourceOf(s)
  {
    var r := RegenerateSource(s.siblings, s.turnId);
    forall t | t in s.siblings ensures Answers(s, t) <==> IsCandidate(t, s.turnId) {
    }
    if s.given.None? && r.Some? {
      assert IsLatest(s, r.value);
    }
  }

  /** Another Turn for the same question that has its answer. */
  predicate Answers(s: Script, t: Sibling) {
    t.turn != s.turnId && t.sameQuestion && t.completed && t.answer.Some?
  }

  predicate IsLatest(s: Script, t: Sibling) {
    Answers(s, t) && forall u :: u in s.siblings && Answers(s, u) ==> u.startedAt <= t.startedAt
  }

  /** The messages that the transaction finds. */
  function Base(s: Script, before: seq<Message>): seq<Message> {
    if s.found.Some? then s.found.value.messages else before
  }

  predicate SourceExists(s: Script, before: seq<Message>) {
    SourceOf(s).Some? ==> SourceOf(s).value < |Base(s, before)|
  }

  predicate FoundCompleted(s: Script) {
    s.found.Some? && s.found.value.row.status == Completed
  }

  predicate FoundAnswer(s: Script) {
    s.found.Some? && HasAnswer(s.found.value.row)
  }

  /** What others write is in order. */
  predicate MetOk(s: Script) {
    (s.found.Some? ==> RowOk(s.found.value.row)) && (s.marked.Some? ==> RowOk(s.marked.value.row))
  }

  function PersistEnd(s: Script): End {
    if s.saving.Some? then RolledBack else if s.commit.ReplyLost? then Unanswered else Returned
  }

  function PersistOf(s: Script, content: string): Write {
    Persist(content, SourceOf(s), s.newGroup, s.modelId, s.now, PersistEnd(s))
  }

  /** The messages when a run is over. */
  function MessagesLeft(s: Script, start: Status, before: seq<Message>): seq<Message>
    requires SourceExists(s, before)
  {
    var verdict := Judge(s, start);
    if !verdict.Good? && s.marked.Some? then s.marked.value.messages
    else if OpeningFault(s, start).Some? || MiddleFault(s).Some? || s.beforeSave.Some? then before
    else if verdict.Bad? || FoundAnswer(s) then Base(s, before)
    else Added(Base(s, before), SourceOf(s), s.newGroup, Spoken(s.raw))
  }

  datatype Saved = SavedAnswer(message: nat) | NotSaved(fault: Fault)

  class Generation {
    const turn: ChatTurn
    const start: Desk
    var messages: seq<Message>
    var events: seq<Event>
    var trace: seq<Write>

    constructor (turn: ChatTurn, messages: seq<Message>)
      ensures this.turn == turn && this.messages == messages && events == [] && trace == []
      ensures start == Now() && Traced()
    {
      this.turn, this.messages, events, trace := turn, messages, [], [];
      start := Desk(turn.row, turn.memory, messages);
    }

    function Now(): Desk
      reads this`messages, turn
    {
      Desk(turn.row, turn.memory, messages)
    }

    /** The trace accounts for every change of the row, the object and the messages. */
    predicate Traced()
      reads this`messages, this`trace, turn
    {
      Now() == AfterWrites(start, trace) && AllWork(start, trace)
    }

    /** Nobody else has written. */
    predicate Alone()
      reads this`trace
    {
      forall i :: 0 <= i < |trace| ==> !trace[i].Others?
    }

    /** Both the object and the saved row are in order. */
    predicate RowsOk()
      reads turn
    {
      CopyOk(turn.memory) && RowOk(turn.row)
    }

    /** Others have written meanwhile. */
    method Meet(met: Option<Met>)
      requires Traced()
      modifies turn`row, this`messages, this`trace
      ensures Traced() && (old(Alone()) && met.None? ==> Alone())
      ensures met.None? ==> turn.row == old(turn.row) && messages == old(messages)
      ensures met.Some? ==> turn.row == met.value.row && messages == met.value.messages
    {
      if met.Some? {
        ghost var before := Now();
        turn.row, messages := met.value.row, met.value.messages;
        Record(Others(turn.row, messages), before);
      }
    }

    /** Adds what has just been done to the trace. */
    method Record(write: Write, ghost before: Desk)
      requires before == AfterWrites(start, trace) && AllWork(start, trace)
      requires Now() == AfterWrite(before, write) && CanWrite(before, write)
      modifies this`trace
      ensures Traced() && (old(Alone()) && !write.Others? ==> Alone())
    {
      OneMoreWrite(start, trace, write);
      trace := trace + [write];
    }

    method Emit(e: Event)
      modifies this`events
      ensures events == old(events) + [e]
    {
      events := events + [e];
    }

    method Change(target: Status, modelId: Option<string>, storeFails: bool, now: int) returns (fault: Option<Fault>)
      requires target in {Retrieving, Answering, Saving} && Traced()
      modifies turn, this`trace
      ensures Traced() && (old(Alone()) ==> Alone())
      ensures fault.None? <==> !storeFails && CanMove(old(turn.memory).status, target)
      ensures fault.Some? ==> fault.value == OtherError && turn.row == old(turn.row)
      ensures fault.Some? ==>
        turn.memory.status == if CanMove(old(turn.memory).status, target) then target else old(turn.memory).status
      ensures fault.None? ==> turn.memory.status == target && turn.row.status == target
      ensures old(RowsOk()) ==> RowsOk()
    {
      var move := Move(target, "", None, modelId, now);
      ghost var before := Now();
      var outcome := turn.Transition(move, storeFails);
      Record(Transit(move, storeFails), before);
      fault := if outcome == TurnLifecycle.Saved then None else Some(OtherError);
    }

    /** The transaction that stores the answer: all of it or nothing. The row lock shows the row as it
        is by then; the object learns of the answer only if the commit is confirmed. */
    method PersistCompletedTurn(s: Script, content: string) returns (saved: Saved)
      requires SourceOf(s).Some? ==> SourceOf(s).value < |messages|
      modifies turn, this`messages
      ensures Now() == AfterPersist(old(Now()), PersistOf(s, content))
      ensures saved == if s.saving.Some? then NotSaved(s.saving.value)
                       else if old(turn.row).status !in {Saving, Completed} then NotSaved(OtherError)
                       else if s.commit.ReplyLost? then NotSaved(s.commit.fault)
                       else if HasAnswer(old(turn.row)) then SavedAnswer(old(turn.row).answer.value)
                       else SavedAnswer(|old(messages)|)
      ensures RowOk(old(turn.row)) ==> RowOk(turn.row)
      ensures turn.memory == old(turn.memory) || turn.memory.status == Completed
      ensures saved.SavedAnswer? ==>
        HasAnswer(turn.row) && turn.memory.status == Completed && turn.memory.answer == turn.row.answer
    {
      if s.saving.Some? {
        return NotSaved(s.saving.value);
      }
      var locked := new ChatTurn(turn.row);
      if locked.row.status == Completed && locked.row.answer.Some? {
        if s.commit.ReplyLost? {
          return NotSaved(s.commit.fault);
        }
        turn.memory := turn.memory.(status := Completed, answer := locked.row.answer);
        return SavedAnswer(locked.row.answer.value);
      }
      var before, message := messages, |messages|;
      var source := s.given;
      if source.None? {
        var sibling := RegenerateSource(s.siblings, s.turnId);
        source := if sibling.None? then None else sibling.value.answer;
      }
      messages := Added(messages, source, s.newGroup, content);
      var outcome := locked.Transition(Move(Completed, "", Some(message), Some(s.modelId), s.now), false);
      if outcome != TurnLifecycle.Saved {
        messages := before;
        return NotSaved(OtherError);
      }
      turn.row := locked.row;
      if s.commit.ReplyLost? {
        return NotSaved(s.commit.fault);
      }
      saved := SavedAnswer(message);
      turn.memory := turn.memory.(status := Completed, answer := Some(message), modelId := s.modelId);
    }

    /** The body of the loop; first: no token has been forwarded yet. */
    method Handle(s: Script, step: RawStep, first: bool) returns (fault: Option<Fault>)
      requires turn.row.status == turn.memory.status == if first then Retrieving else Answering
      requires Traced()
      modifies turn, this`events, this`trace
      ensures Traced() && (old(Alone()) ==> Alone())
      ensures fault == StepFault(step, first, s.answeringStoreFails)
      ensures events == old(events) + (if fault.None? then EmittedBy(step.event, s.transport && first) else [])
      ensures fault.None? ==>
        turn.row.status == turn.memory.status == if first && !IsText(step.event) then Retrieving else Answering
      ensures turn.row.status in {Retrieving, Answering} && turn.memory.status in {Retrieving, Answering}
      ensures old(RowsOk()) ==> RowsOk()
    {
      if step.check.Some? {
        return step.check;
      }
      fault := None;
      match step.event
      case RawCitations(data) => Emit(Item(Citations, data));
      case RawQuality(data) => Emit(Item(Quality, data));
      case RawMetrics =>
      case RawPhase(data) => Emit(Item(Phase, data));
      case RawToken(text, late) =>
        if late {
          return Some(DeadlineExceeded);
        }
        if text.Some? {
          if turn.memory.status != Answering {
            fault := Change(Answering, Some(s.modelId), s.answeringStoreFails, s.now);
            if fault.Some? {
              return;
            }
          }
          if s.transport && first {
            Emit(ANSWERING);
          }
          Emit(Delta(text.value));
        }
      case RawOther =>
    }

    /** The loop over the pipeline's events. */
    method Stream(s: Script) returns (fault: Option<Fault>, tokens: seq<string>)
      requires turn.memory.status == Retrieving && turn.row.status == Retrieving
      requires Traced()
      modifies turn, this`events, this`trace
      ensures Traced() && (old(Alone()) ==> Alone())
      ensures fault == StreamFault(s.raw, s.answeringStoreFails)
      ensures events == old(events) + Emitted(s.raw[..Handled(s.raw, s.answeringStoreFails)], s.transport)
      ensures Join(tokens) == Spoken(s.raw[..Handled(s.raw, s.answeringStoreFails)])
      ensures turn.memory.status in {Retrieving, Answering}
      ensures turn.row.status in {Retrieving, Answering}
      ensures fault.None? ==> turn.row.status == turn.memory.status
      ensures old(RowsOk()) ==> RowsOk()
    {
      tokens := [];
      var first := true;
      ghost var base := events;
      for k := 0 to |s.raw|
        invariant Traced() && (old(Alone()) ==> Alone())
        invariant Streamed(s, k, base, events, tokens, first)
        invariant turn.row.status == turn.memory.status == if first then Retrieving else Answering
        invariant old(RowsOk()) ==> RowsOk()
      {
        StreamedStop(s, k, base, events, tokens, first);
        ghost var events0, tokens0, first0 := events, tokens, first;
        fault := Handle(s, s.raw[k], first);
        if fault.Some? {
          return;
        }
        if IsText(s.raw[k].event) {
          tokens := tokens + [s.raw[k].event.text.value];
          first := false;
        }
        StreamedNext(s, k, base, events0, tokens0, first0, events, tokens, first);
      }
      StreamedAll(s, base, events, tokens, first);
      fault := None;
    }

    method Open(s: Script) returns (fault: Option<Fault>)
      requires turn.memory == turn.row && turn.row.status !in {Completed, Cancelled}
      requires events == []
      requires Traced()
      modifies turn, this`events, this`trace
      ensures Traced() && (old(Alone()) ==> Alone())
      ensures fault == OpeningFault(s, old(turn.row).status)
      ensures fault.Some? ==> events == [] && turn.row == old(turn.row)
      ensures fault.Some? ==> turn.memory.status in {Retrieving, old(turn.row).status}
      ensures fault.Some? ==> (turn.memory.status == Saving <==> old(turn.row).status == Saving)
      ensures fault.None? ==> events == [RETRIEVING] && turn.memory.status == turn.row.status == Retrieving
      ensures old(RowsOk()) ==> RowsOk()
    {
      if s.acquire.AcquireFails? {
        return Some(s.acquire.fault);
      }
      if s.opening.Some? {
        return s.opening;
      }
      fault := Change(Retrieving, None, s.openingStoreFails, s.now);
      if fault.Some? {
        return;
      }
      Emit(RETRIEVING);
    }

    /** The stream and the step into the saving phase. */
    method Respond(s: Script) returns (fault: Option<Fault>, content: string)
      requires turn.memory.status == turn.row.status == Retrieving
      requires events == [RETRIEVING]
      requires Traced()
      modifies turn, this`events, this`trace
      ensures Traced() && (old(Alone()) ==> Alone())
      ensures fault == MiddleFault(s)
      ensures events == Streaming(s)
      ensures fault.Some? ==> turn.memory.status in {Retrieving, Answering, Saving}
      ensures fault.Some? ==> turn.row.status in {Retrieving, Answering}
      ensures fault.Some? ==>
        (turn.memory.status == Saving <==> StreamFault(s.raw, s.answeringStoreFails).None? && s.closing.None?)
      ensures fault.None? ==> content == Spoken(s.raw) && turn.memory.status == turn.row.status == Saving
      ensures old(RowsOk()) ==> RowsOk()
    {
      var tokens;
      fault, tokens := Stream(s);
      content := Join(tokens);
      if fault.Some? {
        return;
      }
      AllHandled(s);
      if s.closing.Some? {
        return s.closing, content;
      }
      fault := Change(Saving, None, s.savingStoreFails, s.now);
      if fault.Some? {
        return;
      }
      if s.transport {
        Emit(SAVING);
      }
    }

    /** The consumer takes what k raw events gave it and then drops the generator: no handler runs. */
    method Dropped(s: Script, k: nat)
      requires turn.memory == turn.row && turn.row.status !in {Completed, Cancelled}
      requires events == []
      requires OpeningFault(s, turn.row.status).None? && k <= Handled(s.raw, s.answeringStoreFails)
      requires Traced()
      modifies turn, this`events, this`trace
      ensures Traced() && (old(Alone()) ==> Alone())
      ensures events == [RETRIEVING] + Emitted(s.raw[..k], s.transport)
      ensures turn.row.status in {Retrieving, Answering}
      ensures old(RowsOk()) ==> RowsOk()
    {
      HandledPrefix(s.raw, s.answeringStoreFails, k);
      var _ := Open(s);
      var taken := s.(raw := s.raw[..k]);
      var _, _ := Stream(taken);
      assert taken.raw[..k] == s.raw[..k];
    }

    /** The worker is killed between the saving phase and the commit. */
    method DroppedSaving(s: Script)
      requires turn.memory == turn.row && turn.row.status !in {Completed, Cancelled}
      requires events == []
      requires OpeningFault(s, turn.row.status).None? && MiddleFault(s).None?
      requires Traced()
      modifies turn, this`events, this`trace
      ensures Traced() && (old(Alone()) ==> Alone())
      ensures events == Streaming(s)
      ensures turn.row.status == Saving
      ensures old(RowsOk()) ==> RowsOk()
    {
      var _ := Open(s);
      var _, _ := Respond(s);
    }

    /** Everything inside the try. */
    method Attempt(s: Script) returns (fault: Option<Fault>)
      requires turn.memory == turn.row && turn.row.status !in {Completed, Cancelled}
      requires events == [] && !s.acquire.Busy? && Traced()
      requires SourceExists(s, messages)
      modifies this, turn
      ensures Traced() && (old(Alone()) && s.found.None? ==> Alone())
      ensures Tried(s, old(turn.row).status, old(messages), fault, Now(), events)
      ensures RowOk(old(turn.row)) && MetOk(s) ==> RowsOk()
    {
      fault := Open(s);
      if fault.Some? {
        EarlyIsTried(s, old(turn.row).status, old(messages), fault.value, Now(), events);
        return;
      }
      var content;
      fault, content := Respond(s);
      if fault.Some? {
        EarlyIsTried(s, old(turn.row).status, old(messages), fault.value, Now(), events);
        return;
      }
      fault := Save(s, content);
      SavingIsTried(s, old(turn.row).status, old(messages), fault, Now(), events);
    }

    method Announce(s: Script, message: nat)
      requires Traced()
      modifies this`events
      ensures Traced() && events == Announced(s, old(events), message)
    {
      if s.transport {
        Emit(Item(Usage, s.usage));
      }
      Emit(Item(Done, Decimal(message)));
    }

    /** From the saving phase on. */
    method Save(s: Script, content: string) returns (fault: Option<Fault>)
      requires turn.memory.status == turn.row.status == Saving
      requires SourceExists(s, messages) && Traced()
      modifies this, turn
      ensures Traced() && (old(Alone()) && s.found.None? ==> Alone())
      ensures fault == if SavingFault(s).Some? then SavingFault(s)
                       else if s.commit.Told? then None else Some(s.commit.fault)
      ensures turn.memory.status == if SavingFault(s).None? && !s.commit.ReplyLost? then Completed else Saving
      ensures fault.Some? ==> events == old(events)
      ensures SavingFault(s).Some? ==> messages == if s.beforeSave.Some? then old(messages) else Base(s, old(messages))
      ensures SavingFault(s).Some? && !FoundCompleted(s) ==> turn.row.status != Completed
      ensures SavingFault(s).None? ==> Stored(s, content, Base(s, old(messages)), turn.row, messages)
      ensures fault.None? ==>
        turn.memory.answer == turn.row.answer && events == Announced(s, old(events), turn.row.answer.value)
      ensures old(RowsOk()) && MetOk(s) ==> RowsOk()
    {
      if s.beforeSave.Some? {
        return s.beforeSave;
      }
      Meet(s.found);
      ghost var before := Now();
      var saved := PersistCompletedTurn(s, content);
      Record(PersistOf(s, content), before);
      if saved.NotSaved? {
        return Some(saved.fault);
      }
      if s.commit.RaisesAfter? {
        return Some(s.commit.fault);
      }
      Announce(s, saved.message);
      fault := None;
    }

    /** Both kinds of marking write the object over whatever row they find; what goes wrong in them is
        only logged. */
    method Mark(target: Status, code: string, s: Script)
      requires target in {Failed, Cancelled} && SafeCode(code) && Traced()
      modifies turn, this`trace
      ensures Traced() && (old(Alone()) ==> Alone())
      ensures var move := Move(target, code, None, None, s.now);
        turn.row == Overwritten(old(turn.row), old(turn.memory), move, s.markStoreFails)
      ensures old(RowsOk()) ==> RowsOk()
    {
      var move := Move(target, code, None, None, s.now);
      ghost var before := Now();
      var _ := turn.Transition(move, s.markStoreFails);
      Record(Transit(move, s.markStoreFails), before);
    }

    /** The handlers of the try. */
    method Fail(s: Script, fault: Fault)
      requires Traced()
      modifies turn, this`events, this`messages, this`trace
      ensures Traced() && (old(Alone()) && s.marked.None? ==> Alone())
      ensures var code := ErrorCode(fault, old(turn.memory.status) == Saving);
        && events == old(events) + [Item(Error, code)]
        && AfterFault(s, fault, old(Now()), Now())
      ensures old(RowsOk()) && MetOk(s) ==> RowsOk()
    {
      var code := ErrorCode(fault, turn.memory.status == Saving);
      Meet(s.marked);
      Mark(if fault.CancelRequested? then Cancelled else Failed, code, s);
      Emit(Item(Error, code));
    }

    /** ran is false for the early return and for SessionBusyError. */
    method IterChatTurn(s: Script) returns (ran: bool)
      requires turn.memory == turn.row && events == [] && Traced()
      requires SourceExists(s, messages)
      modifies this, turn
      ensures Traced() && (old(Alone()) && s.found.None? && s.marked.None? ==> Alone())
      ensures ran <==> old(turn.row).status !in {Completed, Cancelled} && !s.acquire.Busy?
      ensures !ran ==> events == [] && messages == old(messages) && turn.row == old(turn.row)
      ensures ran ==> EndsOnce(events)
      ensures ran ==> Ended(s, old(turn.row).status, old(messages), Now(), events)
      ensures RowOk(old(turn.row)) && MetOk(s) ==> RowOk(turn.row)
    {
      if turn.memory.status in {Completed, Cancelled} || s.acquire.Busy? {
        return false;
      }
      ran := true;
      ghost var start := turn.row.status;
      RunsEndOnce(s, start);
      var fault := Attempt(s);
      ghost var tried := Now();
      if fault.Some? {
        Fail(s, fault.value);
        FailedRunEnds(s, start, old(messages), fault.value, tried, Now(), events);
      }
    }
  }

  /** What Attempt leaves. */
  ghost predicate Tried(s: Script, start: Status, before: seq<Message>, fault: Option<Fault>, d: Desk,
                        events: seq<Event>)
    requires SourceExists(s, before)
  {
    var verdict := Judge(s, start);
    && (fault.None? <==> verdict.Good?)
    && (fault.Some? ==>
          && fault.value == verdict.fault
          && CodeOf(verdict) == ErrorCode(fault.value, d.copy.status == Saving)
          && events == Shown(s, start))
    && (verdict.Bad? ==>
          && (Active(d.copy.status) || d.copy.status == start)
          && d.messages == MessagesLeft(s.(marked := None), start, before)
          && (!FoundCompleted(s) ==> d.row.status != Completed))
    && (verdict.Late? ==> d.copy.status == if verdict.known then Completed else Saving)
    && (!verdict.Bad? ==> Stored(s, Spoken(s.raw), Base(s, before), d.row, d.messages))
    && (verdict.Good? ==>
          && d.copy.status == Completed && d.copy.answer == d.row.answer
          && events == Announced(s, Shown(s, start), d.row.answer.value))
  }

  lemma EarlyIsTried(s: Script, start: Status, before: seq<Message>, fault: Fault, d: Desk, events: seq<Event>)
    requires SourceExists(s, before) && start !in {Completed, Cancelled}
    requires if OpeningFault(s, start).Some?
             then && fault == OpeningFault(s, start).value && d.copy.status in {Retrieving, start}
                  && (d.copy.status == Saving <==> start == Saving)
             else && MiddleFault(s) == Some(fault) && Active(d.copy.status)
                  && (d.copy.status == Saving <==> StreamFault(s.raw, s.answeringStoreFails).None? && s.closing.None?)
    requires events == Shown(s, start) && d.messages == before && d.row.status != Completed
    ensures Tried(s, start, before, Some(fault), d, events)
  {
  }

  lemma SavingIsTried(s: Script, start: Status, before: seq<Message>, fault: Option<Fault>, d: Desk, events: seq<Event>)
    requires SourceExists(s, before)
    requires OpeningFault(s, start).None? && MiddleFault(s).None?
    requires fault == if SavingFault(s).Some? then SavingFault(s)
                      else if s.commit.Told? then None else Some(s.commit.fault)
    requires d.copy.status == if SavingFault(s).None? && !s.commit.ReplyLost? then Completed else Saving
    requires fault.Some? ==> events == Shown(s, start)
    requires SavingFault(s).Some? ==> d.messages == if s.beforeSave.Some? then before else Base(s, before)
    requires SavingFault(s).Some? && !FoundCompleted(s) ==> d.row.status != Completed
    requires SavingFault(s).None? ==> Stored(s, Spoken(s.raw), Base(s, before), d.row, d.messages)
    requires fault.None? ==>
      d.copy.answer == d.row.answer && events == Announced(s, Shown(s, start), d.row.answer.value)
    ensures Tried(s, start, before, fault, d, events)
  {
  }

  /** What a whole run leaves. A good run announces its answer. A bad one names its first fault, adds
      no message and, if it can, marks the row. A late one does the same although the answer is stored:
      if the object knows, the mark is refused; if not, it is written over the completed row. */
  ghost predicate Ended(s: Script, start: Status, before: seq<Message>, d: Desk, events: seq<Event>)
    requires SourceExists(s, before)
  {
    var verdict := Judge(s, start);
    && d.messages == MessagesLeft(s, start, before)
    && (verdict.Good? ==>
          && d.copy.status == Completed && d.copy.answer == d.row.answer
          && Stored(s, Spoken(s.raw), Base(s, before), d.row, d.messages)
          && Answer(events) == Spoken(s.raw)
          && events == Announced(s, Shown(s, start), d.row.answer.value))
    && (!verdict.Good? ==> events == Shown(s, start) + [Item(Error, CodeOf(verdict))])
    && (verdict.Bad? && !s.markStoreFails && start != Failed ==> EndState(d.row, CodeOf(verdict)))
    && (verdict.Bad? && s.marked.None? && !FoundCompleted(s) ==> d.row.status != Completed)
    && (verdict.Late? && !verdict.known && !s.markStoreFails ==> EndState(d.row, CodeOf(verdict)))
    && (verdict.Late? && (verdict.known || s.markStoreFails) && s.marked.None? ==>
          Stored(s, Spoken(s.raw), Base(s, before), d.row, d.messages))
  }

  /** The handler after a run that did not succeed. */
  predicate AfterFault(s: Script, fault: Fault, d: Desk, after: Desk) {
    && after.messages == (if s.marked.Some? then s.marked.value.messages else d.messages)
    && (s.markStoreFails || d.copy.status == Completed ==>
          after.row == if s.marked.Some? then s.marked.value.row else d.row)
    && (!s.markStoreFails && Active(d.copy.status) ==> EndState(after.row, ErrorCode(fault, d.copy.status == Saving)))
    && (s.marked.None? ==> after.row == d.row || after.row.status != Completed)
  }

  lemma FailedRunEnds(s: Script, start: Status, before: seq<Message>, fault: Fault, d: Desk, after: Desk,
                      events: seq<Event>)
    requires SourceExists(s, before) && start !in {Completed, Cancelled}
    requires Tried(s, start, before, Some(fault), d, Shown(s, start)) && AfterFault(s, fault, d, after)
    requires events == Shown(s, start) + [Item(Error, ErrorCode(fault, d.copy.status == Saving))]
    ensures Ended(s, start, before, after, events)
  {
  }

  /** Where a run that failed leaves the row: cancelled, or failed in a way that admits a retry. */
  predicate EndState(row: Turn, code: string) {
    if code == "cancelled" then row.status == Cancelled
    else row.status == Failed && row.errorCode == code && Retryable(row)
  }

  // ---------- when the events and the row disagree ----------

  /** If nobody else completes or marks the Turn, a completed row without done is left exactly when
      something was raised after the commit and the mark did not overwrite the row: because the object
      knew, or because the mark could not be stored. */
  lemma DisagreesIff(s: Script, start: Status, before: seq<Message>, d: Desk, events: seq<Event>)
    requires SourceExists(s, before) && Ended(s, start, before, d, events)
    requires s.marked.None? && !FoundCompleted(s)
    ensures var done := events[|events| - 1].name == Done; var verdict := Judge(s, start);
      && (done ==> d.row.status == Completed)
      && (d.row.status == Completed && !done <==> verdict.Late? && (verdict.known || s.markStoreFails))
  {
    assert Judge(s, start).Good? ==> events[|events| - 1] == Item(Done, Decimal(d.row.answer.value));
  }

  /** A run that stores its answer adds it to the messages that it finds. */
  lemma {:induction false} AnswerIsAdded(s: Script, start: Status, before: seq<Message>, d: Desk, events: seq<Event>)
    requires SourceExists(s, before) && Ended(s, start, before, d, events)
    requires !FoundAnswer(s)
    requires if Judge(s, start).Late? then s.marked.None? else Judge(s, start).Good?
    ensures Extends(Base(s, before), d.messages, SourceOf(s), s.newGroup, Spoken(s.raw))
  {
    AddedExtends(Base(s, before), SourceOf(s), s.newGroup, Spoken(s.raw));
  }

  /** A late run ends with an error although its answer is among the messages. If its object does not
      know and the mark can be stored, the row has lost that answer. */
  lemma LateRunStores(s: Script, start: Status, before: seq<Message>, d: Desk, events: seq<Event>)
    requires SourceExists(s, before) && Ended(s, start, before, d, events)
    requires Judge(s, start).Late? && s.marked.None? && !FoundAnswer(s)
    ensures var verdict := Judge(s, start); var base := Base(s, before);
      && events[|events| - 1] == Item(Error, CodeOf(verdict))
      && |d.messages| == |base| + 1 && d.messages[|base|].content == Spoken(s.raw)
      && (d.row.status != Completed <==> !verdict.known && !s.markStoreFails)
      && (d.row.status == Completed ==> d.row.answer == Some(|base|))
  {
  }

  /** The text of the message that a completed row names. */
  function StoredText(d: Desk): string
    requires HasAnswer(d.row) && d.row.answer.value < |d.messages|
  {
    d.messages[d.row.answer.value].content
  }

  predicate AnswersExist(s: Script) {
    FoundAnswer(s) ==> s.found.value.row.answer.value < |s.found.value.messages|
  }

  /** After done the stored text is the text that was shown, unless the row lock found another
      answer; then exactly if that answer has the same text. */
  lemma StoredIsShownIff(s: Script, start: Status, before: seq<Message>, d: Desk, events: seq<Event>)
    requires SourceExists(s, before) && AnswersExist(s) && Ended(s, start, before, d, events)
    requires Judge(s, start).Good?
    ensures HasAnswer(d.row) && d.row.answer.value < |d.messages|
    ensures StoredText(d) == Answer(events) <==>
      (FoundAnswer(s) ==> s.found.value.messages[s.found.value.row.answer.value].content == Spoken(s.raw))
  {
  }

  /** Such a run: another worker has stored `a` by the time this one, which said `b`, gets the row
      lock. */
  function Overtaken(): Script {
    Script(Gained, None, false, [RawStep(None, RawToken(Some("b"), false))], false, None, false, None,
           Some(Met(Turn(Completed, "", Some(0), Some(0), "m", 1, 0), [Message("a", 0, 1, true)])), None, Told,
           None, false, false, "m", 0, None, [], 1, "", 0)
  }

  lemma {:induction false} OvertakenIsGood()
    ensures Judge(Overtaken(), Accepted).Good? && Spoken(Overtaken().raw) == "b"
  {
    var raw := Overtaken().raw;
    assert raw[..0] == [];
    assert Handled(raw[..0], false) == 0;
    assert Handled(raw, false) == 1;
    assert Spoken(raw[..0]) == "";
  }

  lemma {:induction false} AnotherTextIsStored(before: seq<Message>, d: Desk, events: seq<Event>)
    requires Ended(Overtaken(), Accepted, before, d, events)
    ensures events[|events| - 1].name == Done && Answer(events) == "b"
    ensures HasAnswer(d.row) && d.row.answer.value < |d.messages|
    ensures StoredText(d) == "a" && forall i :: 0 <= i < |d.messages| ==> d.messages[i].content != "b"
  {
    OvertakenIsGood();
    StoredIsShownIff(Overtaken(), Accepted, before, d, events);
    assert events[|events| - 1] == Item(Done, Decimal(d.row.answer.value));
  }

  lemma ShownIsAnswer(s: Script, start: Status)
    ensures NoTerminal(Shown(s, start))
    ensures Answer(Shown(s, start)) ==
            if OpeningFault(s, start).Some? then "" else Spoken(s.raw[..Handled(s.raw, s.answeringStoreFails)])
  {
    var emitted := Emitted(s.raw[..Handled(s.raw, s.answeringStoreFails)], s.transport);
    EmittedIsAnswer(s.raw[..Handled(s.raw, s.answeringStoreFails)], s.transport);
    var streamed := [RETRIEVING] + emitted;
    ItemBefore(RETRIEVING, emitted);
    ItemAfter(streamed, SAVING);
    assert Shown(s, start) in [[], streamed, streamed + [SAVING]];
  }

  lemma ItemBefore(e: Event, es: seq<Event>)
    requires e.Item?
    ensures Answer([e] + es) == Answer(es)
    ensures NoTerminal(es) && !Terminal(e) ==> NoTerminal([e] + es)
  {
    AnswerOne(e);
    AnswerAppend([e], es);
    assert "" + Answer(es) == Answer(es);
  }

  lemma ItemAfter(es: seq<Event>, e: Event)
    requires e.Item?
    ensures Answer(es + [e]) == Answer(es)
    ensures NoTerminal(es) && !Terminal(e) ==> NoTerminal(es + [e])
  {
    AnswerOne(e);
    AnswerAppend(es, [e]);
    assert Answer(es) + "" == Answer(es);
  }

  /** Every run that is not turned away ends with exactly one terminal event, and the text of its
      deltas is that of the tokens it handled. */
  lemma RunsEndOnce(s: Script, start: Status)
    ensures forall code :: EndsOnce(Shown(s, start) + [Item(Error, code)])
    ensures forall message :: EndsOnce(Announced(s, Shown(s, start), message))
    ensures forall message :: Answer(Announced(s, Shown(s, start), message)) == Answer(Shown(s, start))
    ensures !Judge(s, start).Bad? ==> Answer(Shown(s, start)) == Spoken(s.raw)
  {
    ShownIsAnswer(s, start);
    var shown := Shown(s, start);
    forall message: nat ensures Answer(Announced(s, shown, message)) == Answer(shown) {
      AnnouncedAnswer(s, shown, message);
    }
    if !Judge(s, start).Bad? {
      AllHandled(s);
    }
  }

  lemma AnnouncedAnswer(s: Script, shown: seq<Event>, message: nat)
    ensures Answer(Announced(s, shown, message)) == Answer(shown)
  {
    var usage, done := Item(Usage, s.usage), Item(Done, Decimal(message));
    ItemAfter(shown, usage);
    ItemAfter(shown + [usage], done);
    ItemAfter(shown, done);
  }

  /** The events from the first one to the saving phase. */
  function Streaming(s: Script): seq<Event> {
    var streamed := [RETRIEVING] + Emitted(s.raw[..Handled(s.raw, s.answeringStoreFails)], s.transport);
    if s.transport && MiddleFault(s).None? then streamed + [SAVING] else streamed
  }

  /** The events before those that end a run. */
  function Shown(s: Script, start: Status): seq<Event> {
    if OpeningFault(s, start).Some? then [] else Streaming(s)
  }

  /** The row has an answer: the one that was found, or else this run's. */
  ghost predicate Stored(s: Script, content: string, base: seq<Message>, row: Turn, messages: seq<Message>) {
    && HasAnswer(row)
    && if FoundAnswer(s) then messages == base && row == s.found.value.row
       else
         && (SourceOf(s).Some? ==> SourceOf(s).value < |base|)
         && messages == Added(base, SourceOf(s), s.newGroup, content)
         && row.answer.value == |base|
  }

  function Announced(s: Script, shown: seq<Event>, message: nat): seq<Event> {
    (if s.transport then shown + [Item(Usage, s.usage)] else shown) + [Item(Done, Decimal(message))]
  }

  /** What a run shows before it ends, apart from the text: the phases around what the stream passes
      on, as far as it came. */
  lemma {:induction false} ItemsOfShown(s: Script, start: Status, k: nat)
    requires OpeningFault(s, start).None?
    requires IsFirstText(s.raw[..Handled(s.raw, s.answeringStoreFails)], k)
    ensures var raw := s.raw[..Handled(s.raw, s.answeringStoreFails)];
      Items(Shown(s, start)) ==
        [Item(Phase, "retrieving")] +
        (if s.transport && k < |raw| then PassedOn(raw[..k]) + [Item(Phase, "answering")] + PassedOn(raw[k + 1..])
         else PassedOn(raw)) +
        (if s.transport && MiddleFault(s).None? then [Item(Phase, "saving")] else [])
  {
    var raw := s.raw[..Handled(s.raw, s.answeringStoreFails)];
    var emitted := Emitted(raw, s.transport);
    ItemsOfEmitted(raw, s.transport, k);
    ItemsAppend([RETRIEVING], emitted);
    ItemsAppend([RETRIEVING] + emitted, [SAVING]);
    ItemsOfOne(RETRIEVING);
    ItemsOfOne(SAVING);
    assert Items([RETRIEVING] + emitted) + [] == Items([RETRIEVING] + emitted);
  }

  /** So a good run shows, apart from the text, every citation, quality and phase event of the pipeline
      between the phases of the run, then usage, and the message as done. */
  lemma {:induction false} GoodRunShows(s: Script, start: Status, before: seq<Message>, d: Desk, events: seq<Event>,
                                        k: nat)
    requires SourceExists(s, before) && Ended(s, start, before, d, events)
    requires Judge(s, start).Good? && IsFirstText(s.raw, k)
    ensures HasAnswer(d.row) && Items(events) ==
      [Item(Phase, "retrieving")] +
      (if s.transport && k < |s.raw| then PassedOn(s.raw[..k]) + [Item(Phase, "answering")] + PassedOn(s.raw[k + 1..])
       else PassedOn(s.raw)) +
      (if s.transport then [Item(Phase, "saving")] else []) +
      (if s.transport then [Item(Usage, s.usage)] else []) + [Item(Done, Decimal(d.row.answer.value))]
  {
    AllHandled(s);
    ItemsOfShown(s, start, k);
    ItemsOfAnnounced(s, Shown(s, start), d.row.answer.value);
  }

  lemma ItemsOfAnnounced(s: Script, shown: seq<Event>, message: nat)
    ensures Items(Announced(s, shown, message)) ==
      Items(shown) + (if s.transport then [Item(Usage, s.usage)] else []) + [Item(Done, Decimal(message))]
  {
    var usage, done := Item(Usage, s.usage), Item(Done, Decimal(message));
    ItemsAppend(shown, [usage]);
    ItemsAppend(shown, [done]);
    ItemsAppend(shown + [usage], [done]);
    ItemsOfOne(usage);
    ItemsOfOne(done);
    assert Items(shown) + [] == Items(shown);
  }

  // ---------- what a run is judged by ----------

  predicate IsSound(step: RawStep) {
    step.check.None? && (step.event.RawToken? ==> !step.event.late)
  }

  /** The first fault of a stream: what was raised before an event was handled, a token after the
      deadline, or the answering phase that could not be stored with the first text. */
  lemma {:induction false} StreamFaultIs(raw: seq<RawStep>, storeFails: bool, k: nat)
    requires k <= |raw| && forall i :: 0 <= i < k ==> IsSound(raw[i]) && (storeFails ==> !IsText(raw[i].event))
    ensures k == |raw| ==> StreamFault(raw, storeFails).None?
    ensures k < |raw| && raw[k].check.Some? ==> StreamFault(raw, storeFails) == raw[k].check
    ensures k < |raw| && raw[k].check.None? && raw[k].event.RawToken? && raw[k].event.late ==>
      StreamFault(raw, storeFails) == Some(DeadlineExceeded)
    ensures k < |raw| && IsSound(raw[k]) && IsText(raw[k].event) && storeFails ==>
      StreamFault(raw, storeFails) == Some(OtherError)
  {
    SoundIsHandled(raw, storeFails, k);
    if k < |raw| {
      assert storeFails ==> !HasText(raw[..k]);
      FirstFault(raw, storeFails, k);
    } else {
      assert raw[..k] == raw;
    }
  }

  lemma {:induction false} SoundIsHandled(raw: seq<RawStep>, storeFails: bool, k: nat)
    requires k <= |raw| && forall i :: 0 <= i < k ==> IsSound(raw[i]) && (storeFails ==> !IsText(raw[i].event))
    ensures Handled(raw[..k], storeFails) == k
  {
    if k > 0 {
      SoundIsHandled(raw, storeFails, k - 1);
      assert raw[..k][..k - 1] == raw[..k - 1];
    }
  }

  /** A run is good exactly if nothing went wrong anywhere: it got the lease, no call raised anything,
      no write of a phase failed, and the row lock found a row that can be completed. */
  lemma {:induction false} GoodIff(s: Script, start: Status)
    ensures Judge(s, start).Good? <==>
      && !s.acquire.AcquireFails? && s.opening.None? && !s.openingStoreFails
      && start in {Accepted, Retrieving}
      && (forall i :: 0 <= i < |s.raw| ==> IsSound(s.raw[i]) && (s.answeringStoreFails ==> !IsText(s.raw[i].event)))
      && s.closing.None? && !s.savingStoreFails && s.beforeSave.None? && s.saving.None?
      && (s.found.Some? ==> s.found.value.row.status in {Saving, Completed})
      && s.commit == Told
  {
    var i := FirstUnsound(s.raw, s.answeringStoreFails);
    StreamFaultIs(s.raw, s.answeringStoreFails, i);
  }

  function FirstUnsound(raw: seq<RawStep>, storeFails: bool): (k: nat)
    ensures k <= |raw| && forall i :: 0 <= i < k ==> IsSound(raw[i]) && (storeFails ==> !IsText(raw[i].event))
    ensures k < |raw| ==> !IsSound(raw[k]) || (storeFails && IsText(raw[k].event))
  {
    if raw == [] then 0
    else
      var k := FirstUnsound(raw[..|raw| - 1], storeFails);
      if k < |raw| - 1 then k
      else if IsSound(raw[k]) && (storeFails ==> !IsText(raw[k].event)) then |raw|
      else k
  }

  lemma AllHandled(s: Script)
    requires StreamFault(s.raw, s.answeringStoreFails).None?
    ensures s.raw[..Handled(s.raw, s.answeringStoreFails)] == s.raw
  {
    var n := Handled(s.raw, s.answeringStoreFails);
    if n < |s.raw| {
      UnhandledFails(s.raw, s.answeringStoreFails);
    }
  }

  lemma {:induction false} UnhandledFails(raw: seq<RawStep>, storeFails: bool)
    requires Handled(raw, storeFails) < |raw|
    ensures StreamFault(raw, storeFails).Some?
  {
    var n := |raw| - 1;
    var k := Handled(raw, storeFails);
    if Handled(raw[..n], storeFails) < n {
      UnhandledFails(raw[..n], storeFails);
      assert raw[..n][..k] == raw[..k];
    }
  }

  /** The first k raw events are handled. */
  ghost predicate Streamed(s: Script, k: nat, base: seq<Event>, events: seq<Event>, tokens: seq<string>, first: bool) {
    && k <= |s.raw|
    && Handled(s.raw[..k], s.answeringStoreFails) == k
    && events == base + Emitted(s.raw[..k], s.transport)
    && Join(tokens) == Spoken(s.raw[..k])
    && (first <==> !HasText(s.raw[..k]))
  }

  lemma StreamedAll(s: Script, base: seq<Event>, events: seq<Event>, tokens: seq<string>, first: bool)
    requires Streamed(s, |s.raw|, base, events, tokens, first)
    ensures StreamFault(s.raw, s.answeringStoreFails).None?
    ensures Streamed(s, Handled(s.raw, s.answeringStoreFails), base, events, tokens, first)
  {
    assert s.raw[..|s.raw|] == s.raw;
  }

  lemma StreamedStop(s: Script, k: nat, base: seq<Event>, events: seq<Event>, tokens: seq<string>, first: bool)
    requires k < |s.raw| && Streamed(s, k, base, events, tokens, first)
    ensures var fault := StepFault(s.raw[k], first, s.answeringStoreFails);
      fault.Some? ==> StreamFault(s.raw, s.answeringStoreFails) == fault && Handled(s.raw, s.answeringStoreFails) == k
  {
    FirstFault(s.raw, s.answeringStoreFails, k);
  }

  lemma StreamedNext(s: Script, k: nat, base: seq<Event>, events: seq<Event>, tokens: seq<string>, first: bool,
                     events': seq<Event>, tokens': seq<string>, first': bool)
    requires k < |s.raw| && Streamed(s, k, base, events, tokens, first)
    requires StepFault(s.raw[k], first, s.answeringStoreFails).None?
    requires events' == events + EmittedBy(s.raw[k].event, s.transport && first)
    requires tokens' == if IsText(s.raw[k].event) then tokens + [s.raw[k].event.text.value] else tokens
    requires first' == (first && !IsText(s.raw[k].event))
    ensures Streamed(s, k + 1, base, events', tokens', first')
  {
    FirstFault(s.raw, s.answeringStoreFails, k);
    HasTextNext(s.raw, k);
    EmittedNext(s.raw, k, s.transport);
    SpokenNext(s.raw, k, tokens);
    Associate(base, Emitted(s.raw[..k], s.transport), EmittedBy(s.raw[k].event, s.transport && first));
  }

  lemma EmittedNext(raw: seq<RawStep>, k: nat, transport: bool)
    requires k < |raw|
    ensures Emitted(raw[..k + 1], transport) ==
            Emitted(raw[..k], transport) + EmittedBy(raw[k].event, transport && !HasText(raw[..k]))
  {
    assert raw[..k + 1][..k] == raw[..k];
  }

  lemma SpokenNext(raw: seq<RawStep>, k: nat, tokens: seq<string>)
    requires k < |raw| && Join(tokens) == Spoken(raw[..k])
    ensures IsText(raw[k].event) ==> Join(tokens + [raw[k].event.text.value]) == Spoken(raw[..k + 1])
    ensures !IsText(raw[k].event) ==> Join(tokens) == Spoken(raw[..k + 1])
  {
    assert raw[..k + 1][..k] == raw[..k];
    if IsText(raw[k].event) {
      JoinOne(tokens, raw[k].event.text.value);
    } else {
      assert Spoken(raw[..k]) + "" == Spoken(raw[..k]);
    }
  }

  lemma {:induction false} FirstFault(raw: seq<RawStep>, storeFails: bool, k: nat)
    requires k < |raw| && Handled(raw[..k], storeFails) == k
    ensures StepFault(raw[k], !HasText(raw[..k]), storeFails).Some? ==>
      && Handled(raw, storeFails) == k
      && StreamFault(raw, storeFails) == StepFault(raw[k], !HasText(raw[..k]), storeFails)
    ensures StepFault(raw[k], !HasText(raw[..k]), storeFails).None? ==> Handled(raw[..k + 1], storeFails) == k + 1
  {
    assert raw[..k + 1][..k] == raw[..k];
    if StepFault(raw[k], !HasText(raw[..k]), storeFails).Some? {
      HandledStays(raw, storeFails, k, k + 1);
    }
  }

  lemma {:induction false} HandledStays(raw: seq<RawStep>, storeFails: bool, n: nat, k: nat)
    requires n < k <= |raw| && Handled(raw[..k], storeFails) == n
    ensures Handled(raw, storeFails) == n
  {
    if k == |raw| {
      assert raw[..k] == raw;
    } else {
      var before := raw[..|raw| - 1];
      assert before[..k] == raw[..k];
      HandledStays(before, storeFails, n, k);
    }
  }

  lemma {:induction false} HandledPrefix(raw: seq<RawStep>, storeFails: bool, k: nat)
    requires k <= Handled(raw, storeFails)
    ensures Handled(raw[..k], storeFails) == k
  {
    if k == |raw| {
      assert raw[..k] == raw;
    } else {
      assert raw[..|raw| - 1][..k] == raw[..k];
      HandledPrefix(raw[..|raw| - 1], storeFails, k);
    }
  }

  /** Fewer raw events say the beginning of the same text. */
  lemma {:induction false} SpokenGrows(raw: seq<RawStep>, k: nat)
    requires k <= |raw|
    ensures Spoken(raw[..k]) <= Spoken(raw)
  {
    if k == |raw| {
      assert raw[..k] == raw;
    } else {
      assert raw[..|raw| - 1][..k] == raw[..k];
      SpokenGrows(raw[..|raw| - 1], k);
    }
  }

  lemma HasTextNext(raw: seq<RawStep>, k: nat)
    requires k < |raw|
    ensures HasText(raw[..k + 1]) <==> HasText(raw[..k]) || IsText(raw[k].event)
  {
    if HasText(raw[..k]) {
      var i :| 0 <= i < k && IsText(raw[..k][i].event);
      assert IsText(raw[..k + 1][i].event);
    }
    if IsText(raw[k].event) {
      assert IsText(raw[..k + 1][k].event);
    }
    if HasText(raw[..k + 1]) {
      var i :| 0 <= i < k + 1 && IsText(raw[..k + 1][i].event);
      assert i < k ==> IsText(raw[..k][i].event);
    }
  }
}
