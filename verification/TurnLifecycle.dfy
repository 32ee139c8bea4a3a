/** A chat Turn: its lifecycle, what a worker writes over its saved row, idempotent admission of the
    request that creates it, and convergence of stale Turns (backend/apps/chat/services.py,
    _persist_completed_turn in backend/apps/chat/generation.py, and converge_stale_turn in
    backend/apps/chat/stream_events.py). */
module TurnLifecycle {
  import opened Basics
  import opened Options
  import opened PythonText
  import opened AnswerVersions

  datatype Status = Accepted | Retrieving | Reasoning | Answering | Saving | Completed | Failed | Cancelled

  predicate Active(s: Status) {
    s in {Accepted, Retrieving, Reasoning, Answering, Saving}
  }

  function AllowedTransitions(s: Status): set<Status> {
    match s
    case Accepted => {Retrieving, Failed, Cancelled}
    case Retrieving => {Reasoning, Answering, Saving, Failed, Cancelled}
    case Reasoning => {Answering, Saving, Failed, Cancelled}
    case Answering => {Saving, Failed, Cancelled}
    case Saving => {Completed, Failed, Cancelled}
    case Failed => {Accepted}
    case Cancelled => {}
    case Completed => {}
  }

  /** How far a Turn has come. */
  function Rank(s: Status): nat {
    match s
    case Accepted => 0
    case Retrieving => 1
    case Reasoning => 2
    case Answering => 3
    case Saving => 4
    case _ => 5
  }

  /** A Turn goes forward: an accepted one to retrieval only, a later one to any later phase, and a
      saving one to completion. An active one can fail or be cancelled, a failed one be accepted again. */
  lemma TransitionsIff(from: Status, target: Status)
    ensures target in AllowedTransitions(from) <==>
      || (Active(from) && Active(target) && Rank(from) < Rank(target) && (from == Accepted ==> target == Retrieving))
      || (from == Saving && target == Completed)
      || (Active(from) && target in {Failed, Cancelled})
      || (from == Failed && target == Accepted)
  {
  }

  // ---------- error codes ----------

  predicate SafeCode(code: string) {
    1 <= |code| <= 64 && forall i :: 0 <= i < |code| ==>
      'a' <= code[i] <= 'z' || '0' <= code[i] <= '9' || code[i] == '_'
  }

  const RETRYABLE_ERROR_CODES := {
    "answer_save_error", "client_disconnected", "connection_error", "coordination_unavailable",
    "capacity_reached", "lease_lost", "provider_timeout", "provider_unavailable", "session_busy",
    "stream_error", "stream_timeout", "worker_lost"
  }

  /** Only stable machine codes are stored. */
  function NormalizeErrorCode(code: string): (r: string)
    ensures SafeCode(r)
    ensures SafeCode(code) ==> r == code
  {
    var value := Lower(Strip(code));
    if SafeCode(code) then
      StripSafe(code);
      assert value == code;
      value
    else if SafeCode(value) then value
    else "internal_error"
  }

  lemma StripSafe(code: string)
    requires SafeCode(code)
    ensures Strip(code) == code
  {
    assert !IsSpace(code[0]) && !IsSpace(code[|code| - 1]);
  }

  /** The same letters in lower case. */
  predicate IsCaseOf(text: string, code: string) {
    && |text| == |code|
    && forall i :: 0 <= i < |code| ==>
         text[i] == code[i] || ('a' <= code[i] <= 'z' && text[i] as int + 32 == code[i] as int)
  }

  lemma CaseIsLowered(text: string, code: string)
    requires SafeCode(code) && IsCaseOf(text, code)
    ensures Lower(text) == code && text != "" && !IsSpace(text[0]) && !IsSpace(text[|text| - 1])
    ensures SafeCode(text) ==> text == code
  {
    forall i | 0 <= i < |text| ensures LowerChar(text[i]) == code[i] && (SafeCode(text) ==> text[i] == code[i]) {
    }
  }

  lemma StrippedIsRead(padded: string, code: string)
    requires SafeCode(code) && Lower(Strip(padded)) == code && (SafeCode(Strip(padded)) ==> Strip(padded) == code)
    ensures NormalizeErrorCode(padded) == code
  {
    if SafeCode(padded) {
      StripSafe(padded);
    }
  }

  /** A code is recognised in any case and with white space around it; */
  lemma {:induction false} CodeIsRead(before: string, text: string, after: string, code: string)
    requires SafeCode(code) && IsCaseOf(text, code)
    requires forall i :: 0 <= i < |before| ==> IsSpace(before[i])
    requires forall i :: 0 <= i < |after| ==> IsSpace(after[i])
    ensures NormalizeErrorCode(before + (text + after)) == code
  {
    CaseIsLowered(text, code);
    StripIsExact(before, text, after);
    StrippedIsRead(before + (text + after), code);
  }

  /** everything that holds another character is an internal error. */
  lemma {:induction false} OtherCodes(text: string, i: nat)
    requires i < |text| && !IsSpace(text[i]) && text[i] != '\U{212A}' && text[i] != '_'
    requires !('a' <= text[i] <= 'z') && !('A' <= text[i] <= 'Z') && !('0' <= text[i] <= '9')
    ensures NormalizeErrorCode(text) == "internal_error"
  {
    InStripped(text, i);
    var k :| 0 <= k < |Strip(text)| && Strip(text)[k] == text[i];
    assert Lower(Strip(text))[k] == text[i];
  }

  // ---------- one Turn ----------

  datatype Turn = Turn(
    status: Status, errorCode: string, answer: Option<nat>, completedAt: Option<int>,
    modelId: string, attempts: nat, updatedAt: int)

  datatype Move = Move(target: Status, errorCode: string, answer: Option<nat>, modelId: Option<string>, now: int)

  predicate Allowed(t: Turn, m: Move) {
    m.target == t.status || m.target in AllowedTransitions(t.status)
  }

  /** The Turn that an allowed move leaves in memory. */
  function Moved(t: Turn, m: Move): Turn {
    t.(status := m.target,
       modelId := if m.modelId.Some? then Take(m.modelId.value, 160) else t.modelId,
       answer := if m.answer.Some? then m.answer else t.answer,
       errorCode := if m.target == Failed then NormalizeErrorCode(m.errorCode)
                    else if m.target == Cancelled then t.errorCode else "",
       completedAt := if m.target in {Completed, Failed, Cancelled} then Some(m.now) else t.completedAt)
  }

  /** The move is allowed, and completing comes with an answer. */
  predicate Valid(t: Turn, m: Move) {
    Allowed(t, m) && (m.target == Completed ==> Moved(t, m).answer.Some?)
  }

  /** What the object is afterwards. A completion without an answer is found out too late for it. */
  function Kept(t: Turn, m: Move, storeFails: bool): Turn {
    if !Allowed(t, m) then t
    else if !Valid(t, m) then Moved(t, m).(completedAt := t.completedAt)
    else if storeFails then Moved(t, m)
    else Moved(t, m).(updatedAt := m.now)
  }

  /** What the saved row is afterwards: the object's fields are written over it, whatever it holds;
      only the number of attempts stays. */
  function Overwritten(row: Turn, t: Turn, m: Move, storeFails: bool): Turn {
    if Valid(t, m) && !storeFails then Moved(t, m).(updatedAt := m.now, attempts := row.attempts) else row
  }

  /** What a transition that is stored says in the row. */
  lemma TransitionWrites(row: Turn, t: Turn, m: Move)
    requires Valid(t, m)
    ensures var after := Overwritten(row, t, m, false);
      && after.status == m.target && after.attempts == row.attempts && after.updatedAt == m.now
      && (m.modelId.Some? ==> after.modelId <= m.modelId.value && |after.modelId| == Min(160, |m.modelId.value|))
      && (m.modelId.None? ==> after.modelId == t.modelId)
      && after.answer == (if m.answer.Some? then m.answer else t.answer)
      && after.completedAt == (if Active(m.target) then t.completedAt else Some(m.now))
      && match m.target {
         case Failed => SafeCode(after.errorCode) && (SafeCode(m.errorCode) ==> after.errorCode == m.errorCode)
         case Cancelled => after.errorCode == t.errorCode
         case _ => after.errorCode == ""
         }
  {
  }

  datatype Outcome = Saved | InvalidTransition | StoreFailed

  /** A Turn object and the database row it was loaded from. */
  class ChatTurn {
    var memory: Turn
    var row: Turn

    constructor (row: Turn)
      ensures this.row == row && memory == row
    {
      this.row, memory := row, row;
    }

    /** Changes the object field by field and then saves it, without a look at the row. */
    method Transition(m: Move, storeFails: bool) returns (outcome: Outcome)
      modifies this
      ensures outcome == if !Valid(old(memory), m) then InvalidTransition
                         else if storeFails then StoreFailed else Saved
      ensures memory == Kept(old(memory), m, storeFails)
      ensures row == Overwritten(old(row), old(memory), m, storeFails)
    {
      if m.target != memory.status && m.target !in AllowedTransitions(memory.status) {
        return InvalidTransition;
      }
      memory := memory.(status := m.target);
      if m.modelId.Some? {
        memory := memory.(modelId := Take(m.modelId.value, 160));
      }
      if m.answer.Some? {
        memory := memory.(answer := m.answer);
      }
      if m.target == Failed {
        memory := memory.(errorCode := NormalizeErrorCode(m.errorCode));
      } else if m.target != Cancelled {
        memory := memory.(errorCode := "");
      }
      if m.target == Completed && memory.answer.None? {
        return InvalidTransition;
      }
      if m.target in {Completed, Failed, Cancelled} {
        memory := memory.(completedAt := Some(m.now));
      }
      if storeFails {
        return StoreFailed;
      }
      memory := memory.(updatedAt := m.now);
      row := row.(status := memory.status, modelId := memory.modelId, answer := memory.answer,
                  errorCode := memory.errorCode, completedAt := memory.completedAt,
                  updatedAt := memory.updatedAt);
      return Saved;
    }
  }

  /** What holds of every saved row. */
  predicate RowOk(t: Turn) {
    && (t.errorCode != "" <==> t.status == Failed)
    && (t.status == Completed ==> t.answer.Some?)
    && (t.completedAt.Some? <==> !Active(t.status))
  }

  /** What holds of every object, also after a transition that was refused. */
  predicate CopyOk(t: Turn) {
    && (t.errorCode != "" <==> t.status == Failed)
    && (Active(t.status) ==> t.completedAt.None?)
  }

  // ---------- what a worker writes ----------

  /** The saved row, the object that a worker has loaded from it some time ago, and all messages. */
  datatype Desk = Desk(row: Turn, copy: Turn, messages: seq<Message>)

  /** How the transaction that stores an answer ends: nothing is stored; it is stored and the worker
      is not told; or it is stored and the worker knows. */
  datatype End = RolledBack | Unanswered | Returned

  /** Transit is a transition of the worker's object, Persist the transaction that stores the answer
      under the row lock, and Others whatever others write meanwhile. */
  datatype Write =
    | Transit(move: Move, storeFails: bool)
    | Persist(content: string, source: Option<nat>, newGroup: nat, modelId: string, now: int, end: End)
    | Others(row: Turn, messages: seq<Message>)

  /** Only admission makes a Turn accepted, and only the transaction completes it. */
  predicate IsWork(w: Write) {
    w.Transit? ==> w.move.target !in {Accepted, Completed} && w.move.answer.None?
  }

  /** An answer is stored only after the saving phase began. */
  predicate CanWrite(d: Desk, w: Write) {
    IsWork(w) && (w.Persist? ==> d.copy.status == Saving && (w.source.Some? ==> w.source.value < |d.messages|))
  }

  predicate HasAnswer(row: Turn) {
    row.status == Completed && row.answer.Some?
  }

  /** The transaction works on a fresh copy of the row, and a row that has its answer is left alone. */
  predicate Stores(row: Turn, messages: seq<Message>, w: Write)
    requires w.Persist?
  {
    && w.end != RolledBack && !HasAnswer(row) && row.status in {Saving, Completed}
    && (w.source.Some? ==> w.source.value < |messages|)
  }

  function AfterPersist(d: Desk, w: Write): Desk
    requires w.Persist?
  {
    if Stores(d.row, d.messages, w) then
      var row := Moved(d.row, Move(Completed, "", Some(|d.messages|), Some(w.modelId), w.now)).(updatedAt := w.now);
      Desk(row,
           if w.end == Returned
           then d.copy.(status := Completed, answer := row.answer, modelId := w.modelId) else d.copy,
           Added(d.messages, w.source, w.newGroup, w.content))
    else if HasAnswer(d.row) && w.end == Returned then
      d.(copy := d.copy.(status := Completed, answer := d.row.answer))
    else d
  }

  /** What the transaction leaves in the database: everything or nothing. */
  lemma PersistWrites(d: Desk, w: Write)
    requires w.Persist?
    ensures var after := AfterPersist(d, w);
      if w.end != RolledBack && (w.source.Some? ==> w.source.value < |d.messages|)
         && (d.row.status == Saving || (d.row.status == Completed && d.row.answer.None?))
      then
        && Extends(d.messages, after.messages, w.source, w.newGroup, w.content)
        && after.row.status == Completed && after.row.answer == Some(|d.messages|) && after.row.errorCode == ""
        && after.row.completedAt == Some(w.now) && after.row.updatedAt == w.now
        && after.row.attempts == d.row.attempts
        && after.row.modelId <= w.modelId && |after.row.modelId| == Min(160, |w.modelId|)
        && after.copy == if w.end != Returned then d.copy
                         else d.copy.(status := Completed, answer := Some(|d.messages|), modelId := w.modelId)
      else
        && after.messages == d.messages && after.row == d.row
        && after.copy == if w.end == Returned && HasAnswer(d.row)
                         then d.copy.(status := Completed, answer := d.row.answer) else d.copy
  {
    if Stores(d.row, d.messages, w) {
      AddedExtends(d.messages, w.source, w.newGroup, w.content);
    }
  }

  function AfterWrite(d: Desk, w: Write): Desk {
    match w
    case Transit(move, storeFails) =>
      Desk(Overwritten(d.row, d.copy, move, storeFails), Kept(d.copy, move, storeFails), d.messages)
    case Persist(_, _, _, _, _, _) => AfterPersist(d, w)
    case Others(row, messages) => Desk(row, d.copy, messages)
  }

  function AfterWrites(d: Desk, writes: seq<Write>): Desk {
    if writes == [] then d else AfterWrite(AfterWrites(d, writes[..|writes| - 1]), writes[|writes| - 1])
  }

  predicate AllWork(d: Desk, writes: seq<Write>) {
    writes == [] ||
    (AllWork(d, writes[..|writes| - 1]) && CanWrite(AfterWrites(d, writes[..|writes| - 1]), writes[|writes| - 1]))
  }

  lemma OneMoreWrite(d: Desk, writes: seq<Write>, w: Write)
    ensures AfterWrites(d, writes + [w]) == AfterWrite(AfterWrites(d, writes), w)
    ensures AllWork(d, writes + [w]) <==> AllWork(d, writes) && CanWrite(AfterWrites(d, writes), w)
  {
    assert (writes + [w])[..|writes|] == writes;
  }

  // ---------- admission ----------

  datatype Scope = Scope(
    session: nat, user: nat, space: nat, content: string, mode: string, thinking: bool, protocol: nat)
  datatype Session = Session(id: nat, owner: Option<nat>, space: Option<nat>)
  datatype Question = Question(session: nat, space: nat, isUser: bool, content: string)
  datatype Request = Request(
    session: Session, locked: Option<Session>, writable: bool,
    content: string, mode: string, thinking: bool, protocol: nat, modelId: string,
    question: Option<Question>, now: int)

  datatype Disposition = Created | Retry | InProgress | AlreadyCompleted | TerminalTurn | Conflict
  datatype BeginResult = Begun(disposition: Disposition) | ScopeError | NotWritable

  predicate ShouldGenerate(r: BeginResult) {
    r == Begun(Created) || r == Begun(Retry)
  }

  /** What the database holds for one user and one client request id. */
  datatype Admitted = Admitted(turn: Turn, scope: Scope)
  datatype Store = Store(admitted: Option<Admitted>, questions: nat)

  predicate OwnedScope(r: Request) {
    && r.session.owner.Some? && r.locked.Some?
    && r.locked.value.owner == r.session.owner && r.locked.value.id == r.session.id
    && r.locked.value.space.Some?
  }

  function ScopeOf(r: Request): Scope
    requires OwnedScope(r)
  {
    Scope(r.session.id, r.session.owner.value, r.locked.value.space.value,
          r.content, r.mode, r.thinking, r.protocol)
  }

  predicate QuestionFits(r: Request)
    requires OwnedScope(r)
  {
    r.question.Some? ==>
      && r.question.value.session == r.session.id && r.question.value.space == r.locked.value.space.value
      && r.question.value.isUser && r.question.value.content == r.content
  }

  predicate Retryable(t: Turn) {
    t.status == Failed && t.errorCode in RETRYABLE_ERROR_CODES
  }

  function NewTurn(r: Request): Turn {
    Turn(Accepted, "", None, None, r.modelId, 1, r.now)
  }

  function Retried(t: Turn, r: Request): Turn {
    Turn(Accepted, "", None, None, r.modelId, t.attempts + 1, r.now)
  }

  /** How a request is classified. */
  function Classify(s: Store, r: Request): BeginResult {
    if !OwnedScope(r) then ScopeError
    else if !r.writable then NotWritable
    else match s.admitted
      case None => if QuestionFits(r) then Begun(Created) else ScopeError
      case Some(a) =>
        if a.scope != ScopeOf(r) then Begun(Conflict)
        else if a.turn.status == Completed then Begun(AlreadyCompleted)
        else if Active(a.turn.status) then Begun(InProgress)
        else if Retryable(a.turn) then Begun(Retry)
        else Begun(TerminalTurn)
  }

  function AfterBegin(s: Store, r: Request): Store {
    match Classify(s, r)
    case Begun(Created) =>
      Store(Some(Admitted(NewTurn(r), ScopeOf(r))), s.questions + if r.question.None? then 1 else 0)
    case Begun(Retry) => s.(admitted := Some(s.admitted.value.(turn := Retried(s.admitted.value.turn, r))))
    case _ => s
  }

  class TurnRepository {
    var store: Store

    constructor ()
      ensures store == Store(None, 0)
    {
      store := Store(None, 0);
    }

    /** Runs in one transaction under the user's and the session's row lock. */
    method BeginChatTurn(r: Request) returns (result: BeginResult)
      modifies this
      ensures result == Classify(old(store), r)
      ensures store == AfterBegin(old(store), r)
      ensures !ShouldGenerate(result) ==> store == old(store)
    {
      if r.session.owner.None? {
        return ScopeError;
      }
      if r.locked.None? || r.locked.value.owner != r.session.owner || r.locked.value.id != r.session.id {
        return ScopeError;
      }
      var session := r.locked.value;
      if session.space.None? {
        return ScopeError;
      }
      if !r.writable {
        return NotWritable;
      }
      if store.admitted.None? {
        var questions := store.questions;
        if r.question.None? {
          questions := questions + 1;
        } else {
          var q := r.question.value;
          if q.session != session.id || q.space != session.space.value || !q.isUser || q.content != r.content {
            return ScopeError;
          }
        }
        store := Store(Some(Admitted(NewTurn(r), ScopeOf(r))), questions);
        return Begun(Created);
      }
      var turn, scope := store.admitted.value.turn, store.admitted.value.scope;
      if !(scope.session == session.id && scope.user == r.session.owner.value
           && scope.space == session.space.value && scope.content == r.content && scope.mode == r.mode
           && scope.thinking == r.thinking && scope.protocol == r.protocol) {
        return Begun(Conflict);
      }
      if turn.status == Completed {
        return Begun(AlreadyCompleted);
      }
      if Active(turn.status) {
        return Begun(InProgress);
      }
      if turn.status == Failed && turn.errorCode in RETRYABLE_ERROR_CODES {
        turn := turn.(status := Accepted, attempts := turn.attempts + 1, errorCode := "",
                      modelId := r.modelId, answer := None, completedAt := None, updatedAt := r.now);
        store := store.(admitted := Some(Admitted(turn, scope)));
        return Begun(Retry);
      }
      return Begun(TerminalTurn);
    }
  }

  // ---------- stale Turns ----------

  const LEASE_TTL_SECONDS: int := 180

  datatype LeaseState = LeasePresent | LeaseAbsent | LeaseUnknown

  predicate Stale(snapshot: Turn, lease: LeaseState, now: int) {
    Active(snapshot.status) && now - snapshot.updatedAt > LEASE_TTL_SECONDS && lease == LeaseAbsent
  }

  function WorkerLost(t: Turn, now: int): Turn {
    t.(status := Failed, errorCode := "worker_lost", completedAt := Some(now), updatedAt := now)
  }

  /** The row after a caller that loaded `snapshot` tried to converge it. */
  function AfterConverge(row: Turn, snapshot: Turn, lease: LeaseState, now: int): Turn {
    if Stale(snapshot, lease, now) && row.status == snapshot.status && row.updatedAt == snapshot.updatedAt
    then WorkerLost(row, now) else row
  }

  /** The row is failed exactly if the snapshot was active and idle for more than three minutes, there
      surely is no lease, and status and update time are still the snapshot's; then as worker_lost,
      which admits a retry. */
  lemma ConvergesIff(row: Turn, snapshot: Turn, lease: LeaseState, now: int)
    ensures var after := AfterConverge(row, snapshot, lease, now);
      && (after != row <==>
            && Active(snapshot.status) && now > snapshot.updatedAt + 180 && lease == LeaseAbsent
            && row.status == snapshot.status && row.updatedAt == snapshot.updatedAt)
      && (after != row ==>
            && after == row.(status := Failed, errorCode := "worker_lost", completedAt := Some(now), updatedAt := now)
            && Retryable(after))
  {
  }

  /** `turn.memory` is the caller's snapshot; the conditional update decides on the row. */
  method ConvergeStaleTurn(turn: ChatTurn, lease: LeaseState, now: int) returns (converged: bool)
    modifies turn
    ensures turn.row == AfterConverge(old(turn.row), old(turn.memory), lease, now)
    ensures converged <==> turn.row != old(turn.row)
    ensures converged ==>
              && Active(old(turn.row).status) && now - old(turn.row).updatedAt > LEASE_TTL_SECONDS
              && lease == LeaseAbsent && turn.memory.status == Failed
  {
    if !Active(turn.memory.status) {
      return false;
    }
    if now - turn.memory.updatedAt <= LEASE_TTL_SECONDS {
      return false;
    }
    if lease == LeaseUnknown {
      return false;
    }
    if lease == LeasePresent {
      return false;
    }
    var cutoff := now - LEASE_TTL_SECONDS;
    if turn.row.status == turn.memory.status && turn.row.updatedAt == turn.memory.updatedAt
       && turn.row.updatedAt <= cutoff {
      turn.row := turn.row.(status := Failed, errorCode := "worker_lost", completedAt := Some(now), updatedAt := now);
      turn.memory := turn.memory.(status := Failed, errorCode := "worker_lost",
                                  completedAt := Some(now), updatedAt := now);
      return true;
    }
    turn.memory := turn.row;
    return false;
  }
}
