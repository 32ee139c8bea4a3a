/** The whole life of one Turn: admissions, convergences, and any number of workers that load it and
    later write what they have loaded over it, in any order (backend/apps/chat/services.py,
    generation.py, tasks.py and stream_events.py). A worker's writes need neither a fresh object nor
    the session's lease: the handler of a lost lease writes after the loss, and the task's own mark
    never looks at it. */
module TurnHistory {
  import opened Options
  import opened AnswerVersions
  import opened TurnLifecycle

  /** copies: what each worker has in memory. */
  datatype World = World(store: Store, copies: map<nat, Turn>, messages: seq<Message>)

  /** Load stands for every way to get a fresh object, Leave for every way to lose it, Work for a write
      of the worker itself. A convergence may come with any snapshot. */
  datatype Step =
    | Begin(request: Request)
    | Load(worker: nat)
    | Leave(worker: nat)
    | Work(worker: nat, write: Write)
    | Converge(snapshot: Turn, lease: LeaseState, now: int)

  function Row(w: World): Turn
    requires w.store.admitted.Some?
  {
    w.store.admitted.value.turn
  }

  function WithRow(store: Store, row: Turn): Store
    requires store.admitted.Some?
  {
    store.(admitted := Some(store.admitted.value.(turn := row)))
  }

  /** The worker has loaded the Turn. */
  predicate CanWork(w: World, worker: nat, write: Write) {
    w.store.admitted.Some? && worker in w.copies && !write.Others? && CanWrite(DeskOf(w, worker), write)
  }

  function DeskOf(w: World, worker: nat): Desk
    requires w.store.admitted.Some? && worker in w.copies
  {
    Desk(Row(w), w.copies[worker], w.messages)
  }

  /** A step that is not possible is left out. */
  function Next(w: World, step: Step): World {
    match step
    case Begin(r) => w.(store := AfterBegin(w.store, r))
    case Load(worker) => if w.store.admitted.Some? then w.(copies := w.copies[worker := Row(w)]) else w
    case Leave(worker) => w.(copies := w.copies - {worker})
    case Work(worker, write) =>
      if CanWork(w, worker, write) then
        var d := AfterWrite(DeskOf(w, worker), write);
        World(WithRow(w.store, d.row), w.copies[worker := d.copy], d.messages)
      else w
    case Converge(snapshot, lease, now) =>
      if w.store.admitted.Some? then w.(store := WithRow(w.store, AfterConverge(Row(w), snapshot, lease, now))) else w
  }

  function Run(w: World, steps: seq<Step>): World {
    if steps == [] then w else Next(Run(w, steps[..|steps| - 1]), steps[|steps| - 1])
  }

  function Empty(messages: seq<Message>): World {
    World(Store(None, 0), map[], messages)
  }

  lemma OneMore(w: World, steps: seq<Step>, step: Step)
    ensures Run(w, steps + [step]) == Next(Run(w, steps), step)
  {
    assert (steps + [step])[..|steps|] == steps;
  }

  lemma {:induction false} RunAppend(w: World, a: seq<Step>, b: seq<Step>)
    ensures Run(w, a + b) == Run(Run(w, a), b)
  {
    if b == [] {
      assert a + b == a;
    } else {
      var n := |b| - 1;
      assert (a + b)[..|a + b| - 1] == a + b[..n];
      RunAppend(w, a, b[..n]);
    }
  }

  lemma RunOne(w: World, step: Step)
    ensures Run(w, [step]) == Next(w, step)
  {
    assert [step][..0] == [];
    assert Run(w, []) == w;
  }

  lemma {:induction false} StaysAdmitted(w: World, steps: seq<Step>)
    requires w.store.admitted.Some?
    ensures Run(w, steps).store.admitted.Some?
    ensures Run(w, steps).store.admitted.value.scope == w.store.admitted.value.scope
    ensures Run(w, steps).store.questions == w.store.questions
  {
    if steps != [] {
      StaysAdmitted(w, steps[..|steps| - 1]);
    }
  }

  // ---------- what every saved row keeps ----------

  predicate AllOk(w: World) {
    && (w.store.admitted.Some? ==> RowOk(Row(w)))
    && forall k :: k in w.copies ==> CopyOk(w.copies[k])
  }

  lemma OverwrittenOk(row: Turn, t: Turn, m: Move, storeFails: bool)
    requires RowOk(row) && CopyOk(t) && m.target !in {Accepted, Completed}
    ensures RowOk(Overwritten(row, t, m, storeFails)) && CopyOk(Kept(t, m, storeFails))
  {
  }

  lemma StepKeepsOk(w: World, step: Step)
    requires AllOk(w)
    ensures AllOk(Next(w, step))
  {
    if step.Work? && CanWork(w, step.worker, step.write) && step.write.Transit? {
      OverwrittenOk(Row(w), w.copies[step.worker], step.write.move, step.write.storeFails);
    }
  }

  lemma {:induction false} StaysOk(w: World, steps: seq<Step>)
    requires AllOk(w)
    ensures AllOk(Run(w, steps))
  {
    if steps != [] {
      StaysOk(w, steps[..|steps| - 1]);
      StepKeepsOk(Run(w, steps[..|steps| - 1]), steps[|steps| - 1]);
    }
  }

  /** Every saved row of every run is in order, whatever stale objects are written over it. */
  lemma {:induction false} SavedRowLifecycle(messages: seq<Message>, steps: seq<Step>)
    ensures var w := Run(Empty(messages), steps); w.store.admitted.Some? ==> RowOk(Row(w))
  {
    StaysOk(Empty(messages), steps);
  }

  // ---------- admission ----------

  /** How many of the requests were told to generate. */
  function Generations(messages: seq<Message>, steps: seq<Step>): nat {
    if steps == [] then 0
    else Generations(messages, steps[..|steps| - 1]) + if Generates(messages, steps, |steps| - 1) then 1 else 0
  }

  predicate Generates(messages: seq<Message>, steps: seq<Step>, i: nat)
    requires i < |steps|
  {
    steps[i].Begin? && ShouldGenerate(Classify(Run(Empty(messages), steps[..i]).store, steps[i].request))
  }

  /** Admission is idempotent: at most one question and one Turn, and the attempts are exactly the
      times somebody was told to generate. */
  lemma {:induction false} AdmissionIsIdempotent(messages: seq<Message>, steps: seq<Step>)
    ensures var s := Run(Empty(messages), steps).store;
      && s.questions <= 1
      && (s.admitted.None? ==> s.questions == 0 && Generations(messages, steps) == 0)
      && (s.admitted.Some? ==> s.admitted.value.turn.attempts == Generations(messages, steps))
  {
    if steps != [] {
      var n := |steps| - 1;
      AdmissionIsIdempotent(messages, steps[..n]);
    }
  }

  /** The request of step i made the Turn. */
  predicate IsCreated(messages: seq<Message>, steps: seq<Step>, i: nat)
    requires i < |steps|
  {
    steps[i].Begin? && Classify(Run(Empty(messages), steps[..i]).store, steps[i].request) == Begun(Created)
  }

  /** An owner asks in a session that, once locked, is still the owner's and has a space. */
  predicate IsOwned(r: Request) {
    && r.session.owner.Some? && r.locked.Some? && r.locked.value.space.Some?
    && r.locked.value.id == r.session.id && r.locked.value.owner == r.session.owner
  }

  /** Two requests ask the same thing in the same place. */
  predicate SameRequest(q: Request, r: Request) {
    && q.session.id == r.session.id && q.session.owner == r.session.owner
    && q.locked.Some? && r.locked.Some? && q.locked.value.space == r.locked.value.space
    && q.content == r.content && q.mode == r.mode && q.thinking == r.thinking && q.protocol == r.protocol
  }

  /** What the first admission leaves: one accepted Turn on its first attempt, and one question, unless
      the caller came with one. */
  lemma {:induction false} CreatedLeaves(messages: seq<Message>, steps: seq<Step>, i: nat)
    requires i < |steps| && IsCreated(messages, steps, i)
    ensures var q, w := steps[i].request, Run(Empty(messages), steps[..i + 1]);
      && IsOwned(q) && q.writable
      && w.store.admitted.Some? && w.store.questions == (if q.question.None? then 1 else 0)
      && Row(w) == Turn(Accepted, "", None, None, q.modelId, 1, q.now)
  {
    AdmissionIsIdempotent(messages, steps[..i]);
    assert steps[..i + 1][..i] == steps[..i];
  }

  lemma {:induction false} AfterCreated(messages: seq<Message>, steps: seq<Step>, i: nat)
    requires i < |steps| && IsCreated(messages, steps, i)
    ensures var q, w := steps[i].request, Run(Empty(messages), steps);
      && OwnedScope(q) && w.store.admitted.Some? && w.store.admitted.value.scope == ScopeOf(q)
      && w.store.questions == if q.question.None? then 1 else 0
  {
    var w := Run(Empty(messages), steps[..i + 1]);
    CreatedLeaves(messages, steps, i);
    assert steps[..i + 1][..i] == steps[..i];
    assert w.store.admitted.value.scope == ScopeOf(steps[i].request);
    RunAppend(Empty(messages), steps[..i + 1], steps[i + 1..]);
    assert steps == steps[..i + 1] + steps[i + 1..];
    StaysAdmitted(w, steps[i + 1..]);
  }

  /** Whatever happened since a request made the Turn, another one is a conflict exactly if it asks
      something else or somewhere else; */
  lemma {:induction false} ConflictIff(messages: seq<Message>, steps: seq<Step>, i: nat, r: Request)
    requires i < |steps| && IsCreated(messages, steps, i)
    requires IsOwned(r) && r.writable
    ensures Classify(Run(Empty(messages), steps).store, r) == Begun(Conflict) <==> !SameRequest(steps[i].request, r)
  {
    AfterCreated(messages, steps, i);
  }

  /** and the same one is answered by what the row says, whatever question comes with it. */
  lemma {:induction false} AnsweredByStatus(messages: seq<Message>, steps: seq<Step>, i: nat, r: Request)
    requires i < |steps| && IsCreated(messages, steps, i)
    requires IsOwned(r) && r.writable && SameRequest(steps[i].request, r)
    ensures var w := Run(Empty(messages), steps);
      && w.store.admitted.Some?
      && match Row(w).status {
         case Completed => Classify(w.store, r) == Begun(AlreadyCompleted)
         case Cancelled => Classify(w.store, r) == Begun(TerminalTurn)
         case Failed => Classify(w.store, r) ==
           Begun(if Row(w).errorCode in RETRYABLE_ERROR_CODES then Retry else TerminalTurn)
         case _ => Classify(w.store, r) == Begun(InProgress)
         }
  {
    AfterCreated(messages, steps, i);
  }

  /** Nothing is admitted for somebody else, in a read-only space, or with a question that does not
      fit; otherwise the first request makes the Turn, and no later one. */
  lemma {:induction false} CreatedIff(messages: seq<Message>, steps: seq<Step>, r: Request)
    ensures var answer := Classify(Run(Empty(messages), steps).store, r);
      && (!IsOwned(r) ==> answer == ScopeError)
      && (IsOwned(r) && !r.writable ==> answer == NotWritable)
      && (IsOwned(r) && r.writable && (exists i :: 0 <= i < |steps| && IsCreated(messages, steps, i)) ==>
            answer.Begun? && answer.disposition != Created)
      && (IsOwned(r) && r.writable && (forall i :: 0 <= i < |steps| ==> !IsCreated(messages, steps, i)) ==>
            answer == if r.question.None? || (
                           && r.question.value.isUser && r.question.value.content == r.content
                           && r.question.value.session == r.session.id
                           && Some(r.question.value.space) == r.locked.value.space)
                      then Begun(Created) else ScopeError)
  {
    AdmittedIff(messages, steps);
  }

  lemma {:induction false} AdmittedIff(messages: seq<Message>, steps: seq<Step>)
    ensures Run(Empty(messages), steps).store.admitted.Some? <==>
      exists i :: 0 <= i < |steps| && IsCreated(messages, steps, i)
  {
    if steps != [] {
      var n := |steps| - 1;
      AdmittedIff(messages, steps[..n]);
      assert forall i :: 0 <= i < n ==> (IsCreated(messages, steps, i) <==> IsCreated(messages, steps[..n], i)) by {
        forall i | 0 <= i < n ensures IsCreated(messages, steps, i) <==> IsCreated(messages, steps[..n], i) {
          assert steps[..n][..i] == steps[..i];
        }
      }
      assert Run(Empty(messages), steps[..n]).store.admitted.None? ==>
        (IsCreated(messages, steps, n) <==> Run(Empty(messages), steps).store.admitted.Some?);
    }
  }

  /** A retry starts the same Turn over, with the model of the new request. */
  lemma RetryStartsOver(w: World, r: Request)
    requires w.store.admitted.Some? && Classify(w.store, r) == Begun(Retry)
    ensures var v := Next(w, Begin(r));
      && v.store.admitted.Some? && v.store.questions == w.store.questions
      && v.store.admitted.value.scope == w.store.admitted.value.scope
      && Row(v) == Turn(Accepted, "", None, None, r.modelId, Row(w).attempts + 1, r.now)
  {
  }

  predicate FailedRetryably(w: World) {
    w.store.admitted.Some? && Retryable(Row(w))
  }

  /** Step `k` takes the row into FAILED with a retryable code. */
  predicate EntersRetryableFailure(messages: seq<Message>, steps: seq<Step>, k: nat)
    requires k < |steps|
  {
    !FailedRetryably(Run(Empty(messages), steps[..k])) && FailedRetryably(Run(Empty(messages), steps[..k + 1]))
  }

  lemma {:induction false} Crossing(messages: seq<Message>, steps: seq<Step>, i: nat, j: nat) returns (k: nat)
    requires i < j <= |steps|
    requires !FailedRetryably(Run(Empty(messages), steps[..i])) && FailedRetryably(Run(Empty(messages), steps[..j]))
    ensures i <= k < j && EntersRetryableFailure(messages, steps, k)
    decreases j - i
  {
    if FailedRetryably(Run(Empty(messages), steps[..j - 1])) {
      k := Crossing(messages, steps, i, j - 1);
    } else {
      k := j - 1;
    }
  }

  lemma GeneratedIsAccepted(messages: seq<Message>, steps: seq<Step>, i: nat)
    requires i < |steps| && Generates(messages, steps, i)
    ensures var w := Run(Empty(messages), steps[..i + 1]); !FailedRetryably(w) && w.store.admitted.Some?
  {
    assert steps[..i + 1][..i] == steps[..i];
  }

  lemma {:induction false} AdmittedLater(messages: seq<Message>, steps: seq<Step>, i: nat, j: nat)
    requires i <= j <= |steps| && Run(Empty(messages), steps[..i]).store.admitted.Some?
    ensures Run(Empty(messages), steps[..j]).store.admitted.Some?
  {
    if i < j {
      AdmittedLater(messages, steps, i, j - 1);
      assert steps[..j][..j - 1] == steps[..j - 1];
    }
  }

  /** Between two requests that are told to generate, the Turn failed retryably. */
  lemma GenerationsAreSeparated(messages: seq<Message>, steps: seq<Step>, i: nat, j: nat) returns (k: nat)
    requires i < j < |steps| && Generates(messages, steps, i) && Generates(messages, steps, j)
    ensures i < k < j && EntersRetryableFailure(messages, steps, k)
  {
    GeneratedIsAccepted(messages, steps, i);
    AdmittedLater(messages, steps, i + 1, j);
    k := Crossing(messages, steps, i + 1, j);
  }

  // ---------- when a final status is left ----------

  /** A transition of the worker's object that reaches the database. */
  predicate Writes(w: World, step: Step) {
    && step.Work? && CanWork(w, step.worker, step.write) && step.write.Transit?
    && !step.write.storeFails && Valid(w.copies[step.worker], step.write.move)
  }

  /** A completed or cancelled row is left exactly if some worker writes another status that the
      object it has loaded allows; nothing else touches its status. */
  lemma LeavesIff(w: World, step: Step)
    requires w.store.admitted.Some? && AllOk(w) && Row(w).status in {Completed, Cancelled}
    ensures Next(w, step).store.admitted.Some?
    ensures Row(Next(w, step)).status != Row(w).status <==>
      Writes(w, step) && step.write.move.target != Row(w).status
  {
  }

  /** No object from which the final status could be overwritten. */
  predicate AllFinal(w: World, final: Status) {
    forall k :: k in w.copies ==> w.copies[k].status in {Completed, final}
  }

  lemma FinalStep(w: World, step: Step)
    requires w.store.admitted.Some? && AllOk(w) && Row(w).status in {Completed, Cancelled}
    requires AllFinal(w, Row(w).status)
    ensures var v := Next(w, step);
      v.store.admitted.Some? && Row(v).status == Row(w).status && AllFinal(v, Row(w).status)
  {
    LeavesIff(w, step);
  }

  lemma {:induction false} FinalRun(w: World, steps: seq<Step>)
    requires w.store.admitted.Some? && AllOk(w) && Row(w).status in {Completed, Cancelled}
    requires AllFinal(w, Row(w).status)
    ensures var v := Run(w, steps);
      v.store.admitted.Some? && Row(v).status == Row(w).status && AllFinal(v, Row(w).status)
  {
    if steps != [] {
      var n := |steps| - 1;
      FinalRun(w, steps[..n]);
      StaysOk(w, steps[..n]);
      FinalStep(Run(w, steps[..n]), steps[n]);
    }
  }

  ghost predicate StaysFinal(w: World)
    requires w.store.admitted.Some?
  {
    forall steps :: StatusAfter(w, steps) == Row(w).status
  }

  function StatusAfter(w: World, steps: seq<Step>): Status
    requires w.store.admitted.Some?
  {
    StaysAdmitted(w, steps);
    Row(Run(w, steps)).status
  }

  /** A worker whose object is not at an end can write it. */
  function Overwriting(worker: nat, status: Status): Step {
    Work(worker, Transit(Move(if status == Accepted then Failed else status, "lease_lost", None, None, 0), false))
  }

  lemma SomebodyLeaves(w: World, worker: nat)
    requires w.store.admitted.Some? && AllOk(w) && Row(w).status in {Completed, Cancelled}
    requires worker in w.copies && w.copies[worker].status !in {Completed, Row(w).status}
    ensures StatusAfter(w, [Overwriting(worker, w.copies[worker].status)]) != Row(w).status
  {
    var step := Overwriting(worker, w.copies[worker].status);
    LeavesIff(w, step);
    assert [step][..0] == [];
    assert Run(w, []) == w;
  }

  /** So a completed or cancelled Turn stays so for good exactly if no worker still holds an object
      that says otherwise. */
  lemma {:induction false} FinalForGoodIff(w: World)
    requires w.store.admitted.Some? && AllOk(w) && Row(w).status in {Completed, Cancelled}
    ensures StaysFinal(w) <==> AllFinal(w, Row(w).status)
  {
    if AllFinal(w, Row(w).status) {
      forall steps ensures StatusAfter(w, steps) == Row(w).status {
        FinalRun(w, steps);
      }
    } else {
      var k :| k in w.copies && w.copies[k].status !in {Completed, Row(w).status};
      SomebodyLeaves(w, k);
    }
  }

  /** However the run goes on, the request is answered with the completed Turn. */
  ghost predicate AlwaysAnswered(w: World, r: Request) {
    forall steps :: IsAnswered(w, steps, r)
  }

  predicate IsAnswered(w: World, steps: seq<Step>, r: Request) {
    Classify(Run(w, steps).store, r) == Begun(AlreadyCompleted)
  }

  /** Then, and only then, every later request with the same content gets the completed answer. */
  lemma {:induction false} CompletedForGoodIff(w: World, r: Request)
    requires w.store.admitted.Some? && AllOk(w) && Row(w).status == Completed
    requires OwnedScope(r) && r.writable && ScopeOf(r) == w.store.admitted.value.scope
    ensures AlwaysAnswered(w, r) <==> AllFinal(w, Completed)
  {
    FinalForGoodIff(w);
    forall steps ensures IsAnswered(w, steps, r) <==> StatusAfter(w, steps) == Completed {
      StaysAdmitted(w, steps);
    }
    if AlwaysAnswered(w, r) {
      forall steps ensures StatusAfter(w, steps) == Completed {
        assert IsAnswered(w, steps, r);
      }
    }
  }

  // ---------- when the status goes back ----------

  /** A write that does not bring the saved row further. */
  predicate Regresses(w: World, step: Step) {
    && Writes(w, step)
    && step.write.move.target != Row(w).status && Rank(step.write.move.target) <= Rank(Row(w).status)
  }

  predicate Advanced(before: Status, after: Status) {
    after == before || Rank(before) < Rank(after)
  }

  /** Attempts never go down, and while no retry raises them the status goes back exactly in such
      writes. */
  lemma GoesBackIff(w: World, step: Step)
    requires w.store.admitted.Some? && AllOk(w)
    ensures var v := Next(w, step);
      && v.store.admitted.Some? && Row(v).attempts >= Row(w).attempts
      && (Row(v).attempts == Row(w).attempts ==>
            (Advanced(Row(w).status, Row(v).status) <==> !Regresses(w, step)))
      && (Regresses(w, step) ==> Row(v).attempts == Row(w).attempts)
  {
  }

  /** A worker whose object still says what the row says only goes forward. */
  lemma UpToDateAdvances(w: World, step: Step)
    requires Writes(w, step) && w.copies[step.worker].status == Row(w).status
    ensures !Regresses(w, step)
  {
  }

  predicate NoRegress(w: World, steps: seq<Step>) {
    forall k :: 0 <= k < |steps| ==> !Regresses(Run(w, steps[..k]), steps[k])
  }

  /** Without such writes the status only advances between two retries. */
  lemma {:induction false} StatusOnlyAdvances(w: World, steps: seq<Step>)
    requires w.store.admitted.Some? && AllOk(w) && NoRegress(w, steps)
    ensures var v := Run(w, steps);
      && v.store.admitted.Some? && Row(v).attempts >= Row(w).attempts
      && (Row(v).attempts == Row(w).attempts ==> Advanced(Row(w).status, Row(v).status))
  {
    if steps != [] {
      var n := |steps| - 1;
      forall k | 0 <= k < n ensures !Regresses(Run(w, steps[..n][..k]), steps[..n][k]) {
        assert steps[..n][..k] == steps[..k];
      }
      StatusOnlyAdvances(w, steps[..n]);
      StaysOk(w, steps[..n]);
      GoesBackIff(Run(w, steps[..n]), steps[n]);
    }
  }

  // ---------- how many answers are stored ----------

  predicate IsCompleted(w: World) {
    w.store.admitted.Some? && Row(w).status == Completed
  }

  /** How often a completed row was overwritten. */
  function Losses(w: World, steps: seq<Step>): nat {
    if steps == [] then 0
    else
      var before := Run(w, steps[..|steps| - 1]);
      Losses(w, steps[..|steps| - 1]) +
      if IsCompleted(before) && !IsCompleted(Next(before, steps[|steps| - 1])) then 1 else 0
  }

  /** before: the messages of other Turns; a completed row names the message that was stored last. */
  predicate Counted(w: World, before: seq<Message>, losses: nat) {
    && |w.messages| == |before| + losses + (if IsCompleted(w) then 1 else 0)
    && (IsCompleted(w) ==> Row(w).answer == Some(|w.messages| - 1))
    && forall i :: 0 <= i < |before| ==> w.messages[i].content == before[i].content
  }

  lemma CountStep(w: World, step: Step, before: seq<Message>, losses: nat)
    requires AllOk(w) && Counted(w, before, losses)
    ensures Counted(Next(w, step), before,
                    losses + if IsCompleted(w) && !IsCompleted(Next(w, step)) then 1 else 0)
  {
  }

  /** Over any run the answers that were stored are one for the completed row, if it is completed,
      and one for every time that a completed row was overwritten. */
  lemma {:induction false} AnswersAreCounted(before: seq<Message>, steps: seq<Step>)
    ensures Counted(Run(Empty(before), steps), before, Losses(Empty(before), steps))
  {
    if steps != [] {
      var n := |steps| - 1;
      AnswersAreCounted(before, steps[..n]);
      StaysOk(Empty(before), steps[..n]);
      CountStep(Run(Empty(before), steps[..n]), steps[n], before, Losses(Empty(before), steps[..n]));
    }
  }

  /** A completed Turn has exactly one answer exactly if no completed row was ever overwritten. */
  lemma {:induction false} OneAnswerIff(before: seq<Message>, steps: seq<Step>)
    requires IsCompleted(Run(Empty(before), steps))
    ensures |Run(Empty(before), steps).messages| == |before| + 1 <==>
      forall k :: 0 <= k < |steps| ==> !Loses(Empty(before), steps, k)
  {
    AnswersAreCounted(before, steps);
    NoLossIff(Empty(before), steps);
  }

  /** Step k overwrites a completed row. */
  predicate Loses(w: World, steps: seq<Step>, k: nat)
    requires k < |steps|
  {
    IsCompleted(Run(w, steps[..k])) && Writes(Run(w, steps[..k]), steps[k])
  }

  lemma {:induction false} NoLossIff(w: World, steps: seq<Step>)
    requires AllOk(w)
    ensures Losses(w, steps) == 0 <==> forall k :: 0 <= k < |steps| ==> !Loses(w, steps, k)
  {
    if steps != [] {
      var n := |steps| - 1;
      NoLossIff(w, steps[..n]);
      StaysOk(w, steps[..n]);
      var v := Run(w, steps[..n]);
      assert Loses(w, steps, n) <==> IsCompleted(v) && !IsCompleted(Next(v, steps[n])) by {
        if IsCompleted(v) {
          LeavesIff(v, steps[n]);
        }
      }
      assert forall k :: 0 <= k < n ==> (Loses(w, steps, k) <==> Loses(w, steps[..n], k)) by {
        forall k | 0 <= k < n ensures Loses(w, steps, k) <==> Loses(w, steps[..n], k) {
          assert steps[..n][..k] == steps[..k];
        }
      }
    }
  }

  /** Every worker writes only while its object still says what the row says. */
  predicate UpToDate(w: World, steps: seq<Step>) {
    forall k :: 0 <= k < |steps| && Writes(Run(w, steps[..k]), steps[k]) ==>
      Run(w, steps[..k]).copies[steps[k].worker].status == Row(Run(w, steps[..k])).status
  }

  /** Then at most one answer is stored, exactly one if the Turn is completed, and nothing is lost. */
  lemma {:induction false} UpToDateStoresOnce(before: seq<Message>, steps: seq<Step>)
    requires UpToDate(Empty(before), steps)
    ensures var w := Run(Empty(before), steps);
      && |w.messages| == |before| + (if IsCompleted(w) then 1 else 0)
      && NoRegress(Empty(before), steps)
  {
    AnswersAreCounted(before, steps);
    NoLossIff(Empty(before), steps);
    forall k | 0 <= k < |steps|
      ensures !Loses(Empty(before), steps, k) && !Regresses(Run(Empty(before), steps[..k]), steps[k])
    {
      var w := Run(Empty(before), steps[..k]);
      if Writes(w, steps[k]) {
        UpToDateAdvances(w, steps[k]);
      }
    }
  }

  // ---------- convergence and the snapshot ----------

  /** When a step writes, if it does. */
  function WriteTime(step: Step): Option<int> {
    match step
    case Begin(r) => Some(r.now)
    case Work(_, Transit(move, _)) => Some(move.now)
    case Work(_, Persist(_, _, _, _, now, _)) => Some(now)
    case Converge(_, _, now) => Some(now)
    case _ => None
  }

  predicate IsLater(w: World, step: Step) {
    WriteTime(step).Some? && w.store.admitted.Some? ==> Row(w).updatedAt < WriteTime(step).value
  }

  /** Every write is later than the last write it can see. */
  predicate LaterWrites(w: World, steps: seq<Step>) {
    forall k :: 0 <= k < |steps| ==> IsLater(Run(w, steps[..k]), steps[k])
  }

  lemma WriteStep(w: World, step: Step)
    requires w.store.admitted.Some?
    ensures var v := Next(w, step);
      && v.store.admitted.Some?
      && (Row(v) == Row(w) || WriteTime(step) == Some(Row(v).updatedAt))
  {
  }

  /** An unchanged update time means that the row was not written at all. */
  lemma {:induction false} UnchangedSince(w: World, steps: seq<Step>)
    requires w.store.admitted.Some? && LaterWrites(w, steps)
    ensures var v := Run(w, steps);
      && v.store.admitted.Some?
      && Row(v).updatedAt >= Row(w).updatedAt
      && (Row(v).updatedAt == Row(w).updatedAt ==> Row(v) == Row(w))
  {
    if steps != [] {
      var n := |steps| - 1;
      forall k | 0 <= k < n ensures IsLater(Run(w, steps[..n][..k]), steps[..n][k]) {
        assert steps[..n][..k] == steps[..k];
      }
      UnchangedSince(w, steps[..n]);
      WriteStep(Run(w, steps[..n]), steps[n]);
    }
  }

  /** Convergence fails only a row that nobody wrote since the caller's snapshot and that has been
      idle for longer than the lease. */
  lemma {:induction false} ConvergesOnlyUntouched(w: World, steps: seq<Step>, lease: LeaseState, now: int)
    requires w.store.admitted.Some? && LaterWrites(w, steps)
    ensures Run(w, steps).store.admitted.Some?
    ensures var snapshot, row := Row(w), Row(Run(w, steps));
      AfterConverge(row, snapshot, lease, now) != row ==>
        row == snapshot && Active(row.status) && lease == LeaseAbsent && row.updatedAt + LEASE_TTL_SECONDS < now
  {
    UnchangedSince(w, steps);
  }
}
