/** A run of one Turn that stores two answers and loses the first: the mark of a worker that lost its
    lease overwrites the row that another worker has completed (the handlers of iter_chat_turn in
    backend/apps/chat/generation.py and transition_chat_turn in backend/apps/chat/services.py). */
module LostAnswer {
  import opened Options
  import opened AnswerVersions
  import opened TurnLifecycle
  import opened TurnHistory

  function Transition(worker: nat, target: Status, now: int): Step {
    Work(worker, Transit(Move(target, "lease_lost", None, None, now), false))
  }

  /** A worker loads an accepted Turn and gets as far as answering. */
  function Start(worker: nat, now: int): seq<Step> {
    [Load(worker), Transition(worker, Retrieving, now), Transition(worker, Answering, now)]
  }

  function Finish(worker: nat, text: string, now: int): seq<Step> {
    [Transition(worker, Saving, now), Work(worker, Persist(text, None, worker, "m", now, Returned))]
  }

  lemma Unroll2(w: World, a: Step, b: Step)
    ensures Run(w, [a, b]) == Next(Next(w, a), b)
  {
    assert [a, b][..1] == [a] && [a][..0] == [];
    assert Run(w, []) == w;
    assert Run(w, [a]) == Next(w, a);
  }

  lemma Unroll3(w: World, a: Step, b: Step, c: Step)
    ensures Run(w, [a, b, c]) == Next(Next(Next(w, a), b), c)
  {
    assert [a, b, c][..2] == [a, b];
    Unroll2(w, a, b);
  }

  /** A worker with a fresh object goes on. */
  lemma GoesOn(w: World, worker: nat, target: Status, now: int)
    requires w.store.admitted.Some? && worker in w.copies && w.copies[worker] == Row(w)
    requires target in {Retrieving, Answering, Saving} && target in AllowedTransitions(Row(w).status)
    ensures var v := Next(w, Transition(worker, target, now));
      && v.store.admitted.Some? && v.store.admitted.value.scope == w.store.admitted.value.scope
      && Row(v).status == target && Row(v).answer == Row(w).answer && Row(v).updatedAt == now
      && v.copies == w.copies[worker := Row(v)] && v.messages == w.messages
  {
  }

  lemma Starts(w: World, worker: nat, now: int)
    requires w.store.admitted.Some? && Row(w).status == Accepted && Row(w).answer.None?
    ensures var v := Run(w, Start(worker, now));
      && v.store.admitted.Some? && v.store.admitted.value.scope == w.store.admitted.value.scope
      && Row(v).status == Answering && Row(v).answer.None? && Row(v).updatedAt == now
      && v.copies == w.copies[worker := Row(v)] && v.messages == w.messages
  {
    Unroll3(w, Load(worker), Transition(worker, Retrieving, now), Transition(worker, Answering, now));
    var loaded := Next(w, Load(worker));
    GoesOn(loaded, worker, Retrieving, now);
    GoesOn(Next(loaded, Transition(worker, Retrieving, now)), worker, Answering, now);
  }

  lemma Finishes(w: World, worker: nat, text: string, now: int)
    requires w.store.admitted.Some? && worker in w.copies && w.copies[worker] == Row(w)
    requires Row(w).status == Answering
    ensures var v := Run(w, Finish(worker, text, now));
      && IsCompleted(v) && v.store.admitted.value.scope == w.store.admitted.value.scope
      && |v.messages| == |w.messages| + 1 && v.messages[|w.messages|].content == text
      && forall k :: k != worker && k in w.copies ==> k in v.copies && v.copies[k] == w.copies[k]
  {
    GoesOn(w, worker, Saving, now);
    Unroll2(w, Transition(worker, Saving, now), Work(worker, Persist(text, None, worker, "m", now, Returned)));
  }

  /** A worker that lost its lease while answering, and whose Turn was converged, retried and
      completed by another meanwhile, marks the Turn as failed: the answer is gone from the row, and
      the same request starts a generation again. */
  lemma StaleMarkLosesAnswer(w: World, worker: nat, r: Request, now: int)
    requires IsCompleted(w) && worker in w.copies
    requires Active(w.copies[worker].status) && w.copies[worker].answer.None?
    requires OwnedScope(r) && r.writable && ScopeOf(r) == w.store.admitted.value.scope
    ensures var v := Next(w, Transition(worker, Failed, now));
      && v.store.admitted.Some? && v.store.admitted.value.scope == w.store.admitted.value.scope
      && Row(v).status == Failed && Row(v).answer.None? && v.messages == w.messages
      && Classify(v.store, r) == Begun(Retry)
  {
    var m := Move(Failed, "lease_lost", None, None, now);
    LeaseLostIsSafe();
    assert Valid(w.copies[worker], m);
  }

  lemma LeaseLostIsSafe()
    ensures SafeCode("lease_lost") && NormalizeErrorCode("lease_lost") == "lease_lost"
    ensures "lease_lost" in RETRYABLE_ERROR_CODES
  {
    var code := "lease_lost";
    assert SafeCode(code);
  }

  predicate Asks(r: Request, w: World) {
    OwnedScope(r) && r.writable && w.store.admitted.Some? && ScopeOf(r) == w.store.admitted.value.scope
  }

  lemma Retries(w: World, r: Request)
    requires Asks(r, w) && FailedRetryably(w)
    ensures var v := Next(w, Begin(r));
      && Asks(r, v) && Row(v).status == Accepted && Row(v).answer.None?
      && v.copies == w.copies && v.messages == w.messages
  {
  }

  lemma Converges(w: World, r: Request, now: int)
    requires Asks(r, w) && Active(Row(w).status) && Row(w).updatedAt == now
    ensures var v := Next(w, Converge(Row(w), LeaseAbsent, now + LEASE_TTL_SECONDS + 1));
      && Asks(r, v) && FailedRetryably(v) && v.copies == w.copies && v.messages == w.messages
  {
    assert "worker_lost" in RETRYABLE_ERROR_CODES;
  }

  /** Worker 1 answers, the lease is lost and the pipeline stays silent; the Turn is converged and the
      request repeated. */
  lemma FirstAttempt(r: Request) returns (steps: seq<Step>)
    requires OwnedScope(r) && r.writable && QuestionFits(r)
    ensures var w := Run(Empty([]), steps);
      && Asks(r, w) && Row(w).status == Accepted && Row(w).answer.None? && w.messages == []
      && 1 in w.copies && w.copies[1].status == Answering && w.copies[1].answer.None?
  {
    var e := Empty([]);
    OneMore(e, [], Begin(r));
    assert [] + [Begin(r)] == [Begin(r)];
    var w := Next(e, Begin(r));
    Starts(w, 1, r.now);
    RunAppend(e, [Begin(r)], Start(1, r.now));
    var v := Run(w, Start(1, r.now));
    steps := [Begin(r)] + Start(1, r.now);
    var converge := Converge(Row(v), LeaseAbsent, r.now + LEASE_TTL_SECONDS + 1);
    OneMore(e, steps, converge);
    Converges(v, r, r.now);
    OneMore(e, steps + [converge], Begin(r));
    Retries(Next(v, converge), r);
    steps := steps + [converge] + [Begin(r)];
  }

  /** An attempt that nobody disturbs. */
  lemma Answers(w: World, worker: nat, r: Request, text: string)
    requires Asks(r, w) && Row(w).status == Accepted && Row(w).answer.None?
    ensures var v := Run(w, Start(worker, r.now) + Finish(worker, text, r.now));
      && Asks(r, v) && IsCompleted(v)
      && |v.messages| == |w.messages| + 1 && v.messages[|w.messages|].content == text
      && forall k :: k != worker && k in w.copies ==> k in v.copies && v.copies[k] == w.copies[k]
  {
    Starts(w, worker, r.now);
    Finishes(Run(w, Start(worker, r.now)), worker, text, r.now);
    RunAppend(w, Start(worker, r.now), Finish(worker, text, r.now));
  }

  /** The answer is marked away, and the request repeated once more. */
  lemma MarkAndRetry(w: World, r: Request) returns (steps: seq<Step>)
    requires Asks(r, w) && IsCompleted(w)
    requires 1 in w.copies && w.copies[1].status == Answering && w.copies[1].answer.None?
    ensures steps == [Transition(1, Failed, r.now)] + [Begin(r)] + (Start(3, r.now) + Finish(3, "c", r.now))
    ensures Writes(w, steps[0])
    ensures var v := Run(w, steps); IsCompleted(v) && |v.messages| == |w.messages| + 1
  {
    var mark := Transition(1, Failed, r.now);
    StaleMarkLosesAnswer(w, 1, r, r.now);
    RunOne(w, mark);
    OneMore(w, [mark], Begin(r));
    Retries(Next(w, mark), r);
    var third := [mark] + [Begin(r)];
    Answers(Run(w, third), 3, r, "c");
    RunAppend(w, third, Start(3, r.now) + Finish(3, "c", r.now));
    steps := third + (Start(3, r.now) + Finish(3, "c", r.now));
  }

  /** So there is a run in which one Turn stores two answers and the first one is lost. */
  lemma {:induction false} AnswerIsLost(r: Request) returns (steps: seq<Step>, k: nat)
    requires OwnedScope(r) && r.writable && QuestionFits(r)
    ensures IsCompleted(Run(Empty([]), steps)) && |Run(Empty([]), steps).messages| == 2
    ensures k < |steps| && Loses(Empty([]), steps, k)
  {
    var e := Empty([]);
    var first := FirstAttempt(r);
    var second := first + (Start(2, r.now) + Finish(2, "b", r.now));
    Answers(Run(e, first), 2, r, "b");
    RunAppend(e, first, Start(2, r.now) + Finish(2, "b", r.now));
    var last := MarkAndRetry(Run(e, second), r);
    RunAppend(e, second, last);
    steps, k := second + last, |second|;
    assert steps[..k] == second && steps[k] == last[0];
  }
}
