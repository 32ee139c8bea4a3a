/** The workers of TurnHistory are the generator and the repository of the other modules: whatever a
    generation writes is a run, and every run can be played on the objects. */
module TurnWorkers {
  import opened Options
  import opened Events
  import opened AnswerVersions
  import opened TurnLifecycle
  import opened TurnHistory
  import G = Generation

  /** What a generation wrote, one step each; where others wrote meanwhile, their steps. */
  type Plan = seq<seq<Step>>

  function Flat(plan: Plan): seq<Step> {
    if plan == [] then [] else Flat(plan[..|plan| - 1]) + plan[|plan| - 1]
  }

  predicate ByOthers(steps: seq<Step>, worker: nat) {
    forall i :: 0 <= i < |steps| ==> !IsBy(steps[i], worker)
  }

  predicate IsBy(step: Step, worker: nat) {
    match step
    case Load(k) => k == worker
    case Leave(k) => k == worker
    case Work(k, _) => k == worker
    case _ => false
  }

  /** The plan has the worker's own writes, and others' steps that lead to what it met. */
  predicate Explains(w: World, worker: nat, trace: seq<Write>, plan: Plan) {
    && |plan| == |trace|
    && (trace == [] || (
          var n := |trace| - 1;
          var before := Run(w, Flat(plan[..n]));
          && Explains(w, worker, trace[..n], plan[..n])
          && if trace[n].Others? then
               var after := Run(before, plan[n]);
               && ByOthers(plan[n], worker)
               && after.store.admitted.Some? && Row(after) == trace[n].row && after.messages == trace[n].messages
             else plan[n] == [Work(worker, trace[n])]))
  }

  lemma {:induction false} OthersKeepCopy(w: World, steps: seq<Step>, worker: nat)
    requires ByOthers(steps, worker) && worker in w.copies
    ensures worker in Run(w, steps).copies && Run(w, steps).copies[worker] == w.copies[worker]
  {
    if steps != [] {
      OthersKeepCopy(w, steps[..|steps| - 1], worker);
      assert !IsBy(steps[|steps| - 1], worker);
    }
  }

  lemma OneWriteIsRun(before: World, worker: nat, write: Write, steps: seq<Step>)
    requires before.store.admitted.Some? && worker in before.copies && CanWrite(DeskOf(before, worker), write)
    requires if write.Others? then
               var after := Run(before, steps);
               && ByOthers(steps, worker)
               && after.store.admitted.Some? && Row(after) == write.row && after.messages == write.messages
             else steps == [Work(worker, write)]
    ensures var v := Run(before, steps);
      && v.store.admitted.Some? && worker in v.copies
      && DeskOf(v, worker) == AfterWrite(DeskOf(before, worker), write)
  {
    if write.Others? {
      OthersKeepCopy(before, steps, worker);
    } else {
      RunOne(before, Work(worker, write));
    }
  }

  /** Whatever a generation did to the row, its object and the messages, with others' writes anywhere
      in between, is what a run of the world does. */
  lemma {:induction false} TraceIsRun(w: World, worker: nat, trace: seq<Write>, plan: Plan)
    requires w.store.admitted.Some? && worker in w.copies
    requires AllWork(DeskOf(w, worker), trace) && Explains(w, worker, trace, plan)
    ensures var v := Run(w, Flat(plan));
      && v.store.admitted.Some? && worker in v.copies
      && DeskOf(v, worker) == AfterWrites(DeskOf(w, worker), trace)
  {
    if trace != [] {
      var n := |trace| - 1;
      TraceIsRun(w, worker, trace[..n], plan[..n]);
      RunAppend(w, Flat(plan[..n]), plan[n]);
      OneWriteIsRun(Run(w, Flat(plan[..n])), worker, trace[n], plan[n]);
    }
  }

  function OwnSteps(worker: nat, trace: seq<Write>): Plan {
    seq(|trace|, i requires 0 <= i < |trace| => [Work(worker, trace[i])])
  }

  lemma {:induction false} OwnStepsExplain(w: World, worker: nat, trace: seq<Write>)
    requires forall i :: 0 <= i < |trace| ==> !trace[i].Others?
    ensures Explains(w, worker, trace, OwnSteps(worker, trace))
  {
    if trace != [] {
      var n := |trace| - 1;
      OwnStepsExplain(w, worker, trace[..n]);
      assert OwnSteps(worker, trace)[..n] == OwnSteps(worker, trace[..n]);
    }
  }

  /** A generation that loads the Turn and that nobody disturbs. */
  method Generate(w: World, worker: nat, s: G.Script) returns (steps: seq<Step>, events: seq<Event>)
    requires w.store.admitted.Some? && worker in w.copies && w.copies[worker] == Row(w)
    requires s.found.None? && s.marked.None? && G.SourceExists(s, w.messages)
    ensures var v := Run(w, steps);
      && v.store.admitted.Some? && worker in v.copies
      && if Row(w).status in {Completed, Cancelled} || s.acquire.Busy?
         then events == [] && Row(v) == Row(w) && v.messages == w.messages
         else EndsOnce(events) && G.Ended(s, Row(w).status, w.messages, DeskOf(v, worker), events)
  {
    var turn := new ChatTurn(w.store.admitted.value.turn);
    var g := new G.Generation(turn, w.messages);
    var ran := g.IterChatTurn(s);
    OwnStepsExplain(w, worker, g.trace);
    TraceIsRun(w, worker, g.trace, OwnSteps(worker, g.trace));
    steps, events := Flat(OwnSteps(worker, g.trace)), g.events;
  }

  // ---------- the same on the objects ----------

  /** A script for the last transaction alone. */
  function ScriptOf(write: Write): G.Script
    requires write.Persist?
  {
    G.Script(G.Gained, None, false, [], false, None, false, None, None,
             if write.end == RolledBack then Some(G.OtherError) else None,
             if write.end == Unanswered then G.ReplyLost(G.OtherError) else G.Told,
             None, false, false, write.modelId, 0, write.source, [], write.newGroup, "", write.now)
  }

  method Perform(d: Desk, write: Write) returns (after: Desk)
    requires CanWrite(d, write) && !write.Others?
    ensures after == AfterWrite(d, write)
  {
    var turn := new ChatTurn(d.row);
    turn.memory := d.copy;
    if write.Transit? {
      var _ := turn.Transition(write.move, write.storeFails);
      after := Desk(turn.row, turn.memory, d.messages);
    } else {
      var g := new G.Generation(turn, d.messages);
      assert G.PersistOf(ScriptOf(write), write.content) == write;
      var _ := g.PersistCompletedTurn(ScriptOf(write), write.content);
      after := Desk(turn.row, turn.memory, g.messages);
    }
  }

  method PlayOne(repository: TurnRepository, w: World, step: Step) returns (v: World)
    requires w.store == repository.store
    modifies repository
    ensures v == Next(w, step) && v.store == repository.store
  {
    v := w;
    match step {
      case Begin(r) =>
        var _ := repository.BeginChatTurn(r);
      case Load(worker) =>
        if w.store.admitted.Some? {
          v := w.(copies := w.copies[worker := w.store.admitted.value.turn]);
        }
      case Leave(worker) =>
        v := w.(copies := w.copies - {worker});
      case Work(worker, write) =>
        if CanWork(w, worker, write) {
          var d := Perform(DeskOf(w, worker), write);
          repository.store := WithRow(repository.store, d.row);
          v := w.(copies := w.copies[worker := d.copy], messages := d.messages);
        }
      case Converge(snapshot, lease, now) =>
        if w.store.admitted.Some? {
          var turn := new ChatTurn(w.store.admitted.value.turn);
          turn.memory := snapshot;
          var _ := ConvergeStaleTurn(turn, lease, now);
          repository.store := WithRow(repository.store, turn.row);
        }
    }
    v := v.(store := repository.store);
  }

  /** Every run, played on the objects themselves. */
  method Play(messages: seq<Message>, steps: seq<Step>) returns (w: World)
    ensures w == Run(Empty(messages), steps)
  {
    var repository := new TurnRepository();
    w := World(repository.store, map[], messages);
    for k := 0 to |steps|
      invariant w == Run(Empty(messages), steps[..k]) && w.store == repository.store
    {
      OneMore(Empty(messages), steps[..k], steps[k]);
      assert steps[..k + 1] == steps[..k] + [steps[k]];
      w := PlayOne(repository, w, steps[k]);
    }
    assert steps[..|steps|] == steps;
  }
}
