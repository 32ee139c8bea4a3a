/** Accepting a Turn: reserve capacity, publish its identity, hand it to a worker after the
    commit, and clean up when any of that fails (accept_chat_turn_v3 in
    backend/apps/chat/v3_views.py). A call that fails has no effect. */
module Acceptance {
  import opened Options
  import opened Events
  import opened Capacity
  import opened TurnLifecycle

  datatype Response = Accepted202 | Rejected429 | Unavailable503

  /** Which calls fail. deferred: the request runs inside a transaction, so that the callback
      comes after the response has been made. */
  datatype World = World(
    reserveFails: bool, metaFails: bool, queuedFails: bool, enqueueFails: bool, deferred: bool,
    errorFails: bool, releaseFails: bool, storeFails: bool, now: real, at: int)

  const UNAVAILABLE := Item(Error, "coordination_unavailable")

  /** The Turn is failed for the given reason, and in a way that admits a retry, if the database could
      be written. */
  predicate FailedUnless(storeFails: bool, before: Turn, after: Turn, code: string, at: int) {
    if storeFails then after == before
    else
      && after.status == Failed && after.errorCode == code && Retryable(after)
      && after.completedAt == Some(at) && after.attempts == before.attempts
  }

  /** The worker gets the Turn exactly if none of the calls up to then fails. */
  predicate HandsOver(w: World) {
    !w.metaFails && !w.queuedFails && !w.enqueueFails
  }

  /** What the log gets: the identity, the announcement and, if the Turn could not be queued, the error,
      each if the calls before it succeeded. */
  function Published(meta: string, w: World): seq<Event> {
    if w.metaFails then []
    else if w.queuedFails then [Item(Meta, meta)]
    else if w.enqueueFails && !w.errorFails then [Item(Meta, meta), QUEUED, UNAVAILABLE]
    else [Item(Meta, meta), QUEUED]
  }

  lemma CodesAreRetryable()
    ensures SafeCode("coordination_unavailable") && "coordination_unavailable" in RETRYABLE_ERROR_CODES
    ensures SafeCode("capacity_reached") && "capacity_reached" in RETRYABLE_ERROR_CODES
  {
  }

  class Acceptance {
    const turn: ChatTurn
    const id: Member
    const capacity: GenerationCapacityController
    var log: seq<Event>
    var queue: seq<Member>

    constructor (turn: ChatTurn, id: Member, capacity: GenerationCapacityController, log: seq<Event>)
      ensures this.turn == turn && this.id == id && this.capacity == capacity && this.log == log && queue == []
    {
      this.turn, this.id, this.capacity, this.log, queue := turn, id, capacity, log, [];
    }

    method FailActiveTurn(code: string, w: World)
      requires SafeCode(code) && code in RETRYABLE_ERROR_CODES
      requires Active(turn.memory.status)
      modifies turn
      ensures FailedUnless(w.storeFails, old(turn.row), turn.row, code, w.at)
    {
      var _ := turn.Transition(Move(Failed, code, None, None, w.at), w.storeFails);
    }

    method CleanUp(w: World, persistEvent: bool)
      requires Active(turn.memory.status)
      modifies this`log, turn, capacity
      ensures log == old(log) + if persistEvent && !w.errorFails then [UNAVAILABLE] else []
      ensures capacity.reservations ==
        old(capacity.reservations) - if w.releaseFails then {} else {id}
      ensures FailedUnless(w.storeFails, old(turn.row), turn.row, "coordination_unavailable", w.at)
    {
      if persistEvent && !w.errorFails {
        log := log + [UNAVAILABLE];
      }
      if !w.releaseFails {
        var _ := capacity.ReleaseTurn(id);
      }
      CodesAreRetryable();
      FailActiveTurn("coordination_unavailable", w);
    }

    /** Everything after the reservation: the response, the log, the queue, and the Turn with its
        reservation, which stay as they are exactly if the Turn was handed over. */
    method Publish(meta: string, w: World) returns (response: Response)
      requires Active(turn.memory.status) && id in capacity.reservations
      modifies this`log, this`queue, turn, capacity
      ensures queue == old(queue) + if HandsOver(w) then [id] else []
      ensures response ==
        if w.metaFails || w.queuedFails || (w.enqueueFails && !w.deferred) then Unavailable503 else Accepted202
      ensures log == old(log) + Published(meta, w)
      ensures HandsOver(w) ==> turn.row == old(turn.row) && capacity.reservations == old(capacity.reservations)
      ensures !HandsOver(w) ==>
        && FailedUnless(w.storeFails, old(turn.row), turn.row, "coordination_unavailable", w.at)
        && capacity.reservations == old(capacity.reservations) - if w.releaseFails then {} else {id}
    {
      if w.metaFails {
        CleanUp(w, false);
        return Unavailable503;
      }
      log := log + [Item(Meta, meta)];
      if w.queuedFails {
        CleanUp(w, false);
        return Unavailable503;
      }
      log := log + [QUEUED];
      if w.enqueueFails {
        CleanUp(w, true);
        return if w.deferred then Accepted202 else Unavailable503;
      }
      queue := queue + [id];
      return Accepted202;
    }

    /** The whole request, up to and including the commit. */
    method Accept(disposition: Disposition, meta: string, w: World) returns (response: Response)
      requires disposition in {Created, Retry, InProgress, AlreadyCompleted}
      requires disposition in {Created, Retry} ==> Active(turn.memory.status)
      modifies this`log, this`queue, turn, capacity
      // a request that repeats another changes nothing
      ensures disposition in {InProgress, AlreadyCompleted} ==>
        && response == Accepted202 && turn.row == old(turn.row) && log == old(log) && queue == old(queue)
        && capacity.reservations == old(capacity.reservations)
      ensures disposition in {Created, Retry} ==>
        var (reserved, answer) := Apply(old(capacity.reservations), Reserve(id), w.now, capacity.ttl, capacity.limit);
        // nothing can be reserved: the capacity is out of reach
        && (w.reserveFails ==>
              && response == Unavailable503 && log == old(log) && queue == old(queue)
              && capacity.reservations == old(capacity.reservations)
              && FailedUnless(w.storeFails, old(turn.row), turn.row, "coordination_unavailable", w.at))
        // there is no room
        && (!w.reserveFails && !answer.accepted ==>
              && response == Rejected429 && log == old(log) && queue == old(queue)
              && capacity.reservations == reserved
              && FailedUnless(w.storeFails, old(turn.row), turn.row, "capacity_reached", w.at))
        // it is reserved and published; handed over if nothing fails, and else failed and released
        && (!w.reserveFails && answer.accepted ==>
              && response == (if w.metaFails || w.queuedFails || (w.enqueueFails && !w.deferred)
                              then Unavailable503 else Accepted202)
              && log == old(log) + Published(meta, w)
              && queue == old(queue) + (if HandsOver(w) then [id] else [])
              && capacity.reservations == (if HandsOver(w) || w.releaseFails then reserved else reserved - {id})
              && (if HandsOver(w) then turn.row == old(turn.row)
                  else FailedUnless(w.storeFails, old(turn.row), turn.row, "coordination_unavailable", w.at)))
    {
      if disposition in {InProgress, AlreadyCompleted} {
        return Accepted202;
      }
      CodesAreRetryable();
      if w.reserveFails {
        FailActiveTurn("coordination_unavailable", w);
        return Unavailable503;
      }
      var answer := capacity.ReserveTurn(id, w.now);
      if !answer.accepted {
        FailActiveTurn("capacity_reached", w);
        return Rejected429;
      }
      response := Publish(meta, w);
    }
  }
}
