/** Admission control for generation: a shared sorted set of reservations, each scored with
    its expiry and pruned only when a script looks (backend/apps/chat/capacity.py). */
module Capacity {
  type Member = string

  /** The sorted set. */
  type Set = map<Member, real>

  /** ZREMRANGEBYSCORE from minus infinity to `now`. */
  function Prune(z: Set, now: real): Set {
    map m | m in z && z[m] > now :: z[m]
  }

  datatype Op = Reserve(member: Member) | Renew(member: Member) | Release(member: Member) | Outstanding
  datatype Answer = Answer(accepted: bool, count: nat)

  function Apply(z: Set, op: Op, now: real, ttl: real, limit: nat): (Set, Answer) {
    match op
    case Reserve(m) =>
      var p := Prune(z, now);
      if m in p then (p[m := now + ttl], Answer(true, |p|))
      else if |p| >= limit then (p, Answer(false, |p|))
      else (p[m := now + ttl], Answer(true, |p| + 1))
    case Renew(m) =>
      var p := Prune(z, now);
      if m in p then (p[m := now + ttl], Answer(true, 0)) else (p, Answer(false, 0))
    case Release(m) => (z - {m}, Answer(m in z, 0))
    case Outstanding => (Prune(z, now), Answer(true, |Prune(z, now)|))
  }

  class GenerationCapacityController {
    const limit: nat
    const ttl: real
    var reservations: Set

    constructor (limit: nat, ttl: real)
      requires limit > 0 && ttl > 0.0
      ensures reservations == map[] && this.limit == limit && this.ttl == ttl
    {
      this.limit, this.ttl, reservations := limit, ttl, map[];
    }

    method ReserveTurn(member: Member, now: real) returns (answer: Answer)
      modifies this
      ensures (reservations, answer) == Apply(old(reservations), Reserve(member), now, ttl, limit)
    {
      reservations := Prune(reservations, now);
      if member in reservations {
        var count := |reservations|;
        reservations := reservations[member := now + ttl];
        return Answer(true, count);
      }
      var count := |reservations|;
      if count >= limit {
        return Answer(false, count);
      }
      reservations := reservations[member := now + ttl];
      return Answer(true, count + 1);
    }

    method RenewTurn(member: Member, now: real) returns (renewed: bool)
      modifies this
      ensures (reservations, Answer(renewed, 0)) == Apply(old(reservations), Renew(member), now, ttl, limit)
    {
      reservations := Prune(reservations, now);
      if member !in reservations {
        return false;
      }
      reservations := reservations[member := now + ttl];
      return true;
    }

    method ReleaseTurn(member: Member) returns (released: bool)
      modifies this
      ensures (reservations, Answer(released, 0)) == Apply(old(reservations), Release(member), 0.0, ttl, limit)
    {
      released := member in reservations;
      reservations := reservations - {member};
    }

    method CountOutstanding(now: real) returns (count: nat)
      modifies this
      ensures (reservations, Answer(true, count)) == Apply(old(reservations), Outstanding, now, ttl, limit)
    {
      reservations := Prune(reservations, now);
      count := |reservations|;
    }
  }

  // ---------- the bound, with any clock ----------

  datatype Call = Call(op: Op, now: real)

  function Run(z: Set, calls: seq<Call>, ttl: real, limit: nat): Set {
    if calls == [] then z
    else
      var last := calls[|calls| - 1];
      Apply(Run(z, calls[..|calls| - 1], ttl, limit), last.op, last.now, ttl, limit).0
  }

  lemma SubmapIsSmaller(a: Set, b: Set)
    requires a.Keys <= b.Keys
    ensures |a| <= |b|
  {
    assert |b.Keys| == |a.Keys| + |b.Keys - a.Keys| by {
      assert b.Keys == a.Keys + (b.Keys - a.Keys);
    }
  }

  /** After any operations, whatever the clock shows, there are never more reservations than
      the shared limit, and the count reported by a reservation is what is stored. */
  lemma {:induction false} NeverOverLimit(calls: seq<Call>, ttl: real, limit: nat)
    ensures |Run(map[], calls, ttl, limit)| <= limit
  {
    if calls != [] {
      var last := calls[|calls| - 1];
      var z := Run(map[], calls[..|calls| - 1], ttl, limit);
      NeverOverLimit(calls[..|calls| - 1], ttl, limit);
      ApplyKeepsLimit(z, last.op, last.now, ttl, limit);
    }
  }

  lemma ApplyKeepsLimit(z: Set, op: Op, now: real, ttl: real, limit: nat)
    requires |z| <= limit
    ensures |Apply(z, op, now, ttl, limit).0| <= limit
  {
    SubmapIsSmaller(Prune(z, now), z);
    var p := Prune(z, now);
    match op {
      case Reserve(m) => AddOne(p, m, now + ttl);
      case Renew(m) => AddOne(p, m, now + ttl);
      case Release(m) => SubmapIsSmaller(z - {m}, z);
      case Outstanding =>
    }
  }

  lemma AddOne(p: Set, m: Member, score: real)
    ensures |p[m := score]| == if m in p then |p| else |p| + 1
  {
    var q := p[m := score];
    assert q.Keys == p.Keys + {m};
    assert |q| == |q.Keys| && |p| == |p.Keys|;
  }

  /** Reserving again moves the expiry and adds nothing; the reported count is the stored one. */
  lemma ReservingAgainAddsNothing(z: Set, m: Member, now: real, ttl: real, limit: nat)
    ensures var (z', answer) := Apply(z, Reserve(m), now, ttl, limit);
            && answer.count == |z'|
            && (m in Prune(z, now) ==> answer.accepted && |z'| == |Prune(z, now)|)
            && (answer.accepted <==> m in z')
            && (!answer.accepted ==> z' == Prune(z, now) && |z'| >= limit)
  {
    AddOne(Prune(z, now), m, now + ttl);
  }

  // ---------- with a monotone clock: as if every reservation expired on time ----------

  /** The specification holds only reservations that have not expired: whatever is asked,
      what has expired by then is gone first. */
  function Eager(z: Set, op: Op, now: real, ttl: real, limit: nat): (Set, Answer) {
    var live := Prune(z, now);
    match op
    case Reserve(m) =>
      var live' := if m in live || |live| < limit then live[m := now + ttl] else live;
      (live', Answer(m in live', |live'|))
    case Renew(m) => (if m in live then live[m := now + ttl] else live, Answer(m in live, 0))
    case Release(m) => (live - {m}, Answer(m in live, 0))
    case Outstanding => (live, Answer(true, |live|))
  }

  function EagerRun(z: Set, calls: seq<Call>, ttl: real, limit: nat): Set {
    if calls == [] then z
    else
      var last := calls[|calls| - 1];
      Eager(EagerRun(z, calls[..|calls| - 1], ttl, limit), last.op, last.now, ttl, limit).0
  }

  predicate Monotone(calls: seq<Call>) {
    forall i, j :: 0 <= i < j < |calls| ==> calls[i].now <= calls[j].now
  }

  /** The lazy set and the eager one agree on what has not expired yet. */
  ghost predicate Agree(lazy: Set, eager: Set, now: real) {
    forall t :: t >= now ==> Prune(lazy, t) == Prune(eager, t)
  }

  lemma PruneTwice(z: Set, s: real, t: real)
    requires s <= t
    ensures Prune(Prune(z, s), t) == Prune(z, t)
  {
  }

  lemma PruneUpdate(p: Set, q: Set, m: Member, score: real, t: real)
    requires Prune(p, t) == Prune(q, t)
    ensures Prune(p[m := score], t) == Prune(q[m := score], t)
    ensures Prune(p - {m}, t) == Prune(q - {m}, t)
  {
    var a, b := Prune(p[m := score], t), Prune(q[m := score], t);
    forall k ensures (k in a <==> k in b) && (k in a ==> a[k] == b[k]) {
      assert k in Prune(p, t) <==> k in Prune(q, t);
      assert k in Prune(p, t) ==> p[k] == Prune(p, t)[k] == Prune(q, t)[k] == q[k];
    }
    var c, d := Prune(p - {m}, t), Prune(q - {m}, t);
    forall k ensures (k in c <==> k in d) && (k in c ==> c[k] == d[k]) {
      assert k in Prune(p, t) <==> k in Prune(q, t);
      assert k in Prune(p, t) ==> p[k] == Prune(p, t)[k] == Prune(q, t)[k] == q[k];
    }
  }

  lemma AgreeStep(lazy: Set, eager: Set, op: Op, now: real, ttl: real, limit: nat)
    requires Agree(lazy, eager, now)
    ensures Agree(Apply(lazy, op, now, ttl, limit).0, Eager(eager, op, now, ttl, limit).0, now)
    ensures !op.Release? ==> Apply(lazy, op, now, ttl, limit).1 == Eager(eager, op, now, ttl, limit).1
    ensures op.Release? ==>
              (Apply(lazy, op, now, ttl, limit).1 == Eager(eager, op, now, ttl, limit).1
               <==> !(op.member in lazy && lazy[op.member] <= now))
  {
    assert Prune(lazy, now) == Prune(eager, now);
    if op.Reserve? {
      AddOne(Prune(eager, now), op.member, now + ttl);
    }
    if op.Release? {
      var m := op.member;
      forall t | t >= now ensures Prune(lazy - {m}, t) == Prune(Prune(eager, now) - {m}, t) {
        PruneTwice(eager, now, t);
        PruneUpdate(lazy, Prune(eager, now), m, 0.0, t);
      }
      assert m in Prune(lazy, now) <==> m in Prune(eager, now);
    }
  }

  lemma {:induction false} AgreeRun(calls: seq<Call>, ttl: real, limit: nat, now: real)
    requires Monotone(calls) && (calls != [] ==> calls[|calls| - 1].now <= now)
    ensures Agree(Run(map[], calls, ttl, limit), EagerRun(map[], calls, ttl, limit), now)
  {
    if calls != [] {
      var n := |calls| - 1;
      AgreeRun(calls[..n], ttl, limit, calls[n].now);
      AgreeStep(Run(map[], calls[..n], ttl, limit), EagerRun(map[], calls[..n], ttl, limit),
                calls[n].op, calls[n].now, ttl, limit);
    }
  }

  /** With a monotone clock the scripts answer exactly as if every reservation vanished the
      moment it expired. A release alone can tell: it also answers true for a reservation
      that has expired but was not pruned, and only then. */
  lemma {:induction false} LazyRefinesEager(calls: seq<Call>, op: Op, now: real, ttl: real, limit: nat)
    requires Monotone(calls + [Call(op, now)])
    ensures var lazy, eager := Run(map[], calls, ttl, limit), EagerRun(map[], calls, ttl, limit);
            var (answer, expected) := (Apply(lazy, op, now, ttl, limit).1, Eager(eager, op, now, ttl, limit).1);
            answer == expected <==> !(op.Release? && op.member in lazy && lazy[op.member] <= now)
  {
    var all := calls + [Call(op, now)];
    forall i, j | 0 <= i < j < |calls| ensures calls[i].now <= calls[j].now {
      assert all[i].now <= all[j].now;
    }
    if calls != [] {
      assert all[|calls| - 1].now <= all[|calls|].now;
    }
    AgreeRun(calls, ttl, limit, now);
    AgreeStep(Run(map[], calls, ttl, limit), EagerRun(map[], calls, ttl, limit), op, now, ttl, limit);
  }

  /** Renewing never revives an expired reservation, and one that is renewed or accepted lives
      for the full time from then on. */
  lemma RenewNeverRevives(z: Set, m: Member, now: real, ttl: real, limit: nat)
    requires ttl > 0.0
    ensures var (z', answer) := Apply(z, Renew(m), now, ttl, limit);
            && (answer.accepted <==> m in z && z[m] > now)
            && (answer.accepted ==> m in z' && z'[m] == now + ttl)
            && (!answer.accepted ==> m !in z')
            && forall k :: k != m ==> (k in z' <==> k in z && z[k] > now) && (k in z' ==> z'[k] == z[k])
  {
  }

  // ---------- what a reservation is good for ----------

  predicate Concerns(op: Op, m: Member) {
    !op.Outstanding? && op.member == m
  }

  lemma StandsFor(z: Set, m: Member, score: real, c: Call, ttl: real, limit: nat)
    requires m in z && z[m] == score && c.now < score && !Concerns(c.op, m)
    ensures var after := Apply(z, c.op, c.now, ttl, limit).0; m in after && after[m] == score
  {
    assert m in Prune(z, c.now);
  }

  lemma {:induction false} StandsThroughout(z: Set, m: Member, score: real, calls: seq<Call>, ttl: real, limit: nat)
    requires m in z && z[m] == score
    requires forall i :: 0 <= i < |calls| ==> !Concerns(calls[i].op, m) && calls[i].now < score
    ensures var after := Run(z, calls, ttl, limit); m in after && after[m] == score
  {
    if calls != [] {
      var n := |calls| - 1;
      StandsThroughout(z, m, score, calls[..n], ttl, limit);
      StandsFor(Run(z, calls[..n], ttl, limit), m, score, calls[n], ttl, limit);
    }
  }

  /** A reservation that is accepted or renewed stands for its full time, whatever others do; */
  lemma {:induction false} ReservationStands(z: Set, op: Op, now: real, ttl: real, limit: nat, calls: seq<Call>)
    requires (op.Reserve? || op.Renew?) && Apply(z, op, now, ttl, limit).1.accepted
    requires forall i :: 0 <= i < |calls| ==> !Concerns(calls[i].op, op.member) && calls[i].now < now + ttl
    ensures var after := Run(Apply(z, op, now, ttl, limit).0, calls, ttl, limit);
      op.member in after && after[op.member] == now + ttl
  {
    StandsThroughout(Apply(z, op, now, ttl, limit).0, op.member, now + ttl, calls, ttl, limit);
  }

  /** one that is released makes room at once, for anybody, */
  lemma ReleaseMakesRoom(z: Set, m: Member, other: Member, now: real, ttl: real, limit: nat)
    requires m in z && |z| <= limit
    ensures var released := Apply(z, Release(m), now, ttl, limit).0;
      && released.Keys == z.Keys - {m} && (forall k :: k in released ==> released[k] == z[k])
      && Apply(released, Reserve(other), now, ttl, limit).1.accepted
  {
    var released := z - {m};
    assert released.Keys == z.Keys - {m};
    assert |released| == |released.Keys| && |z| == |z.Keys|;
    SubmapIsSmaller(Prune(released, now), released);
  }

  /** and one whose time has passed does not count against anybody else. */
  lemma ExpiredMakesRoom(z: Set, m: Member, other: Member, now: real, ttl: real, limit: nat)
    requires m in z && z[m] <= now && |z| <= limit
    ensures Apply(z, Reserve(other), now, ttl, limit).1.accepted
  {
    var p := Prune(z, now);
    SubmapIsSmaller(p, z - {m});
    assert (z - {m}).Keys == z.Keys - {m};
    assert |z - {m}| == |(z - {m}).Keys| && |z| == |z.Keys|;
  }
}
