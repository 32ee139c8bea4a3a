/** The single-writer lease of a chat session: a Redis key that holds the owner's token and
    expires (RedisSessionLease in backend/apps/chat/coordination.py).

    A call to Redis may fail before or after it took effect. Every operation reads the
    clock; nothing is assumed about the readings unless a lemma says so. The renewal thread
    is a client like any other that calls Renew at any time. */
module SessionLease {
  import opened Options

  type Token = nat

  const TTL_SECONDS: int := 180

  datatype Held = Held(token: Token, expires: int)
  type Key = Option<Held>

  /** What is left of the key at time `now`. */
  function Live(key: Key, now: int): Key {
    if key.Some? && key.value.expires <= now then None else key
  }

  predicate Owned(key: Key, token: Token) {
    key.Some? && key.value.token == token
  }

  /** What becomes of one call to Redis. */
  datatype Reply = Answered | LostBefore | LostAfter

  // ---------- one client ----------

  /** The flags of one lease object. */
  datatype Client = Client(acquired: bool, lost: bool)
  datatype Pair = Pair(key: Key, client: Client)
  datatype Verdict = Yes | No | Unavailable | LeaseLost

  predicate Happens(reply: Reply) {
    !reply.LostBefore?
  }

  function AfterAcquire(p: Pair, token: Token, now: int, reply: Reply): (Pair, Verdict) {
    var key := Live(p.key, now);
    var free := key.None?;
    var key' := if free && Happens(reply) then Some(Held(token, now + TTL_SECONDS)) else key;
    if reply != Answered then (Pair(key', p.client), Unavailable)
    else (Pair(key', p.client.(acquired := free)), if free then Yes else No)
  }

  function AfterRenew(p: Pair, token: Token, now: int, reply: Reply): (Pair, Verdict) {
    var key := Live(p.key, now);
    if !p.client.acquired then (p.(key := key), No)
    else
      var key' := if Owned(key, token) && Happens(reply) then Some(Held(token, now + TTL_SECONDS)) else key;
      if reply != Answered then (Pair(key', p.client.(lost := true)), Unavailable)
      else if Owned(key, token) then (Pair(key', p.client), Yes)
      else (Pair(key', p.client.(lost := true)), No)
  }

  function AfterCheck(p: Pair, token: Token, now: int, reply: Reply): (Pair, Verdict) {
    var key := Live(p.key, now);
    if !p.client.acquired || p.client.lost then (p.(key := key), LeaseLost)
    else if reply != Answered then (Pair(key, p.client.(lost := true)), Unavailable)
    else if Owned(key, token) then (p.(key := key), Yes)
    else (Pair(key, p.client.(lost := true)), LeaseLost)
  }

  function AfterRelease(p: Pair, token: Token, now: int, reply: Reply): (Pair, Verdict) {
    var key := Live(p.key, now);
    if !p.client.acquired then (p.(key := key), No)
    else
      var key' := if Owned(key, token) && Happens(reply) then None else key;
      var client := p.client.(acquired := false);
      if reply != Answered then (Pair(key', client), Unavailable)
      else (Pair(key', client), if Owned(key, token) then Yes else No)
  }

  /** The key in Redis. */
  class RedisKey {
    var held: Key

    constructor ()
      ensures held == None
    {
      held := None;
    }

    method Expire(now: int)
      modifies this
      ensures held == Live(old(held), now)
    {
      if held.Some? && held.value.expires <= now {
        held := None;
      }
    }

    /** SET with NX and EX. */
    method SetIfAbsent(token: Token, now: int) returns (done: bool)
      modifies this
      ensures done <==> Live(old(held), now).None?
      ensures held == if done then Some(Held(token, now + TTL_SECONDS)) else Live(old(held), now)
    {
      Expire(now);
      done := held.None?;
      if done {
        held := Some(Held(token, now + TTL_SECONDS));
      }
    }

    /** The compare-and-expire script. */
    method ExpireIfOwned(token: Token, now: int) returns (done: bool)
      modifies this
      ensures done <==> Owned(Live(old(held), now), token)
      ensures held == if done then Some(Held(token, now + TTL_SECONDS)) else Live(old(held), now)
    {
      Expire(now);
      done := held.Some? && held.value.token == token;
      if done {
        held := Some(held.value.(expires := now + TTL_SECONDS));
      }
    }

    /** The compare-and-delete script. */
    method DeleteIfOwned(token: Token, now: int) returns (done: bool)
      modifies this
      ensures done <==> Owned(Live(old(held), now), token)
      ensures held == if done then None else Live(old(held), now)
    {
      Expire(now);
      done := held.Some? && held.value.token == token;
      if done {
        held := None;
      }
    }
  }

  class RedisSessionLease {
    const redis: RedisKey
    const token: Token
    var acquired: bool
    var lost: bool

    function State(): Pair
      reads this, redis
    {
      Pair(redis.held, Client(acquired, lost))
    }

    constructor (redis: RedisKey, token: Token)
      ensures this.redis == redis && this.token == token && !acquired && !lost
    {
      this.redis, this.token := redis, token;
      acquired, lost := false, false;
    }

    method Acquire(now: int, reply: Reply) returns (verdict: Verdict)
      modifies this, redis
      ensures (State(), verdict) == AfterAcquire(old(State()), token, now, reply)
    {
      if reply == LostBefore {
        redis.Expire(now);
        return Unavailable;
      }
      var done := redis.SetIfAbsent(token, now);
      if reply == LostAfter {
        return Unavailable;
      }
      acquired := done;
      return if done then Yes else No;
    }

    method Renew(now: int, reply: Reply) returns (verdict: Verdict)
      modifies this, redis
      ensures (State(), verdict) == AfterRenew(old(State()), token, now, reply)
    {
      if !acquired || reply == LostBefore {
        redis.Expire(now);
        lost := lost || acquired;
        return if acquired then Unavailable else No;
      }
      var renewed := redis.ExpireIfOwned(token, now);
      if reply == LostAfter {
        lost := true;
        return Unavailable;
      }
      if !renewed {
        lost := true;
      }
      return if renewed then Yes else No;
    }

    method EnsureOwned(now: int, reply: Reply) returns (verdict: Verdict)
      modifies this, redis
      ensures (State(), verdict) == AfterCheck(old(State()), token, now, reply)
    {
      redis.Expire(now);
      if !acquired || lost {
        return LeaseLost;
      }
      if reply != Answered {
        lost := true;
        return Unavailable;
      }
      if redis.held.None? || redis.held.value.token != token {
        lost := true;
        return LeaseLost;
      }
      return Yes;
    }

    method Release(now: int, reply: Reply) returns (verdict: Verdict)
      modifies this, redis
      ensures (State(), verdict) == AfterRelease(old(State()), token, now, reply)
    {
      if !acquired || reply == LostBefore {
        redis.Expire(now);
        verdict := if acquired then Unavailable else No;
        acquired := false;
        return;
      }
      var released := redis.DeleteIfOwned(token, now);
      acquired := false;
      return if reply == LostAfter then Unavailable else if released then Yes else No;
    }
  }

  // ---------- any number of clients, each with its own token ----------

  datatype Op = OpAcquire | OpRenew | OpEnsureOwned | OpRelease
  datatype Call = Call(op: Op, token: Token, now: int, reply: Reply)
  datatype World = World(key: Key, clients: map<Token, Client>)

  const FRESH := Client(false, false)

  function ClientOf(w: World, token: Token): Client {
    if token in w.clients then w.clients[token] else FRESH
  }

  function Effect(w: World, c: Call): (Pair, Verdict) {
    var p := Pair(w.key, ClientOf(w, c.token));
    match c.op
    case OpAcquire => AfterAcquire(p, c.token, c.now, c.reply)
    case OpRenew => AfterRenew(p, c.token, c.now, c.reply)
    case OpEnsureOwned => AfterCheck(p, c.token, c.now, c.reply)
    case OpRelease => AfterRelease(p, c.token, c.now, c.reply)
  }

  function Next(w: World, c: Call): World {
    var (p, _) := Effect(w, c);
    World(p.key, w.clients[c.token := p.client])
  }

  function Run(w: World, calls: seq<Call>): World {
    if calls == [] then w else Next(Run(w, calls[..|calls| - 1]), calls[|calls| - 1])
  }

  const EMPTY := World(None, map[])

  /** Call `i` of the run is an ownership check by `token` that passes. */
  predicate Passes(calls: seq<Call>, i: nat, token: Token)
    requires i < |calls|
  {
    && calls[i].op == OpEnsureOwned && calls[i].token == token
    && Effect(Run(EMPTY, calls[..i]), calls[i]).1 == Yes
  }

  /** An acquisition that takes effect: it reaches the store and finds the key free. */
  predicate Takes(w: World, c: Call, token: Token) {
    c.op == OpAcquire && c.token == token && Happens(c.reply) && Live(w.key, c.now).None?
  }

  predicate TakesAt(calls: seq<Call>, k: nat, token: Token) {
    k < |calls| && Takes(Run(EMPTY, calls[..k]), calls[k], token)
  }

  predicate AcquiresIn(calls: seq<Call>, i: nat, j: nat, token: Token)
    requires j <= |calls|
  {
    exists k :: i <= k < j && TakesAt(calls, k, token)
  }

  /** Only an acquisition by `token` that takes effect can make the key its own. */
  lemma OwnershipNeedsAcquire(w: World, c: Call, token: Token)
    requires !Owned(w.key, token) && !Takes(w, c, token)
    ensures !Owned(Next(w, c).key, token)
  {
  }

  lemma {:induction false} NotOwnedMeanwhile(calls: seq<Call>, i: nat, j: nat, token: Token)
    requires i <= j <= |calls| && !Owned(Run(EMPTY, calls[..i]).key, token)
    requires !AcquiresIn(calls, i, j, token)
    ensures !Owned(Run(EMPTY, calls[..j]).key, token)
  {
    if i < j {
      assert !TakesAt(calls, j - 1, token);
      NotOwnedMeanwhile(calls, i, j - 1, token);
      assert calls[..j][..j - 1] == calls[..j - 1];
      OwnershipNeedsAcquire(Run(EMPTY, calls[..j - 1]), calls[j - 1], token);
    }
  }

  lemma PassedMeansOwned(calls: seq<Call>, i: nat, token: Token)
    requires i < |calls| && Passes(calls, i, token)
    ensures Owned(Run(EMPTY, calls[..i]).key, token) && Owned(Run(EMPTY, calls[..i + 1]).key, token)
  {
    assert calls[..i + 1][..i] == calls[..i];
  }

  /** Ownership never interleaves: once a second client has passed a check, the first cannot
      pass again unless in between it acquires again and finds the key free. */
  lemma OwnershipNeverInterleaves(calls: seq<Call>, i: nat, j: nat, k: nat, first: Token, second: Token)
    requires i < j < k < |calls| && first != second
    requires Passes(calls, i, first) && Passes(calls, j, second) && Passes(calls, k, first)
    ensures AcquiresIn(calls, j + 1, k, first)
  {
    PassedMeansOwned(calls, j, second);
    PassedMeansOwned(calls, k, first);
    if !AcquiresIn(calls, j + 1, k, first) {
      NotOwnedMeanwhile(calls, j + 1, k, first);
    }
  }

  /** No operation of one client changes the key or the expiry that another client holds,
      and none is told that it owns it. */
  lemma OthersKeyIsSafe(w: World, c: Call)
    requires Live(w.key, c.now).Some? && Live(w.key, c.now).value.token != c.token
    ensures Next(w, c).key == w.key && Effect(w, c).1 != Yes
  {
  }

  /** The lost flag is permanent, and a client that lost its lease never passes a check. */
  lemma {:induction false} LostIsPermanent(w: World, calls: seq<Call>, token: Token)
    requires ClientOf(w, token).lost
    ensures ClientOf(Run(w, calls), token).lost
    ensures forall c: Call :: c.token == token && c.op == OpEnsureOwned ==> Effect(Run(w, calls), c).1 != Yes
  {
    if calls != [] {
      LostIsPermanent(w, calls[..|calls| - 1], token);
    }
  }

  /** The flag is set exactly by a renewal or a check that a client which acquired the lease does not
      get a yes for, be it a refusal or a missing answer. */
  lemma LostIff(w: World, c: Call, token: Token)
    ensures ClientOf(Next(w, c), token).lost <==>
      || ClientOf(w, token).lost
      || (c.token == token && c.op in {OpRenew, OpEnsureOwned} && ClientOf(w, token).acquired && Effect(w, c).1 != Yes)
  {
  }

  // ---------- with a monotone clock ----------

  predicate Monotone(calls: seq<Call>) {
    forall i, j :: 0 <= i < j < |calls| ==> calls[i].now <= calls[j].now
  }

  predicate Grants(w: World, c: Call) {
    (c.op == OpAcquire || c.op == OpRenew) && Effect(w, c).1 == Yes
  }

  predicate Releases(c: Call, token: Token) {
    c.op == OpRelease && c.token == token
  }

  predicate HeldUntil(key: Key, token: Token, end: int) {
    Owned(key, token) && key.value.expires >= end
  }

  lemma HeldStep(w: World, granted: Call, c: Call)
    requires HeldUntil(w.key, granted.token, granted.now + TTL_SECONDS)
    requires granted.now <= c.now < granted.now + TTL_SECONDS && !Releases(c, granted.token)
    ensures HeldUntil(Next(w, c).key, granted.token, granted.now + TTL_SECONDS)
  {
  }

  /** A grant is good for the whole term: until it ends, or the owner releases, the key stays
      the owner's, so nobody else's check passes and nobody else acquires. */
  lemma {:induction false} TermIsExclusive(w: World, granted: Call, calls: seq<Call>)
    requires Grants(w, granted)
    requires Monotone([granted] + calls)
    requires forall i :: 0 <= i < |calls| ==>
      calls[i].now < granted.now + TTL_SECONDS && !Releases(calls[i], granted.token)
    ensures HeldUntil(Run(Next(w, granted), calls).key, granted.token, granted.now + TTL_SECONDS)
  {
    forall i | 0 <= i < |calls| ensures granted.now <= calls[i].now {
      assert ([granted] + calls)[0].now <= ([granted] + calls)[i + 1].now;
    }
    HeldThroughout(w, granted, calls);
  }

  lemma {:induction false} HeldThroughout(w: World, granted: Call, calls: seq<Call>)
    requires Grants(w, granted)
    requires forall i :: 0 <= i < |calls| ==>
      granted.now <= calls[i].now < granted.now + TTL_SECONDS && !Releases(calls[i], granted.token)
    ensures HeldUntil(Run(Next(w, granted), calls).key, granted.token, granted.now + TTL_SECONDS)
  {
    if calls != [] {
      var n := |calls| - 1;
      HeldThroughout(w, granted, calls[..n]);
      HeldStep(Run(Next(w, granted), calls[..n]), granted, calls[n]);
    }
  }

  /** So in the term every other client is refused. */
  lemma {:induction false} OthersAreRefused(w: World, granted: Call, calls: seq<Call>, other: Call)
    requires Grants(w, granted) && other.token != granted.token
    requires Monotone([granted] + calls)
    requires forall i :: 0 <= i < |calls| ==>
      calls[i].now < granted.now + TTL_SECONDS && !Releases(calls[i], granted.token)
    requires other.now < granted.now + TTL_SECONDS
    ensures Effect(Run(Next(w, granted), calls), other).1 != Yes
  {
    TermIsExclusive(w, granted, calls);
    OthersKeyIsSafe(Run(Next(w, granted), calls), other);
  }

  // ---------- what the owner and the next one can rely on ----------

  /** The key is there and has not expired. */
  predicate IsLive(key: Key, now: int) {
    key.Some? && now < key.value.expires
  }

  /** A release that happens deletes the owner's key; */
  lemma ReleaseFrees(w: World, c: Call)
    requires c.op == OpRelease && c.reply != LostBefore && ClientOf(w, c.token).acquired
    requires IsLive(w.key, c.now) && w.key.value.token == c.token
    ensures Next(w, c).key == None && !ClientOf(Next(w, c), c.token).acquired
    ensures Effect(w, c).1 == if c.reply == Answered then Yes else Unavailable
  {
  }

  /** and an acquisition that is answered is granted exactly if the key is free, for exactly the term. */
  lemma AcquiredIff(w: World, c: Call)
    requires c.op == OpAcquire && c.reply == Answered
    ensures Effect(w, c).1 == if IsLive(w.key, c.now) then No else Yes
    ensures ClientOf(Next(w, c), c.token).acquired <==> !IsLive(w.key, c.now)
    ensures Next(w, c).key == if IsLive(w.key, c.now) then w.key else Some(Held(c.token, c.now + 180))
  {
  }

  lemma {:induction false} NobodyTakes(w: World, calls: seq<Call>)
    requires w.key.None? && forall i :: 0 <= i < |calls| ==> calls[i].op != OpAcquire
    ensures Run(w, calls).key.None?
  {
    if calls != [] {
      NobodyTakes(w, calls[..|calls| - 1]);
    }
  }

  /** So after such a release the next acquisition that is answered is granted, whoever asks. */
  lemma {:induction false} ReleasedIsGranted(w: World, released: Call, calls: seq<Call>, next: Call)
    requires released.op == OpRelease && released.reply != LostBefore && ClientOf(w, released.token).acquired
    requires IsLive(w.key, released.now) && w.key.value.token == released.token
    requires forall i :: 0 <= i < |calls| ==> calls[i].op != OpAcquire
    requires next.op == OpAcquire && next.reply == Answered
    ensures var v := Run(Next(w, released), calls);
      Effect(v, next).1 == Yes && Next(v, next).key == Some(Held(next.token, next.now + 180))
  {
    ReleaseFrees(w, released);
    NobodyTakes(Next(w, released), calls);
    AcquiredIff(Run(Next(w, released), calls), next);
  }

  /** The owner only checks and renews, and is answered. */
  predicate IsSteady(c: Call, token: Token) {
    c.token == token ==> c.op in {OpEnsureOwned, OpRenew} && c.reply == Answered
  }

  predicate KeepsLease(w: World, token: Token, end: int) {
    HeldUntil(w.key, token, end) && ClientOf(w, token) == Client(true, false)
  }

  lemma {:induction false} LeaseIsKept(w: World, granted: Call, calls: seq<Call>)
    requires Grants(w, granted) && !ClientOf(w, granted.token).lost
    requires forall i :: 0 <= i < |calls| ==>
      granted.now <= calls[i].now < granted.now + TTL_SECONDS && IsSteady(calls[i], granted.token)
    ensures KeepsLease(Run(Next(w, granted), calls), granted.token, granted.now + TTL_SECONDS)
  {
    if calls != [] {
      LeaseIsKept(w, granted, calls[..|calls| - 1]);
    }
  }

  /** While the term lasts the owner passes every check that is answered, and every renewal gives it a
      new term. */
  lemma {:induction false} OwnerPasses(w: World, granted: Call, calls: seq<Call>, own: Call)
    requires Grants(w, granted) && !ClientOf(w, granted.token).lost
    requires forall i :: 0 <= i < |calls| ==>
      granted.now <= calls[i].now < granted.now + TTL_SECONDS && IsSteady(calls[i], granted.token)
    requires own.token == granted.token && own.op in {OpEnsureOwned, OpRenew} && own.reply == Answered
    requires granted.now <= own.now < granted.now + TTL_SECONDS
    ensures var v := Run(Next(w, granted), calls);
      Effect(v, own).1 == Yes && (own.op == OpRenew ==> Next(v, own).key == Some(Held(own.token, own.now + 180)))
  {
    LeaseIsKept(w, granted, calls);
  }

  lemma {:induction false} OthersLeaveIt(w: World, held: Held, calls: seq<Call>)
    requires w.key == Some(held)
    requires forall i :: 0 <= i < |calls| ==> calls[i].token != held.token && calls[i].now < held.expires
    ensures Run(w, calls).key == Some(held)
  {
    if calls != [] {
      var n := |calls| - 1;
      OthersLeaveIt(w, held, calls[..n]);
      OthersKeyIsSafe(Run(w, calls[..n]), calls[n]);
    }
  }

  /** An owner that goes silent keeps the others out for exactly the term: what they try before it ends
      is refused, and the first acquisition afterwards that is answered is granted. */
  lemma {:induction false} SilentOwnerIsReplaced(w: World, granted: Call, calls: seq<Call>, next: Call)
    requires Grants(w, granted)
    requires forall i :: 0 <= i < |calls| ==>
      calls[i].token != granted.token && calls[i].now < granted.now + TTL_SECONDS
    requires next.op == OpAcquire && next.reply == Answered && next.token != granted.token
    ensures Effect(Run(Next(w, granted), calls), next).1 == if next.now < granted.now + 180 then No else Yes
  {
    OthersLeaveIt(Next(w, granted), Held(granted.token, granted.now + TTL_SECONDS), calls);
    AcquiredIff(Run(Next(w, granted), calls), next);
  }
}
