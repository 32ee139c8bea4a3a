/** The rolling summary of a chat session, folded by concurrent background runs that race on
    a watermark (update_session_memory in backend/apps/chat/tasks.py).

    A summary is modelled by what it was made from: the summary that the run had loaded and
    the messages that it added. What the language model writes is opaque. */
module SessionMemory {
  import opened Options

  datatype Message = Message(id: nat, at: int, content: string)

  datatype Summary = NoSummary | Fold(previous: Summary, batch: seq<Message>)

  /** The messages that a summary stands for, oldest first. */
  function Folded(s: Summary): seq<Message> {
    match s
    case NoSummary => []
    case Fold(previous, batch) => Folded(previous) + batch
  }

  function Depth(s: Summary): nat {
    match s
    case NoSummary => 0
    case Fold(previous, _) => Depth(previous) + 1
  }

  datatype Row = Row(summary: Summary, until: Option<int>, version: nat)

  const KEEP_RECENT: nat := 4

  /** The messages above a watermark, oldest first. */
  function Pending(messages: seq<Message>, until: Option<int>): seq<Message> {
    if messages == [] then []
    else if until.None? || messages[0].at > until.value then [messages[0]] + Pending(messages[1..], until)
    else Pending(messages[1..], until)
  }

  /** What a run takes from them: all but the four newest, if there are enough. */
  function ToSummarize(pending: seq<Message>, trigger: int): seq<Message> {
    if |pending| < trigger then []
    else if |pending| > KEEP_RECENT then pending[..|pending| - KEEP_RECENT]
    else pending
  }

  /** The row after a run that had loaded `snapshot` tries to store its summary. */
  function AfterCommit(row: Row, snapshot: Row, batch: seq<Message>): Row
    requires batch != []
  {
    if row.until == snapshot.until
    then Row(Fold(snapshot.summary, batch), Some(batch[|batch| - 1].at), row.version + 1)
    else row
  }

  datatype Status =
    | Disabled | SessionMissing | BelowTrigger | LlmFailed | EmptyReply | AlreadyUpdated | Updated

  /** What the model answers: nothing, something that does not parse, or a summary. */
  datatype Reply = NoReply | Unparsable | Parsed

  class MemoryTable {
    var row: Row

    constructor ()
      ensures row == Row(NoSummary, None, 0)
    {
      row := Row(NoSummary, None, 0);
    }

    /** The last transaction of a run, under the row lock. */
    method Store(snapshot: Row, batch: seq<Message>, summary: Summary) returns (status: Status)
      requires batch != [] && summary == Fold(snapshot.summary, batch)
      modifies this
      ensures row == AfterCommit(old(row), snapshot, batch)
      ensures status == if old(row).until == snapshot.until then Updated else AlreadyUpdated
    {
      if row.until != snapshot.until {
        return AlreadyUpdated;
      }
      var watermark := batch[|batch| - 1].at;
      row := row.(summary := summary);
      row := row.(until := Some(watermark));
      row := row.(version := row.version + 1);
      return Updated;
    }

    /** A whole run that nobody disturbs. */
    method Update(enabled: bool, session: bool, messages: seq<Message>, trigger: int, reply: Reply)
        returns (status: Status)
      modifies this
      ensures var batch := ToSummarize(Pending(messages, old(row).until), trigger);
              && status == (
                if !enabled then Disabled else if !session then SessionMissing else if batch == [] then BelowTrigger
                else match reply case NoReply => LlmFailed case Unparsable => EmptyReply case Parsed => Updated)
              && row == if status == Updated then AfterCommit(old(row), old(row), batch) else old(row)
    {
      if !enabled {
        return Disabled;
      }
      if !session {
        return SessionMissing;
      }
      var snapshot := row;
      var pending := Pending(messages, snapshot.until);
      if |pending| < trigger {
        return BelowTrigger;
      }
      var toSummarize := if |pending| > KEEP_RECENT then pending[..|pending| - KEEP_RECENT] else pending;
      if toSummarize == [] {
        return BelowTrigger;
      }
      if reply == NoReply {
        return LlmFailed;
      }
      if reply == Unparsable {
        return EmptyReply;
      }
      status := Store(snapshot, toSummarize, Fold(snapshot.summary, toSummarize));
    }
  }

  // ---------- concurrent runs ----------

  /** A run first loads the row, later selects messages, and later still commits; it may
      stop anywhere. */
  datatype Task = Loaded(snapshot: Row) | Selected(snapshot: Row, batch: seq<Message>)

  datatype World = World(messages: seq<Message>, row: Row, tasks: map<nat, Task>)

  /** A message becomes visible at any moment, whatever its time. */
  datatype Step = Arrive(message: Message) | Load(id: nat) | Select(id: nat) | Commit(id: nat)

  predicate HasId(messages: seq<Message>, id: nat) {
    exists i :: 0 <= i < |messages| && messages[i].id == id
  }

  /** The messages are listed by their times. */
  function Insert(messages: seq<Message>, m: Message): seq<Message> {
    if messages == [] || messages[|messages| - 1].at <= m.at then messages + [m]
    else Insert(messages[..|messages| - 1], m) + [messages[|messages| - 1]]
  }

  function Next(w: World, step: Step, trigger: int): World {
    match step
    case Arrive(m) => if HasId(w.messages, m.id) then w else w.(messages := Insert(w.messages, m))
    case Load(id) => w.(tasks := w.tasks[id := Loaded(w.row)])
    case Select(id) =>
      if id in w.tasks && w.tasks[id].Loaded? then
        var snapshot := w.tasks[id].snapshot;
        var batch := ToSummarize(Pending(w.messages, snapshot.until), trigger);
        if batch == [] then w.(tasks := w.tasks - {id}) else w.(tasks := w.tasks[id := Selected(snapshot, batch)])
      else w
    case Commit(id) =>
      if id in w.tasks && w.tasks[id].Selected? && w.tasks[id].batch != []
      then w.(row := AfterCommit(w.row, w.tasks[id].snapshot, w.tasks[id].batch), tasks := w.tasks - {id})
      else w
  }

  function Run(steps: seq<Step>, trigger: int): World {
    if steps == [] then World([], Row(NoSummary, None, 0), map[])
    else Next(Run(steps[..|steps| - 1], trigger), steps[|steps| - 1], trigger)
  }

  // ---------- in any order of arrival ----------

  predicate Above(at: int, until: Option<int>) {
    until.None? || at > until.value
  }

  predicate Earlier(a: Option<int>, b: Option<int>) {
    b.Some? && (a.None? || a.value < b.value)
  }

  predicate Sorted(messages: seq<Message>) {
    forall i, j :: 0 <= i < j < |messages| ==> messages[i].at <= messages[j].at
  }

  predicate DistinctIds(messages: seq<Message>) {
    forall i, j :: 0 <= i < j < |messages| ==> messages[i].id != messages[j].id
  }

  predicate AllIn(some: seq<Message>, messages: seq<Message>) {
    forall i :: 0 <= i < |some| ==> some[i] in messages
  }

  /** Messages of the table above a watermark, in order, each once. */
  predicate IsPart(some: seq<Message>, messages: seq<Message>, until: Option<int>) {
    && Sorted(some) && DistinctIds(some) && AllIn(some, messages)
    && forall i :: 0 <= i < |some| ==> Above(some[i].at, until)
  }

  predicate SoundRow(row: Row, messages: seq<Message>) {
    && IsPart(Folded(row.summary), messages, None)
    && (forall i :: 0 <= i < |Folded(row.summary)| ==> !Above(Folded(row.summary)[i].at, row.until))
    && row.version == Depth(row.summary)
  }

  /** A task works from the current row or from one with an earlier watermark. */
  predicate SoundTask(t: Task, w: World) {
    && (t.snapshot == w.row || Earlier(t.snapshot.until, w.row.until))
    && (t.Selected? ==> t.batch != [] && IsPart(t.batch, w.messages, t.snapshot.until))
  }

  predicate Sound(w: World) {
    && Sorted(w.messages) && DistinctIds(w.messages)
    && SoundRow(w.row, w.messages)
    && forall id :: id in w.tasks ==> SoundTask(w.tasks[id], w)
  }

  lemma {:induction false} InsertHas(messages: seq<Message>, m: Message)
    ensures forall x :: x in Insert(messages, m) <==> x in messages || x == m
  {
    if !(messages == [] || messages[|messages| - 1].at <= m.at) {
      var n := |messages| - 1;
      InsertHas(messages[..n], m);
      assert messages == messages[..n] + [messages[n]];
    }
  }

  lemma {:induction false} InsertSorted(messages: seq<Message>, m: Message)
    requires Sorted(messages)
    ensures Sorted(Insert(messages, m))
  {
    if !(messages == [] || messages[|messages| - 1].at <= m.at) {
      var n := |messages| - 1;
      InsertSorted(messages[..n], m);
      InsertHas(messages[..n], m);
      var rest := Insert(messages[..n], m);
      forall i | 0 <= i < |rest| ensures rest[i].at <= messages[n].at {
        assert rest[i] in rest;
      }
    }
  }

  lemma {:induction false} InsertDistinct(messages: seq<Message>, m: Message)
    requires DistinctIds(messages) && forall x :: x in messages ==> x.id != m.id
    ensures DistinctIds(Insert(messages, m))
  {
    if !(messages == [] || messages[|messages| - 1].at <= m.at) {
      var n := |messages| - 1;
      InsertDistinct(messages[..n], m);
      InsertHas(messages[..n], m);
      var rest := Insert(messages[..n], m);
      forall i | 0 <= i < |rest| ensures rest[i].id != messages[n].id {
        assert rest[i] in rest;
      }
    }
  }

  lemma {:induction false} PendingHas(messages: seq<Message>, until: Option<int>)
    ensures forall m :: m in Pending(messages, until) <==> m in messages && Above(m.at, until)
  {
    if messages != [] {
      PendingHas(messages[1..], until);
      assert messages == [messages[0]] + messages[1..];
    }
  }

  lemma {:induction false} PendingIsPart(messages: seq<Message>, until: Option<int>)
    requires Sorted(messages) && DistinctIds(messages)
    ensures IsPart(Pending(messages, until), messages, until)
  {
    PendingHas(messages, until);
    PendingInOrder(messages, until);
    var pending := Pending(messages, until);
    forall i | 0 <= i < |pending| ensures pending[i] in messages && Above(pending[i].at, until) {
      assert pending[i] in pending;
    }
  }

  lemma {:induction false} PendingInOrder(messages: seq<Message>, until: Option<int>)
    requires Sorted(messages) && DistinctIds(messages)
    ensures Sorted(Pending(messages, until)) && DistinctIds(Pending(messages, until))
  {
    if messages != [] {
      var first, rest := messages[0], Pending(messages[1..], until);
      PendingInOrder(messages[1..], until);
      PendingHas(messages[1..], until);
      forall i | 0 <= i < |rest| ensures first.at <= rest[i].at && first.id != rest[i].id {
        assert rest[i] in rest;
        var k :| 0 <= k < |messages[1..]| && messages[1..][k] == rest[i];
        assert messages[k + 1] == rest[i];
      }
    }
  }

  lemma PartOfMore(some: seq<Message>, messages: seq<Message>, more: seq<Message>, until: Option<int>)
    requires IsPart(some, messages, until) && forall m :: m in messages ==> m in more
    ensures IsPart(some, more, until)
  {
  }

  lemma PrefixIsPart(some: seq<Message>, messages: seq<Message>, until: Option<int>, n: nat)
    requires IsPart(some, messages, until) && n <= |some|
    ensures IsPart(some[..n], messages, until)
  {
  }

  lemma SoundArrive(w: World, m: Message, trigger: int)
    requires Sound(w)
    ensures Sound(Next(w, Arrive(m), trigger))
  {
    if !HasId(w.messages, m.id) {
      InsertHas(w.messages, m);
      InsertSorted(w.messages, m);
      InsertDistinct(w.messages, m);
      var v := Next(w, Arrive(m), trigger);
      PartOfMore(Folded(w.row.summary), w.messages, v.messages, None);
      forall id | id in v.tasks ensures SoundTask(v.tasks[id], v) {
        assert SoundTask(w.tasks[id], w);
        if v.tasks[id].Selected? {
          PartOfMore(v.tasks[id].batch, w.messages, v.messages, v.tasks[id].snapshot.until);
        }
      }
    }
  }

  lemma SoundSelect(w: World, id: nat, trigger: int)
    requires Sound(w) && id in w.tasks && w.tasks[id].Loaded?
    ensures Sound(Next(w, Select(id), trigger))
  {
    var until := w.tasks[id].snapshot.until;
    assert SoundTask(w.tasks[id], w);
    PendingIsPart(w.messages, until);
    var pending := Pending(w.messages, until);
    PrefixIsPart(pending, w.messages, until, if |pending| > KEEP_RECENT then |pending| - KEEP_RECENT else |pending|);
    assert pending[..|pending|] == pending;
    var v := Next(w, Select(id), trigger);
    forall i | i in v.tasks ensures SoundTask(v.tasks[i], v) {
      if i != id { assert SoundTask(w.tasks[i], w); }
    }
  }

  /** A commit that goes through was computed from the very row that it replaces. */
  lemma CommitBuildsOnCurrent(w: World, id: nat)
    requires Sound(w) && id in w.tasks && w.tasks[id].Selected?
    ensures var t := w.tasks[id];
            && t.batch != []
            && (w.row.until == t.snapshot.until <==> w.row == t.snapshot)
            && (AfterCommit(w.row, t.snapshot, t.batch) != w.row ==>
                  && t.snapshot == w.row
                  && AfterCommit(w.row, t.snapshot, t.batch) ==
                     Row(Fold(w.row.summary, t.batch), Some(t.batch[|t.batch| - 1].at), w.row.version + 1))
            && (t.snapshot == w.row ==>
                  Earlier(w.row.until, AfterCommit(w.row, t.snapshot, t.batch).until))
  {
    var t := w.tasks[id];
    assert SoundTask(t, w);
    assert Above(t.batch[|t.batch| - 1].at, t.snapshot.until);
  }

  lemma FoldIsSound(row: Row, batch: seq<Message>, messages: seq<Message>)
    requires DistinctIds(messages) && SoundRow(row, messages) && batch != [] && IsPart(batch, messages, row.until)
    ensures SoundRow(Row(Fold(row.summary, batch), Some(batch[|batch| - 1].at), row.version + 1), messages)
  {
    var folded := Folded(row.summary);
    forall i, j | 0 <= i < |folded| && 0 <= j < |batch|
      ensures folded[i].at < batch[j].at && folded[i].id != batch[j].id
    {
      assert !Above(folded[i].at, row.until) && Above(batch[j].at, row.until);
      SameId(messages, folded[i], batch[j]);
    }
  }

  lemma SameId(messages: seq<Message>, a: Message, b: Message)
    requires DistinctIds(messages) && a in messages && b in messages
    ensures a.id == b.id ==> a == b
  {
  }

  lemma SoundCommit(w: World, id: nat, trigger: int)
    requires Sound(w) && id in w.tasks && w.tasks[id].Selected?
    ensures Sound(Next(w, Commit(id), trigger))
  {
    CommitBuildsOnCurrent(w, id);
    assert SoundTask(w.tasks[id], w);
    var v := Next(w, Commit(id), trigger);
    if v.row != w.row {
      FoldIsSound(w.row, w.tasks[id].batch, w.messages);
    }
    forall i | i in v.tasks ensures SoundTask(v.tasks[i], v) {
      assert SoundTask(w.tasks[i], w);
    }
  }

  lemma {:induction false} AlwaysSound(steps: seq<Step>, trigger: int)
    ensures Sound(Run(steps, trigger))
  {
    if steps != [] {
      AlwaysSound(steps[..|steps| - 1], trigger);
      SoundStep(Run(steps[..|steps| - 1], trigger), steps[|steps| - 1], trigger);
    }
  }

  lemma SoundStep(w: World, step: Step, trigger: int)
    requires Sound(w)
    ensures Sound(Next(w, step, trigger))
  {
    match step {
      case Arrive(m) => SoundArrive(w, m, trigger);
      case Load(id) =>
        var v := Next(w, step, trigger);
        forall i | i in v.tasks ensures SoundTask(v.tasks[i], v) {
          if i != id { assert SoundTask(w.tasks[i], w); }
        }
      case Select(id) => if id in w.tasks && w.tasks[id].Loaded? { SoundSelect(w, id, trigger); }
      case Commit(id) => if id in w.tasks && w.tasks[id].Selected? { SoundCommit(w, id, trigger); }
    }
  }

  /** Whatever the order in which messages become visible, no message is folded twice, what is folded
      is in order and at or below the watermark, and the version counts the commits. */
  lemma {:induction false} FoldsAtMostOnce(steps: seq<Step>, trigger: int)
    ensures var w := Run(steps, trigger); var folded := Folded(w.row.summary);
      && DistinctIds(folded) && Sorted(folded) && AllIn(folded, w.messages)
      && (forall i :: 0 <= i < |folded| ==> !Above(folded[i].at, w.row.until))
      && w.row.version == Depth(w.row.summary)
  {
    AlwaysSound(steps, trigger);
  }

  /** m is passed over: the watermark has reached it, and it is not in the summary. */
  predicate Passed(w: World, m: Message) {
    !Above(m.at, w.row.until) && m !in Folded(w.row.summary)
  }

  lemma PassedStep(w: World, step: Step, m: Message, trigger: int)
    requires Sound(w) && Passed(w, m)
    ensures Passed(Next(w, step, trigger), m)
  {
    if step.Commit? && step.id in w.tasks && w.tasks[step.id].Selected? {
      CommitBuildsOnCurrent(w, step.id);
      assert SoundTask(w.tasks[step.id], w);
    }
  }

  /** A message that was passed over stays out of the summary for good. */
  lemma {:induction false} PassedForGood(steps: seq<Step>, k: nat, m: Message, trigger: int)
    requires k <= |steps| && Passed(Run(steps[..k], trigger), m)
    ensures Passed(Run(steps, trigger), m)
  {
    if k == |steps| {
      assert steps[..k] == steps;
    } else {
      var n := |steps| - 1;
      assert steps[..n][..k] == steps[..k];
      PassedForGood(steps[..n], k, m, trigger);
      AlwaysSound(steps[..n], trigger);
      PassedStep(Run(steps[..n], trigger), steps[n], m, trigger);
    }
  }

  /** The messages that a commit passes over: exactly those up to its new watermark that its run did
      not select, because they were not visible then or share the time of the last one selected. */
  lemma CommitPassesIff(w: World, id: nat, m: Message, trigger: int)
    requires Sound(w) && id in w.tasks && w.tasks[id].Selected? && w.tasks[id].snapshot == w.row
    requires Above(m.at, w.row.until)
    ensures Passed(Next(w, Commit(id), trigger), m) <==>
      m.at <= w.tasks[id].batch[|w.tasks[id].batch| - 1].at && m !in w.tasks[id].batch
  {
    CommitBuildsOnCurrent(w, id);
    assert m in Folded(w.row.summary) ==> !Above(m.at, w.row.until);
  }

  // ---------- in order of arrival ----------

  /** Messages become visible in the order of their times, which are all different. */
  predicate InOrder(steps: seq<Step>, trigger: int) {
    forall k :: 0 <= k < |steps| && steps[k].Arrive? ==> IsNewest(Run(steps[..k], trigger).messages, steps[k].message)
  }

  predicate IsNewest(messages: seq<Message>, m: Message) {
    messages != [] ==> messages[|messages| - 1].at < m.at
  }

  lemma InOrderBefore(steps: seq<Step>, trigger: int)
    requires steps != [] && InOrder(steps, trigger)
    ensures InOrder(steps[..|steps| - 1], trigger)
  {
    var before := steps[..|steps| - 1];
    forall k | 0 <= k < |before| && before[k].Arrive?
      ensures IsNewest(Run(before[..k], trigger).messages, before[k].message)
    {
      assert before[..k] == steps[..k];
    }
  }

  predicate Chronological(messages: seq<Message>) {
    forall i, j :: 0 <= i < j < |messages| ==> messages[i].at < messages[j].at
  }

  /** A row that stands for exactly the first `n` messages. */
  predicate Covers(row: Row, messages: seq<Message>, n: nat) {
    && n <= |messages|
    && Folded(row.summary) == messages[..n]
    && row.until == (if n == 0 then None else Some(messages[n - 1].at))
    && row.version == Depth(row.summary)
  }

  /** How far a row has come. */
  function Count(row: Row): nat {
    |Folded(row.summary)|
  }

  /** A task works from a row of the past, and what it selected continues that row. */
  predicate TaskOk(t: Task, w: World, trigger: int) {
    && Covers(t.snapshot, w.messages, Count(t.snapshot))
    && Count(t.snapshot) <= Count(w.row)
    && (Count(t.snapshot) == Count(w.row) ==> t.snapshot == w.row)
    && (t.Selected? ==>
          && t.batch != [] && Count(t.snapshot) + |t.batch| <= |w.messages|
          && t.batch == w.messages[Count(t.snapshot)..Count(t.snapshot) + |t.batch|]
          && (trigger > KEEP_RECENT ==> Count(t.snapshot) + |t.batch| + KEEP_RECENT <= |w.messages|))
  }

  predicate Ok(w: World, trigger: int) {
    && Chronological(w.messages)
    && Covers(w.row, w.messages, Count(w.row))
    && (trigger > KEEP_RECENT && Count(w.row) > 0 ==> Count(w.row) + KEEP_RECENT <= |w.messages|)
    && forall id :: id in w.tasks ==> TaskOk(w.tasks[id], w, trigger)
  }

  lemma {:induction false} PendingIsRest(messages: seq<Message>, n: nat)
    requires Chronological(messages) && n <= |messages|
    ensures Pending(messages, if n == 0 then None else Some(messages[n - 1].at)) == messages[n..]
  {
    if n == 0 {
      AllPending(messages);
    } else {
      SkipFolded(messages, n, messages[n - 1].at);
    }
  }

  lemma {:induction false} AllPending(messages: seq<Message>)
    ensures Pending(messages, None) == messages
  {
    if messages != [] {
      AllPending(messages[1..]);
    }
  }

  lemma {:induction false} SkipFolded(messages: seq<Message>, n: nat, at: int)
    requires Chronological(messages) && n <= |messages|
    requires forall i :: 0 <= i < |messages| ==> (messages[i].at > at <==> i >= n)
    ensures Pending(messages, Some(at)) == messages[n..]
    decreases |messages|
  {
    if messages != [] {
      var rest := messages[1..];
      var k := if n == 0 then 0 else n - 1;
      assert forall i :: 0 <= i < |rest| ==> rest[i] == messages[i + 1];
      SkipFolded(rest, k, at);
      if n > 0 {
        assert rest[k..] == messages[n..];
      } else {
        assert rest[0..] == rest;
      }
    }
  }

  /** What a run selects are the messages right after those its snapshot covers. */
  lemma BatchIsNext(snapshot: Row, messages: seq<Message>, trigger: int)
    requires Chronological(messages) && Covers(snapshot, messages, Count(snapshot))
    ensures var n, batch := Count(snapshot), ToSummarize(Pending(messages, snapshot.until), trigger);
            && n + |batch| <= |messages|
            && batch == messages[n..n + |batch|]
            && (trigger > KEEP_RECENT && batch != [] ==> n + |batch| + KEEP_RECENT <= |messages|)
  {
    PendingIsRest(messages, Count(snapshot));
  }

  lemma SelectOk(w: World, id: nat, trigger: int)
    requires Ok(w, trigger) && id in w.tasks && w.tasks[id].Loaded?
    ensures Ok(Next(w, Select(id), trigger), trigger)
  {
    var t, v := w.tasks[id], Next(w, Select(id), trigger);
    assert TaskOk(t, w, trigger);
    var batch := ToSummarize(Pending(w.messages, t.snapshot.until), trigger);
    forall i | i in v.tasks ensures TaskOk(v.tasks[i], v, trigger) {
      if i == id {
        SelectedOk(t, w, batch, trigger);
        TaskOkLater(v.tasks[i], w, v, trigger);
      } else {
        assert TaskOk(w.tasks[i], w, trigger);
        TaskOkLater(w.tasks[i], w, v, trigger);
      }
    }
  }

  lemma SelectedOk(t: Task, w: World, batch: seq<Message>, trigger: int)
    requires TaskOk(t, w, trigger) && Chronological(w.messages)
    requires batch == ToSummarize(Pending(w.messages, t.snapshot.until), trigger) && batch != []
    ensures TaskOk(Selected(t.snapshot, batch), w, trigger)
  {
    BatchIsNext(t.snapshot, w.messages, trigger);
  }

  /** What covers the first n messages and is continued by the batch covers them all. */
  lemma CoversBatch(row: Row, batch: seq<Message>, messages: seq<Message>)
    requires Covers(row, messages, Count(row)) && batch != []
    requires Count(row) + |batch| <= |messages| && batch == messages[Count(row)..Count(row) + |batch|]
    ensures var after := Row(Fold(row.summary, batch), Some(batch[|batch| - 1].at), row.version + 1);
      Count(after) == Count(row) + |batch| && Covers(after, messages, Count(after))
  {
    var n := Count(row);
    assert messages[..n] + batch == messages[..n + |batch|];
  }

  lemma TaskOkLater(t: Task, w: World, v: World, trigger: int)
    requires TaskOk(t, w, trigger) && v.messages == w.messages
    requires v.row == w.row || Count(v.row) > Count(w.row)
    ensures TaskOk(t, v, trigger)
  {
  }

  lemma CommitOk(w: World, id: nat, trigger: int)
    requires Ok(w, trigger) && id in w.tasks && w.tasks[id].Selected?
    requires w.row.until == w.tasks[id].snapshot.until <==> w.row == w.tasks[id].snapshot
    ensures Ok(Next(w, Commit(id), trigger), trigger)
  {
    var t := w.tasks[id];
    assert TaskOk(t, w, trigger);
    var v := Next(w, Commit(id), trigger);
    CommittedRow(w, t, trigger);
    forall i | i in v.tasks ensures TaskOk(v.tasks[i], v, trigger) {
      TaskOkLater(w.tasks[i], w, v, trigger);
    }
  }

  lemma CommittedRow(w: World, t: Task, trigger: int)
    requires TaskOk(t, w, trigger) && t.Selected? && Covers(w.row, w.messages, Count(w.row))
    requires w.row.until == t.snapshot.until <==> w.row == t.snapshot
    ensures var row := AfterCommit(w.row, t.snapshot, t.batch);
      && Covers(row, w.messages, Count(row))
      && (row == w.row || Count(row) > Count(w.row))
      && (row != w.row && trigger > KEEP_RECENT ==> Count(row) + KEEP_RECENT <= |w.messages|)
  {
    if t.snapshot == w.row {
      CoversBatch(w.row, t.batch, w.messages);
    }
  }

  lemma ArriveOk(w: World, m: Message, trigger: int)
    requires Ok(w, trigger) && IsNewest(w.messages, m)
    ensures Ok(Next(w, Arrive(m), trigger), trigger)
  {
    var v := Next(w, Arrive(m), trigger);
    if v != w {
      CoversLonger(w.row, w.messages, m);
      forall i | i in v.tasks ensures TaskOk(v.tasks[i], v, trigger) {
        assert TaskOk(w.tasks[i], w, trigger);
        CoversLonger(w.tasks[i].snapshot, w.messages, m);
      }
    }
  }

  lemma CoversLonger(row: Row, messages: seq<Message>, m: Message)
    requires Covers(row, messages, Count(row))
    ensures Covers(row, messages + [m], Count(row))
  {
    assert (messages + [m])[..Count(row)] == messages[..Count(row)];
  }

  lemma {:induction false} AlwaysOk(steps: seq<Step>, trigger: int)
    requires InOrder(steps, trigger)
    ensures Ok(Run(steps, trigger), trigger)
  {
    if steps != [] {
      InOrderBefore(steps, trigger);
      var w := Run(steps[..|steps| - 1], trigger);
      AlwaysOk(steps[..|steps| - 1], trigger);
      AlwaysSound(steps[..|steps| - 1], trigger);
      match steps[|steps| - 1] {
        case Arrive(m) => ArriveOk(w, m, trigger);
        case Load(id) =>
          var v := Next(w, Load(id), trigger);
          forall i | i in v.tasks ensures TaskOk(v.tasks[i], v, trigger) {
            if i != id { assert TaskOk(w.tasks[i], w, trigger); }
          }
        case Select(id) => if id in w.tasks && w.tasks[id].Loaded? { SelectOk(w, id, trigger); }
        case Commit(id) =>
          if id in w.tasks && w.tasks[id].Selected? {
            CommitBuildsOnCurrent(w, id);
            CommitOk(w, id, trigger);
          }
      }
    }
  }

  /** Folding is exactly-once and loses no update: if messages become visible in order, then after any
      interleaving of any number of runs the summary stands for exactly the messages at or below the
      watermark, each once and in order, and the version counts the commits it is made of. */
  lemma FoldsExactlyOnce(steps: seq<Step>, trigger: int)
    requires InOrder(steps, trigger)
    ensures var w := Run(steps, trigger);
            && Folded(w.row.summary) <= w.messages
            && (forall i :: 0 <= i < |w.messages| ==>
                  (i < |Folded(w.row.summary)| <==> w.row.until.Some? && w.messages[i].at <= w.row.until.value))
            && w.row.version == Depth(w.row.summary)
  {
    AlwaysOk(steps, trigger);
    CoversIsExact(Run(steps, trigger).row, Run(steps, trigger).messages);
  }

  lemma CoversIsExact(row: Row, messages: seq<Message>)
    requires Chronological(messages) && Covers(row, messages, Count(row))
    ensures Folded(row.summary) <= messages
    ensures forall i :: 0 <= i < |messages| ==>
      (i < Count(row) <==> row.until.Some? && messages[i].at <= row.until.value)
  {
    var n := Count(row);
    if n > 0 {
      forall i | 0 <= i < |messages| ensures i < n <==> messages[i].at <= messages[n - 1].at {
        assert i < n - 1 ==> messages[i].at < messages[n - 1].at;
        assert n - 1 < i ==> messages[n - 1].at < messages[i].at;
      }
    }
  }

  /** The watermark strictly grows with every commit, so a run can never mistake a later row
      for the one it loaded. */
  lemma WatermarkGrows(steps: seq<Step>, step: Step, trigger: int)
    ensures var w := Run(steps, trigger);
            var v := Next(w, step, trigger);
            v.row != w.row ==>
              && v.row.until.Some? && (w.row.until.Some? ==> v.row.until.value > w.row.until.value)
              && v.row.version == w.row.version + 1
              && v.row.summary.Fold? && v.row.summary.previous == w.row.summary
  {
    AlwaysSound(steps, trigger);
    var w := Run(steps, trigger);
    if step.Commit? && Next(w, step, trigger).row != w.row {
      CommitBuildsOnCurrent(w, step.id);
    }
  }

  /** With a trigger above four, at least the four newest messages stay out of the summary. */
  lemma FourStayUnfolded(steps: seq<Step>, trigger: int)
    requires trigger > KEEP_RECENT && InOrder(steps, trigger)
    ensures var w := Run(steps, trigger);
            w.row.summary != NoSummary ==> |Folded(w.row.summary)| + KEEP_RECENT <= |w.messages|
  {
    AlwaysOk(steps, trigger);
    FoldedSome(steps, trigger);
  }

  lemma {:induction false} FoldedSome(steps: seq<Step>, trigger: int)
    ensures var w := Run(steps, trigger); w.row.summary != NoSummary ==> Folded(w.row.summary) != []
  {
    if steps != [] {
      FoldedSome(steps[..|steps| - 1], trigger);
    }
  }

  /** With a smaller trigger they need not: a first run over `trigger` messages folds all. */
  lemma SmallTriggerFoldsAll(messages: seq<Message>, trigger: int)
    requires 0 < trigger <= KEEP_RECENT && |messages| == trigger
    ensures ToSummarize(Pending(messages, None), trigger) == messages
  {
    AllPending(messages);
  }

  // ---------- a run that nobody disturbs ----------

  /** How many messages such a run leaves out of the summary, of those that were out before. */
  function LeftOut(out: nat, trigger: int): (left: nat)
    ensures left <= out
  {
    if out < trigger then out else if out > 4 then 4 else 0
  }

  /** The row stands for the messages but the newest ones, and they are those above the watermark. */
  predicate StandsForAllBut(row: Row, messages: seq<Message>, left: nat) {
    && left <= |messages| && Folded(row.summary) == messages[..|messages| - left]
    && forall i :: 0 <= i < |messages| ==>
         (i >= |messages| - left <==> row.until.None? || messages[i].at > row.until.value)
  }

  lemma TakesTheRest(pending: seq<Message>, trigger: int)
    ensures ToSummarize(pending, trigger) == pending[..|pending| - LeftOut(|pending|, trigger)]
  {
    assert pending[..|pending|] == pending;
  }

  lemma CoversStands(row: Row, messages: seq<Message>)
    requires Chronological(messages) && Covers(row, messages, Count(row))
    ensures Count(row) <= |messages| && StandsForAllBut(row, messages, |messages| - Count(row))
  {
    CoversIsExact(row, messages);
  }

  /** What an undisturbed run takes, and what it leaves. */
  lemma UndisturbedBatch(row: Row, messages: seq<Message>, trigger: int)
    requires Chronological(messages) && Covers(row, messages, Count(row))
    ensures Count(row) <= |messages|
    ensures var n := Count(row); var left := LeftOut(|messages| - n, trigger);
      ToSummarize(Pending(messages, row.until), trigger) == messages[n..|messages| - left]
  {
    PendingIsRest(messages, Count(row));
    TakesTheRest(messages[Count(row)..], trigger);
  }

  lemma UndisturbedRow(row: Row, messages: seq<Message>, batch: seq<Message>, left: nat)
    requires Chronological(messages) && Covers(row, messages, Count(row))
    requires Count(row) + left <= |messages| && batch == messages[Count(row)..|messages| - left]
    ensures StandsForAllBut(if batch == [] then row else AfterCommit(row, row, batch), messages, left)
  {
    if batch == [] {
      CoversStands(row, messages);
    } else {
      CoversBatch(row, batch, messages);
      CoversStands(AfterCommit(row, row, batch), messages);
    }
  }

  /** The row that the run leaves. */
  function AfterAll(row: Row, messages: seq<Message>, trigger: int): Row {
    var batch := ToSummarize(Pending(messages, row.until), trigger);
    if batch == [] then row else AfterCommit(row, row, batch)
  }

  lemma AfterAllStands(row: Row, messages: seq<Message>, trigger: int)
    requires Chronological(messages) && Covers(row, messages, Count(row))
    ensures Count(row) <= |messages|
    ensures StandsForAllBut(AfterAll(row, messages, trigger), messages, LeftOut(|messages| - Count(row), trigger))
    ensures |messages| - Count(row) < trigger ==> AfterAll(row, messages, trigger) == row
  {
    UndisturbedBatch(row, messages, trigger);
    var left := LeftOut(|messages| - Count(row), trigger);
    UndisturbedRow(row, messages, messages[Count(row)..|messages| - left], left);
  }

  /** From loading to storing, with nobody in between. */
  function Undisturbed(w: World, id: nat, trigger: int): World {
    Next(Next(Next(w, Load(id), trigger), Select(id), trigger), Commit(id), trigger)
  }

  lemma UndisturbedSteps(w: World, id: nat, trigger: int)
    ensures Undisturbed(w, id, trigger).messages == w.messages
    ensures Undisturbed(w, id, trigger).row == AfterAll(w.row, w.messages, trigger)
  {
  }

  /** What the run makes of a row that stands for the first messages. */
  predicate LeavesNewest(w: World, id: nat, trigger: int) {
    var out := |w.messages| - |Folded(w.row.summary)|;
    && out >= 0 && Undisturbed(w, id, trigger).messages == w.messages
    && StandsForAllBut(Undisturbed(w, id, trigger).row, w.messages, LeftOut(out, trigger))
    && (out < trigger ==> Undisturbed(w, id, trigger).row == w.row)
  }

  lemma UndisturbedFrom(w: World, id: nat, trigger: int)
    requires Chronological(w.messages) && Covers(w.row, w.messages, Count(w.row))
    ensures LeavesNewest(w, id, trigger)
  {
    UndisturbedSteps(w, id, trigger);
    AfterAllStands(w.row, w.messages, trigger);
  }

  /** If messages become visible in order, a run that nobody disturbs folds nothing as long as fewer
      messages than the trigger are out of the summary, then all but the four newest, and all if there
      are no more than four. */
  lemma {:induction false} UndisturbedRun(steps: seq<Step>, id: nat, trigger: int)
    requires InOrder(steps, trigger)
    ensures LeavesNewest(Run(steps, trigger), id, trigger)
  {
    AlwaysOk(steps, trigger);
    UndisturbedFrom(Run(steps, trigger), id, trigger);
  }
}
