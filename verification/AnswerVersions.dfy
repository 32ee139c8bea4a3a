/** The versions of an answer: regenerating adds a message to the group of the answer it replaces
    (the row updates of _persist_completed_turn and _regenerate_source_for_turn in
    backend/apps/chat/generation.py, and the uniqueness constraints on messages in
    backend/apps/chat/models.py). */
module AnswerVersions {
  import opened Options

  datatype Message = Message(content: string, group: nat, version: nat, current: bool)

  predicate InGroup(m: Message, group: nat) {
    m.group == group
  }

  function MaxVersion(messages: seq<Message>, group: nat): (max: nat)
    ensures forall i :: 0 <= i < |messages| && InGroup(messages[i], group) ==> messages[i].version <= max
  {
    if messages == [] then 0
    else
      var max, last := MaxVersion(messages[..|messages| - 1], group), messages[|messages| - 1];
      if InGroup(last, group) && last.version > max then last.version else max
  }

  function Superseded(messages: seq<Message>, group: nat): (r: seq<Message>)
    ensures |r| == |messages|
    ensures forall i :: 0 <= i < |r| ==>
      r[i] == (if InGroup(messages[i], group) then messages[i].(current := false) else messages[i])
  {
    seq(|messages|, i requires 0 <= i < |messages| =>
      if InGroup(messages[i], group) then messages[i].(current := false) else messages[i])
  }

  /** source: the position of the answer to replace; newGroup: the random group of a first answer. */
  function Added(messages: seq<Message>, source: Option<nat>, newGroup: nat, content: string): seq<Message>
    requires source.Some? ==> source.value < |messages|
  {
    if source.None? then messages + [Message(content, newGroup, 1, true)]
    else
      var group := messages[source.value].group;
      var max := MaxVersion(messages, group);
      Superseded(messages, group) + [Message(content, group, (if max == 0 then 1 else max) + 1, true)]
  }

  /** What adding an answer means. One that replaces nothing starts a group. One that replaces another
      joins the group of that one: its version is the next after the greatest, or after 1, and no
      earlier message of the group stays current. Nothing else changes. */
  ghost predicate Extends(before: seq<Message>, after: seq<Message>, source: Option<nat>, newGroup: nat,
                          content: string)
  {
    && |after| == |before| + 1
    && var last := after[|before|];
    && last.content == content && last.current
    && match source
       case None => last.group == newGroup && last.version == 1 && after[..|before|] == before
       case Some(k) =>
         && k < |before| && last.group == before[k].group
         && IsNextVersion(before, last)
         && forall i :: 0 <= i < |before| ==>
              after[i] == if before[i].group == last.group then before[i].(current := false) else before[i]
  }

  /** One more than the greatest version of the group; versions count from 1. */
  ghost predicate IsNextVersion(before: seq<Message>, last: Message) {
    exists j ::
      && 0 <= j < |before| && before[j].group == last.group
      && (forall i :: 0 <= i < |before| && before[i].group == last.group ==> before[i].version <= before[j].version)
      && last.version == if before[j].version == 0 then 2 else before[j].version + 1
  }

  lemma {:induction false} MaxIsReached(messages: seq<Message>, group: nat) returns (j: nat)
    requires MaxVersion(messages, group) > 0
    ensures j < |messages| && messages[j].group == group && messages[j].version == MaxVersion(messages, group)
  {
    var n := |messages| - 1;
    if MaxVersion(messages, group) == MaxVersion(messages[..n], group) {
      j := MaxIsReached(messages[..n], group);
    } else {
      j := n;
    }
  }

  lemma {:induction false} AddedExtends(messages: seq<Message>, source: Option<nat>, newGroup: nat, content: string)
    requires source.Some? ==> source.value < |messages|
    ensures Extends(messages, Added(messages, source, newGroup, content), source, newGroup, content)
  {
    if source.Some? {
      var group := messages[source.value].group;
      var j := source.value;
      if MaxVersion(messages, group) > 0 {
        j := MaxIsReached(messages, group);
      }
      var after := Added(messages, source, newGroup, content);
      assert messages[j].version == MaxVersion(messages, group);
      assert IsNextVersion(messages, after[|messages|]);
    }
  }

  /** Two messages satisfy the database's constraints, one version each and one current at most,
      and the current one is the newer. */
  predicate Compatible(a: Message, b: Message) {
    a.group == b.group ==>
      && a.version != b.version
      && !(a.current && b.current)
      && (a.current ==> b.version < a.version)
      && (b.current ==> a.version < b.version)
  }

  ghost predicate WellVersioned(messages: seq<Message>) {
    && (forall i, j :: 0 <= i < j < |messages| ==> Compatible(messages[i], messages[j]))
    && (forall i :: 0 <= i < |messages| ==> HasCurrent(messages, messages[i].group))
  }

  predicate HasCurrent(messages: seq<Message>, group: nat) {
    exists i :: 0 <= i < |messages| && messages[i].group == group && messages[i].current
  }

  predicate IsFresh(messages: seq<Message>, group: nat) {
    forall i :: 0 <= i < |messages| ==> messages[i].group != group
  }

  /** Adding an answer never violates a constraint: every group keeps distinct versions and
      exactly one current one, its newest. */
  lemma AddedKeepsVersions(messages: seq<Message>, source: Option<nat>, newGroup: nat, content: string)
    requires WellVersioned(messages) && IsFresh(messages, newGroup)
    requires source.Some? ==> source.value < |messages|
    ensures WellVersioned(Added(messages, source, newGroup, content))
  {
    var after := Added(messages, source, newGroup, content);
    var n := |messages|;
    forall i, j | 0 <= i < j < |after| ensures Compatible(after[i], after[j]) {
      if j < n {
        assert Compatible(messages[i], messages[j]);
      }
    }
    forall i | 0 <= i < |after| ensures HasCurrent(after, after[i].group) {
      AddedHasCurrent(messages, source, newGroup, content, i);
    }
  }

  lemma AddedHasCurrent(messages: seq<Message>, source: Option<nat>, newGroup: nat, content: string, i: nat)
    requires WellVersioned(messages)
    requires source.Some? ==> source.value < |messages|
    requires i <= |messages|
    ensures var after := Added(messages, source, newGroup, content); HasCurrent(after, after[i].group)
  {
    var after := Added(messages, source, newGroup, content);
    var n := |messages|;
    if after[i].group == after[n].group {
      assert after[n].current;
    } else {
      assert HasCurrent(messages, messages[i].group);
      var k :| 0 <= k < n && messages[k].group == messages[i].group && messages[k].current;
      assert after[k] == messages[k];
    }
  }

  // ---------- which answer a new one replaces ----------

  /** A Turn of the session: whether it is for the same question, completed, and its answer. */
  datatype Sibling = Sibling(turn: nat, sameQuestion: bool, completed: bool, answer: Option<nat>, startedAt: int)

  predicate IsCandidate(s: Sibling, turn: nat) {
    s.turn != turn && s.sameQuestion && s.completed && s.answer.Some?
  }

  /** The answer of the candidate that started last; nothing if there is no candidate. */
  function RegenerateSource(siblings: seq<Sibling>, turn: nat): (r: Option<Sibling>)
    ensures r.None? <==> forall s :: s in siblings ==> !IsCandidate(s, turn)
    ensures r.Some? ==> r.value in siblings && IsCandidate(r.value, turn)
    ensures r.Some? ==> forall s :: s in siblings && IsCandidate(s, turn) ==> s.startedAt <= r.value.startedAt
  {
    if siblings == [] then None
    else
      var n := |siblings| - 1;
      var best := RegenerateSource(siblings[..n], turn);
      assert forall s :: s in siblings <==> s in siblings[..n] || s == siblings[n];
      if IsCandidate(siblings[n], turn) && (best.None? || siblings[n].startedAt > best.value.startedAt)
      then Some(siblings[n]) else best
  }
}
