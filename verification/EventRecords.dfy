/** Members of the protocol-v2 event buffer, twenty digits, a colon and a JSON record, and their
    replay (the append script and RedisTurnEventStore.replay in
    backend/apps/chat/stream_events.py). */
module EventRecords {
  import opened Decimals
  import opened Options
  import opened PythonText

  const PREFIX_LENGTH: nat := 20

  datatype Event = Event(sequence: nat, record: string)

  function Member(e: Event): string {
    Padded(e.sequence, PREFIX_LENGTH) + ":" + e.record
  }

  /** jsonId stands for the JSON decoder and its checks: the id of a record they accept. */
  function Decoded(jsonId: string -> Option<nat>, member: string): Option<Event> {
    var k := Colon(member);
    if k == |member| then None
    else
      var prefix, record := member[..k], member[k + 1..];
      if |prefix| != PREFIX_LENGTH || !AllDigits(prefix) then None
      else if jsonId(record) != Some(Value(prefix)) then None
      else Some(Event(Value(prefix), record))
  }

  lemma ColonAfterDigits(prefix: string, record: string)
    requires AllDigits(prefix)
    ensures Colon(prefix + ":" + record) == |prefix|
  {
    var s := prefix + ":" + record;
    assert s[|prefix|] == ':';
    assert forall i :: 0 <= i < |prefix| ==> s[i] == prefix[i];
  }

  /** Number and record come back, colons included, exactly for the numbers below 10^20. */
  lemma MemberRoundTrip(jsonId: string -> Option<nat>, e: Event)
    requires jsonId(e.record) == Some(e.sequence)
    ensures Decoded(jsonId, Member(e)) == (if e.sequence < Pow10(PREFIX_LENGTH) then Some(e) else None)
  {
    var prefix := Padded(e.sequence, PREFIX_LENGTH);
    ColonAfterDigits(prefix, e.record);
    PaddedValue(e.sequence, PREFIX_LENGTH);
    PaddedWidth(e.sequence, PREFIX_LENGTH);
    var s := Member(e);
    assert s[..|prefix|] == prefix;
    assert s[|prefix| + 1..] == e.record;
  }

  /** Nothing else is decoded: a string that is read as an event is the member of that event. */
  lemma {:induction false} DecodedIff(jsonId: string -> Option<nat>, member: string, e: Event)
    ensures Decoded(jsonId, member) == Some(e) <==>
      member == Member(e) && e.sequence < Pow10(PREFIX_LENGTH) && jsonId(e.record) == Some(e.sequence)
  {
    if member == Member(e) && jsonId(e.record) == Some(e.sequence) {
      MemberRoundTrip(jsonId, e);
    }
    if Decoded(jsonId, member) == Some(e) {
      var k := Colon(member);
      PaddedOfValue(member[..k]);
      assert member == member[..k] + ":" + member[k + 1..];
    }
  }

  /** Members with one score are kept in string order; that is the order of their numbers. */
  lemma MembersSortByNumber(e: Event, f: Event)
    requires e.sequence < Pow10(PREFIX_LENGTH) && f.sequence < Pow10(PREFIX_LENGTH)
    requires e.sequence != f.sequence
    ensures Precedes(Member(e), Member(f)) <==> e.sequence < f.sequence
  {
    var a, b := Padded(e.sequence, PREFIX_LENGTH), Padded(f.sequence, PREFIX_LENGTH);
    PaddedWidth(e.sequence, PREFIX_LENGTH);
    PaddedWidth(f.sequence, PREFIX_LENGTH);
    PaddedValue(e.sequence, PREFIX_LENGTH);
    PaddedValue(f.sequence, PREFIX_LENGTH);
    PaddedOrder(e.sequence, f.sequence, PREFIX_LENGTH);
    PrecedesSameLength(a, b, ":" + e.record, ":" + f.record);
    assert a + ":" + e.record == a + (":" + e.record);
    assert b + ":" + f.record == b + (":" + f.record);
  }

  // ---------- replay ----------

  /** sorted(events, key=sequence), which is stable. */
  function Insert(e: Event, sorted: seq<Event>): seq<Event> {
    if sorted == [] || sorted[|sorted| - 1].sequence <= e.sequence then sorted + [e]
    else Insert(e, sorted[..|sorted| - 1]) + [sorted[|sorted| - 1]]
  }

  function Sorted(events: seq<Event>): seq<Event> {
    if events == [] then [] else Insert(events[|events| - 1], Sorted(events[..|events| - 1]))
  }

  /** None when any member is malformed. */
  function DecodedAfter(jsonId: string -> Option<nat>, members: seq<string>, after: nat): Option<seq<Event>> {
    if members == [] then Some([])
    else
      var rest := DecodedAfter(jsonId, members[..|members| - 1], after);
      var last := Decoded(jsonId, members[|members| - 1]);
      if rest.None? || last.None? then None
      else if last.value.sequence > after then Some(rest.value + [last.value])
      else rest
  }

  lemma {:induction false} MalformedStays(jsonId: string -> Option<nat>, members: seq<string>, after: nat, k: nat)
    requires k <= |members| && DecodedAfter(jsonId, members[..k], after).None?
    ensures DecodedAfter(jsonId, members, after).None?
  {
    if k == |members| {
      assert members[..k] == members;
    } else {
      assert members[..|members| - 1][..k] == members[..k];
      MalformedStays(jsonId, members[..|members| - 1], after, k);
    }
  }

  /** None is the unavailable error. */
  method Replay(jsonId: string -> Option<nat>, members: seq<string>, after: nat) returns (result: Option<seq<Event>>)
    ensures DecodedAfter(jsonId, members, after).None? ==> result.None?
    ensures DecodedAfter(jsonId, members, after).Some? ==>
      result == Some(Sorted(DecodedAfter(jsonId, members, after).value))
  {
    var events: seq<Event> := [];
    for k := 0 to |members|
      invariant DecodedAfter(jsonId, members[..k], after) == Some(events)
    {
      assert members[..k + 1][..k] == members[..k];
      var event := Decoded(jsonId, members[k]);
      if event.None? {
        MalformedStays(jsonId, members, after, k + 1);
        return None;
      }
      if event.value.sequence > after {
        events := events + [event.value];
      }
    }
    assert members[..|members|] == members;
    result := Some(Sorted(events));
  }

  /** The replay is unavailable exactly if something in the buffer is no member of a storable event. */
  lemma {:induction false} UnavailableIff(jsonId: string -> Option<nat>, members: seq<string>, after: nat)
    ensures DecodedAfter(jsonId, members, after).None? <==>
      exists k :: 0 <= k < |members| && forall e :: members[k] == Member(e) ==> !Storable(jsonId, e)
  {
    if members != [] {
      var n := |members| - 1;
      UnavailableIff(jsonId, members[..n], after);
      assert forall k :: 0 <= k < n ==> members[..n][k] == members[k];
      NotDecoded(jsonId, members[n]);
    }
  }

  lemma NotDecoded(jsonId: string -> Option<nat>, member: string)
    ensures Decoded(jsonId, member).None? <==> forall e :: member == Member(e) ==> !Storable(jsonId, e)
  {
    var d := Decoded(jsonId, member);
    if d.Some? {
      DecodedIff(jsonId, member, d.value);
    }
    forall e | member == Member(e) && Storable(jsonId, e) ensures d == Some(e) {
      DecodedIff(jsonId, member, e);
    }
  }

  function After(events: seq<Event>, after: nat): seq<Event> {
    if events == [] then []
    else
      var rest, last := After(events[..|events| - 1], after), events[|events| - 1];
      if last.sequence > after then rest + [last] else rest
  }

  function Members(events: seq<Event>): (members: seq<string>)
    ensures |members| == |events|
  {
    seq(|events|, i requires 0 <= i < |events| => Member(events[i]))
  }

  predicate Storable(jsonId: string -> Option<nat>, e: Event) {
    e.sequence < Pow10(PREFIX_LENGTH) && jsonId(e.record) == Some(e.sequence)
  }

  predicate AllStorable(jsonId: string -> Option<nat>, events: seq<Event>) {
    forall i :: 0 <= i < |events| ==> Storable(jsonId, events[i])
  }

  lemma StorableDecodes(jsonId: string -> Option<nat>, e: Event)
    requires Storable(jsonId, e)
    ensures Decoded(jsonId, Member(e)) == Some(e)
  {
    MemberRoundTrip(jsonId, e);
  }

  lemma {:induction false} AllDecode(jsonId: string -> Option<nat>, members: seq<string>, events: seq<Event>,
                                     after: nat)
    requires |members| == |events|
    requires forall i :: 0 <= i < |members| ==> Decoded(jsonId, members[i]) == Some(events[i])
    ensures DecodedAfter(jsonId, members, after) == Some(After(events, after))
  {
    if members == [] {
      assert events == [];
    } else {
      var n := |members| - 1;
      assert forall i :: 0 <= i < n ==> Decoded(jsonId, members[..n][i]) == Some(events[..n][i]);
      AllDecode(jsonId, members[..n], events[..n], after);
    }
  }

  lemma MembersDecode(jsonId: string -> Option<nat>, events: seq<Event>, after: nat)
    requires AllStorable(jsonId, events)
    ensures DecodedAfter(jsonId, Members(events), after) == Some(After(events, after))
  {
    forall i | 0 <= i < |events| ensures Decoded(jsonId, Members(events)[i]) == Some(events[i]) {
      StorableDecodes(jsonId, events[i]);
    }
    AllDecode(jsonId, Members(events), events, after);
  }

  predicate Increasing(events: seq<Event>) {
    forall i, j :: 0 <= i < j < |events| ==> events[i].sequence < events[j].sequence
  }

  predicate DistinctNumbers(events: seq<Event>) {
    forall i, j :: 0 <= i < j < |events| ==> events[i].sequence != events[j].sequence
  }

  lemma {:induction false} InsertContents(e: Event, sorted: seq<Event>)
    ensures multiset(Insert(e, sorted)) == multiset(sorted) + multiset{e}
  {
    if sorted != [] {
      var n := |sorted| - 1;
      assert sorted == sorted[..n] + [sorted[n]];
      InsertContents(e, sorted[..n]);
    }
  }

  lemma {:induction false} InsertKeeps(e: Event, sorted: seq<Event>)
    requires Increasing(sorted)
    requires forall i :: 0 <= i < |sorted| ==> sorted[i].sequence != e.sequence
    ensures Increasing(Insert(e, sorted))
    ensures |Insert(e, sorted)| == |sorted| + 1
    ensures Insert(e, sorted)[|sorted|] == (
      if sorted == [] || sorted[|sorted| - 1].sequence <= e.sequence then e else sorted[|sorted| - 1])
  {
    if sorted != [] && sorted[|sorted| - 1].sequence > e.sequence {
      InsertKeeps(e, sorted[..|sorted| - 1]);
    }
  }

  lemma {:induction false} SortedIs(events: seq<Event>)
    requires DistinctNumbers(events)
    ensures Increasing(Sorted(events)) && multiset(Sorted(events)) == multiset(events)
  {
    if events != [] {
      var n := |events| - 1;
      SortedIs(events[..n]);
      assert events == events[..n] + [events[n]];
      forall f | f in Sorted(events[..n]) ensures f.sequence != events[n].sequence {
        assert f in multiset(Sorted(events[..n]));
        assert f in events[..n];
      }
      InsertKeeps(events[n], Sorted(events[..n]));
      InsertContents(events[n], Sorted(events[..n]));
    }
  }

  lemma {:induction false} AfterHas(events: seq<Event>, after: nat, e: Event)
    ensures e in After(events, after) <==> e in events && e.sequence > after
  {
    if events != [] {
      var n := |events| - 1;
      AfterHas(events[..n], after, e);
      assert e in events <==> e in events[..n] || e == events[n];
    }
  }

  lemma {:induction false} AfterIsDistinct(events: seq<Event>, after: nat)
    requires DistinctNumbers(events)
    ensures DistinctNumbers(After(events, after))
  {
    if events != [] {
      var n := |events| - 1;
      AfterIsDistinct(events[..n], after);
      forall e | e in After(events[..n], after) ensures e.sequence != events[n].sequence {
        AfterHas(events[..n], after, e);
      }
    }
  }

  /** In whatever order the buffer lists them, the replay of stored events is the events above
      the cursor, each once, by number. */
  lemma ReplayReturnsStored(jsonId: string -> Option<nat>, events: seq<Event>, after: nat)
    requires DistinctNumbers(events)
    requires AllStorable(jsonId, events)
    ensures DecodedAfter(jsonId, Members(events), after).Some?
    ensures var replayed := Sorted(DecodedAfter(jsonId, Members(events), after).value);
      && Increasing(replayed)
      && forall e :: e in replayed <==> e in events && e.sequence > after
  {
    MembersDecode(jsonId, events, after);
    AfterIsDistinct(events, after);
    SortedIs(After(events, after));
    var replayed := Sorted(After(events, after));
    forall e ensures e in replayed <==> e in events && e.sequence > after {
      AfterHas(events, after, e);
      assert e in replayed <==> e in multiset(replayed);
      assert e in After(events, after) <==> e in multiset(After(events, after));
    }
  }
}
