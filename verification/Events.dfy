/** The events that one chat Turn produces (backend/apps/chat/generation.py and
    backend/apps/chat/stream_events.py). Payloads other than answer text are opaque. */
module Events {
  datatype Name = Meta | Phase | Citations | Quality | Usage | Done | Error

  datatype Event = Delta(text: string) | Item(name: Name, data: string)

  /** Announces a Turn that waits for a worker. */
  const QUEUED := Item(Phase, "queued")

  predicate Terminal(e: Event) {
    e.Item? && e.name in {Done, Error}
  }

  /** The answer text that the events carry. */
  function Answer(es: seq<Event>): string {
    if es == [] then ""
    else Answer(es[..|es| - 1]) + (if es[|es| - 1].Delta? then es[|es| - 1].text else "")
  }

  lemma {:induction false} AnswerAppend(a: seq<Event>, b: seq<Event>)
    ensures Answer(a + b) == Answer(a) + Answer(b)
  {
    if b == [] {
      assert a + b == a;
    } else {
      var n := |b| - 1;
      assert (a + b)[..|a + b| - 1] == a + b[..n];
      AnswerAppend(a, b[..n]);
    }
  }

  /** What a reader can tell from the events once neighbouring pieces of answer text are
      joined: each other event with the text just before it, and the text at the end. */
  datatype View = View(items: seq<(string, Event)>, tail: string)

  function Look(v: View, e: Event): View {
    match e
    case Delta(t) => v.(tail := v.tail + t)
    case Item(_, _) => View(v.items + [(v.tail, e)], "")
  }

  function ViewOf(es: seq<Event>): View {
    if es == [] then View([], "") else Look(ViewOf(es[..|es| - 1]), es[|es| - 1])
  }

  function TextOf(v: View): string {
    TextOfItems(v.items) + v.tail
  }

  function TextOfItems(items: seq<(string, Event)>): string {
    if items == [] then "" else TextOfItems(items[..|items| - 1]) + items[|items| - 1].0
  }

  /** The view determines the answer. */
  lemma {:induction false} AnswerOfView(es: seq<Event>)
    ensures Answer(es) == TextOf(ViewOf(es))
  {
    if es != [] {
      AnswerOfView(es[..|es| - 1]);
      var v, w := ViewOf(es[..|es| - 1]), ViewOf(es);
      if es[|es| - 1].Item? {
        assert w.items[..|w.items| - 1] == v.items;
      }
    }
  }

  /** The events that are not answer text. */
  function Items(es: seq<Event>): seq<Event> {
    if es == [] then []
    else Items(es[..|es| - 1]) + (if es[|es| - 1].Item? then [es[|es| - 1]] else [])
  }

  lemma {:induction false} ItemsAppend(a: seq<Event>, b: seq<Event>)
    ensures Items(a + b) == Items(a) + Items(b)
  {
    if b == [] {
      assert a + b == a;
    } else {
      var n := |b| - 1;
      assert (a + b)[..|a + b| - 1] == a + b[..n];
      ItemsAppend(a, b[..n]);
    }
  }

  lemma ItemsOfOne(e: Event)
    ensures Items([e]) == if e.Item? then [e] else []
  {
    assert [e][..0] == [];
  }

  /** Exactly one terminal event, and it is the last. */
  predicate EndsOnce(es: seq<Event>) {
    es != [] && Terminal(es[|es| - 1]) && forall i :: 0 <= i < |es| - 1 ==> !Terminal(es[i])
  }
}
