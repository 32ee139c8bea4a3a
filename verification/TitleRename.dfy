/** Renaming a document over a whole space: the texts that refer to it are rewritten and their links
    rebuilt, and links that waited for the new title are resolved (propagate_title_rename and
    resolve_unresolved_links_to in backend/apps/knowledge/links.py). */
module TitleRename {
  import opened Basics
  import opened Options
  import opened PythonText
  import opened WikiLinks
  import opened LinkSync
  import I = IdLinks

  /** entry: what the links see of the document; rewritable: its status lets its text be rewritten;
      text: its text. */
  datatype Source = Source(entry: Doc, rewritable: bool, text: string)

  function Entries(sources: map<Id, Source>): map<Id, Doc> {
    map d | d in sources :: sources[d].entry
  }

  /** The libraries that a space refers to. */
  type Libraries = map<nat, set<nat>>

  function SceneOf(sources: map<Id, Source>, libraries: Libraries, d: Id): Scene
    requires d in sources
  {
    var own := sources[d].entry.space;
    Scene(Entries(sources), d, own, {own} + (if own in libraries then libraries[own] else {}))
  }

  /** The rows that d should have. */
  function SyncedRows(sources: map<Id, Source>, libraries: Libraries, order: seq<Id>, d: Id): seq<Link> {
    if d in sources then RowsOf(SceneOf(sources, libraries, d), order, sources[d].text) else []
  }

  /** A document that alone bears its title and that no reference leads to is linked from the text of d
      exactly if it is another one that can be linked, in d's space or in one of the libraries of that
      space, and d refers to its title. */
  lemma {:induction false} LinkedIff(sources: map<Id, Source>, libraries: Libraries, order: seq<Id>, d: Id, e: Id)
    requires d in sources && e in sources && forall f :: f in sources ==> f in order
    requires forall r :: r in I.IdRefs(sources[d].text) ==> r.target != e
    requires forall f :: f in sources && f != e ==> sources[f].entry.title != sources[e].entry.title
    ensures HasTarget(SyncedRows(sources, libraries, order, d), e) <==>
      && e != d && sources[e].entry.linkable
      && (sources[e].entry.space == sources[d].entry.space ||
          (sources[d].entry.space in libraries && sources[e].entry.space in libraries[sources[d].entry.space]))
      && sources[e].entry.title in Titles(Links(sources[d].text))
  {
    var refs := I.IdRefs(sources[d].text);
    assert forall i :: 0 <= i < |refs| ==> refs[i] in refs;
    SoleBearerIsLinkedIff(SceneOf(sources, libraries, d), order, Titles(Links(sources[d].text)), refs, e);
  }

  /** The table after the links of the given documents were rebuilt, one after the other. */
  function Resynced(rows: map<Id, seq<Link>>, sources: map<Id, Source>, libraries: Libraries, order: seq<Id>,
                    list: seq<Id>): map<Id, seq<Link>> {
    if list == [] then rows
    else
      var last := list[|list| - 1];
      Resynced(rows, sources, libraries, order, list[..|list| - 1])[last := SyncedRows(sources, libraries, order, last)]
  }

  function RowsAt(rows: map<Id, seq<Link>>, d: Id): Option<seq<Link>> {
    if d in rows then Some(rows[d]) else None
  }

  lemma {:induction false} ResyncedAt(rows: map<Id, seq<Link>>, sources: map<Id, Source>, libraries: Libraries,
                                      order: seq<Id>, list: seq<Id>, d: Id)
    ensures RowsAt(Resynced(rows, sources, libraries, order, list), d) ==
            if d in list then Some(SyncedRows(sources, libraries, order, d)) else RowsAt(rows, d)
  {
    if list != [] {
      var k := |list| - 1;
      ResyncedAt(rows, sources, libraries, order, list[..k], d);
      assert d in list <==> d in list[..k] || d == list[k];
    }
  }

  lemma ResyncedOneMore(rows: map<Id, seq<Link>>, sources: map<Id, Source>, libraries: Libraries, order: seq<Id>,
                        list: seq<Id>, d: Id)
    ensures Resynced(rows, sources, libraries, order, list + [d]) ==
            Resynced(rows, sources, libraries, order, list)[d := SyncedRows(sources, libraries, order, d)]
  {
    assert (list + [d])[..|list|] == list;
  }

  // ---------- whose text changes ----------

  /** d may refer to the renamed document, and the rewrite changes its text. */
  predicate Changes(sources: map<Id, Source>, renamed: Id, o: string, n: string, d: Id) {
    && renamed in sources && d in sources && d != renamed
    && sources[d].entry.space == sources[renamed].entry.space && sources[d].rewritable
    && Rewrite(sources[d].text, o, n) != sources[d].text
  }

  function Changed(sources: map<Id, Source>, renamed: Id, o: string, n: string, done: seq<Id>): seq<Id> {
    if done == [] then []
    else
      var rest, d := Changed(sources, renamed, o, n, done[..|done| - 1]), done[|done| - 1];
      if Changes(sources, renamed, o, n, d) then rest + [d] else rest
  }

  function WithText(sources: map<Id, Source>, d: Id, text: string): map<Id, Source> {
    if d in sources then sources[d := sources[d].(text := text)] else sources
  }

  /** All documents after the rename of the texts of those in done. */
  function Rewritten(sources: map<Id, Source>, renamed: Id, o: string, n: string, done: seq<Id>): map<Id, Source> {
    if done == [] then sources
    else
      var rest, d := Rewritten(sources, renamed, o, n, done[..|done| - 1]), done[|done| - 1];
      if Changes(sources, renamed, o, n, d) then WithText(rest, d, Rewrite(sources[d].text, o, n)) else rest
  }

  lemma {:induction false} ChangedHas(sources: map<Id, Source>, renamed: Id, o: string, n: string,
                                      done: seq<Id>, d: Id)
    ensures d in Changed(sources, renamed, o, n, done) <==> d in done && Changes(sources, renamed, o, n, d)
  {
    if done != [] {
      var k := |done| - 1;
      ChangedHas(sources, renamed, o, n, done[..k], d);
      assert d in done <==> d in done[..k] || d == done[k];
    }
  }

  lemma {:induction false} ChangedSet(sources: map<Id, Source>, renamed: Id, o: string, n: string, done: seq<Id>)
    requires Distinct(done)
    ensures |Changed(sources, renamed, o, n, done)| ==
            |set d | d in done && Changes(sources, renamed, o, n, d)|
  {
    if done != [] {
      var k := |done| - 1;
      ChangedSet(sources, renamed, o, n, done[..k]);
      var rest := set d | d in done[..k] && Changes(sources, renamed, o, n, d);
      var all := set d | d in done && Changes(sources, renamed, o, n, d);
      assert done == done[..k] + [done[k]];
      assert done[k] !in done[..k];
      assert all == if Changes(sources, renamed, o, n, done[k]) then rest + {done[k]} else rest;
    }
  }

  lemma ChangedCount(sources: map<Id, Source>, renamed: Id, o: string, n: string, order: seq<Id>)
    requires Lists(sources, order)
    ensures |Changed(sources, renamed, o, n, order)| == |set d | d in sources && Changes(sources, renamed, o, n, d)|
  {
    ChangedSet(sources, renamed, o, n, order);
    assert (set d | d in order && Changes(sources, renamed, o, n, d)) ==
           (set d | d in sources && Changes(sources, renamed, o, n, d));
  }

  /** Only texts change, and only those of the changed documents. */
  lemma {:induction false} RewrittenAt(sources: map<Id, Source>, renamed: Id, o: string, n: string,
                                       done: seq<Id>, d: Id)
    ensures d in Rewritten(sources, renamed, o, n, done) <==> d in sources
    ensures d in sources ==> (
      Rewritten(sources, renamed, o, n, done)[d] == sources[d].(
        text := if d in done && Changes(sources, renamed, o, n, d)
                then Rewrite(sources[d].text, o, n) else sources[d].text))
  {
    if done != [] {
      var k := |done| - 1;
      RewrittenAt(sources, renamed, o, n, done[..k], d);
      assert d in done <==> d in done[..k] || d == done[k];
    }
  }

  lemma ChangedOneMore(sources: map<Id, Source>, renamed: Id, o: string, n: string, order: seq<Id>, k: nat)
    requires k < |order|
    ensures Changed(sources, renamed, o, n, order[..k + 1]) ==
            if Changes(sources, renamed, o, n, order[k]) then Changed(sources, renamed, o, n, order[..k]) + [order[k]]
            else Changed(sources, renamed, o, n, order[..k])
  {
    assert order[..k + 1][..k] == order[..k];
  }

  lemma RewrittenOneMore(sources: map<Id, Source>, renamed: Id, o: string, n: string, order: seq<Id>, k: nat)
    requires k < |order|
    ensures Rewritten(sources, renamed, o, n, order[..k + 1]) ==
            if Changes(sources, renamed, o, n, order[k])
            then WithText(Rewritten(sources, renamed, o, n, order[..k]), order[k],
                          Rewrite(sources[order[k]].text, o, n))
            else Rewritten(sources, renamed, o, n, order[..k])
  {
    assert order[..k + 1][..k] == order[..k];
  }

  /** The texts, the links and the number of changed documents, as the loop goes. */
  datatype Progress = Progress(sources: map<Id, Source>, rows: map<Id, seq<Link>>, updated: nat)

  /** One round of the loop: a text that changes, and the links of that document. */
  function Round(p: Progress, renamed: Id, o: string, n: string, libraries: Libraries, order: seq<Id>,
                 d: Id): Progress {
    if Changes(p.sources, renamed, o, n, d) then
      var sources := WithText(p.sources, d, Rewrite(p.sources[d].text, o, n));
      Progress(sources, p.rows[d := SyncedRows(sources, libraries, order, d)], p.updated + 1)
    else p
  }

  function Rounds(p: Progress, renamed: Id, o: string, n: string, libraries: Libraries, order: seq<Id>,
                  done: seq<Id>): Progress {
    if done == [] then p
    else
      var k := |done| - 1;
      Round(Rounds(p, renamed, o, n, libraries, order, done[..k]), renamed, o, n, libraries, order, done[k])
  }

  lemma RoundsOneMore(p: Progress, renamed: Id, o: string, n: string, libraries: Libraries, order: seq<Id>, k: nat)
    requires k < |order|
    ensures Rounds(p, renamed, o, n, libraries, order, order[..k + 1]) ==
            Round(Rounds(p, renamed, o, n, libraries, order, order[..k]), renamed, o, n, libraries, order, order[k])
  {
    assert order[..k + 1][..k] == order[..k];
  }

  /** The rounds change no document's entry and keep all documents. */
  lemma {:induction false} RoundsKeep(p: Progress, renamed: Id, o: string, n: string, libraries: Libraries,
                                      order: seq<Id>, done: seq<Id>, d: Id)
    ensures var q := Rounds(p, renamed, o, n, libraries, order, done);
      && (d in q.sources <==> d in p.sources)
      && (d in p.sources ==> q.sources[d].entry == p.sources[d].entry)
  {
    if done != [] {
      RoundsKeep(p, renamed, o, n, libraries, order, done[..|done| - 1], d);
    }
  }

  // ---------- who waits for a title ----------

  /** d has a row that waits for the title of the renamed document. */
  predicate Waits(sources: map<Id, Source>, rows: map<Id, seq<Link>>, renamed: Id, d: Id) {
    && renamed in sources && d in sources && d != renamed
    && sources[renamed].entry.title != ""
    && sources[d].entry.space == sources[renamed].entry.space
    && RowsAt(rows, d).Some? && IsGray(rows[d], sources[renamed].entry.title)
  }

  predicate IsGray(links: seq<Link>, title: string) {
    exists i :: 0 <= i < |links| && links[i].target.None? && links[i].unresolved == title
  }

  function WaitingFor(sources: map<Id, Source>, rows: map<Id, seq<Link>>, renamed: Id, done: seq<Id>): seq<Id> {
    if done == [] then []
    else
      var rest, d := WaitingFor(sources, rows, renamed, done[..|done| - 1]), done[|done| - 1];
      if Waits(sources, rows, renamed, d) then rest + [d] else rest
  }

  lemma {:induction false} WaitingForHas(sources: map<Id, Source>, rows: map<Id, seq<Link>>, renamed: Id,
                                         done: seq<Id>, d: Id)
    ensures d in WaitingFor(sources, rows, renamed, done) <==> d in done && Waits(sources, rows, renamed, d)
  {
    if done != [] {
      var k := |done| - 1;
      WaitingForHas(sources, rows, renamed, done[..k], d);
      assert d in done <==> d in done[..k] || d == done[k];
    }
  }

  lemma WaitingOneMore(sources: map<Id, Source>, rows: map<Id, seq<Link>>, renamed: Id, order: seq<Id>, k: nat)
    requires k < |order|
    ensures WaitingFor(sources, rows, renamed, order[..k + 1]) ==
            if Waits(sources, rows, renamed, order[k]) then WaitingFor(sources, rows, renamed, order[..k]) + [order[k]]
            else WaitingFor(sources, rows, renamed, order[..k])
  {
    assert order[..k + 1][..k] == order[..k];
  }

  // ---------- the operations ----------

  /** Every document once. */
  ghost predicate Lists(sources: map<Id, Source>, order: seq<Id>) {
    && (forall k :: 0 <= k < |order| ==> order[k] in sources)
    && (forall d :: d in sources ==> d in order)
    && Distinct(order)
  }

  class KnowledgeBase {
    const libraries: Libraries
    const table: LinkTable
    var sources: map<Id, Source>

    constructor (libraries: Libraries, table: LinkTable, sources: map<Id, Source>)
      ensures this.libraries == libraries && this.table == table && this.sources == sources
    {
      this.libraries, this.table, this.sources := libraries, table, sources;
    }

    method Sync(order: seq<Id>, d: Id)
      requires d in sources
      modifies table
      ensures table.rows == old(table.rows)[d := SyncedRows(sources, libraries, order, d)]
    {
      var _ := table.SyncDocumentLinks(SceneOf(sources, libraries, d), order, sources[d].text);
    }

    /** Rebuilds the links of every document that waited for this one when it was called. */
    method ResolveUnresolvedLinksTo(order: seq<Id>, renamed: Id) returns (resolved: nat)
      requires Lists(sources, order)
      modifies table
      ensures var waiting := WaitingFor(sources, old(table.rows), renamed, order);
        && table.rows == Resynced(old(table.rows), sources, libraries, order, waiting)
        && resolved == |waiting|
    {
      resolved := 0;
      var before := table.rows;
      for k := 0 to |order|
        invariant table.rows ==
          Resynced(before, sources, libraries, order, WaitingFor(sources, before, renamed, order[..k]))
        invariant resolved == |WaitingFor(sources, before, renamed, order[..k])|
      {
        var d := order[k];
        WaitingOneMore(sources, before, renamed, order, k);
        ResyncedOneMore(before, sources, libraries, order, WaitingFor(sources, before, renamed, order[..k]), d);
        if Waits(sources, before, renamed, d) {
          Sync(order, d);
          resolved := resolved + 1;
        }
      }
      assert order[..|order|] == order;
    }

    /** One round of the loop: the text filter, the rewrite, and the links of a text that changed. */
    method RewriteReferer(order: seq<Id>, renamed: Id, oldTitle: string, newTitle: string,
                          d: Id) returns (changed: bool)
      requires renamed in sources && d in sources
      modifies this`sources, table
      ensures Round(Progress(old(sources), old(table.rows), 0), renamed, oldTitle, newTitle, libraries, order, d) ==
              Progress(sources, table.rows, if changed then 1 else 0)
    {
      changed := false;
      if d != renamed && sources[d].entry.space == sources[renamed].entry.space && sources[d].rewritable {
        if Contains(sources[d].text, "[[" + oldTitle) {
          var rewritten := Rewrite(sources[d].text, oldTitle, newTitle);
          if rewritten != sources[d].text {
            changed := true;
            sources := WithText(sources, d, rewritten);
            Sync(order, d);
          }
        } else {
          FilterIsExact(sources[d].text, oldTitle, newTitle);
        }
      }
    }

    /** The loop over the documents whose text may refer to the old title. */
    method RewriteReferers(order: seq<Id>, renamed: Id, oldTitle: string, newTitle: string) returns (updated: nat)
      requires renamed in sources && Lists(sources, order)
      modifies this`sources, table
      ensures var changed := Changed(old(sources), renamed, oldTitle, newTitle, order);
        && sources == Rewritten(old(sources), renamed, oldTitle, newTitle, order)
        && table.rows == Resynced(old(table.rows), sources, libraries, order, changed)
        && updated == |changed|
    {
      updated := 0;
      ghost var before := Progress(sources, table.rows, 0);
      for k := 0 to |order|
        invariant Progress(sources, table.rows, updated) ==
          Rounds(before, renamed, oldTitle, newTitle, libraries, order, order[..k])
      {
        RoundsKeep(before, renamed, oldTitle, newTitle, libraries, order, order[..k], order[k]);
        RoundsKeep(before, renamed, oldTitle, newTitle, libraries, order, order[..k], renamed);
        RoundsOneMore(before, renamed, oldTitle, newTitle, libraries, order, k);
        var changed := RewriteReferer(order, renamed, oldTitle, newTitle, order[k]);
        updated := updated + if changed then 1 else 0;
      }
      RoundsAre(before, renamed, oldTitle, newTitle, libraries, order, |order|);
      assert order[..|order|] == order;
    }

    /** Called when the document already bears its new title. */
    method PropagateTitleRename(order: seq<Id>, renamed: Id, oldTitle: string, newTitle: string)
        returns (updated: nat)
      requires renamed in sources && Lists(sources, order)
      modifies this`sources, table
      ensures oldTitle == "" || newTitle == "" || oldTitle == newTitle ==>
        updated == 0 && sources == old(sources) && table.rows == old(table.rows)
      ensures oldTitle != "" && newTitle != "" && oldTitle != newTitle ==>
        && TextsRenamed(old(sources), sources, renamed, oldTitle, newTitle, updated)
        && (forall d :: RowsAt(table.rows, d) ==
             if (d in sources && sources[d].text != old(sources)[d].text)
                || Waits(old(sources), old(table.rows), renamed, d)
             then Some(SyncedRows(sources, libraries, order, d)) else RowsAt(old(table.rows), d))
        && (sources[renamed].entry.linkable && sources[renamed].entry.title != "" ==>
              forall d :: NoLongerWaits(sources, table.rows, renamed, d))
    {
      updated := 0;
      if oldTitle == "" || newTitle == "" || oldTitle == newTitle {
        return;
      }
      ghost var before, rows := sources, table.rows;
      updated := RewriteReferers(order, renamed, oldTitle, newTitle);
      RewrittenIsListed(before, renamed, oldTitle, newTitle, order);
      var _ := ResolveUnresolvedLinksTo(order, renamed);
      TextsAre(before, renamed, oldTitle, newTitle, order);
      RowsAre(before, rows, renamed, oldTitle, newTitle, libraries, order);
    }
  }

  /** The texts of the other documents of the space that can be rewritten are, nothing else changes,
      and those that changed are counted. */
  ghost predicate TextsRenamed(before: map<Id, Source>, after: map<Id, Source>, renamed: Id, o: string, n: string,
                               updated: nat)
  {
    && renamed in before && after.Keys == before.Keys
    && (forall d :: d in before ==> after[d] == before[d].(
         text := if d != renamed && before[d].rewritable && before[d].entry.space == before[renamed].entry.space
                 then Rewrite(before[d].text, o, n) else before[d].text))
    && updated == |set d | d in before && after[d].text != before[d].text|
  }

  lemma TextsAre(sources: map<Id, Source>, renamed: Id, o: string, n: string, order: seq<Id>)
    requires Lists(sources, order) && renamed in sources
    ensures TextsRenamed(sources, Rewritten(sources, renamed, o, n, order), renamed, o, n,
                         |Changed(sources, renamed, o, n, order)|)
  {
    var after := Rewritten(sources, renamed, o, n, order);
    forall d: Id ensures TextIs(sources, after, renamed, o, n, d) {
      TextAfterwards(sources, renamed, o, n, order, d);
    }
    forall d: Id ensures d in after <==> d in sources {
      assert TextIs(sources, after, renamed, o, n, d);
    }
    assert after.Keys == sources.Keys;
    ChangedCount(sources, renamed, o, n, order);
    SameTexts(sources, after, renamed, o, n);
  }

  lemma SameTexts(before: map<Id, Source>, after: map<Id, Source>, renamed: Id, o: string, n: string)
    requires renamed in before && after.Keys == before.Keys
    requires forall d: Id :: TextIs(before, after, renamed, o, n, d)
    ensures TextsRenamed(before, after, renamed, o, n, |set d | d in before && Changes(before, renamed, o, n, d)|)
  {
    forall d | d in before
      ensures after[d].text != before[d].text <==> Changes(before, renamed, o, n, d)
      ensures after[d] == before[d].(
        text := if d != renamed && before[d].rewritable && before[d].entry.space == before[renamed].entry.space
                then Rewrite(before[d].text, o, n) else before[d].text)
    {
      assert TextIs(before, after, renamed, o, n, d);
    }
    assert (set d | d in before && after[d].text != before[d].text) ==
           (set d | d in before && Changes(before, renamed, o, n, d));
  }

  /** What both loops make of the rows. */
  lemma RowsAre(sources: map<Id, Source>, rows: map<Id, seq<Link>>, renamed: Id, o: string, n: string,
                libraries: Libraries, order: seq<Id>)
    requires Lists(sources, order) && renamed in sources
    ensures Lists(Rewritten(sources, renamed, o, n, order), order)
    ensures renamed in Rewritten(sources, renamed, o, n, order)
    ensures var after := Rewritten(sources, renamed, o, n, order);
      var middle := Resynced(rows, after, libraries, order, Changed(sources, renamed, o, n, order));
      var rows' := Resynced(middle, after, libraries, order, WaitingFor(after, middle, renamed, order));
      && (forall d :: d in after ==> d in sources)
      && (forall d :: RowsAt(rows', d) ==
           if (d in after && after[d].text != sources[d].text) || Waits(sources, rows, renamed, d)
           then Some(SyncedRows(after, libraries, order, d)) else RowsAt(rows, d))
      && (after[renamed].entry.linkable && after[renamed].entry.title != "" ==>
            forall d :: NoLongerWaits(after, rows', renamed, d))
  {
    var after := Rewritten(sources, renamed, o, n, order);
    var middle := Resynced(rows, after, libraries, order, Changed(sources, renamed, o, n, order));
    var rows' := Resynced(middle, after, libraries, order, WaitingFor(after, middle, renamed, order));
    RewrittenIsListed(sources, renamed, o, n, order);
    TextAfterwards(sources, renamed, o, n, order, renamed);
    forall d: Id ensures (d in after ==> d in sources) && RowsAt(rows', d) ==
      if (d in after && after[d].text != sources[d].text) || Waits(sources, rows, renamed, d)
      then Some(SyncedRows(after, libraries, order, d)) else RowsAt(rows, d)
    {
      TextAfterwards(sources, renamed, o, n, order, d);
      RowsAfterwards(sources, rows, renamed, o, n, libraries, order, d);
    }
    if after[renamed].entry.linkable && after[renamed].entry.title != "" {
      forall d: Id ensures NoLongerWaits(after, rows', renamed, d) {
        TextAfterwards(sources, renamed, o, n, order, d);
        NobodyWaits(sources, rows, after, rows', libraries, order, renamed, d);
      }
    }
  }

  /** What the rename makes of one document. */
  predicate TextIs(before: map<Id, Source>, after: map<Id, Source>, renamed: Id, o: string, n: string, d: Id) {
    && (d in after <==> d in before)
    && (d in after && renamed in before ==>
          && after[d] == before[d].(
               text := if d != renamed && before[d].rewritable && before[d].entry.space == before[renamed].entry.space
                       then Rewrite(before[d].text, o, n) else before[d].text)
          && (after[d].text != before[d].text <==> Changes(before, renamed, o, n, d)))
  }

  lemma TextAfterwards(sources: map<Id, Source>, renamed: Id, o: string, n: string, order: seq<Id>, d: Id)
    requires Lists(sources, order)
    ensures TextIs(sources, Rewritten(sources, renamed, o, n, order), renamed, o, n, d)
  {
    RewrittenAt(sources, renamed, o, n, order, d);
  }

  /** No other document of the space has an unresolved row for the title that the renamed one bears. */
  predicate NoLongerWaits(sources: map<Id, Source>, rows: map<Id, seq<Link>>, renamed: Id, d: Id)
    requires renamed in sources
  {
    d in sources && d != renamed && sources[d].entry.space == sources[renamed].entry.space && d in rows ==>
      forall i :: 0 <= i < |rows[d]| ==>
        rows[d][i].target.Some? || rows[d][i].unresolved != sources[renamed].entry.title
  }

  /** Rows that were rebuilt are resolved, since the renamed document is a candidate; of the others none
      was waiting. */
  lemma NobodyWaits(before: map<Id, Source>, rows: map<Id, seq<Link>>, after: map<Id, Source>,
                    rows': map<Id, seq<Link>>, libraries: Libraries, order: seq<Id>, renamed: Id, d: Id)
    requires renamed in before && renamed in after && Lists(after, order)
    requires after[renamed].entry == before[renamed].entry
    requires d in after ==> d in before && after[d].entry == before[d].entry
    requires after[renamed].entry.linkable && after[renamed].entry.title != ""
    requires RowsAt(rows', d) == Some(SyncedRows(after, libraries, order, d)) ||
             (RowsAt(rows', d) == RowsAt(rows, d) && !Waits(before, rows, renamed, d))
    ensures NoLongerWaits(after, rows', renamed, d)
  {
    if d in after && d != renamed && after[d].entry.space == after[renamed].entry.space && d in rows' {
      forall i | 0 <= i < |rows'[d]| && rows'[d][i].target.None?
        ensures rows'[d][i].unresolved != after[renamed].entry.title
      {
        if RowsAt(rows', d) == Some(SyncedRows(after, libraries, order, d)) {
          SyncedIsResolved(after, libraries, order, renamed, d, rows'[d][i]);
        }
      }
    }
  }

  lemma SyncedIsResolved(sources: map<Id, Source>, libraries: Libraries, order: seq<Id>, renamed: Id, d: Id, link: Link)
    requires renamed in sources && d in sources && d != renamed && Lists(sources, order)
    requires sources[d].entry.space == sources[renamed].entry.space && sources[renamed].entry.linkable
    requires link in SyncedRows(sources, libraries, order, d) && link.target.None?
    ensures link.unresolved != sources[renamed].entry.title
  {
    var c, titles := SceneOf(sources, libraries, d), Titles(Links(sources[d].text));
    TitlesFit(sources[d].text);
    UnresolvedIff(c, order, titles, I.IdRefs(sources[d].text), link);
    if link.unresolved == sources[renamed].entry.title {
      assert IsCandidate(c, titles, renamed);
    }
  }

  lemma RewrittenIsListed(sources: map<Id, Source>, renamed: Id, o: string, n: string, order: seq<Id>)
    requires Lists(sources, order)
    ensures Lists(Rewritten(sources, renamed, o, n, order), order)
  {
    forall d ensures d in Rewritten(sources, renamed, o, n, order) <==> d in sources {
      RewrittenAt(sources, renamed, o, n, order, d);
    }
  }

  /** Only what the links see of the documents, and the own text, decide about the rows. */
  lemma SameSynced(a: map<Id, Source>, b: map<Id, Source>, libraries: Libraries, order: seq<Id>, d: Id)
    requires forall e :: e in a <==> e in b
    requires forall e :: e in a ==> a[e].entry == b[e].entry
    requires d in a ==> a[d] == b[d]
    ensures SyncedRows(a, libraries, order, d) == SyncedRows(b, libraries, order, d)
  {
    assert Entries(a) == Entries(b);
  }

  /** A document that is synchronised in the middle of the loop gets the rows that it has at the end:
      the rest of the loop changes only texts of others. */
  lemma SyncedEarly(sources: map<Id, Source>, renamed: Id, o: string, n: string, libraries: Libraries,
                    order: seq<Id>, k: nat)
    requires k < |order|
    ensures SyncedRows(Rewritten(sources, renamed, o, n, order[..k + 1]), libraries, order, order[k]) ==
            SyncedRows(Rewritten(sources, renamed, o, n, order), libraries, order, order[k])
  {
    var a, b := Rewritten(sources, renamed, o, n, order[..k + 1]), Rewritten(sources, renamed, o, n, order);
    forall e ensures (e in a <==> e in b) && (e in a ==> a[e].entry == b[e].entry && (e == order[k] ==> a[e] == b[e])) {
      RewrittenAt(sources, renamed, o, n, order[..k + 1], e);
      RewrittenAt(sources, renamed, o, n, order, e);
      assert order[k] == order[..k + 1][k] && order[k] in order && order[k] in order[..k + 1];
    }
    SameSynced(a, b, libraries, order, order[k]);
  }

  /** The rows after the first k rounds; a document gets the rows that belong to the texts at the end. */
  function RowsSoFar(sources: map<Id, Source>, rows: map<Id, seq<Link>>, renamed: Id, o: string, n: string,
                     libraries: Libraries, order: seq<Id>, k: nat): map<Id, seq<Link>>
    requires k <= |order|
  {
    Resynced(rows, Rewritten(sources, renamed, o, n, order), libraries, order,
             Changed(sources, renamed, o, n, order[..k]))
  }

  /** A round in the middle of the loop decides as if all texts were still the first ones. */
  lemma SameChange(sources: map<Id, Source>, renamed: Id, o: string, n: string, order: seq<Id>, k: nat)
    requires Lists(sources, order) && k < |order|
    ensures var now, d := Rewritten(sources, renamed, o, n, order[..k]), order[k];
      && (Changes(now, renamed, o, n, d) <==> Changes(sources, renamed, o, n, d))
      && d in now && now[d].text == sources[d].text
  {
    RewrittenAt(sources, renamed, o, n, order[..k], order[k]);
    RewrittenAt(sources, renamed, o, n, order[..k], renamed);
  }

  /** What k rounds should have made. */
  function Reached(p: Progress, renamed: Id, o: string, n: string, libraries: Libraries, order: seq<Id>,
                   k: nat): Progress
    requires k <= |order|
  {
    Progress(Rewritten(p.sources, renamed, o, n, order[..k]),
             RowsSoFar(p.sources, p.rows, renamed, o, n, libraries, order, k),
             |Changed(p.sources, renamed, o, n, order[..k])|)
  }

  lemma RoundReaches(p: Progress, renamed: Id, o: string, n: string, libraries: Libraries, order: seq<Id>, k: nat)
    requires Lists(p.sources, order) && k < |order|
    ensures Round(Reached(p, renamed, o, n, libraries, order, k), renamed, o, n, libraries, order, order[k]) ==
            Reached(p, renamed, o, n, libraries, order, k + 1)
  {
    SameChange(p.sources, renamed, o, n, order, k);
    ChangedOneMore(p.sources, renamed, o, n, order, k);
    RewrittenOneMore(p.sources, renamed, o, n, order, k);
    RowsOneMore(p.sources, p.rows, renamed, o, n, libraries, order, k);
  }

  lemma NoRound(p: Progress, renamed: Id, o: string, n: string, libraries: Libraries, order: seq<Id>)
    requires p.updated == 0
    ensures Rounds(p, renamed, o, n, libraries, order, order[..0]) == p
    ensures Reached(p, renamed, o, n, libraries, order, 0) == p
  {
    assert order[..0] == [];
  }

  /** The rounds give the rewritten texts, and the rows that belong to the texts at the end. */
  lemma {:induction false} RoundsAre(p: Progress, renamed: Id, o: string, n: string, libraries: Libraries,
                                     order: seq<Id>, k: nat)
    requires Lists(p.sources, order) && k <= |order| && p.updated == 0
    ensures Rounds(p, renamed, o, n, libraries, order, order[..k]) ==
            Reached(p, renamed, o, n, libraries, order, k)
  {
    if k > 0 {
      RoundsAre(p, renamed, o, n, libraries, order, k - 1);
      RoundsOneMore(p, renamed, o, n, libraries, order, k - 1);
      RoundReaches(p, renamed, o, n, libraries, order, k - 1);
    } else {
      NoRound(p, renamed, o, n, libraries, order);
    }
  }

  lemma RowsOneMore(sources: map<Id, Source>, rows: map<Id, seq<Link>>, renamed: Id, o: string, n: string,
                    libraries: Libraries, order: seq<Id>, k: nat)
    requires k < |order|
    ensures var d := order[k];
      RowsSoFar(sources, rows, renamed, o, n, libraries, order, k + 1) ==
      if Changes(sources, renamed, o, n, d)
      then RowsSoFar(sources, rows, renamed, o, n, libraries, order, k)
             [d := SyncedRows(Rewritten(sources, renamed, o, n, order[..k + 1]), libraries, order, d)]
      else RowsSoFar(sources, rows, renamed, o, n, libraries, order, k)
  {
    ChangedOneMore(sources, renamed, o, n, order, k);
    SyncedEarly(sources, renamed, o, n, libraries, order, k);
    ResyncedOneMore(rows, Rewritten(sources, renamed, o, n, order), libraries, order,
                    Changed(sources, renamed, o, n, order[..k]), order[k]);
  }

  /** Both loops together: the rows of the rewritten documents and of those that waited are rebuilt,
      all others stay. */
  lemma {:induction false} RowsAfterwards(sources: map<Id, Source>, rows: map<Id, seq<Link>>, renamed: Id,
                                          o: string, n: string,
                                          libraries: Libraries, order: seq<Id>, d: Id)
    requires Lists(sources, order)
    ensures var after := Rewritten(sources, renamed, o, n, order);
      var middle := Resynced(rows, after, libraries, order, Changed(sources, renamed, o, n, order));
      RowsAt(Resynced(middle, after, libraries, order, WaitingFor(after, middle, renamed, order)), d) ==
        if Changes(sources, renamed, o, n, d) || Waits(sources, rows, renamed, d)
        then Some(SyncedRows(after, libraries, order, d)) else RowsAt(rows, d)
  {
    var after := Rewritten(sources, renamed, o, n, order);
    var changed := Changed(sources, renamed, o, n, order);
    var middle := Resynced(rows, after, libraries, order, changed);
    ResyncedAt(middle, after, libraries, order, WaitingFor(after, middle, renamed, order), d);
    ResyncedAt(rows, after, libraries, order, changed, d);
    ChangedHas(sources, renamed, o, n, order, d);
    WaitingForHas(after, middle, renamed, order, d);
    RewrittenAt(sources, renamed, o, n, order, d);
    RewrittenAt(sources, renamed, o, n, order, renamed);
    if !Changes(sources, renamed, o, n, d) {
      SameWaits(sources, after, rows, middle, renamed, d);
    }
  }

  lemma SameWaits(a: map<Id, Source>, b: map<Id, Source>, rows: map<Id, seq<Link>>, rows': map<Id, seq<Link>>,
                  renamed: Id, d: Id)
    requires renamed in a <==> renamed in b
    requires renamed in a ==> a[renamed].entry == b[renamed].entry
    requires d in a <==> d in b
    requires d in a ==> a[d].entry == b[d].entry
    requires RowsAt(rows, d) == RowsAt(rows', d)
    ensures Waits(a, rows, renamed, d) <==> Waits(b, rows', renamed, d)
  {
  }

  // ---------- a rename moves no link ----------

  /** Every title but the renamed document's is what it was. */
  function RenamedScene(c: Scene, renamed: Id, n: string): Scene
    requires renamed in c.docs
  {
    c.(docs := c.docs[renamed := c.docs[renamed].(title := n)])
  }

  /** No other document within reach bears one of the two titles. */
  predicate Alone(c: Scene, renamed: Id, o: string, n: string) {
    forall d :: d in c.docs && d != renamed && d != c.source && c.docs[d].space in c.spaces && c.docs[d].linkable ==>
      c.docs[d].title != o && c.docs[d].title != n
  }

  lemma {:induction false} SameCandidates(c: Scene, renamed: Id, o: string, n: string, titles: seq<string>, d: Id)
    requires renamed in c.docs && c.docs[renamed].title == o && o != n && Alone(c, renamed, o, n) && n !in titles
    ensures IsCandidate(RenamedScene(c, renamed, n), SubstTitles(titles, o, n), d) <==> IsCandidate(c, titles, d)
  {
    var after := SubstTitles(titles, o, n);
    assert n in after <==> o in titles by {
      if o in titles {
        var i :| 0 <= i < |titles| && titles[i] == o;
        assert after[i] == n;
      }
      if n in after {
        var i :| 0 <= i < |after| && after[i] == n;
        assert titles[i] == o;
      }
    }
    if d in c.docs && c.docs[d].title != o && c.docs[d].title != n {
      var t := c.docs[d].title;
      if t in titles {
        var i :| 0 <= i < |titles| && titles[i] == t;
        assert after[i] == t;
      }
      if t in after {
        var i :| 0 <= i < |after| && after[i] == t;
        assert titles[i] == t;
      }
    }
  }

  lemma {:induction false} SameSelection(c: Scene, renamed: Id, o: string, n: string, titles: seq<string>,
                                         order: seq<Id>, own: bool)
    requires renamed in c.docs && c.docs[renamed].title == o && o != n && Alone(c, renamed, o, n) && n !in titles
    ensures Select(RenamedScene(c, renamed, n), SubstTitles(titles, o, n), order, own) == Select(c, titles, order, own)
  {
    if order != [] {
      var k := |order| - 1;
      SameSelection(c, renamed, o, n, titles, order[..k], own);
      SameCandidates(c, renamed, o, n, titles, order[k]);
    }
  }

  /** Titles of candidates stay different, and equal ones stay equal. */
  lemma SameTitles(c: Scene, renamed: Id, o: string, n: string, found: seq<Id>, d: Id)
    requires renamed in c.docs && c.docs[renamed].title == o && o != n
    requires Known(c, found) && d in c.docs
    requires forall e :: e in found || e == d ==> e == renamed || (c.docs[e].title != o && c.docs[e].title != n)
    ensures Known(RenamedScene(c, renamed, n), found)
    ensures RenamedScene(c, renamed, n).docs[d].title in TitlesOf(RenamedScene(c, renamed, n), found) <==>
            c.docs[d].title in TitlesOf(c, found)
  {
    var after := RenamedScene(c, renamed, n);
    assert forall i :: 0 <= i < |found| ==> found[i] in found;
    assert forall i :: 0 <= i < |found| ==>
      (after.docs[found[i]].title == after.docs[d].title <==> c.docs[found[i]].title == c.docs[d].title);
  }

  /** After a rename, with the references rewritten, every wikilink leads to the document it led to:
      if nobody else bears the old or the new title, the new one was not referred to before, and no
      reference to the old one is padded with spaces. */
  lemma {:induction false} RenameMovesNoLink(c: Scene, order: seq<Id>, renamed: Id, o: string, n: string,
                                             text: string, d: Id)
    requires renamed in c.docs && c.docs[renamed].title == o && Alone(c, renamed, o, n)
    requires IsTitle(o) && IsTitle(n) && o != n && !Spoiled(Links(text), o, n)
    requires n !in Titles(Links(text))
    ensures Chosen(RenamedScene(c, renamed, n), order, Titles(Links(Rewrite(text, o, n))), d) <==>
            Chosen(c, order, Titles(Links(text)), d)
  {
    var titles := Titles(Links(text));
    ExtractionCommutesIff(text, o, n);
    var found, after := Candidates(c, order, titles), RenamedScene(c, renamed, n);
    SameSelection(c, renamed, o, n, titles, order, true);
    SameSelection(c, renamed, o, n, titles, order, false);
    assert Candidates(after, order, SubstTitles(titles, o, n)) == found;
    ByTitleIs(c, found, d);
    ByTitleIs(after, found, d);
    forall i | 0 <= i < |found| && found[i] == d
      ensures after.docs[d].title in TitlesOf(after, found[..i]) <==> c.docs[d].title in TitlesOf(c, found[..i])
    {
      assert forall e :: e in found[..i] || e == d ==> e in found;
      SameTitles(c, renamed, o, n, found[..i], d);
    }
  }

  /** And a title waits for its document exactly if it did before. */
  lemma {:induction false} RenameKeepsWaiting(c: Scene, order: seq<Id>, renamed: Id, o: string, n: string,
                                              text: string, t: string)
    requires renamed in c.docs && c.docs[renamed].title == o && Alone(c, renamed, o, n)
    requires IsTitle(o) && IsTitle(n) && o != n && !Spoiled(Links(text), o, n)
    requires n !in Titles(Links(text)) && t != n
    ensures var after, titles := RenamedScene(c, renamed, n), Titles(Links(Rewrite(text, o, n)));
      var t' := if t == o then n else t;
      t' in titles && !Bears(after, titles, t') <==> t in Titles(Links(text)) && !Bears(c, Titles(Links(text)), t)
  {
    var titles, t' := Titles(Links(text)), if t == o then n else t;
    ExtractionCommutesIff(text, o, n);
    var after, scene := SubstTitles(titles, o, n), RenamedScene(c, renamed, n);
    assert t in titles <==> t' in after by {
      if t in titles {
        var i :| 0 <= i < |titles| && titles[i] == t;
        assert after[i] == t';
      }
      if t' in after {
        var i :| 0 <= i < |after| && after[i] == t';
        assert titles[i] in titles;
      }
    }
    forall d ensures IsCandidate(scene, after, d) && scene.docs[d].title == t' <==>
                     IsCandidate(c, titles, d) && c.docs[d].title == t {
      SameCandidates(c, renamed, o, n, titles, d);
    }
  }
}
