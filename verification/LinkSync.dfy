/** Rebuilding the link rows of one document (sync_document_links in
    backend/apps/knowledge/links.py, with the uniqueness constraints of DocumentLink in
    backend/apps/knowledge/models.py).

    Document ids are numbers. */
module LinkSync {
  import opened Basics
  import opened Options
  import opened PythonText
  import opened WikiLinks
  import I = IdLinks

  type Id = I.Id

  /** linkable: the status is active, pending review or stale. */
  datatype Doc = Doc(title: string, space: nat, linkable: bool)

  type IdRef = I.IdRef

  datatype Link = Link(target: Option<Id>, unresolved: string, anchor: string)

  /** The document being synchronised and what surrounds it. Below, order is the order in which
      the database lists the documents. */
  datatype Scene = Scene(docs: map<Id, Doc>, source: Id, own: nat, spaces: set<nat>)

  const LIMIT: nat := 255

  // ---------- candidates ----------

  predicate IsCandidate(c: Scene, titles: seq<string>, d: Id) {
    && d in c.docs && d != c.source
    && c.docs[d].space in c.spaces && c.docs[d].linkable && c.docs[d].title in titles
  }

  function Select(c: Scene, titles: seq<string>, order: seq<Id>, own: bool): (found: seq<Id>)
    ensures forall d :: d in found ==> IsCandidate(c, titles, d) && d in order && (c.docs[d].space == c.own <==> own)
  {
    if order == [] then []
    else
      var rest, d := Select(c, titles, order[..|order| - 1], own), order[|order| - 1];
      if IsCandidate(c, titles, d) && (c.docs[d].space == c.own <==> own) then rest + [d] else rest
  }

  predicate Known(c: Scene, found: seq<Id>) {
    forall i :: 0 <= i < |found| ==> found[i] in c.docs
  }

  /** Stable sort: the document's own space first. */
  function Candidates(c: Scene, order: seq<Id>, titles: seq<string>): (found: seq<Id>)
    ensures Known(c, found)
    ensures forall d :: d in found ==> IsCandidate(c, titles, d)
  {
    var found := Select(c, titles, order, true) + Select(c, titles, order, false);
    assert forall i :: 0 <= i < |found| ==> found[i] in found;
    found
  }

  // ---------- the table of targets, a dictionary in insertion order ----------

  type Targets = seq<(Id, string)>

  predicate HasKey(t: Targets, id: Id) {
    exists i :: 0 <= i < |t| && t[i].0 == id
  }

  function Put(t: Targets, id: Id, anchor: string): Targets {
    if t == [] then [(id, anchor)]
    else if t[0].0 == id then [(id, anchor)] + t[1..]
    else [t[0]] + Put(t[1..], id, anchor)
  }

  function Lookup(t: Targets, id: Id): Option<string> {
    if t == [] then None else if t[0].0 == id then Some(t[0].1) else Lookup(t[1..], id)
  }

  ghost predicate DistinctKeys(t: Targets) {
    forall i, j :: 0 <= i < j < |t| ==> t[i].0 != t[j].0
  }

  lemma {:induction false} PutLookup(t: Targets, id: Id, anchor: string, other: Id)
    ensures Lookup(Put(t, id, anchor), other) == if other == id then Some(anchor) else Lookup(t, other)
  {
    if t != [] && t[0].0 != id {
      PutLookup(t[1..], id, anchor, other);
    }
  }

  lemma {:induction false} PutKeys(t: Targets, id: Id, anchor: string)
    requires DistinctKeys(t)
    ensures DistinctKeys(Put(t, id, anchor))
    ensures forall p :: p in Put(t, id, anchor) ==> p.0 == id || HasKey(t, p.0)
  {
    if t != [] && t[0].0 != id {
      PutKeys(t[1..], id, anchor);
      forall p | p in Put(t[1..], id, anchor) ensures p.0 == id || HasKey(t, p.0) {
        if p.0 != id {
          var i :| 0 <= i < |t[1..]| && t[1..][i].0 == p.0;
          assert t[i + 1].0 == p.0;
        }
      }
    }
  }

  lemma {:induction false} LookupHas(t: Targets, id: Id)
    ensures Lookup(t, id).Some? <==> HasKey(t, id)
    ensures Lookup(t, id).Some? ==> (id, Lookup(t, id).value) in t
  {
    if t != [] && t[0].0 != id {
      LookupHas(t[1..], id);
    }
  }

  // ---------- the rebuild ----------

  function TitlesOf(c: Scene, found: seq<Id>): set<string>
    requires Known(c, found)
  {
    set i | 0 <= i < |found| :: c.docs[found[i]].title
  }

  /** The first candidate of each title. */
  function ByTitle(c: Scene, found: seq<Id>): Targets
    requires Known(c, found)
  {
    if found == [] then []
    else
      var before, d := found[..|found| - 1], found[|found| - 1];
      if c.docs[d].title in TitlesOf(c, before) then ByTitle(c, before)
      else Put(ByTitle(c, before), d, c.docs[d].title)
  }

  predicate Reachable(c: Scene, d: Id) {
    d in c.docs && d != c.source && c.docs[d].space in c.spaces
  }

  function RefAnchor(c: Scene, r: IdRef): string
    requires Reachable(c, r.target)
  {
    if r.anchor == "" then c.docs[r.target].title else r.anchor
  }

  /** References by id come after, and replace the anchor. */
  function WithRefs(c: Scene, t: Targets, refs: seq<IdRef>): Targets {
    if refs == [] then t
    else
      var before, r := WithRefs(c, t, refs[..|refs| - 1]), refs[|refs| - 1];
      if Reachable(c, r.target) then Put(before, r.target, RefAnchor(c, r)) else before
  }

  function Unresolved(titles: seq<string>, matched: set<string>): (left: seq<string>)
    ensures forall t :: t in left <==> t in titles && t !in matched
    ensures forall i, j :: 0 <= i < j < |left| ==> left[i] != left[j]
  {
    if titles == [] then []
    else
      var left, t := Unresolved(titles[..|titles| - 1], matched), titles[|titles| - 1];
      if t in matched || t in left then left else left + [t]
  }

  function Resolved(t: Targets): (links: seq<Link>)
    ensures |links| == |t|
    ensures forall i :: 0 <= i < |t| ==> links[i] == Link(Some(t[i].0), "", Take(t[i].1, LIMIT))
  {
    seq(|t|, i requires 0 <= i < |t| => Link(Some(t[i].0), "", Take(t[i].1, LIMIT)))
  }

  function Gray(titles: seq<string>): (links: seq<Link>)
    ensures |links| == |titles|
    ensures forall i :: 0 <= i < |titles| ==> links[i] == Link(None, Take(titles[i], LIMIT), Take(titles[i], LIMIT))
  {
    seq(|titles|, i requires 0 <= i < |titles| => Link(None, Take(titles[i], LIMIT), Take(titles[i], LIMIT)))
  }

  function Created(c: Scene, order: seq<Id>, titles: seq<string>, refs: seq<IdRef>): seq<Link> {
    var found := Candidates(c, order, titles);
    Resolved(WithRefs(c, ByTitle(c, found), refs)) + Gray(Unresolved(titles, TitlesOf(c, found)))
  }

  /** The rows of a document with the given text. */
  function RowsOf(c: Scene, order: seq<Id>, text: string): seq<Link> {
    Created(c, order, Titles(Links(text)), I.IdRefs(text))
  }

  // ---------- the table ----------

  predicate Conflict(a: Link, b: Link) {
    if a.target.Some? then a.target == b.target else b.target.None? && a.unresolved == b.unresolved
  }

  /** Both uniqueness constraints, for the rows of one source; null targets are all different. */
  predicate Unique(links: seq<Link>) {
    forall i, j :: 0 <= i < j < |links| ==> !Conflict(links[i], links[j])
  }

  /** An insert that skips the rows that violate a constraint. */
  function Inserted(stored: seq<Link>, created: seq<Link>): seq<Link> {
    if created == [] then stored
    else
      var before, row := Inserted(stored, created[..|created| - 1]), created[|created| - 1];
      if exists i :: 0 <= i < |before| && Conflict(before[i], row) then before else before + [row]
  }

  lemma {:induction false} NothingIsSkipped(created: seq<Link>)
    requires Unique(created)
    ensures Inserted([], created) == created
  {
    if created != [] {
      var n := |created| - 1;
      NothingIsSkipped(created[..n]);
      assert created == created[..n] + [created[n]];
    }
  }

  class LinkTable {
    /** The rows of each source document. */
    var rows: map<Id, seq<Link>>

    method SyncDocumentLinks(c: Scene, order: seq<Id>, text: string) returns (count: nat)
      modifies this
      ensures rows == old(rows)[c.source := RowsOf(c, order, text)]
      ensures count == |RowsOf(c, order, text)|
    {
      var created := RebuildFrom(c, order, text);
      Replace(c.source, created);
      count := |created|;
    }

    /** Deletes the rows of a source and stores others in their place. */
    method Replace(source: Id, created: seq<Link>)
      requires Inserted([], created) == created
      modifies this
      ensures rows == old(rows)[source := created]
    {
      rows := rows[source := []];
      rows := rows[source := Inserted(rows[source], created)];
    }
  }

  method RebuildFrom(c: Scene, order: seq<Id>, text: string) returns (created: seq<Link>)
    ensures created == RowsOf(c, order, text)
    ensures Inserted([], created) == created
  {
    created := Rebuild(c, order, Titles(Links(text)), I.IdRefs(text));
    StoredIsCreated(c, order, text);
  }

  method Rebuild(c: Scene, order: seq<Id>, titles: seq<string>, refs: seq<IdRef>) returns (created: seq<Link>)
    ensures created == Created(c, order, titles, refs)
  {
    var targets, matched := CollectByTitle(c, Candidates(c, order, titles));
    targets := AddRefs(c, targets, refs);
    created := Resolved(targets) + Gray(Unresolved(titles, matched));
  }

  lemma StoredIsCreated(c: Scene, order: seq<Id>, text: string)
    ensures Inserted([], RowsOf(c, order, text)) == RowsOf(c, order, text)
  {
    TitlesFit(text);
    CreatedIsUnique(c, order, Titles(Links(text)), I.IdRefs(text));
    NothingIsSkipped(RowsOf(c, order, text));
  }

  method CollectByTitle(c: Scene, found: seq<Id>) returns (targets: Targets, matched: set<string>)
    requires Known(c, found)
    ensures matched == TitlesOf(c, found) && targets == ByTitle(c, found)
  {
    targets, matched := [], {};
    for k := 0 to |found|
      invariant matched == TitlesOf(c, found[..k])
      invariant targets == ByTitle(c, found[..k])
    {
      OneMoreTitle(c, found, k);
      var title := c.docs[found[k]].title;
      if title in matched {
        continue;
      }
      matched := matched + {title};
      targets := Put(targets, found[k], title);
    }
    assert found[..|found|] == found;
  }

  lemma OneMoreTitle(c: Scene, found: seq<Id>, k: nat)
    requires Known(c, found) && k < |found|
    ensures TitlesOf(c, found[..k + 1]) == TitlesOf(c, found[..k]) + {c.docs[found[k]].title}
    ensures ByTitle(c, found[..k + 1]) ==
            if c.docs[found[k]].title in TitlesOf(c, found[..k]) then ByTitle(c, found[..k])
            else Put(ByTitle(c, found[..k]), found[k], c.docs[found[k]].title)
  {
    assert found[..k + 1][..k] == found[..k];
  }

  method AddRefs(c: Scene, byTitle: Targets, refs: seq<IdRef>) returns (targets: Targets)
    ensures targets == WithRefs(c, byTitle, refs)
  {
    targets := byTitle;
    for k := 0 to |refs|
      invariant targets == WithRefs(c, byTitle, refs[..k])
    {
      assert refs[..k + 1][..k] == refs[..k];
      if Reachable(c, refs[k].target) {
        targets := Put(targets, refs[k].target, RefAnchor(c, refs[k]));
      }
    }
    assert refs[..|refs|] == refs;
  }

  // ---------- titles fit their column ----------

  predicate AllFit(titles: seq<string>) {
    forall t :: t in titles ==> 1 <= |t| <= LIMIT
  }

  lemma {:induction false} LinksAreTitles(s: string)
    ensures forall r :: r in Links(s) ==> IsTitle(r.title)
    decreases |s|
  {
    if s != "" {
      var f := LinkAt(s);
      if f.Some? {
        LinksAreTitles(s[f.value.end..]);
      } else {
        LinksAreTitles(s[1..]);
      }
    }
  }

  lemma {:induction false} StripShortens(s: string)
    ensures |StripLeft(s)| <= |s| && |StripRight(s)| <= |s|
  {
    if s != "" {
      StripShortens(s[1..]);
      StripShortens(s[..|s| - 1]);
    }
  }

  lemma {:induction false} StrippedFit(refs: seq<Ref>)
    requires forall r :: r in refs ==> IsTitle(r.title)
    ensures AllFit(Titles(refs))
  {
    if refs != [] {
      assert refs[0] in refs;
      StripShortens(refs[0].title);
      StripShortens(StripLeft(refs[0].title));
      StrippedFit(refs[1..]);
    }
  }

  lemma TitlesFit(text: string)
    ensures AllFit(Titles(Links(text)))
  {
    LinksAreTitles(text);
    StrippedFit(Links(text));
  }

  // ---------- no row violates a constraint ----------

  lemma {:induction false} ByTitleKeys(c: Scene, found: seq<Id>)
    requires Known(c, found)
    ensures DistinctKeys(ByTitle(c, found))
  {
    if found != [] {
      var n := |found| - 1;
      ByTitleKeys(c, found[..n]);
      PutKeys(ByTitle(c, found[..n]), found[n], c.docs[found[n]].title);
    }
  }

  lemma {:induction false} WithRefsKeys(c: Scene, t: Targets, refs: seq<IdRef>)
    requires DistinctKeys(t)
    ensures DistinctKeys(WithRefs(c, t, refs))
  {
    if refs != [] {
      var n := |refs| - 1;
      WithRefsKeys(c, t, refs[..n]);
      if Reachable(c, refs[n].target) {
        PutKeys(WithRefs(c, t, refs[..n]), refs[n].target, RefAnchor(c, refs[n]));
      }
    }
  }

  /** The rebuilt rows satisfy both constraints. */
  lemma CreatedIsUnique(c: Scene, order: seq<Id>, titles: seq<string>, refs: seq<IdRef>)
    requires AllFit(titles)
    ensures Unique(Created(c, order, titles, refs))
  {
    var found := Candidates(c, order, titles);
    var targets, left := WithRefs(c, ByTitle(c, found), refs), Unresolved(titles, TitlesOf(c, found));
    ByTitleKeys(c, found);
    WithRefsKeys(c, ByTitle(c, found), refs);
    assert Unique(Resolved(targets));
    forall i, j | 0 <= i < j < |left| ensures !Conflict(Gray(left)[i], Gray(left)[j]) {
      assert left[i] in titles && left[j] in titles;
    }
  }

  // ---------- which rows there are ----------

  /** The title scan decides for d. */
  predicate Chosen(c: Scene, order: seq<Id>, titles: seq<string>, d: Id) {
    Lookup(ByTitle(c, Candidates(c, order, titles)), d).Some?
  }

  lemma {:induction false} ByTitleIs(c: Scene, found: seq<Id>, d: Id)
    requires Known(c, found)
    ensures Lookup(ByTitle(c, found), d).Some? <==>
      exists i :: 0 <= i < |found| && found[i] == d && c.docs[d].title !in TitlesOf(c, found[..i])
    ensures Lookup(ByTitle(c, found), d).Some? ==> d in found && Lookup(ByTitle(c, found), d).value == c.docs[d].title
  {
    if found != [] {
      var n := |found| - 1;
      var before, last := found[..n], found[n];
      ByTitleIs(c, before, d);
      PutLookup(ByTitle(c, before), last, c.docs[last].title, d);
      if Lookup(ByTitle(c, before), d).Some? {
        var i :| 0 <= i < |before| && before[i] == d && c.docs[d].title !in TitlesOf(c, before[..i]);
        assert found[..i] == before[..i];
      }
      if i :| 0 <= i < n && found[i] == d && c.docs[d].title !in TitlesOf(c, found[..i]) {
        assert found[..i] == before[..i] && before[i] == d;
      }
    }
  }

  lemma {:induction false} SelectHas(c: Scene, titles: seq<string>, order: seq<Id>, own: bool, d: Id)
    requires IsCandidate(c, titles, d) && d in order && (c.docs[d].space == c.own <==> own)
    ensures d in Select(c, titles, order, own)
  {
    var n := |order| - 1;
    if d != order[n] {
      SelectHas(c, titles, order[..n], own, d);
    }
  }

  function FirstWith(c: Scene, found: seq<Id>, title: string): (i: nat)
    requires Known(c, found) && title in TitlesOf(c, found)
    ensures i < |found| && c.docs[found[i]].title == title && title !in TitlesOf(c, found[..i])
    ensures forall k :: 0 <= k < |found| && c.docs[found[k]].title == title ==> i <= k
  {
    var n := |found| - 1;
    assert found[..n + 1] == found;
    if title in TitlesOf(c, found[..n]) then
      var i := FirstWith(c, found[..n], title);
      assert found[..n][..i] == found[..i];
      assert forall k :: 0 <= k < n ==> found[..n][k] == found[k];
      i
    else
      assert forall k :: 0 <= k < n ==> found[..n][k] == found[k];
      n
  }

  /** Of the candidates with one title exactly one is chosen, one of the document's own space if
      there is one. */
  lemma OneIsChosen(c: Scene, order: seq<Id>, titles: seq<string>, d: Id) returns (e: Id)
    requires IsCandidate(c, titles, d) && d in order
    ensures IsCandidate(c, titles, e) && c.docs[e].title == c.docs[d].title && Chosen(c, order, titles, e)
    ensures c.docs[d].space == c.own ==> c.docs[e].space == c.own
  {
    var found := Candidates(c, order, titles);
    var mine := Select(c, titles, order, true);
    SelectHas(c, titles, order, c.docs[d].space == c.own, d);
    var k;
    if c.docs[d].space == c.own {
      k :| 0 <= k < |mine| && mine[k] == d;
    } else {
      var rest := Select(c, titles, order, false);
      var j :| 0 <= j < |rest| && rest[j] == d;
      k := |mine| + j;
    }
    assert found[k] == d;
    var i := FirstWith(c, found, c.docs[d].title);
    e := found[i];
    ByTitleIs(c, found, e);
    assert i < |mine| ==> found[i] == mine[i] && mine[i] in mine;
  }

  lemma ChosenOnce(c: Scene, order: seq<Id>, titles: seq<string>, d: Id, e: Id)
    requires Chosen(c, order, titles, d) && Chosen(c, order, titles, e)
    ensures IsCandidate(c, titles, d) && IsCandidate(c, titles, e)
    ensures c.docs[d].title == c.docs[e].title ==> d == e
  {
    var found := Candidates(c, order, titles);
    ByTitleIs(c, found, d);
    ByTitleIs(c, found, e);
    var i :| 0 <= i < |found| && found[i] == d && c.docs[d].title !in TitlesOf(c, found[..i]);
    var j :| 0 <= j < |found| && found[j] == e && c.docs[e].title !in TitlesOf(c, found[..j]);
    assert i < j ==> found[..j][i] == d;
    assert j < i ==> found[..i][j] == e;
  }

  /** The anchor of the last reference by id to d. */
  function LastAnchor(c: Scene, refs: seq<IdRef>, d: Id): Option<string> {
    if refs == [] then None
    else
      var r := refs[|refs| - 1];
      if r.target == d && Reachable(c, d) then Some(RefAnchor(c, r)) else LastAnchor(c, refs[..|refs| - 1], d)
  }

  lemma {:induction false} WithRefsIs(c: Scene, t: Targets, refs: seq<IdRef>, d: Id)
    ensures Lookup(WithRefs(c, t, refs), d) ==
      if LastAnchor(c, refs, d).Some? then LastAnchor(c, refs, d) else Lookup(t, d)
  {
    if refs != [] {
      var n := |refs| - 1;
      WithRefsIs(c, t, refs[..n], d);
      if Reachable(c, refs[n].target) {
        PutLookup(WithRefs(c, t, refs[..n]), refs[n].target, RefAnchor(c, refs[n]), d);
      }
    }
  }

  lemma {:induction false} EntryIsLookup(t: Targets, i: nat)
    requires DistinctKeys(t) && i < |t|
    ensures Lookup(t, t[i].0) == Some(t[i].1)
  {
    if i > 0 {
      assert t[0].0 != t[i].0;
      EntryIsLookup(t[1..], i - 1);
    }
  }

  lemma ResolvedHas(t: Targets, link: Link)
    requires DistinctKeys(t)
    ensures link in Resolved(t) <==>
      && link.target.Some? && link.unresolved == ""
      && Lookup(t, link.target.value).Some? && link.anchor == Take(Lookup(t, link.target.value).value, LIMIT)
  {
    if link in Resolved(t) {
      var i :| 0 <= i < |t| && Resolved(t)[i] == link;
      EntryIsLookup(t, i);
    }
    if link.target.Some? && Lookup(t, link.target.value).Some? {
      var d := link.target.value;
      LookupHas(t, d);
      var i :| 0 <= i < |t| && t[i] == (d, Lookup(t, d).value);
      assert Resolved(t)[i] in Resolved(t);
    }
  }

  lemma GrayHas(titles: seq<string>, link: Link)
    requires AllFit(titles)
    ensures link in Gray(titles) <==> link.target.None? && link.unresolved in titles && link.anchor == link.unresolved
  {
    if link in Gray(titles) {
      var i :| 0 <= i < |titles| && Gray(titles)[i] == link;
      assert titles[i] in titles;
    }
    if link.target.None? && link.unresolved in titles && link.anchor == link.unresolved {
      var i :| 0 <= i < |titles| && titles[i] == link.unresolved;
      assert titles[i] in titles;
      assert Gray(titles)[i] in Gray(titles);
    }
  }

  // ---------- what a link is, without the scan ----------

  /** d bears a wanted title, and no document of the own space that d is not in bears it. */
  ghost predicate Preferred(c: Scene, titles: seq<string>, d: Id) {
    && IsCandidate(c, titles, d)
    && (c.docs[d].space == c.own || !OwnBears(c, titles, c.docs[d].title))
  }

  ghost predicate OwnBears(c: Scene, titles: seq<string>, title: string) {
    exists e :: IsCandidate(c, titles, e) && c.docs[e].title == title && c.docs[e].space == c.own
  }

  ghost predicate Bears(c: Scene, titles: seq<string>, title: string) {
    exists e :: IsCandidate(c, titles, e) && c.docs[e].title == title
  }

  ghost predicate IsLink(c: Scene, titles: seq<string>, refs: seq<IdRef>, link: Link) {
    match link.target
    case None => link.unresolved in titles && !Bears(c, titles, link.unresolved) && link.anchor == link.unresolved
    case Some(d) =>
      && link.unresolved == ""
      && if LastAnchor(c, refs, d).Some? then link.anchor == Take(LastAnchor(c, refs, d).value, LIMIT)
         else Preferred(c, titles, d) && link.anchor == Take(c.docs[d].title, LIMIT)
  }

  predicate ListsAll(c: Scene, order: seq<Id>) {
    forall d :: d in c.docs ==> d in order
  }

  /** The order of the documents decides about d: another document could be chosen for its title,
      and no reference by id settles d. */
  ghost predicate IsContested(c: Scene, titles: seq<string>, refs: seq<IdRef>, d: Id) {
    && Preferred(c, titles, d) && LastAnchor(c, refs, d).None?
    && exists e :: e != d && Preferred(c, titles, e) && c.docs[e].title == c.docs[d].title
  }

  ghost predicate Contested(c: Scene, titles: seq<string>, refs: seq<IdRef>) {
    exists d :: IsContested(c, titles, refs, d)
  }

  lemma ChosenIsPreferred(c: Scene, order: seq<Id>, titles: seq<string>, d: Id)
    requires ListsAll(c, order) && Chosen(c, order, titles, d)
    ensures Preferred(c, titles, d)
  {
    ChosenOnce(c, order, titles, d, d);
    if OwnBears(c, titles, c.docs[d].title) {
      var e :| IsCandidate(c, titles, e) && c.docs[e].title == c.docs[d].title && c.docs[e].space == c.own;
      var f := OneIsChosen(c, order, titles, e);
      ChosenOnce(c, order, titles, d, f);
    }
  }

  lemma PreferredIsChosen(c: Scene, order: seq<Id>, titles: seq<string>, refs: seq<IdRef>, d: Id)
    requires ListsAll(c, order) && !IsContested(c, titles, refs, d)
    requires Preferred(c, titles, d) && LastAnchor(c, refs, d).None?
    ensures Chosen(c, order, titles, d)
  {
    var e := OneIsChosen(c, order, titles, d);
    ChosenIsPreferred(c, order, titles, e);
  }

  lemma MatchedIs(c: Scene, order: seq<Id>, titles: seq<string>, title: string)
    requires ListsAll(c, order)
    ensures title in TitlesOf(c, Candidates(c, order, titles)) <==> Bears(c, titles, title)
  {
    var found := Candidates(c, order, titles);
    if Bears(c, titles, title) {
      var e :| IsCandidate(c, titles, e) && c.docs[e].title == title;
      var f := OneIsChosen(c, order, titles, e);
      ByTitleIs(c, found, f);
      var i :| 0 <= i < |found| && found[i] == f;
    }
    if title in TitlesOf(c, found) {
      var i :| 0 <= i < |found| && c.docs[found[i]].title == title;
      assert IsCandidate(c, titles, found[i]);
    }
  }

  /** However many documents share a title, it has an unresolved row exactly if it is wanted and
      no candidate bears it. */
  lemma {:induction false} UnresolvedIff(c: Scene, order: seq<Id>, titles: seq<string>, refs: seq<IdRef>, link: Link)
    requires AllFit(titles) && ListsAll(c, order) && link.target.None?
    ensures link in Created(c, order, titles, refs) <==>
      link.unresolved in titles && !Bears(c, titles, link.unresolved) && link.anchor == link.unresolved
  {
    var found := Candidates(c, order, titles);
    var targets, left := WithRefs(c, ByTitle(c, found), refs), Unresolved(titles, TitlesOf(c, found));
    MatchedIs(c, order, titles, link.unresolved);
    ByTitleKeys(c, found);
    WithRefsKeys(c, ByTitle(c, found), refs);
    ResolvedHas(targets, link);
    GrayHas(left, link);
  }

  predicate HasTarget(links: seq<Link>, d: Id) {
    exists i :: 0 <= i < |links| && links[i].target == Some(d)
  }

  /** A document has a row exactly if the title scan or a reference by id chose it. */
  lemma {:induction false} TargetIff(c: Scene, order: seq<Id>, titles: seq<string>, refs: seq<IdRef>, d: Id)
    ensures HasTarget(Created(c, order, titles, refs), d) <==>
      Chosen(c, order, titles, d) || LastAnchor(c, refs, d).Some?
  {
    var found := Candidates(c, order, titles);
    var targets := WithRefs(c, ByTitle(c, found), refs);
    var created := Created(c, order, titles, refs);
    WithRefsIs(c, ByTitle(c, found), refs, d);
    LookupHas(targets, d);
    if HasKey(targets, d) {
      var i :| 0 <= i < |targets| && targets[i].0 == d;
      assert created[i].target == Some(d);
    }
    if HasTarget(created, d) {
      var i :| 0 <= i < |created| && created[i].target == Some(d);
      assert i < |targets| && targets[i].0 == d;
    }
  }

  /** Which row a document has. */
  lemma {:induction false} RowIff(c: Scene, order: seq<Id>, titles: seq<string>, refs: seq<IdRef>, link: Link)
    requires AllFit(titles) && link.target.Some?
    ensures link in Created(c, order, titles, refs) <==>
      var d := link.target.value;
      && link.unresolved == ""
      && if LastAnchor(c, refs, d).Some? then link.anchor == Take(LastAnchor(c, refs, d).value, LIMIT)
         else Chosen(c, order, titles, d) && d in c.docs && link.anchor == Take(c.docs[d].title, LIMIT)
  {
    var found := Candidates(c, order, titles);
    var targets, left := WithRefs(c, ByTitle(c, found), refs), Unresolved(titles, TitlesOf(c, found));
    ByTitleKeys(c, found);
    WithRefsKeys(c, ByTitle(c, found), refs);
    ResolvedHas(targets, link);
    GrayHas(left, link);
    WithRefsIs(c, ByTitle(c, found), refs, link.target.value);
    ByTitleIs(c, found, link.target.value);
  }

  /** If no document is contested the rows are exactly the links, each once. */
  lemma {:induction false} RowsAreLinks(c: Scene, order: seq<Id>, titles: seq<string>, refs: seq<IdRef>, link: Link)
    requires AllFit(titles) && ListsAll(c, order) && !Contested(c, titles, refs)
    ensures link in Created(c, order, titles, refs) <==> IsLink(c, titles, refs, link)
  {
    match link.target
    case None => UnresolvedIff(c, order, titles, refs, link);
    case Some(d) =>
      RowIff(c, order, titles, refs, link);
      if Chosen(c, order, titles, d) {
        ChosenIsPreferred(c, order, titles, d);
      }
      if Preferred(c, titles, d) && LastAnchor(c, refs, d).None? {
        PreferredIsChosen(c, order, titles, refs, d);
      }
  }

  // ---------- when the order of the documents matters ----------

  /** Every document once. */
  ghost predicate IsListing(c: Scene, order: seq<Id>) {
    Distinct(order) && forall d :: d in order <==> d in c.docs
  }

  ghost predicate SameRows(a: seq<Link>, b: seq<Link>) {
    forall link :: link in a <==> link in b
  }

  function Without(order: seq<Id>, d: Id): (rest: seq<Id>)
    ensures forall e :: e in rest <==> e in order && e != d
  {
    if order == [] then []
    else
      var rest, last := Without(order[..|order| - 1], d), order[|order| - 1];
      if last == d then rest else rest + [last]
  }

  lemma {:induction false} WithoutDistinct(order: seq<Id>, d: Id)
    requires Distinct(order)
    ensures Distinct(Without(order, d))
  {
    if order != [] {
      var n := |order| - 1;
      WithoutDistinct(order[..n], d);
      assert order[n] !in order[..n];
    }
  }

  /** The same documents with d in front. */
  function Promoted(order: seq<Id>, d: Id): seq<Id> {
    [d] + Without(order, d)
  }

  lemma PromotedIsListing(c: Scene, order: seq<Id>, d: Id)
    requires IsListing(c, order) && d in c.docs
    ensures IsListing(c, Promoted(order, d))
  {
    WithoutDistinct(order, d);
  }

  lemma {:induction false} SelectFirst(c: Scene, titles: seq<string>, d: Id, rest: seq<Id>, own: bool)
    requires IsCandidate(c, titles, d) && (c.docs[d].space == c.own <==> own)
    ensures Select(c, titles, [d] + rest, own) == [d] + Select(c, titles, rest, own)
  {
    var order := [d] + rest;
    if rest == [] {
      assert order == [d] && order[..0] == [];
    } else {
      var n := |rest| - 1;
      assert order[..|order| - 1] == [d] + rest[..n];
      SelectFirst(c, titles, d, rest[..n], own);
    }
  }

  /** Whoever of the preferred documents of a title is listed first is chosen. */
  lemma FirstIsChosen(c: Scene, rest: seq<Id>, titles: seq<string>, d: Id)
    requires Preferred(c, titles, d)
    ensures Chosen(c, [d] + rest, titles, d)
  {
    var order := [d] + rest;
    var found, own := Candidates(c, order, titles), c.docs[d].space == c.own;
    var mine := Select(c, titles, order, true);
    SelectFirst(c, titles, d, rest, own);
    var i := if own then 0 else |mine|;
    assert found[i] == d;
    assert found[..i] == if own then [] else mine;
    forall k | 0 <= k < |mine| ensures IsCandidate(c, titles, mine[k]) && c.docs[mine[k]].space == c.own {
      assert mine[k] in mine;
    }
    assert c.docs[d].title !in TitlesOf(c, found[..i]);
    ByTitleIs(c, found, d);
  }

  /** The order in which the database lists the documents can change the rows exactly if some
      document is contested: two that could be chosen share a wanted title, and a reference by id
      does not settle one of them. */
  lemma {:induction false} OrderMattersIff(c: Scene, order: seq<Id>, titles: seq<string>, refs: seq<IdRef>)
    requires AllFit(titles) && IsListing(c, order)
    ensures Contested(c, titles, refs) <==> (
      exists other ::
        IsListing(c, other) && !SameRows(Created(c, order, titles, refs), Created(c, other, titles, refs)))
  {
    if Contested(c, titles, refs) {
      var d :| IsContested(c, titles, refs, d);
      var e :| e != d && Preferred(c, titles, e) && c.docs[e].title == c.docs[d].title;
      PromotionMatters(c, order, titles, refs, d, e);
    } else {
      forall other | IsListing(c, other)
        ensures SameRows(Created(c, order, titles, refs), Created(c, other, titles, refs))
      {
        OrderDoesNotMatter(c, order, other, titles, refs);
      }
    }
  }

  lemma {:induction false} OrderDoesNotMatter(c: Scene, order: seq<Id>, other: seq<Id>, titles: seq<string>,
                                              refs: seq<IdRef>)
    requires AllFit(titles) && !Contested(c, titles, refs)
    requires ListsAll(c, order) && ListsAll(c, other)
    ensures SameRows(Created(c, order, titles, refs), Created(c, other, titles, refs))
  {
    forall link ensures link in Created(c, order, titles, refs) <==> link in Created(c, other, titles, refs) {
      RowsAreLinks(c, order, titles, refs, link);
      RowsAreLinks(c, other, titles, refs, link);
    }
  }

  /** Promoting d or its rival changes whether d has a row. */
  lemma {:induction false} PromotionMatters(c: Scene, order: seq<Id>, titles: seq<string>, refs: seq<IdRef>,
                                          d: Id, e: Id)
    requires AllFit(titles) && IsListing(c, order)
    requires IsContested(c, titles, refs, d)
    requires e != d && Preferred(c, titles, e) && c.docs[e].title == c.docs[d].title
    ensures (
      exists other ::
        IsListing(c, other) && !SameRows(Created(c, order, titles, refs), Created(c, other, titles, refs)))
  {
    var link := Link(Some(d), "", Take(c.docs[d].title, LIMIT));
    var first := if Chosen(c, order, titles, d) then e else d;
    var other := Promoted(order, first);
    PromotedIsListing(c, order, first);
    FirstIsChosen(c, Without(order, first), titles, first);
    if first == e && Chosen(c, other, titles, d) {
      ChosenOnce(c, other, titles, d, e);
    }
    RowIff(c, order, titles, refs, link);
    RowIff(c, other, titles, refs, link);
    assert link in Created(c, order, titles, refs) <==> link !in Created(c, other, titles, refs);
    assert IsListing(c, other) && !SameRows(Created(c, order, titles, refs), Created(c, other, titles, refs));
  }

  // ---------- links in terms of the documents ----------

  lemma {:induction false} LastAnchorCons(c: Scene, r: IdRef, rest: seq<IdRef>, d: Id)
    ensures LastAnchor(c, [r] + rest, d) ==
      if LastAnchor(c, rest, d).Some? then LastAnchor(c, rest, d)
      else if r.target == d && Reachable(c, d) then Some(RefAnchor(c, r)) else None
  {
    var refs := [r] + rest;
    if rest == [] {
      assert refs == [r] && refs[..0] == [];
    } else {
      var n := |rest| - 1;
      assert refs[..|refs| - 1] == [r] + rest[..n];
      LastAnchorCons(c, r, rest[..n], d);
    }
  }

  lemma {:induction false} NoReference(c: Scene, refs: seq<IdRef>, d: Id)
    requires forall i :: 0 <= i < |refs| ==> refs[i].target != d
    ensures LastAnchor(c, refs, d).None?
  {
    if refs != [] {
      NoReference(c, refs[..|refs| - 1], d);
    }
  }

  /** A written reference to another document of a space in scope links that document, whatever its
      status is; if no later reference leads there, the reference names the anchor. */
  lemma {:induction false} WrittenReferenceLinks(c: Scene, order: seq<Id>, lead: string, a: string, o: string, d: Id,
                                               digits: string, t: string)
    requires forall i :: 0 <= i < |lead| ==> lead[i] != '['
    requires I.IsAnchor(a) && I.IsOpening(o) && digits in {I.LOWER, I.UPPER} && d < I.PowerOf16(32)
    requires d in c.docs && d != c.source && c.docs[d].space in c.spaces
    ensures var text := lead + (I.Rendered(a, o, I.Uuid(d, digits)) + ")" + t);
      && HasTarget(RowsOf(c, order, text), d)
      && ((forall r :: r in I.IdRefs(I.AfterParenthesis(t)) ==> r.target != d) ==>
            Link(Some(d), "", Take(if Strip(a) == "" then c.docs[d].title else Strip(a), 255)) in
              RowsOf(c, order, text))
  {
    var text, later := lead + (I.Rendered(a, o, I.Uuid(d, digits)) + ")" + t), I.IdRefs(I.AfterParenthesis(t));
    var refs, titles := I.IdRefs(text), Titles(Links(text));
    I.WrittenReference(lead, a, o, d, digits, t);
    LastAnchorCons(c, I.IdRef(Strip(a), d), later, d);
    TargetIff(c, order, titles, refs, d);
    if forall r :: r in later ==> r.target != d {
      NoReference(c, later, d);
      TitlesFit(text);
      RowIff(c, order, titles, refs,
             Link(Some(d), "", Take(if Strip(a) == "" then c.docs[d].title else Strip(a), 255)));
    }
  }

  /** A document that alone bears its title and that no reference by id leads to is linked exactly if
      it is another document of a space in scope, can be linked, and its title is wanted. */
  lemma {:induction false} SoleBearerIsLinkedIff(c: Scene, order: seq<Id>, titles: seq<string>, refs: seq<IdRef>,
                                               d: Id)
    requires ListsAll(c, order) && d in c.docs
    requires forall i :: 0 <= i < |refs| ==> refs[i].target != d
    requires forall e :: e in c.docs && e != d ==> c.docs[e].title != c.docs[d].title
    ensures HasTarget(Created(c, order, titles, refs), d) <==>
      d != c.source && c.docs[d].space in c.spaces && c.docs[d].linkable && c.docs[d].title in titles
  {
    TargetIff(c, order, titles, refs, d);
    NoReference(c, refs, d);
    if IsCandidate(c, titles, d) {
      var e := OneIsChosen(c, order, titles, d);
      ChosenOnce(c, order, titles, e, e);
    }
    if Chosen(c, order, titles, d) {
      ChosenOnce(c, order, titles, d, d);
    }
  }

  /** If a document of the own space bears the title, no document of another space is linked for it. */
  lemma {:induction false} OwnSpaceWins(c: Scene, order: seq<Id>, titles: seq<string>, refs: seq<IdRef>, d: Id, e: Id)
    requires ListsAll(c, order) && d in c.docs && e in c.docs
    requires forall i :: 0 <= i < |refs| ==> refs[i].target != d
    requires c.docs[d].space != c.own && c.docs[d].title == c.docs[e].title
    requires e != c.source && c.docs[e].space == c.own && c.own in c.spaces && c.docs[e].linkable
    ensures !HasTarget(Created(c, order, titles, refs), d)
  {
    TargetIff(c, order, titles, refs, d);
    NoReference(c, refs, d);
    if Chosen(c, order, titles, d) {
      ChosenIsPreferred(c, order, titles, d);
      assert IsCandidate(c, titles, e);
    }
  }
}
