/** The incremental table of similar documents (refresh_document_similarity in
    backend/apps/knowledge/similarity.py).

    Documents are numbered in the order of their id strings; scores are exact reals until they are
    stored. */
module Similarity {
  import opened Basics
  import opened Options
  import opened PooledEmbedding
  import opened Rounding
  import opened Vectors

  type Id = nat
  type Pair = p: (Id, Id) | p.0 < p.1 witness (0, 1)

  const SIMILAR_EDGE_THRESHOLD: real := 0.8
  const MAX_CANDIDATES: nat := 300

  /** eligible: the status is active or stale. */
  datatype Document = Document(space: nat, eligible: bool)

  type Score = (Vector, Vector) -> real

  /** The score that the table is built with. */
  function CosineWith(sqrt: real -> real): Score {
    (a: Vector, b: Vector) => Cosine(sqrt, a, b)
  }

  ghost predicate IsSymmetric(score: Score) {
    forall a, b :: score(a, b) == score(b, a)
  }

  lemma CosineWithIsSymmetric(sqrt: real -> real)
    ensures IsSymmetric(CosineWith(sqrt))
  {
    forall a, b ensures CosineWith(sqrt)(a, b) == CosineWith(sqrt)(b, a) {
      CosineIsSymmetric(sqrt, a, b);
    }
  }

  /** The documents, their pooled vectors, and the table. */
  datatype State = State(docs: map<Id, Document>, pooled: map<Id, Vector>, edges: map<Pair, real>)

  /** Scores are stored with four decimals. */
  function Stored(value: real): real {
    Round(value, 10000)
  }

  function PairOf(a: Id, b: Id): Pair
    requires a != b
  {
    if a < b then (a, b) else (b, a)
  }

  /** recent: the ids of the documents, newest update first. */
  function Candidates(docs: map<Id, Document>, pooled: map<Id, Vector>, id: Id, recent: seq<Id>): (found: seq<Id>)
    requires id in docs
    ensures forall o :: o in found ==> IsCandidate(docs, pooled, id, o) && o in recent
  {
    if recent == [] then []
    else
      var found := Candidates(docs, pooled, id, recent[..|recent| - 1]);
      if IsCandidate(docs, pooled, id, recent[|recent| - 1]) then found + [recent[|recent| - 1]] else found
  }

  predicate IsCandidate(docs: map<Id, Document>, pooled: map<Id, Vector>, id: Id, other: Id)
    requires id in docs
  {
    && other != id
    && other in docs
    && docs[other].space == docs[id].space
    && docs[other].eligible
    && other in pooled
  }

  function Window(docs: map<Id, Document>, pooled: map<Id, Vector>, id: Id, recent: seq<Id>): (found: seq<Id>)
    requires id in docs
    ensures forall o :: o in found ==> IsCandidate(docs, pooled, id, o)
  {
    var found := Candidates(docs, pooled, id, recent);
    if |found| <= MAX_CANDIDATES then found else found[..MAX_CANDIDATES]
  }

  predicate Similar(score: Score, a: Vector, b: Vector) {
    b != [] && score(a, b) >= SIMILAR_EDGE_THRESHOLD
  }

  predicate Touches(p: Pair, id: Id) {
    p.0 == id || p.1 == id
  }

  function WithoutEdges(edges: map<Pair, real>, id: Id): map<Pair, real> {
    map p | p in edges && !Touches(p, id) :: edges[p]
  }

  /** The rows built for one document from its candidates. */
  function Rows(score: Score, pooled: map<Id, Vector>, id: Id, candidates: seq<Id>): map<Pair, real>
    requires id in pooled
    requires forall o :: o in candidates ==> o != id && o in pooled
  {
    if candidates == [] then map[]
    else
      var o := candidates[|candidates| - 1];
      var rows := Rows(score, pooled, id, candidates[..|candidates| - 1]);
      if Similar(score, pooled[id], pooled[o]) then rows[PairOf(id, o) := Stored(score(pooled[id], pooled[o]))]
      else rows
  }

  function AfterRefresh(score: Score, s: State, id: Id, vector: Option<Vector>, recent: seq<Id>): State
    requires id in s.docs
  {
    var kept := WithoutEdges(s.edges, id);
    match vector
    case None => s.(pooled := s.pooled - {id}, edges := kept)
    case Some(v) =>
      var pooled := s.pooled[id := v];
      State(s.docs, pooled, kept + Rows(score, pooled, id, Window(s.docs, pooled, id, recent)))
  }

  class SimilarityIndex {
    var docs: map<Id, Document>
    var pooled: map<Id, Vector>
    var edges: map<Pair, real>

    function Contents(): State
      reads this
    {
      State(docs, pooled, edges)
    }

    method RefreshDocument(sqrt: real -> real, id: Id, chunks: seq<Option<Vector>>, recent: seq<Id>)
        returns (stored: nat)
      requires id in docs && Distinct(recent)
      modifies this`pooled, this`edges
      ensures Contents() == AfterRefresh(CosineWith(sqrt), old(Contents()), id, Pooled(chunks), recent)
      ensures stored == |set p | p in edges && Touches(p, id)|
    {
      var result := ComputePooledEmbedding(chunks);
      pooled := if result.None? then pooled - {id} else pooled[id := result.value];
      edges := WithoutEdges(edges, id);
      if result.None? {
        assert (set p | p in edges && Touches(p, id)) == {};
        return 0;
      }
      var candidates := Window(docs, pooled, id, recent);
      CandidatesDistinct(docs, pooled, id, recent);
      var rows := BuildRows(CosineWith(sqrt), pooled, id, candidates);
      edges := edges + TableOf(rows);
      stored := |rows|;
      assert (set p | p in edges && Touches(p, id)) == TableOf(rows).Keys by {
        RowsTouch(CosineWith(sqrt), pooled, id, candidates);
      }
    }
  }

  method BuildRows(score: Score, pooled: map<Id, Vector>, id: Id, candidates: seq<Id>)
      returns (rows: seq<(Pair, real)>)
    requires id in pooled && Distinct(candidates)
    requires forall o :: o in candidates ==> o != id && o in pooled
    ensures TableOf(rows) == Rows(score, pooled, id, candidates)
    ensures |rows| == |TableOf(rows)|
  {
    rows := [];
    for k := 0 to |candidates|
      invariant TableOf(rows) == Rows(score, pooled, id, candidates[..k])
      invariant |rows| == |TableOf(rows)|
    {
      assert candidates[..k + 1][..k] == candidates[..k];
      var other := candidates[k];
      var vector := pooled[other];
      if vector == [] {
        continue;
      }
      var value := score(pooled[id], vector);
      if value < SIMILAR_EDGE_THRESHOLD {
        continue;
      }
      var row := (PairOf(id, other), Stored(value));
      assert row.0 !in TableOf(rows) by {
        RowsAre(score, pooled, id, candidates[..k], row.0);
      }
      assert (rows + [row])[..|rows|] == rows;
      rows := rows + [row];
    }
    assert candidates[..|candidates|] == candidates;
  }

  /** What bulk_create leaves in the table when no two rows are for the same pair. */
  function TableOf(rows: seq<(Pair, real)>): map<Pair, real> {
    if rows == [] then map[]
    else TableOf(rows[..|rows| - 1])[rows[|rows| - 1].0 := rows[|rows| - 1].1]
  }

  function Other(p: Pair, id: Id): Id {
    if p.0 == id then p.1 else p.0
  }

  lemma {:induction false} CandidatesDistinct(docs: map<Id, Document>, pooled: map<Id, Vector>, id: Id, recent: seq<Id>)
    requires id in docs && Distinct(recent)
    ensures Distinct(Candidates(docs, pooled, id, recent))
  {
    if recent != [] {
      CandidatesDistinct(docs, pooled, id, recent[..|recent| - 1]);
      assert recent[|recent| - 1] !in recent[..|recent| - 1];
    }
  }

  // ---------- what the rows say ----------

  lemma {:induction false} RowsAre(score: Score, pooled: map<Id, Vector>, id: Id, candidates: seq<Id>, p: Pair)
    requires id in pooled
    requires forall o :: o in candidates ==> o != id && o in pooled
    ensures p in Rows(score, pooled, id, candidates) <==> (
      Touches(p, id) && Other(p, id) in candidates && Similar(score, pooled[id], pooled[Other(p, id)]))
    ensures p in Rows(score, pooled, id, candidates) ==> (
      Rows(score, pooled, id, candidates)[p] == Stored(score(pooled[id], pooled[Other(p, id)])))
  {
    if candidates != [] {
      var n := |candidates| - 1;
      RowsAre(score, pooled, id, candidates[..n], p);
      assert forall o :: o in candidates <==> o in candidates[..n] || o == candidates[n];
    }
  }

  lemma RowsTouch(score: Score, pooled: map<Id, Vector>, id: Id, candidates: seq<Id>)
    requires id in pooled
    requires forall o :: o in candidates ==> o != id && o in pooled
    ensures forall p :: p in Rows(score, pooled, id, candidates) ==> Touches(p, id)
  {
    forall p | p in Rows(score, pooled, id, candidates) ensures Touches(p, id) {
      RowsAre(score, pooled, id, candidates, p);
    }
  }

  // ---------- the window ----------

  lemma {:induction false} CandidatesHas(docs: map<Id, Document>, pooled: map<Id, Vector>, id: Id, recent: seq<Id>,
                                         o: Id)
    requires id in docs && o in recent && IsCandidate(docs, pooled, id, o)
    ensures o in Candidates(docs, pooled, id, recent)
  {
    var n := |recent| - 1;
    if o != recent[n] {
      CandidatesHas(docs, pooled, id, recent[..n], o);
    }
  }

  /** The candidates of the first documents come first. */
  lemma {:induction false} CandidatesGrow(docs: map<Id, Document>, pooled: map<Id, Vector>, id: Id, recent: seq<Id>,
                                          k: nat)
    requires id in docs && k <= |recent|
    ensures Candidates(docs, pooled, id, recent[..k]) <= Candidates(docs, pooled, id, recent)
  {
    if k == |recent| {
      assert recent[..k] == recent;
    } else {
      assert recent[..|recent| - 1][..k] == recent[..k];
      CandidatesGrow(docs, pooled, id, recent[..|recent| - 1], k);
    }
  }

  /** A document is compared with the candidates that were updated last: if one is looked at, so is
      every candidate before it, and either there are 300 of them or nobody is left out. */
  lemma {:induction false} WindowIsNewest(docs: map<Id, Document>, pooled: map<Id, Vector>, id: Id, recent: seq<Id>,
                                          i: nat, j: nat)
    requires id in docs && Distinct(recent)
    requires i < j < |recent| && IsCandidate(docs, pooled, id, recent[i])
    ensures var window := Window(docs, pooled, id, recent);
      && (recent[j] in window ==> recent[i] in window)
      && |window| <= 300 && (recent[i] in window || |window| == 300)
  {
    var window, before := Window(docs, pooled, id, recent), Candidates(docs, pooled, id, recent[..i + 1]);
    assert recent[..i + 1][i] == recent[i];
    CandidatesHas(docs, pooled, id, recent[..i + 1], recent[i]);
    CandidatesGrow(docs, pooled, id, recent, i + 1);
    var k :| 0 <= k < |before| && before[k] == recent[i];
    assert recent[j] !in recent[..i + 1];
    assert recent[j] !in before;
    assert k < |window| ==> window[k] == before[k];
    if recent[j] in window {
      var m :| 0 <= m < |window| && window[m] == recent[j];
      assert m < |before| ==> window[m] == before[m];
    }
  }

  // ---------- the brute-force table ----------

  predicate Joined(score: Score, s: State, p: Pair) {
    && p.0 in s.pooled && p.1 in s.pooled
    && p.0 in s.docs && p.1 in s.docs
    && s.docs[p.0].space == s.docs[p.1].space
    && s.pooled[p.0] != [] && s.pooled[p.1] != []
    && score(s.pooled[p.0], s.pooled[p.1]) >= 0.8
  }

  ghost predicate Sound(score: Score, s: State) {
    forall p: Pair :: p in s.edges ==>
      Joined(score, s, p) && s.edges[p] == Stored(score(s.pooled[p.0], s.pooled[p.1]))
  }

  /** Each pair of documents of one space with similar stored vectors, once, with its score; and
      nothing else. */
  ghost predicate IsBruteForce(score: Score, s: State) {
    Sound(score, s) && forall p: Pair :: Joined(score, s, p) ==> p in s.edges
  }

  // ---------- runs ----------

  /** Save creates a document or changes its status, Delete removes it with its edges, and Refresh
      is one call, with the pooled vector of the document's chunks and the order of the documents
      at that moment. */
  datatype Step =
    | Save(id: Id, document: Document)
    | Delete(id: Id)
    | Refresh(id: Id, vector: Option<Vector>, recent: seq<Id>)

  predicate Possible(s: State, step: Step) {
    match step
    case Save(id, document) => id in s.docs ==> document.space == s.docs[id].space
    case Delete(_) => true
    case Refresh(id, vector, recent) =>
      id in s.docs && vector != Some([]) && Distinct(recent) && forall o :: o in s.docs ==> o in recent
  }

  /** A step that is not possible is left out. */
  function Next(score: Score, s: State, step: Step): State {
    if !Possible(s, step) then s
    else
      match step
      case Save(id, document) => s.(docs := s.docs[id := document])
      case Delete(id) => State(s.docs - {id}, s.pooled - {id}, WithoutEdges(s.edges, id))
      case Refresh(id, vector, recent) => AfterRefresh(score, s, id, vector, recent)
  }

  function Run(score: Score, steps: seq<Step>): State {
    if steps == [] then State(map[], map[], map[])
    else Next(score, Run(score, steps[..|steps| - 1]), steps[|steps| - 1])
  }

  /** Only documents have a vector, and no vector is empty. */
  predicate Tidy(s: State) {
    forall o :: o in s.pooled ==> o in s.docs && s.pooled[o] != []
  }

  function Space(docs: map<Id, Document>, space: nat): set<Id> {
    set o | o in docs && docs[o].space == space
  }

  ghost predicate SpacesFit(docs: map<Id, Document>) {
    forall o :: o in docs ==> |Space(docs, docs[o].space)| <= MAX_CANDIDATES + 1
  }

  lemma {:induction false} DistinctFits(s: seq<Id>, ids: set<Id>)
    requires Distinct(s) && forall o :: o in s ==> o in ids
    ensures |s| <= |ids|
  {
    if s != [] {
      var last := s[|s| - 1];
      assert last !in s[..|s| - 1];
      DistinctFits(s[..|s| - 1], ids - {last});
    }
  }

  lemma {:induction false} CandidatesAreAll(docs: map<Id, Document>, pooled: map<Id, Vector>, id: Id,
                                            recent: seq<Id>, o: Id)
    requires id in docs
    ensures o in Candidates(docs, pooled, id, recent) <==> o in recent && IsCandidate(docs, pooled, id, o)
  {
    if recent != [] {
      var n := |recent| - 1;
      CandidatesAreAll(docs, pooled, id, recent[..n], o);
      assert o in recent <==> o in recent[..n] || o == recent[n];
    }
  }

  /** The cut to 300 candidates drops nobody while a space has at most 301 documents. */
  lemma {:induction false} WindowIsEverybody(s: State, pooled: map<Id, Vector>, step: Step, o: Id)
    requires step.Refresh? && Possible(s, step)
    requires |Space(s.docs, s.docs[step.id].space)| <= MAX_CANDIDATES + 1
    ensures o in Window(s.docs, pooled, step.id, step.recent) <==> IsCandidate(s.docs, pooled, step.id, o)
  {
    var found := Candidates(s.docs, pooled, step.id, step.recent);
    var all := Space(s.docs, s.docs[step.id].space);
    CandidatesDistinct(s.docs, pooled, step.id, step.recent);
    DistinctFits(found, all - {step.id});
    assert |all - {step.id}| == |all| - 1;
    CandidatesAreAll(s.docs, pooled, step.id, step.recent, o);
  }

  predicate SameAt(s: State, t: State, p: Pair) {
    && (p in t.edges <==> p in s.edges)
    && (p in t.edges ==> t.edges[p] == s.edges[p])
    && (p.0 in t.pooled <==> p.0 in s.pooled) && (p.0 in t.pooled ==> t.pooled[p.0] == s.pooled[p.0])
    && (p.1 in t.pooled <==> p.1 in s.pooled) && (p.1 in t.pooled ==> t.pooled[p.1] == s.pooled[p.1])
  }

  lemma {:induction false} OtherEdgesStay(score: Score, s: State, step: Step, p: Pair)
    requires step.Refresh? && Possible(s, step) && !Touches(p, step.id)
    ensures SameAt(s, Next(score, s, step), p)
  {
    if step.vector.Some? {
      var pooled := s.pooled[step.id := step.vector.value];
      RowsAre(score, pooled, step.id, Window(s.docs, pooled, step.id, step.recent), p);
    }
  }

  lemma {:induction false} OwnEdgesAreRebuilt(score: Score, s: State, step: Step, p: Pair)
    requires step.Refresh? && Possible(s, step) && Touches(p, step.id)
    ensures var t := Next(score, s, step); var o := Other(p, step.id);
      && (p in t.edges <==> (
            && step.id in t.pooled
            && o in Window(s.docs, t.pooled, step.id, step.recent)
            && Similar(score, t.pooled[step.id], t.pooled[o])))
      && (p in t.edges ==> t.edges[p] == Stored(score(t.pooled[step.id], t.pooled[o])))
  {
    if step.vector.Some? {
      var pooled := s.pooled[step.id := step.vector.value];
      RowsAre(score, pooled, step.id, Window(s.docs, pooled, step.id, step.recent), p);
    }
  }

  /** Whatever the order of the steps and the states of the documents, the table only ever holds
      true edges: a pair of one space, both vectors stored, with the current score. */
  lemma {:induction false} TableIsSound(score: Score, steps: seq<Step>)
    requires IsSymmetric(score)
    ensures Sound(score, Run(score, steps)) && Tidy(Run(score, steps))
  {
    if steps != [] {
      var n := |steps| - 1;
      TableIsSound(score, steps[..n]);
      var s := Run(score, steps[..n]);
      if steps[n].Refresh? && Possible(s, steps[n]) {
        RefreshKeepsSound(score, s, steps[n]);
      } else {
        OthersKeepSound(score, s, steps[n]);
      }
    }
  }

  lemma {:induction false} OthersKeepSound(score: Score, s: State, step: Step)
    requires !(step.Refresh? && Possible(s, step)) && Sound(score, s) && Tidy(s)
    ensures Sound(score, Next(score, s, step)) && Tidy(Next(score, s, step))
  {
    var t := Next(score, s, step);
    forall p: Pair | p in t.edges
      ensures Joined(score, t, p) && t.edges[p] == Stored(score(t.pooled[p.0], t.pooled[p.1]))
    {
      assert Joined(score, s, p);
    }
  }

  lemma {:induction false} RefreshKeepsSound(score: Score, s: State, step: Step)
    requires IsSymmetric(score)
    requires step.Refresh? && Possible(s, step) && Sound(score, s) && Tidy(s)
    ensures Sound(score, Next(score, s, step)) && Tidy(Next(score, s, step))
  {
    var t := Next(score, s, step);
    forall p: Pair | p in t.edges
      ensures Joined(score, t, p) && t.edges[p] == Stored(score(t.pooled[p.0], t.pooled[p.1]))
    {
      if Touches(p, step.id) {
        OwnEdgesAreRebuilt(score, s, step, p);
      } else {
        OtherEdgesStay(score, s, step, p);
      }
    }
  }

  /** Whether the last refresh of either document of p saw the other one active or stale. */
  predicate SawEligible(score: Score, steps: seq<Step>, p: Pair) {
    if steps == [] then false
    else
      var before, last := Run(score, steps[..|steps| - 1]), steps[|steps| - 1];
      if last.Refresh? && Touches(p, last.id) && Possible(before, last)
      then Other(p, last.id) in before.docs && before.docs[Other(p, last.id)].eligible
      else SawEligible(score, steps[..|steps| - 1], p)
  }

  /** No space ever has more than 301 documents. */
  ghost predicate AlwaysFits(score: Score, steps: seq<Step>) {
    forall k :: 0 <= k <= |steps| ==> SpacesFit(Run(score, steps[..k]).docs)
  }

  predicate IsExact(score: Score, s: State, p: Pair, eligible: bool) {
    p in s.edges <==> Joined(score, s, p) && eligible
  }

  /** Exactly which edges are in the table after any run in which documents come, go and change
      their status: those of the similar pairs whose last refresh saw the other document active or
      stale. */
  lemma {:induction false} EdgeIff(score: Score, steps: seq<Step>, p: Pair)
    requires IsSymmetric(score) && AlwaysFits(score, steps)
    ensures IsExact(score, Run(score, steps), p, SawEligible(score, steps, p))
  {
    if steps != [] {
      var n := |steps| - 1;
      var s := Run(score, steps[..n]);
      assert SpacesFit(s.docs);
      FitsBefore(score, steps);
      TableIsSound(score, steps[..n]);
      EdgeIff(score, steps[..n], p);
      EdgeStep(score, s, steps[n], p, SawEligible(score, steps[..n], p));
    }
  }

  lemma {:induction false} FitsBefore(score: Score, steps: seq<Step>)
    requires steps != [] && AlwaysFits(score, steps)
    ensures AlwaysFits(score, steps[..|steps| - 1])
  {
    var before := steps[..|steps| - 1];
    forall k | 0 <= k <= |before| ensures SpacesFit(Run(score, before[..k]).docs) {
      assert before[..k] == steps[..k];
    }
  }

  lemma {:induction false} EdgeStep(score: Score, s: State, step: Step, p: Pair, eligible: bool)
    requires IsSymmetric(score)
    requires SpacesFit(s.docs) && Tidy(s) && IsExact(score, s, p, eligible)
    ensures IsExact(score, Next(score, s, step), p,
                    if step.Refresh? && Touches(p, step.id) && Possible(s, step)
                    then Other(p, step.id) in s.docs && s.docs[Other(p, step.id)].eligible
                    else eligible)
  {
    if step.Refresh? && Possible(s, step) {
      if Touches(p, step.id) {
        OwnEdgesAreRebuilt(score, s, step, p);
        WindowIsEverybody(s, Next(score, s, step).pooled, step, Other(p, step.id));
      } else {
        OtherEdgesStay(score, s, step, p);
      }
    }
  }

  /** Every document is active or stale throughout. */
  ghost predicate AlwaysEligible(score: Score, steps: seq<Step>) {
    forall k :: 0 <= k <= |steps| ==> AllEligible(Run(score, steps[..k]))
  }

  predicate AllEligible(s: State) {
    forall o :: o in s.docs ==> s.docs[o].eligible
  }

  lemma {:induction false} EligibleBefore(score: Score, steps: seq<Step>)
    requires steps != [] && AlwaysEligible(score, steps)
    ensures AlwaysEligible(score, steps[..|steps| - 1])
    ensures AllEligible(Run(score, steps[..|steps| - 1]))
  {
    var before := steps[..|steps| - 1];
    forall k | 0 <= k <= |before| ensures AllEligible(Run(score, before[..k])) {
      assert before[..k] == steps[..k];
    }
    assert before[..|before|] == before;
  }

  /** Both documents of a similar pair were refreshed, so the last of the two saw the other. */
  lemma {:induction false} JoinedSaw(score: Score, steps: seq<Step>, p: Pair)
    requires IsSymmetric(score) && AlwaysEligible(score, steps)
    requires p.0 in Run(score, steps).pooled && p.1 in Run(score, steps).pooled
    ensures SawEligible(score, steps, p)
  {
    var n := |steps| - 1;
    var s, step := Run(score, steps[..n]), steps[n];
    TableIsSound(score, steps);
    EligibleBefore(score, steps);
    if !(step.Refresh? && Touches(p, step.id) && Possible(s, step)) {
      if step.Refresh? && Possible(s, step) {
        OtherEdgesStay(score, s, step, p);
      }
      JoinedSaw(score, steps[..n], p);
    }
  }

  /** Starting empty, after any steps in any order, with repeats, the incremental table is the
      brute-force one, if every document is active or stale and no space has more than 301. */
  lemma {:induction false} TableIsBruteForce(score: Score, steps: seq<Step>)
    requires IsSymmetric(score) && AlwaysFits(score, steps) && AlwaysEligible(score, steps)
    ensures IsBruteForce(score, Run(score, steps))
  {
    TableIsSound(score, steps);
    forall p: Pair | Joined(score, Run(score, steps), p) ensures p in Run(score, steps).edges {
      EdgeIff(score, steps, p);
      JoinedSaw(score, steps, p);
    }
  }

  /** So the table of the system is exact, and no score in it exceeds one. */
  lemma {:induction false} CosineTable(sqrt: real -> real, steps: seq<Step>)
    requires IsSquareRoot(sqrt)
    requires AlwaysFits(CosineWith(sqrt), steps) && AlwaysEligible(CosineWith(sqrt), steps)
    ensures var s := Run(CosineWith(sqrt), steps);
      && IsBruteForce(CosineWith(sqrt), s)
      && forall p: Pair :: p in s.edges ==> 0.8 <= s.edges[p] <= 1.0
  {
    CosineWithIsSymmetric(sqrt);
    TableIsBruteForce(CosineWith(sqrt), steps);
    var s := Run(CosineWith(sqrt), steps);
    forall p: Pair | p in s.edges ensures 0.8 <= s.edges[p] <= 1.0 {
      CosineAtMostOne(sqrt, s.pooled[p.0], s.pooled[p.1]);
      RoundStaysBetween(Cosine(sqrt, s.pooled[p.0], s.pooled[p.1]), 8000, 10000);
    }
  }

  // ---------- drafts ----------

  /** Two documents of one space with the same vector: after refreshing both, the edge is there
      exactly if the one refreshed first was active or stale. */
  lemma {:induction false} FirstDecides(score: Score, s: State, first: Step, second: Step)
    requires IsSymmetric(score)
    requires SpacesFit(s.docs) && Tidy(s) && s.pooled == map[]
    requires first.Refresh? && second.Refresh? && Possible(s, first) && Possible(s, second)
    requires first.id != second.id && s.docs[first.id].space == s.docs[second.id].space
    requires first.vector == second.vector && first.vector.Some?
    requires Similar(score, first.vector.value, first.vector.value)
    ensures var t := Next(score, Next(score, s, first), second);
      PairOf(first.id, second.id) in t.edges <==> s.docs[first.id].eligible
  {
    var p := PairOf(first.id, second.id);
    var t := Next(score, s, first);
    OwnEdgesAreRebuilt(score, t, second, p);
    WindowIsEverybody(t, Next(score, t, second).pooled, second, first.id);
  }

  /** A draft (0) and an active document (1) with the same vector: the order in which they are
      refreshed decides whether the edge is there. */
  lemma {:induction false} DraftsDependOnOrder(sqrt: real -> real, s: State, draft: Step, active: Step)
    requires IsSquareRoot(sqrt)
    requires s == State(map[0 := Document(0, false), 1 := Document(0, true)], map[], map[])
    requires draft == Refresh(0, Some([1.0]), [0, 1]) && active == Refresh(1, Some([1.0]), [0, 1])
    ensures var score := CosineWith(sqrt);
      && (0, 1) !in Next(score, Next(score, s, draft), active).edges
      && (0, 1) in Next(score, Next(score, s, active), draft).edges
  {
    CosineWithIsSymmetric(sqrt);
    CosineOfOne(sqrt, 1.0);
    SmallTable(s.docs);
    assert [0, 1][0] == 0 && [0, 1][1] == 1;
    FirstDecides(CosineWith(sqrt), s, draft, active);
    FirstDecides(CosineWith(sqrt), s, active, draft);
  }

  lemma SmallTable(docs: map<Id, Document>)
    requires docs.Keys == {0, 1}
    ensures SpacesFit(docs)
  {
    forall o | o in docs ensures |Space(docs, docs[o].space)| <= MAX_CANDIDATES + 1 {
      Fewer(Space(docs, docs[o].space), {0, 1});
    }
  }

  lemma {:induction false} Fewer(a: set<Id>, b: set<Id>)
    requires a <= b
    ensures |a| <= |b|
  {
    if a != {} {
      var x :| x in a;
      Fewer(a - {x}, b - {x});
    }
  }
}
