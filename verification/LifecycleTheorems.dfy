/** What the lifecycle machine guarantees in every reachable state, whatever interleaves or crashes. */
module LifecycleTheorems {
  import opened Wrappers
  import opened EdgesBuilder
  import opened Taxonomy
  import opened Lifecycle
  import opened LifecycleInvariant

  /** The documents the graph query reaches from `seeds`, following edges both ways. */
  function Neighbours(edges: map<EdgeKey, real>, seeds: set<DocId>): set<DocId> {
    (set k | k in edges && k.0 in seeds :: k.1) + (set k | k in edges && k.1 in seeds :: k.0)
  }

  /***** Index rows *****/

  /**
   * However many indexers overlap and wherever they crash, a document has its full-text row exactly
   * once or not at all, exactly when it has its vector row; only then has it outgoing edges; and no
   * edge is a self-loop.
   */
  lemma IndexedExactlyOnce(cfg: Config, run: seq<Action>)
    ensures var db := Run(cfg, INITIAL, run).db;
      && (forall id :: db.fts[id] == if id in db.vec then 1 else 0)
      && (forall k :: k in db.edges ==> k.0 in db.vec && k.0 != k.1)
      && (forall id :: id in db.vec ==> Classified(db, id))
  {
    RunKeeps(cfg, run);
    var db := Run(cfg, INITIAL, run).db;
    forall k | k in db.edges ensures k.0 in db.vec && k.0 != k.1 {
      assert EdgeOk(cfg, db, k, db.edges[k]);
    }
  }

  lemma LinkedAreNeighbours(edges: map<EdgeKey, real>, kind: Kind, a: DocId, b: DocId)
    requires (a, b, kind) in edges || (b, a, kind) in edges
    ensures a in Neighbours(edges, {b}) && b in Neighbours(edges, {a})
  {
    var k := if (a, b, kind) in edges then (a, b, kind) else (b, a, kind);
    assert k in edges && {k.0, k.1} == {a, b};
  }

  /** Two indexed documents with enough tags in common reach each other, over an edge of exact weight. */
  lemma TagNeighbours(cfg: Config, run: seq<Action>, a: DocId, b: DocId)
    requires cfg.edge.tagThreshold > 0.0
    requires var db := Run(cfg, INITIAL, run).db;
      && a != b && a in db.vec && b in db.vec && Classified(db, a) && Classified(db, b)
      && Jaccard(TagsOf(db, a), TagsOf(db, b)) >= cfg.edge.tagThreshold
    ensures var db := Run(cfg, INITIAL, run).db; var j := Jaccard(TagsOf(db, a), TagsOf(db, b));
      && (|| ((a, b, TagOverlap) in db.edges && db.edges[(a, b, TagOverlap)] == j)
          || ((b, a, TagOverlap) in db.edges && db.edges[(b, a, TagOverlap)] == j))
      && a in Neighbours(db.edges, {b}) && b in Neighbours(db.edges, {a})
  {
    RunKeeps(cfg, run);
    var db := Run(cfg, INITIAL, run).db;
    assert Near(cfg, db, a, b) && Linked(db, TagOverlap, a, b);
    LinkedAreNeighbours(db.edges, TagOverlap, a, b);
    JaccardSymmetric(TagsOf(db, a), TagsOf(db, b));
    if (a, b, TagOverlap) in db.edges {
      assert EdgeOk(cfg, db, (a, b, TagOverlap), db.edges[(a, b, TagOverlap)]);
    } else {
      assert EdgeOk(cfg, db, (b, a, TagOverlap), db.edges[(b, a, TagOverlap)]);
    }
  }

  /**
   * Once the index commit of a worker succeeds, each well-formed related id on its list is its document's
   * neighbour over an explicit edge of weight 1, and stays so whatever happens later.
   */
  lemma ExplicitNeighbours(cfg: Config, run: seq<Action>, p: Pid, r: DocId, later: seq<Action>)
    requires var s := Run(cfg, INITIAL, run); var w := PcOf(s, p);
      && Owns(s, p) && w.Indexing? && w.ix.VecDone? && w.rest == {}
      && r in w.related && r != w.id && WrittenAsId(r)
    ensures var id := PcOf(Run(cfg, INITIAL, run), p).id;
      var edges := Run(cfg, INITIAL, run + [CommitIndex(p)] + later).db.edges;
      && (id, r, ExplicitRelated) in edges && edges[(id, r, ExplicitRelated)] == 1.0
      && r in Neighbours(edges, {id}) && id in Neighbours(edges, {r})
  {
    RunKeeps(cfg, run);
    var s := Run(cfg, INITIAL, run);
    var id := PcOf(s, p).id;
    ExplicitCommitted(cfg, s, p, r);
    var committed := run + [CommitIndex(p)];
    assert committed[..|run|] == run;
    CommitPublishes(cfg, s, p);
    var all := committed + later;
    assert all[..|committed|] == committed;
    CommittedStays(cfg, all, |committed|);
    RunKeeps(cfg, all);
    hide Run, Step;
    var db := Run(cfg, INITIAL, all).db;
    assert EdgeOk(cfg, db, (id, r, ExplicitRelated), db.edges[(id, r, ExplicitRelated)]);
    LinkedAreNeighbours(db.edges, ExplicitRelated, id, r);
  }

  lemma ExplicitCommitted(cfg: Config, s: State, p: Pid, r: DocId)
    requires ReadyToCommit(cfg, s, p)
    requires r in PcOf(s, p).related && r != PcOf(s, p).id && WrittenAsId(r)
    ensures (PcOf(s, p).id, r, ExplicitRelated) in s.tx.value.t.edges
  {
    var w := PcOf(s, p);
    assert WorkerOk(cfg, s.db, VocabOf(s, p), w);
    WrittenIffId(r);
    assert Edge(w.id, r, ExplicitRelated, 1.0) in ExplicitEdges(w.id, w.related);
    ListedIsCommitted(cfg, s, p, Edge(w.id, r, ExplicitRelated, 1.0));
  }

  /** Conversely, a stored tag edge joins two different classified documents that are near. */
  lemma TagEdgesAreNear(cfg: Config, run: seq<Action>, a: DocId, b: DocId)
    requires (a, b, TagOverlap) in Run(cfg, INITIAL, run).db.edges
    ensures var db := Run(cfg, INITIAL, run).db;
      && a in db.vec && a != b && Classified(db, a) && Classified(db, b)
      && db.edges[(a, b, TagOverlap)] == Jaccard(TagsOf(db, a), TagsOf(db, b)) >= cfg.edge.tagThreshold
  {
    RunKeeps(cfg, run);
    var db := Run(cfg, INITIAL, run).db;
    assert EdgeOk(cfg, db, (a, b, TagOverlap), db.edges[(a, b, TagOverlap)]);
  }

  /***** Similarity edges: only as complete as the indexers are serialised *****/

  predicate VecsRead(w: Pc) {
    HasList(w) && !w.ix.TagsRead?
  }

  /** A vector query that succeeds while no other worker is between its own query and its commit. */
  ghost predicate SerialStep(s: State, a: Action) {
    a.ReadVecs? && PcOf(s, a.p).Indexing? && PcOf(s, a.p).ix.TagsRead? ==>
      a.readOk && forall q :: q != a.p ==> !VecsRead(PcOf(s, q))
  }

  ghost predicate Serial(cfg: Config, run: seq<Action>) {
    run == [] || (Serial(cfg, run[..|run| - 1]) && SerialStep(Run(cfg, INITIAL, run[..|run| - 1]), run[|run| - 1]))
  }

  ghost predicate SimInv(cfg: Config, s: State) {
    && (forall a, b :: a in s.db.vec && b in s.db.vec && a != b && cfg.edge.sim(s.db.vec[a], s.db.vec[b]) >= cfg.edge.simThreshold
          ==> Linked(s.db, SummarySimilarity, a, b))
    && (forall p :: SimListed(cfg, s.db, PcOf(s, p)))
    && (forall p, q :: p != q && VecsRead(PcOf(s, p)) ==> !VecsRead(PcOf(s, q)))
  }

  /** A worker past its vector query lists every indexed document it is similar to. */
  ghost predicate SimListed(cfg: Config, db: Tables, w: Pc) {
    VecsRead(w) ==>
      forall a :: a in db.vec && a != w.id && cfg.edge.sim(db.vec[a], w.vec) >= cfg.edge.simThreshold
        ==> Edge(w.id, a, SummarySimilarity, cfg.edge.sim(db.vec[a], w.vec)) in w.edges
  }

  ghost predicate Symmetric(cfg: Config) {
    forall u, v :: cfg.edge.sim(u, v) == cfg.edge.sim(v, u)
  }

  /** The committer's own list closes its pairs with everything indexed before. */
  lemma SimCommitLinks(cfg: Config, s: State, p: Pid, a: DocId)
    requires ReadyToCommit(cfg, s, p) && SimListed(cfg, s.db, PcOf(s, p))
    requires a in s.db.vec && cfg.edge.sim(s.db.vec[a], PcOf(s, p).vec) >= cfg.edge.simThreshold
    ensures (PcOf(s, p).id, a, SummarySimilarity) in s.tx.value.t.edges
  {
    CommitTables(cfg, s, p);
    var w := PcOf(s, p);
    ListedIsCommitted(cfg, s, p, Edge(w.id, a, SummarySimilarity, cfg.edge.sim(s.db.vec[a], w.vec)));
  }

  lemma SimCommitLinked(cfg: Config, s: State, p: Pid)
    requires ReadyToCommit(cfg, s, p) && SimInv(cfg, s) && Symmetric(cfg)
    ensures var t := s.tx.value.t;
      forall a, b :: a in t.vec && b in t.vec && a != b && cfg.edge.sim(t.vec[a], t.vec[b]) >= cfg.edge.simThreshold
        ==> Linked(t, SummarySimilarity, a, b)
  {
    var w, t := PcOf(s, p), s.tx.value.t;
    CommitTables(cfg, s, p);
    assert VecsRead(w) && SimListed(cfg, s.db, w);
    hide Inv, TablesOk, SimListed;
    forall a, b | a in t.vec && b in t.vec && a != b && cfg.edge.sim(t.vec[a], t.vec[b]) >= cfg.edge.simThreshold
      ensures Linked(t, SummarySimilarity, a, b)
    {
      assert cfg.edge.sim(t.vec[a], t.vec[b]) == cfg.edge.sim(t.vec[b], t.vec[a]);
      if a == w.id {
        SimCommitLinks(cfg, s, p, b);
      } else if b == w.id {
        SimCommitLinks(cfg, s, p, a);
      } else {
        assert Linked(s.db, SummarySimilarity, a, b);
      }
    }
  }

  lemma SimCommitKeeps(cfg: Config, s: State, p: Pid)
    requires ReadyToCommit(cfg, s, p) && SimInv(cfg, s) && Symmetric(cfg)
    ensures SimInv(cfg, Step(cfg, s, CommitIndex(p)))
  {
    var s' := Step(cfg, s, CommitIndex(p));
    var w, t := PcOf(s, p), s.tx.value.t;
    CommitTables(cfg, s, p);
    hide TablesOk, TagsClosed, IndexedLinked, WorkerOk, WorkerLinked, PairLinked, SnapshotOf, BodyOk, TxOk;
    SimCommitLinked(cfg, s, p);
    forall q ensures PcOf(s', q) == if q == p then Idle else PcOf(s, q) {}
    forall q ensures !VecsRead(PcOf(s', q)) {
      assert VecsRead(PcOf(s, p));
    }
  }

  lemma SimStepKeeps(cfg: Config, s: State, a: Action)
    requires Inv(cfg, s) && SimInv(cfg, s) && Symmetric(cfg) && SerialStep(s, a)
    ensures SimInv(cfg, Step(cfg, s, a))
  {
    var s' := Step(cfg, s, a);
    VecsChange(cfg, s, a);
    if s'.db.vec != s.db.vec {
      SimCommitKeeps(cfg, s, a.p);
    } else {
      forall q ensures SimListed(cfg, s'.db, PcOf(s', q)) {
        SimListedStays(cfg, s, a, q);
      }
      forall p, q | p != q && VecsRead(PcOf(s', p)) ensures !VecsRead(PcOf(s', q)) {
        SimMoves(cfg, s, a, p);
        if VecsRead(PcOf(s', q)) {
          SimMoves(cfg, s, a, q);
        }
      }
      forall x, y | x in s'.db.vec && y in s'.db.vec && x != y
                    && cfg.edge.sim(s'.db.vec[x], s'.db.vec[y]) >= cfg.edge.simThreshold
        ensures Linked(s'.db, SummarySimilarity, x, y)
      {
        StepGrows(cfg, s, a);
        assert Linked(s.db, SummarySimilarity, x, y);
      }
    }
  }

  lemma SimListedStays(cfg: Config, s: State, a: Action, q: Pid)
    requires Inv(cfg, s) && SimInv(cfg, s) && SerialStep(s, a)
    requires Step(cfg, s, a).db.vec == s.db.vec
    ensures SimListed(cfg, Step(cfg, s, a).db, PcOf(Step(cfg, s, a), q))
  {
    var w' := PcOf(Step(cfg, s, a), q);
    if VecsRead(w') {
      SimMoves(cfg, s, a, q);
      if SameQuery(PcOf(s, q), w') {
        assert SimListed(cfg, s.db, PcOf(s, q));
      } else {
        SimReadLists(cfg, s, q);
      }
    }
  }

  /** Nobody else's position moves. */
  lemma OthersUntouched(cfg: Config, s: State, a: Action, q: Pid)
    requires a.AddDocument? || a.SeedTerm? || a.PromoteTerm? || q != a.p
    ensures PcOf(Step(cfg, s, a), q) == PcOf(s, q)
    ensures VocabOf(Step(cfg, s, a), q) == VocabOf(s, q)
  {
    hide IndexStep, ClassifyStep, CrossCheck, VocabularyOf;
    if !a.AddDocument? && !a.SeedTerm? && !a.PromoteTerm? {
      if PcOf(s, a.p).Indexing? { IndexFrame(cfg, s, a.p, a); }
      if PcOf(s, a.p).Classifying? { ClassifyFrame(s, a.p, a); }
    }
  }

  /** An indexing step moves its own worker, which stays on the index path or becomes idle. */
  lemma IndexFrame(cfg: Config, s: State, p: Pid, a: Action)
    requires PcOf(s, p).Indexing?
    ensures var s' := IndexStep(cfg, s, p, a);
      && s'.vocab == s.vocab && !PcOf(s', p).Classifying?
      && forall q :: q != p ==> PcOf(s', q) == PcOf(s, q)
  {
    hide TagEdges, SimEdges, ExplicitEdges, TagRows, VecRows, Elems;
  }

  /** A classification step moves its own worker, which keeps its output or becomes idle. */
  lemma ClassifyFrame(s: State, p: Pid, a: Action)
    requires PcOf(s, p).Classifying?
    ensures var s' := ClassifyStep(s, p, a);
      && s'.vocab == s.vocab
      && (PcOf(s', p).Classifying? ==> PcOf(s', p).out == PcOf(s, p).out)
      && !PcOf(s', p).Indexing?
      && forall q :: q != p ==> PcOf(s', q) == PcOf(s, q)
  {
    hide TermsAfter, InsertProposed;
  }

  predicate SameQuery(w: Pc, w': Pc) {
    VecsRead(w) && VecsRead(w') && w'.id == w.id && w'.vec == w.vec && w'.edges == w.edges
  }

  /** Only a vector query brings a worker past it; afterwards its list stays as it is. */
  lemma SimMoves(cfg: Config, s: State, a: Action, q: Pid)
    requires VecsRead(PcOf(Step(cfg, s, a), q))
    ensures SameQuery(PcOf(s, q), PcOf(Step(cfg, s, a), q))
         || (a.ReadVecs? && q == a.p && PcOf(s, q).Indexing? && PcOf(s, q).ix.TagsRead?)
  {
    hide TagEdges, SimEdges, ExplicitEdges, TagRows, VecRows, Elems, ClassifyStep, CrossCheck, VocabularyOf;
    if a.AddDocument? || a.SeedTerm? || a.PromoteTerm? || q != a.p {
      OthersUntouched(cfg, s, a, q);
    } else if PcOf(s, q).Classifying? {
      ClassifyFrame(s, q, a);
    }
  }

  /** Only the commit of an index transaction changes the vectors or the edges. */
  lemma VecsChange(cfg: Config, s: State, a: Action)
    requires Inv(cfg, s)
    ensures Step(cfg, s, a).db.vec != s.db.vec ==> a.CommitIndex? && ReadyToCommit(cfg, s, a.p)
  {
    hide Step, Inv;
    DbMoves(cfg, s, a);
    if a.CommitClassify? && Step(cfg, s, a).db != s.db {
      CommitClassifyTables(cfg, s, a.p);
    }
  }

  lemma SimReadLists(cfg: Config, s: State, p: Pid)
    requires PcOf(s, p).Indexing? && PcOf(s, p).ix.TagsRead?
    ensures SimListed(cfg, s.db, PcOf(Step(cfg, s, ReadVecs(p, true)), p))
  {
    var w := PcOf(s, p);
    var w' := PcOf(Step(cfg, s, ReadVecs(p, true)), p);
    forall a | a in s.db.vec && a != w.id && cfg.edge.sim(s.db.vec[a], w.vec) >= cfg.edge.simThreshold
      ensures Edge(w.id, a, SummarySimilarity, cfg.edge.sim(s.db.vec[a], w.vec)) in w'.edges
    {
      assert VecRow(a, s.db.vec[a]) in VecRows(s.db, w.id);
    }
  }

  lemma {:induction false} SerialRunKeeps(cfg: Config, run: seq<Action>)
    requires Symmetric(cfg) && Serial(cfg, run)
    ensures SimInv(cfg, Run(cfg, INITIAL, run))
  {
    if run != [] {
      var before := run[..|run| - 1];
      SerialRunKeeps(cfg, before);
      RunKeeps(cfg, before);
      SimStepKeeps(cfg, Run(cfg, INITIAL, before), run[|run| - 1]);
    }
  }

  /** With serialised indexers, two similar indexed documents reach each other over an edge of exact weight. */
  lemma SimilarityNeighbours(cfg: Config, run: seq<Action>, a: DocId, b: DocId)
    requires Symmetric(cfg) && Serial(cfg, run)
    requires var db := Run(cfg, INITIAL, run).db;
      a != b && a in db.vec && b in db.vec && cfg.edge.sim(db.vec[a], db.vec[b]) >= cfg.edge.simThreshold
    ensures var db := Run(cfg, INITIAL, run).db; var x := cfg.edge.sim(db.vec[a], db.vec[b]);
      && (|| ((a, b, SummarySimilarity) in db.edges && db.edges[(a, b, SummarySimilarity)] == x)
          || ((b, a, SummarySimilarity) in db.edges && db.edges[(b, a, SummarySimilarity)] == x))
      && a in Neighbours(db.edges, {b}) && b in Neighbours(db.edges, {a})
  {
    RunKeeps(cfg, run);
    SerialRunKeeps(cfg, run);
    var db := Run(cfg, INITIAL, run).db;
    assert Linked(db, SummarySimilarity, a, b);
    LinkedAreNeighbours(db.edges, SummarySimilarity, a, b);
    assert cfg.edge.sim(db.vec[a], db.vec[b]) == cfg.edge.sim(db.vec[b], db.vec[a]);
    if (a, b, SummarySimilarity) in db.edges {
      assert EdgeOk(cfg, db, (a, b, SummarySimilarity), db.edges[(a, b, SummarySimilarity)]);
    } else {
      assert EdgeOk(cfg, db, (b, a, SummarySimilarity), db.edges[(b, a, SummarySimilarity)]);
    }
  }

  /**
   * Without serialisation, exactly which links are made: when worker `p` commits the edge list of its
   * vector query, a similar document `a` indexed by then is linked to `p`'s document if and only if
   * the query succeeded and `a` was already indexed when it ran.
   */
  lemma SimilarityLinkIff(cfg: Config, s0: State, p: Pid, readOk: bool, s: State, a: DocId)
    requires Inv(cfg, s0) && PcOf(s0, p).Indexing? && PcOf(s0, p).ix.TagsRead?
    requires ReadyToCommit(cfg, s, p) && Grows(s0.db, s.db)
    requires SameQuery(PcOf(Step(cfg, s0, ReadVecs(p, readOk)), p), PcOf(s, p))
    requires a in s.db.vec && cfg.edge.sim(s.db.vec[a], PcOf(s, p).vec) >= cfg.edge.simThreshold
    ensures Linked(Step(cfg, s, CommitIndex(p)).db, SummarySimilarity, a, PcOf(s, p).id)
      <==> readOk && a in s0.db.vec
  {
    CommitPublishes(cfg, s, p);
    if readOk && a in s0.db.vec {
      LinkMade(cfg, s0, p, s, a);
    } else {
      LinkMissed(cfg, s0, p, readOk, s, a);
    }
  }

  lemma CommitPublishes(cfg: Config, s: State, p: Pid)
    requires ReadyToCommit(cfg, s, p)
    ensures Step(cfg, s, CommitIndex(p)).db == s.tx.value.t
  {
    hide Inv;
  }

  lemma LinkMissed(cfg: Config, s0: State, p: Pid, readOk: bool, s: State, a: DocId)
    requires Inv(cfg, s0) && PcOf(s0, p).Indexing? && PcOf(s0, p).ix.TagsRead?
    requires ReadyToCommit(cfg, s, p) && a in s.db.vec
    requires SameQuery(PcOf(Step(cfg, s0, ReadVecs(p, readOk)), p), PcOf(s, p))
    requires !readOk || a !in s0.db.vec
    ensures !Linked(s.tx.value.t, SummarySimilarity, a, PcOf(s, p).id)
  {
    NotListed(cfg, s0, p, readOk, a);
    NotCommitted(cfg, s, p, a);
  }

  lemma LinkMade(cfg: Config, s0: State, p: Pid, s: State, a: DocId)
    requires PcOf(s0, p).Indexing? && PcOf(s0, p).ix.TagsRead?
    requires ReadyToCommit(cfg, s, p) && Grows(s0.db, s.db)
    requires SameQuery(PcOf(Step(cfg, s0, ReadVecs(p, true)), p), PcOf(s, p))
    requires a in s0.db.vec && cfg.edge.sim(s.db.vec[a], PcOf(s, p).vec) >= cfg.edge.simThreshold
    ensures (PcOf(s, p).id, a, SummarySimilarity) in s.tx.value.t.edges
  {
    CommitTables(cfg, s, p);
    SimReadLists(cfg, s0, p);
    ListedIsCommitted(cfg, s, p, Edge(PcOf(s, p).id, a, SummarySimilarity, cfg.edge.sim(s0.db.vec[a], PcOf(s, p).vec)));
  }

  lemma NotListed(cfg: Config, s0: State, p: Pid, readOk: bool, a: DocId)
    requires Inv(cfg, s0) && PcOf(s0, p).Indexing? && PcOf(s0, p).ix.TagsRead?
    requires !readOk || a !in s0.db.vec
    ensures var w := PcOf(Step(cfg, s0, ReadVecs(p, readOk)), p);
      forall e :: e in w.edges && e.kind == SummarySimilarity ==> e.dst != a
  {
    assert WorkerOk(cfg, s0.db, VocabOf(s0, p), PcOf(s0, p));
  }

  lemma NotCommitted(cfg: Config, s: State, p: Pid, a: DocId)
    requires ReadyToCommit(cfg, s, p) && a in s.db.vec
    requires forall e :: e in PcOf(s, p).edges && e.kind == SummarySimilarity ==> e.dst != a
    ensures !Linked(s.tx.value.t, SummarySimilarity, a, PcOf(s, p).id)
  {
    hide Grows, IndexedLinked, WorkerLinked, PairLinked, SnapshotOf, BodyOk, TagsClosed, Jaccard;
    var w, t := PcOf(s, p), s.tx.value.t;
    CommitTables(cfg, s, p);
    assert Staged(cfg, s.db, VocabOf(s, p), w, t) && WorkerOk(cfg, s.db, VocabOf(s, p), w);
    NotAmong(cfg, s.db, VocabOf(s, p), w, t, (a, w.id, SummarySimilarity), a);
    NotAmong(cfg, s.db, VocabOf(s, p), w, t, (w.id, a, SummarySimilarity), a);
  }

  lemma NotAmong(cfg: Config, db: Tables, v: Vocabulary, w: Pc, t: Tables, k: EdgeKey, a: DocId)
    requires TablesOk(cfg, db) && WorkerOk(cfg, db, v, w) && Staged(cfg, db, v, w, t)
    requires w.Indexing? && w.ix.VecDone? && a in db.vec
    requires forall e :: e in w.edges && e.kind == SummarySimilarity ==> e.dst != a
    requires k == (a, w.id, SummarySimilarity) || k == (w.id, a, SummarySimilarity)
    ensures k !in t.edges
  {
    hide Jaccard, Elems;
    forall j | j in db.edges && j.2.SummarySimilarity? ensures j.0 in db.vec && j.1 in db.vec {
      assert EdgeOk(cfg, db, j, db.edges[j]);
    }
    forall e | e in w.edges ensures e.src == w.id {
      assert ListedOk(cfg, db, w, e);
    }
  }

  /***** Classification *****/

  /** The row may be ahead of its body file, never behind: a rewritten file has a row with its facets. */
  lemma RowNeverBehindFile(cfg: Config, run: seq<Action>, id: DocId)
    requires var s := Run(cfg, INITIAL, run); id in s.body && s.body[id].Some?
    ensures var s := Run(cfg, INITIAL, run); id in s.db.docs && s.db.docs[id] == s.body[id]
  {
    RunKeeps(cfg, run);
  }

  /** What is committed at some point of a run stays: facets are set at most once and never change. */
  lemma {:induction false} CommittedStays(cfg: Config, run: seq<Action>, n: nat)
    requires n <= |run|
    ensures Grows(Run(cfg, INITIAL, run[..n]).db, Run(cfg, INITIAL, run).db)
  {
    if n == |run| {
      assert run[..n] == run;
    } else {
      var before := run[..|run| - 1];
      CommittedStays(cfg, before, n);
      assert before[..n] == run[..n];
      RunKeeps(cfg, before);
      StepGrows(cfg, Run(cfg, INITIAL, before), run[|run| - 1]);
      GrowsTransitive(Run(cfg, INITIAL, run[..n]).db, Run(cfg, INITIAL, before).db, Run(cfg, INITIAL, run).db);
    }
  }

  /***** Vocabulary *****/

  /** Every tag of a classified row is a taxonomy term, however stale the snapshot it was checked against. */
  lemma TagVocabularyClosed(cfg: Config, run: seq<Action>, id: DocId, tag: string)
    requires var db := Run(cfg, INITIAL, run).db; Classified(db, id) && tag in db.docs[id].value.tags
    ensures (Tag, tag) in Run(cfg, INITIAL, run).db.terms
  {
    RunKeeps(cfg, run);
  }

  /** No classification and no indexing creates or alters an established term. */
  lemma StepEstablishes(cfg: Config, s: State, a: Action, key: (Axis, string))
    requires Inv(cfg, s) && a != SeedTerm(key.0, key.1) && a != PromoteTerm(key.0, key.1)
    ensures var terms, terms' := s.db.terms, Step(cfg, s, a).db.terms;
      key in terms' && terms'[key] == Established <==> key in terms && terms[key] == Established
  {
    hide Step, TablesOk, TagsClosed, IndexedLinked, WorkerOk, WorkerLinked, PairLinked, BodyOk, TermsAfter;
    DbMoves(cfg, s, a);
    if a.CommitClassify? && Step(cfg, s, a).db != s.db {
      CommitClassifyTables(cfg, s, a.p);
      TermsAfterIs(s.db.terms, PcOf(s, a.p).out, VocabOf(s, a.p), PcOf(s, a.p).k);
    } else if a.CommitIndex? && Step(cfg, s, a).db != s.db {
      CommitTables(cfg, s, a.p);
    }
  }

  /** A term is established only because somebody seeded or promoted it. */
  lemma {:induction false} EstablishedOnlyByReview(cfg: Config, run: seq<Action>, axis: Axis, term: string)
    requires var terms := Run(cfg, INITIAL, run).db.terms; (axis, term) in terms && terms[(axis, term)] == Established
    ensures SeedTerm(axis, term) in run || PromoteTerm(axis, term) in run
  {
    if run != [] {
      var before, a := run[..|run| - 1], run[|run| - 1];
      assert run == before + [a];
      RunKeeps(cfg, before);
      if a != SeedTerm(axis, term) && a != PromoteTerm(axis, term) {
        StepEstablishes(cfg, Run(cfg, INITIAL, before), a, (axis, term));
        EstablishedOnlyByReview(cfg, before, axis, term);
      }
    }
  }

  ghost predicate DomainsClosed(db: Tables) {
    forall id :: Classified(db, id) ==> (Domain, db.docs[id].value.domain) in db.terms
  }

  /** The accepted domain was in the snapshot or is the proposed one: known before the output is stored. */
  predicate DomainGuard(out: Output, v: Vocabulary) {
    out.facets.domain in v.domains || out.domainProposed == Some(out.facets.domain)
  }

  /**
   * The cross-check alone does not close the domain axis. Exactly when it stays closed: the guard
   * holds, or the domain happens to be a term already.
   */
  lemma DomainClosedIff(cfg: Config, s: State, p: Pid)
    requires Inv(cfg, s) && Owns(s, p) && DomainsClosed(s.db)
    requires PcOf(s, p).Classifying? && PcOf(s, p).cl.Proposing? && PcOf(s, p).k == |PcOf(s, p).out.tagsProposed|
    ensures var w := PcOf(s, p);
      DomainsClosed(Step(cfg, s, CommitClassify(p)).db)
      <==> DomainGuard(w.out, VocabOf(s, p)) || (Domain, w.out.facets.domain) in s.db.terms
  {
    hide Step;
    var w, v := PcOf(s, p), VocabOf(s, p);
    CommitClassifyTables(cfg, s, p);
    ClassifyPublishes(cfg, s, p);
    assert SnapshotOf(v, s.db.terms);
    hide Inv, SnapshotOf, TermsAfter, Grows, TagsClosed, TablesOk, DomainsClosed, DomainGuard;
    assert w.id in s.db.docs;
    DomainsAfter(s.db, s.tx.value.t, w.id, w.out, v);
  }

  lemma ClassifyPublishes(cfg: Config, s: State, p: Pid)
    requires Owns(s, p) && PcOf(s, p).Classifying? && PcOf(s, p).cl.Proposing?
    requires PcOf(s, p).k == |PcOf(s, p).out.tagsProposed|
    ensures Step(cfg, s, CommitClassify(p)).db == s.tx.value.t
  {
  }

  lemma DomainsAfter(db: Tables, db': Tables, id: DocId, out: Output, v: Vocabulary)
    requires DomainsClosed(db) && SnapshotOf(v, db.terms)
    requires db'.docs == db.docs[id := Some(out.facets)]
    requires db'.terms == TermsAfter(db.terms, out, v, |out.tagsProposed|)
    ensures DomainsClosed(db') <==> DomainGuard(out, v) || (Domain, out.facets.domain) in db.terms
  {
    TermsAfterIs(db.terms, out, v, |out.tagsProposed|);
    if out.facets.domain in v.domains { KnownDomain(db.terms, v, out.facets.domain); }
    hide TermsAfter, SnapshotOf;
    assert Classified(db', id) && db'.docs[id].value.domain == out.facets.domain;
    forall x | Classified(db', x) && x != id ensures (Domain, db'.docs[x].value.domain) in db'.terms {
      assert Classified(db, x);
    }
  }

  lemma KnownDomain(terms: Terms, v: Vocabulary, domain: string)
    requires SnapshotOf(v, terms) && domain in v.domains
    ensures (Domain, domain) in terms
  {
    assert domain in EstablishedTerms(terms, Domain);
  }

  /** The failing family is not empty: proposing one domain lets an unknown other one through. */
  lemma UnknownDomainAccepted(v: Vocabulary, domain: string, proposed: string)
    requires domain !in v.domains && proposed != domain
    ensures var out := Output(Facets(domain, "concept", ["t", "t", "t"]), Some(proposed), ["t"]);
      && CrossCheck(out, v) == Ok(out)
      && !DomainGuard(out, v)
      && forall terms :: (Domain, domain) !in terms && SnapshotOf(v, terms)
           ==> (Domain, domain) !in TermsAfter(terms, out, v, 1)
  {
    var out := Output(Facets(domain, "concept", ["t", "t", "t"]), Some(proposed), ["t"]);
    AcceptedOutput(out, v);
    forall terms | (Domain, domain) !in terms && SnapshotOf(v, terms)
      ensures (Domain, domain) !in TermsAfter(terms, out, v, 1)
    {
      TermsAfterIs(terms, out, v, 1);
    }
  }

  ghost predicate Guarded(cfg: Config, run: seq<Action>) {
    run == [] ||
    var before, a := run[..|run| - 1], run[|run| - 1];
    Guarded(cfg, before) && (a.AcceptOutput? ==> DomainGuard(a.out, VocabOf(Run(cfg, INITIAL, before), a.p)))
  }

  /** An output under classification, and the snapshot it was checked against, do not change. */
  lemma OutputMoves(cfg: Config, s: State, a: Action, q: Pid)
    ensures var s' := Step(cfg, s, a);
      PcOf(s', q).Classifying? ==>
        && VocabOf(s', q) == VocabOf(s, q)
        && (|| (PcOf(s, q).Classifying? && PcOf(s', q).out == PcOf(s, q).out)
            || (a.AcceptOutput? && a.p == q && PcOf(s', q).out == a.out))
  {
    hide IndexStep, ClassifyStep, CrossCheck, VocabularyOf;
    if a.AddDocument? || a.SeedTerm? || a.PromoteTerm? || q != a.p {
      OthersUntouched(cfg, s, a, q);
    } else {
      if PcOf(s, q).Indexing? { IndexFrame(cfg, s, q, a); }
      if PcOf(s, q).Classifying? { ClassifyFrame(s, q, a); }
    }
  }

  /** If every output that is taken on satisfies the guard, every domain of every row is a term. */
  lemma {:induction false} GuardedRunsCloseDomains(cfg: Config, run: seq<Action>)
    requires Guarded(cfg, run)
    ensures var s := Run(cfg, INITIAL, run);
      && DomainsClosed(s.db)
      && forall p :: PcOf(s, p).Classifying? ==> DomainGuard(PcOf(s, p).out, VocabOf(s, p))
  {
    if run != [] {
      var before, a := run[..|run| - 1], run[|run| - 1];
      GuardedRunsCloseDomains(cfg, before);
      RunKeeps(cfg, before);
      var s := Run(cfg, INITIAL, before);
      var s' := Step(cfg, s, a);
      forall q | PcOf(s', q).Classifying? ensures DomainGuard(PcOf(s', q).out, VocabOf(s', q)) {
        OutputMoves(cfg, s, a, q);
      }
      GuardedStep(cfg, s, a);
    }
  }

  lemma GuardedStep(cfg: Config, s: State, a: Action)
    requires Inv(cfg, s) && DomainsClosed(s.db)
    requires forall p :: PcOf(s, p).Classifying? ==> DomainGuard(PcOf(s, p).out, VocabOf(s, p))
    ensures DomainsClosed(Step(cfg, s, a).db)
  {
    hide Step, Inv;
    DbMoves(cfg, s, a);
    var s' := Step(cfg, s, a);
    if s'.db != s.db {
      if a.CommitClassify? {
        DomainClosedIff(cfg, s, a.p);
      } else {
        if a.CommitIndex? {
          CommitTables(cfg, s, a.p);
        }
        forall id | Classified(s'.db, id) ensures (Domain, s'.db.docs[id].value.domain) in s'.db.terms {
          assert Classified(s.db, id);
        }
      }
    }
  }
}
