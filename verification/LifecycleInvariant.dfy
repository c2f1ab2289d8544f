/** The invariant of the lifecycle machine and its preservation by every step. */
module LifecycleInvariant {
  import opened Wrappers
  import opened EdgesBuilder
  import opened Taxonomy
  import opened Lifecycle

  /***** Committed tables *****/

  /** What a stored edge means: tag and similarity weights are exact, and there is no self-loop. */
  ghost predicate EdgeOk(cfg: Config, db: Tables, k: EdgeKey, weight: real) {
    && k.0 in db.vec && Classified(db, k.0)
    && k.0 != k.1
    && (cfg.fk ==> k.1 in db.docs)
    && (k.2.TagOverlap? ==>
          && Classified(db, k.1)
          && weight == Jaccard(TagsOf(db, k.0), TagsOf(db, k.1)) >= cfg.edge.tagThreshold)
    && (k.2.SummarySimilarity? ==>
          && k.1 in db.vec
          && weight == cfg.edge.sim(db.vec[k.1], db.vec[k.0]) >= cfg.edge.simThreshold)
    && (k.2.ExplicitRelated? ==> weight == 1.0)
  }

  /** Full-text rows and vector rows agree, each document at most once, and only classified ones. */
  ghost predicate TablesOk(cfg: Config, db: Tables) {
    && (forall id :: db.fts[id] == if id in db.vec then 1 else 0)
    && (forall id :: id in db.vec ==> Classified(db, id))
    && (forall k :: k in db.edges ==> EdgeOk(cfg, db, k, db.edges[k]))
  }

  /** Tag closure: every tag of a classified row is a term. */
  ghost predicate TagsClosed(db: Tables) {
    forall id, t :: Classified(db, id) && t in db.docs[id].value.tags ==> (Tag, t) in db.terms
  }

  /***** Workers *****/

  predicate HasList(w: Pc) {
    w.Indexing? && !w.ix.Checked? && !w.ix.RowRead? && !w.ix.Embedded?
  }

  /** What an edge on a worker's list means, against the committed tables. */
  ghost predicate ListedOk(cfg: Config, db: Tables, w: Pc, e: Edge)
    requires w.Indexing? && Classified(db, w.id)
  {
    && e.src == w.id && e.dst != w.id
    && (e.kind.TagOverlap? ==>
          && Classified(db, e.dst)
          && e.weight == Jaccard(TagsOf(db, w.id), TagsOf(db, e.dst)) >= cfg.edge.tagThreshold)
    && (e.kind.SummarySimilarity? ==>
          && e.dst in db.vec
          && e.weight == cfg.edge.sim(db.vec[e.dst], w.vec) >= cfg.edge.simThreshold)
    && (e.kind.ExplicitRelated? ==> e.weight == 1.0)
  }

  ghost predicate WorkerOk(cfg: Config, db: Tables, v: Vocabulary, w: Pc) {
    match w
    case Idle => true
    case Indexing(ix, id, tags, _, _, edges, _) =>
      && Classified(db, id)
      && (!ix.Checked? ==> Elems(tags) == TagsOf(db, id))
      && (HasList(w) ==> forall e :: e in edges ==> ListedOk(cfg, db, w, e))
      && (ix.TagsRead? ==> forall e :: e in edges ==> e.kind.TagOverlap?)
      && (HasList(w) && !ix.TagsRead? ==> ExplicitEdges(id, w.related) <= edges)
    case Classifying(cl, id, out, k) =>
      && id in db.docs
      && CrossCheck(out, v).Ok?
      && k <= |out.tagsProposed|
      && (cl.Committed? ==> db.docs[id] == Some(out.facets))
  }

  /***** Tag links *****/

  /** Near documents have enough tags in common; the tag query finds them if the threshold is positive. */
  ghost predicate Near(cfg: Config, db: Tables, a: DocId, b: DocId) {
    && cfg.edge.tagThreshold > 0.0
    && a != b && Classified(db, a) && Classified(db, b)
    && Jaccard(TagsOf(db, a), TagsOf(db, b)) >= cfg.edge.tagThreshold
  }

  predicate Linked(db: Tables, kind: Kind, a: DocId, b: DocId) {
    (a, b, kind) in db.edges || (b, a, kind) in db.edges
  }

  ghost predicate Lists(db: Tables, w: Pc, b: DocId) {
    && w.Indexing? && Classified(db, w.id) && Classified(db, b)
    && Edge(w.id, b, TagOverlap, Jaccard(TagsOf(db, w.id), TagsOf(db, b))) in w.edges
  }

  /** Two indexed near documents are linked. */
  ghost predicate IndexedLinked(cfg: Config, db: Tables) {
    forall a, b :: a in db.vec && b in db.vec && Near(cfg, db, a, b) ==> Linked(db, TagOverlap, a, b)
  }

  /** An indexed document and the near document a worker is about to index are linked or will be. */
  ghost predicate WorkerLinked(cfg: Config, db: Tables, w: Pc) {
    HasList(w) ==>
      forall a :: a in db.vec && Near(cfg, db, a, w.id) ==> Linked(db, TagOverlap, a, w.id) || Lists(db, w, a)
  }

  /** Of two workers past their tag query on near documents, one has the other's document listed. */
  ghost predicate PairLinked(cfg: Config, db: Tables, w: Pc, v: Pc) {
    HasList(w) && HasList(v) && Near(cfg, db, w.id, v.id) ==> Lists(db, w, v.id) || Lists(db, v, w.id)
  }

  /***** The open transaction *****/

  /** Edges staged so far: the committed ones, plus those of the list that are no longer to do. */
  ghost predicate StagedEdges(cfg: Config, db: Tables, w: Pc, edges: map<EdgeKey, real>)
    requires w.Indexing?
  {
    && (forall k :: k in db.edges ==> k in edges && edges[k] == db.edges[k])
    && (forall k :: k in edges && k !in db.edges ==> Edge(k.0, k.1, k.2, edges[k]) in w.edges)
    && (forall k :: k in edges && k !in db.edges ==> cfg.fk ==> k.1 in db.docs)
    && (forall e :: e in w.edges && e !in w.rest ==> Key(e) in edges)
  }

  /** What the owner of the transaction sees is the database plus its own statements so far. */
  ghost predicate Staged(cfg: Config, db: Tables, v: Vocabulary, w: Pc, t: Tables) {
    && InTx(w)
    && match w
       case Indexing(ix, id, _, vec, _, edges, rest) =>
         if ix.IndexOpen? then t == db && rest == edges
         else if ix.FtsDone? then rest == edges && t == db.(fts := db.fts + multiset{id})
         else
           && id !in db.vec
           && t.docs == db.docs && t.terms == db.terms
           && t.fts == db.fts + multiset{id}
           && t.vec == db.vec[id := vec]
           && rest <= edges && StagedEdges(cfg, db, w, t.edges)
       case Classifying(cl, id, out, k) =>
         if cl.ClassifyOpen? then t == db
         else
           && id in db.docs && db.docs[id].None? && k <= |out.tagsProposed|
           && t == db.(docs := db.docs[id := Some(out.facets)],
                       terms := if cl.Updated? then db.terms else TermsAfter(db.terms, out, v, k))
       case Idle => false
  }

  ghost predicate TxOk(cfg: Config, s: State) {
    && (forall p :: InTx(PcOf(s, p)) ==> Owns(s, p))
    && (s.tx.Some? ==>
          Staged(cfg, s.db, VocabOf(s, s.tx.value.owner), PcOf(s, s.tx.value.owner), s.tx.value.t))
  }

  /***** Body files *****/

  /** A body file rewritten by a classification has a row with exactly those facets. */
  ghost predicate BodyOk(s: State) {
    forall id :: id in s.body ==> id in s.db.docs && (s.body[id].Some? ==> s.db.docs[id] == s.body[id])
  }

  ghost predicate Inv(cfg: Config, s: State) {
    && TablesOk(cfg, s.db)
    && TagsClosed(s.db)
    && IndexedLinked(cfg, s.db)
    && (forall p :: WorkerOk(cfg, s.db, VocabOf(s, p), PcOf(s, p)))
    && (forall p :: WorkerLinked(cfg, s.db, PcOf(s, p)))
    && (forall p, q :: PairLinked(cfg, s.db, PcOf(s, p), PcOf(s, q)))
    && (forall p :: SnapshotOf(VocabOf(s, p), s.db.terms))
    && TxOk(cfg, s)
    && BodyOk(s)
  }

  /***** How the committed tables may change *****/

  /** Nothing committed is lost, and facets once set stay as they are. */
  ghost predicate Grows(db: Tables, db': Tables) {
    && (forall id :: id in db.docs ==> id in db'.docs && (db.docs[id].Some? ==> db'.docs[id] == db.docs[id]))
    && (forall id :: id in db.vec ==> id in db'.vec && db'.vec[id] == db.vec[id])
    && (forall k :: k in db.edges ==> k in db'.edges && db'.edges[k] == db.edges[k])
    && TermsGrow(db.terms, db'.terms)
  }

  lemma GrowsTransitive(a: Tables, b: Tables, c: Tables)
    requires Grows(a, b) && Grows(b, c)
    ensures Grows(a, c)
  {
  }

  lemma WorkerStays(cfg: Config, db: Tables, db': Tables, v: Vocabulary, w: Pc)
    requires WorkerOk(cfg, db, v, w) && Grows(db, db')
    ensures WorkerOk(cfg, db', v, w)
  {
    match w
    case Indexing(_, _, _, _, _, edges, _) =>
      if HasList(w) {
        forall e | e in edges ensures ListedOk(cfg, db', w, e) {
          assert ListedOk(cfg, db, w, e);
        }
      }
    case _ =>
  }

  /***** Steps that do not touch the committed tables *****/

  /** A step of `p` that leaves the tables alone keeps the invariant if `p`'s new position is fine. */
  lemma LocalStep(cfg: Config, s: State, s': State, p: Pid)
    requires Inv(cfg, s)
    requires s'.db == s.db && s'.vocab == s.vocab && s'.body == s.body
    requires s'.pc == s.pc[p := PcOf(s', p)]
    requires WorkerOk(cfg, s.db, VocabOf(s, p), PcOf(s', p))
    requires WorkerLinked(cfg, s.db, PcOf(s', p))
    requires forall q :: q != p ==> PairLinked(cfg, s.db, PcOf(s', p), PcOf(s, q))
    requires TxOk(cfg, s')
    ensures Inv(cfg, s')
  {
    forall q ensures PcOf(s', q) == if q == p then PcOf(s', p) else PcOf(s, q) {}
    forall q ensures VocabOf(s', q) == VocabOf(s, q) {}
    forall q, r ensures PairLinked(cfg, s.db, PcOf(s', q), PcOf(s', r)) {
      if q != p && r == p {
        PairSymmetric(cfg, s.db, PcOf(s', p), PcOf(s, q));
      } else if q != p && r != p {
        assert PairLinked(cfg, s.db, PcOf(s, q), PcOf(s, r));
      }
    }
  }

  lemma PairSymmetric(cfg: Config, db: Tables, w: Pc, v: Pc)
    requires PairLinked(cfg, db, w, v)
    ensures PairLinked(cfg, db, v, w)
  {
    if HasList(w) && HasList(v) && Near(cfg, db, v.id, w.id) {
      JaccardSymmetric(TagsOf(db, w.id), TagsOf(db, v.id));
    }
  }

  /** A worker whose list grows, or stays, keeps its links. */
  lemma SameList(cfg: Config, db: Tables, w: Pc, w': Pc)
    requires w.Indexing? && w'.Indexing? && w'.id == w.id && w.edges <= w'.edges && HasList(w)
    requires WorkerLinked(cfg, db, w)
    ensures WorkerLinked(cfg, db, w')
    ensures forall v :: PairLinked(cfg, db, w, v) ==> PairLinked(cfg, db, w', v)
  {
    forall b | Lists(db, w, b) ensures Lists(db, w', b) {}
    forall v | PairLinked(cfg, db, w, v) ensures PairLinked(cfg, db, w', v) {
      if HasList(v) && Near(cfg, db, w'.id, v.id) {
        assert Lists(db, w, v.id) || Lists(db, v, w.id);
      }
    }
  }

  lemma DropKeeps(cfg: Config, s: State, p: Pid)
    requires Inv(cfg, s)
    ensures Inv(cfg, Drop(s, p))
  {
    var s' := Drop(s, p);
    assert TxOk(cfg, s') by {
      forall q | InTx(PcOf(s', q)) ensures Owns(s', q) {
        assert q != p && InTx(PcOf(s, q));
      }
    }
    LocalStep(cfg, s, s', p);
  }

  /** A step outside transactions leaves the open transaction as it is. */
  lemma LocalTx(cfg: Config, s: State, s': State, p: Pid)
    requires TxOk(cfg, s) && !InTx(PcOf(s, p)) && !InTx(PcOf(s', p))
    requires s'.db == s.db && s'.vocab == s.vocab && s'.tx == s.tx && s'.pc == s.pc[p := PcOf(s', p)]
    ensures TxOk(cfg, s')
  {
    hide Staged;
    forall q | InTx(PcOf(s', q)) ensures Owns(s', q) {
      assert q != p && InTx(PcOf(s, q));
    }
    if s.tx.Some? {
      StagedInTx(cfg, s);
      assert s.tx.value.owner != p;
    }
  }

  lemma StagedInTx(cfg: Config, s: State)
    requires TxOk(cfg, s) && s.tx.Some?
    ensures InTx(PcOf(s, s.tx.value.owner))
  {
  }

  /** The tag query sees every classified document, hence every one a concurrent worker has read. */
  lemma ReadTagsKeeps(cfg: Config, s: State, p: Pid)
    requires Inv(cfg, s)
    requires PcOf(s, p).Indexing? && PcOf(s, p).ix.Embedded?
    ensures Inv(cfg, Step(cfg, s, ReadTags(p)))
  {
    var w := PcOf(s, p);
    assert WorkerOk(cfg, s.db, VocabOf(s, p), w);
    var w' := w.(ix := TagsRead, edges := TagEdges(w.id, TagsOf(s.db, w.id), TagRows(s.db, w.id), cfg.edge.tagThreshold));
    assert Step(cfg, s, ReadTags(p)) == SetPc(s, p, w');
    hide Step, TxOk, TablesOk, TagsClosed, IndexedLinked, SnapshotOf, BodyOk, Jaccard;
    NewTagList(cfg, s.db, w, w');
    hide TagEdges, TagRows;
    LocalTx(cfg, s, SetPc(s, p, w'), p);
    LocalStep(cfg, s, SetPc(s, p, w'), p);
  }

  /** The list the tag query gives: every near document is on it, and every edge on it is right. */
  lemma NewTagList(cfg: Config, db: Tables, w: Pc, w': Pc)
    requires w.Indexing? && Classified(db, w.id)
    requires w' == w.(ix := TagsRead, edges := TagEdges(w.id, TagsOf(db, w.id), TagRows(db, w.id), cfg.edge.tagThreshold))
    ensures forall e :: e in w'.edges ==> ListedOk(cfg, db, w', e) && e.kind.TagOverlap?
    ensures WorkerLinked(cfg, db, w')
    ensures forall v :: PairLinked(cfg, db, w', v)
  {
    hide Jaccard;
    forall b | Near(cfg, db, w.id, b) ensures Lists(db, w', b) {
      ReadTagsLists(cfg, db, w.id, b);
    }
    forall a | Near(cfg, db, a, w.id) ensures Near(cfg, db, w.id, a) {
      JaccardSymmetric(TagsOf(db, a), TagsOf(db, w.id));
    }
  }

  lemma ReadTagsLists(cfg: Config, db: Tables, a: DocId, b: DocId)
    requires Near(cfg, db, a, b)
    ensures Edge(a, b, TagOverlap, Jaccard(TagsOf(db, a), TagsOf(db, b)))
         in TagEdges(a, TagsOf(db, a), TagRows(db, a), cfg.edge.tagThreshold)
  {
    JaccardRange(TagsOf(db, a), TagsOf(db, b));
    assert TagsOf(db, a) != {};
    var row := TagRow(b, Some(db.docs[b].value.tags));
    assert row in TagRows(db, a);
  }

  lemma ReadVecsKeeps(cfg: Config, s: State, p: Pid, readOk: bool)
    requires Inv(cfg, s)
    requires PcOf(s, p).Indexing? && PcOf(s, p).ix.TagsRead?
    ensures Inv(cfg, Step(cfg, s, ReadVecs(p, readOk)))
  {
    var w := PcOf(s, p);
    assert WorkerOk(cfg, s.db, VocabOf(s, p), w) && WorkerLinked(cfg, s.db, w);
    var w' := w.(ix := EdgesBuilt, edges := w.edges
                  + (if readOk then SimEdges(w.id, w.vec, VecRows(s.db, w.id), cfg.edge) else {})
                  + ExplicitEdges(w.id, w.related));
    assert Step(cfg, s, ReadVecs(p, readOk)) == SetPc(s, p, w');
    hide Step, TxOk, TablesOk, TagsClosed, IndexedLinked, SnapshotOf, BodyOk, Jaccard;
    MoreListed(cfg, s.db, w, w', readOk);
    hide SimEdges, VecRows, ExplicitEdges;
    SameList(cfg, s.db, w, w');
    LocalTx(cfg, s, SetPc(s, p, w'), p);
    LocalStep(cfg, s, SetPc(s, p, w'), p);
  }

  /** The similarity and explicit edges are right. */
  lemma MoreListed(cfg: Config, db: Tables, w: Pc, w': Pc, readOk: bool)
    requires w.Indexing? && Classified(db, w.id) && forall e :: e in w.edges ==> ListedOk(cfg, db, w, e)
    requires w' == w.(ix := EdgesBuilt, edges := w.edges
                       + (if readOk then SimEdges(w.id, w.vec, VecRows(db, w.id), cfg.edge) else {})
                       + ExplicitEdges(w.id, w.related))
    ensures forall e :: e in w'.edges ==> ListedOk(cfg, db, w', e)
  {
    hide Jaccard;
    forall e | e in w'.edges ensures ListedOk(cfg, db, w', e) {
      if e in w.edges { assert ListedOk(cfg, db, w, e); }
    }
  }

  /** A statement of the transaction owner keeps the invariant if the staged view is as described. */
  lemma TxStep(cfg: Config, s: State, p: Pid, w': Pc, t: Tables)
    requires Inv(cfg, s)
    requires s.tx.None? || Owns(s, p)
    requires WorkerOk(cfg, s.db, VocabOf(s, p), w')
    requires WorkerLinked(cfg, s.db, w')
    requires forall q :: q != p ==> PairLinked(cfg, s.db, w', PcOf(s, q))
    requires Staged(cfg, s.db, VocabOf(s, p), w', t)
    ensures Inv(cfg, SetTx(s, p, w', t))
  {
    var s' := SetTx(s, p, w', t);
    assert TxOk(cfg, s') by {
      forall q | InTx(PcOf(s', q)) ensures Owns(s', q) {
        assert PcOf(s', q) == if q == p then w' else PcOf(s, q);
      }
    }
    LocalStep(cfg, s, s', p);
  }

  /** The same, for a worker on the index path: only its stage and what is left to insert change. */
  lemma IndexTxStep(cfg: Config, s: State, p: Pid, w': Pc, t: Tables)
    requires Inv(cfg, s) && (s.tx.None? || Owns(s, p))
    requires var w := PcOf(s, p); w.Indexing? && w'.Indexing? && HasList(w) && !w.ix.TagsRead? && w' == w.(ix := w'.ix, rest := w'.rest)
    requires Staged(cfg, s.db, VocabOf(s, p), w', t)
    ensures Inv(cfg, SetTx(s, p, w', t))
  {
    var w := PcOf(s, p);
    assert WorkerOk(cfg, s.db, VocabOf(s, p), w) && WorkerLinked(cfg, s.db, w);
    forall e | e in w'.edges ensures ListedOk(cfg, s.db, w', e) { assert ListedOk(cfg, s.db, w, e); }
    SameList(cfg, s.db, w, w');
    TxStep(cfg, s, p, w', t);
  }

  lemma BeginIndexKeeps(cfg: Config, s: State, p: Pid)
    requires Inv(cfg, s) && PcOf(s, p).Indexing?
    ensures Inv(cfg, Step(cfg, s, BeginIndex(p)))
  {
    var w := PcOf(s, p);
    if w.ix.EdgesBuilt? && s.tx.None? {
      IndexTxStep(cfg, s, p, w.(ix := IndexOpen, rest := w.edges), s.db);
    }
  }

  lemma InsertFtsKeeps(cfg: Config, s: State, p: Pid)
    requires Inv(cfg, s) && PcOf(s, p).Indexing?
    ensures Inv(cfg, Step(cfg, s, InsertFts(p)))
  {
    hide TablesOk, TagsClosed, IndexedLinked, WorkerOk, WorkerLinked, PairLinked, SnapshotOf, BodyOk;
    var w := PcOf(s, p);
    if w.ix.IndexOpen? && Owns(s, p) {
      var t := s.tx.value.t;
      IndexTxStep(cfg, s, p, w.(ix := FtsDone), t.(fts := t.fts + multiset{w.id}));
    }
  }

  /** The vector table's primary key is what stops a second full-text row. */
  lemma InsertVecKeeps(cfg: Config, s: State, p: Pid)
    requires Inv(cfg, s) && PcOf(s, p).Indexing?
    ensures Inv(cfg, Step(cfg, s, InsertVec(p)))
  {
    var w := PcOf(s, p);
    if w.ix.FtsDone? && Owns(s, p) {
      var t := s.tx.value.t;
      if w.id in t.vec {
        DropKeeps(cfg, s, p);
      } else {
        IndexTxStep(cfg, s, p, w.(ix := VecDone), t.(vec := t.vec[w.id := w.vec]));
      }
    }
  }

  lemma InsertEdgeKeeps(cfg: Config, s: State, p: Pid, e: Edge)
    requires Inv(cfg, s) && PcOf(s, p).Indexing?
    ensures Inv(cfg, Step(cfg, s, InsertEdge(p, e)))
  {
    hide TablesOk, TagsClosed, IndexedLinked, WorkerOk, WorkerLinked, PairLinked, SnapshotOf, BodyOk;
    var w := PcOf(s, p);
    if w.ix.VecDone? && Owns(s, p) && e in w.rest {
      var t := s.tx.value.t;
      if Key(e) !in t.edges && cfg.fk && !(e.src in t.docs && e.dst in t.docs) {
        DropKeeps(cfg, s, p);
      } else {
        var w' := w.(rest := w.rest - {e});
        var t' := if Key(e) in t.edges then t else t.(edges := t.edges[Key(e) := e.weight]);
        StageOne(cfg, s.db, w, w', e, t.edges, t'.edges);
        IndexTxStep(cfg, s, p, w', t');
      }
    }
  }

  lemma StageOne(cfg: Config, db: Tables, w: Pc, w': Pc, e: Edge, edges: map<EdgeKey, real>, edges': map<EdgeKey, real>)
    requires w.Indexing? && e in w.rest && w.rest <= w.edges && w' == w.(rest := w.rest - {e})
    requires StagedEdges(cfg, db, w, edges)
    requires cfg.fk && Key(e) !in edges ==> e.dst in db.docs
    requires edges' == if Key(e) in edges then edges else edges[Key(e) := e.weight]
    ensures StagedEdges(cfg, db, w', edges')
  {
    assert Edge(Key(e).0, Key(e).1, Key(e).2, e.weight) == e;
    forall f | f in w'.edges && f !in w'.rest ensures Key(f) in edges' {
      assert f == e || f !in w.rest;
    }
  }

  /***** Commit of an index transaction *****/

  ghost predicate ReadyToCommit(cfg: Config, s: State, p: Pid) {
    && Inv(cfg, s) && Owns(s, p)
    && PcOf(s, p).Indexing? && PcOf(s, p).ix.VecDone? && PcOf(s, p).rest == {}
  }

  /** A listed edge is in the committed edges, under its key and with its own weight. */
  lemma ListedIsCommitted(cfg: Config, s: State, p: Pid, e: Edge)
    requires ReadyToCommit(cfg, s, p) && e in PcOf(s, p).edges
    ensures Key(e) in s.tx.value.t.edges
  {
    assert Staged(cfg, s.db, VocabOf(s, p), PcOf(s, p), s.tx.value.t);
  }

  lemma CommittedEdgeOk(cfg: Config, db: Tables, v: Vocabulary, w: Pc, t: Tables, k: EdgeKey)
    requires TablesOk(cfg, db) && WorkerOk(cfg, db, v, w) && Staged(cfg, db, v, w, t)
    requires w.Indexing? && w.ix.VecDone? && k in t.edges
    ensures EdgeOk(cfg, t, k, t.edges[k])
  {
    hide Jaccard, EdgeOk, ListedOk;
    if k in db.edges {
      assert EdgeOk(cfg, db, k, db.edges[k]);
      EdgeStays(cfg, db, t, k, db.edges[k]);
    } else {
      var e := Edge(k.0, k.1, k.2, t.edges[k]);
      assert ListedOk(cfg, db, w, e);
      ListedBecomesEdge(cfg, db, t, w, e);
    }
  }

  lemma EdgeStays(cfg: Config, db: Tables, t: Tables, k: EdgeKey, weight: real)
    requires EdgeOk(cfg, db, k, weight) && t.docs == db.docs
    requires forall id :: id in db.vec ==> id in t.vec && t.vec[id] == db.vec[id]
    ensures EdgeOk(cfg, t, k, weight)
  {
    hide Jaccard;
  }

  lemma ListedBecomesEdge(cfg: Config, db: Tables, t: Tables, w: Pc, e: Edge)
    requires w.Indexing? && Classified(db, w.id) && ListedOk(cfg, db, w, e)
    requires t.docs == db.docs && w.id !in db.vec && t.vec == db.vec[w.id := w.vec]
    requires cfg.fk ==> e.dst in db.docs
    ensures EdgeOk(cfg, t, Key(e), e.weight)
  {
    hide Jaccard;
  }

  lemma CommitTables(cfg: Config, s: State, p: Pid)
    requires ReadyToCommit(cfg, s, p)
    ensures Grows(s.db, s.tx.value.t) && TablesOk(cfg, s.tx.value.t)
    ensures s.tx.value.t.docs == s.db.docs && s.tx.value.t.terms == s.db.terms
    ensures PcOf(s, p).id !in s.db.vec && s.tx.value.t.vec == s.db.vec[PcOf(s, p).id := PcOf(s, p).vec]
  {
    hide IndexedLinked, WorkerLinked, PairLinked, SnapshotOf, BodyOk, TagsClosed, Jaccard;
    var w, t := PcOf(s, p), s.tx.value.t;
    assert Staged(cfg, s.db, VocabOf(s, p), w, t) && WorkerOk(cfg, s.db, VocabOf(s, p), w);
    forall k | k in t.edges ensures EdgeOk(cfg, t, k, t.edges[k]) {
      CommittedEdgeOk(cfg, s.db, VocabOf(s, p), w, t, k);
    }
    forall id ensures t.fts[id] == if id in t.vec then 1 else 0 {
      assert s.db.fts[id] == if id in s.db.vec then 1 else 0;
    }
  }

  lemma CommitLinks(cfg: Config, s: State, p: Pid, a: DocId)
    requires ReadyToCommit(cfg, s, p)
    requires a in s.db.vec && Near(cfg, s.db, a, PcOf(s, p).id)
    ensures Linked(s.tx.value.t, TagOverlap, a, PcOf(s, p).id)
  {
    var w, t := PcOf(s, p), s.tx.value.t;
    CommitTables(cfg, s, p);
    assert WorkerLinked(cfg, s.db, w);
    if Lists(s.db, w, a) {
      ListedIsCommitted(cfg, s, p, Edge(w.id, a, TagOverlap, Jaccard(TagsOf(s.db, w.id), TagsOf(s.db, a))));
    }
  }

  lemma CommitIndexedLinked(cfg: Config, s: State, p: Pid)
    requires ReadyToCommit(cfg, s, p)
    ensures IndexedLinked(cfg, s.tx.value.t)
  {
    var w, t := PcOf(s, p), s.tx.value.t;
    CommitTables(cfg, s, p);
    forall a, b | a in t.vec && b in t.vec && Near(cfg, t, a, b) ensures Linked(t, TagOverlap, a, b) {
      assert Near(cfg, s.db, a, b);
      if a == w.id {
        JaccardSymmetric(TagsOf(s.db, a), TagsOf(s.db, b));
        CommitLinks(cfg, s, p, b);
      } else if b == w.id {
        CommitLinks(cfg, s, p, a);
      } else {
        assert Linked(s.db, TagOverlap, a, b);
      }
    }
  }

  lemma CommitWorkerLinked(cfg: Config, s: State, p: Pid, q: Pid)
    requires ReadyToCommit(cfg, s, p)
    ensures WorkerLinked(cfg, s.tx.value.t, PcOf(s, q))
  {
    var w, v, t := PcOf(s, p), PcOf(s, q), s.tx.value.t;
    CommitTables(cfg, s, p);
    assert WorkerLinked(cfg, s.db, v) && PairLinked(cfg, s.db, w, v);
    if HasList(v) {
      forall a | a in t.vec && Near(cfg, t, a, v.id) ensures Linked(t, TagOverlap, a, v.id) || Lists(t, v, a) {
        assert Near(cfg, s.db, a, v.id);
        if a in s.db.vec {
          assert Linked(s.db, TagOverlap, a, v.id) || Lists(s.db, v, a);
        } else if Lists(s.db, w, v.id) {
          ListedIsCommitted(cfg, s, p, Edge(w.id, v.id, TagOverlap, Jaccard(TagsOf(s.db, w.id), TagsOf(s.db, v.id))));
        }
      }
    }
  }

  lemma CommitIndexKeeps(cfg: Config, s: State, p: Pid)
    requires Inv(cfg, s) && PcOf(s, p).Indexing?
    ensures Inv(cfg, Step(cfg, s, CommitIndex(p)))
  {
    if PcOf(s, p).ix.VecDone? && Owns(s, p) && PcOf(s, p).rest == {} {
      var s' := Step(cfg, s, CommitIndex(p));
      CommitTables(cfg, s, p);
      CommitIndexedLinked(cfg, s, p);
      OthersKeep(cfg, s, s', p);
      forall q ensures WorkerLinked(cfg, s'.db, PcOf(s', q)) {
        CommitWorkerLinked(cfg, s, p, q);
      }
    }
  }

  /** A commit that leaves `docs` alone or classifies one row keeps what every other worker relies on. */
  lemma OthersKeep(cfg: Config, s: State, s': State, p: Pid)
    requires Inv(cfg, s) && Owns(s, p) && s' == Commit(s, p, PcOf(s', p))
    requires Grows(s.db, s'.db)
    requires PcOf(s', p).Idle? || PcOf(s', p).Classifying?
    requires WorkerOk(cfg, s'.db, VocabOf(s, p), PcOf(s', p)) && !InTx(PcOf(s', p))
    ensures forall q :: WorkerOk(cfg, s'.db, VocabOf(s', q), PcOf(s', q))
    ensures forall q, r :: PairLinked(cfg, s'.db, PcOf(s', q), PcOf(s', r))
    ensures forall q :: SnapshotOf(VocabOf(s', q), s'.db.terms)
    ensures TxOk(cfg, s')
    ensures BodyOk(s')
  {
    forall q ensures PcOf(s', q) == if q == p then PcOf(s', p) else PcOf(s, q) {}
    forall q ensures WorkerOk(cfg, s'.db, VocabOf(s', q), PcOf(s', q)) {
      if q != p { WorkerStays(cfg, s.db, s'.db, VocabOf(s, q), PcOf(s, q)); }
    }
    forall q, r ensures PairLinked(cfg, s'.db, PcOf(s', q), PcOf(s', r)) {
      if q != p && r != p {
        PairStays(cfg, s.db, s'.db, VocabOf(s, q), VocabOf(s, r), PcOf(s, q), PcOf(s, r));
      }
    }
    forall q ensures SnapshotOf(VocabOf(s', q), s'.db.terms) {
      SnapshotStays(VocabOf(s, q), s.db.terms, s'.db.terms);
    }
    forall q ensures !InTx(PcOf(s', q)) {
      assert InTx(PcOf(s, q)) ==> Owns(s, q);
    }
  }

  lemma PairStays(cfg: Config, db: Tables, db': Tables, vw: Vocabulary, vv: Vocabulary, w: Pc, v: Pc)
    requires Grows(db, db') && WorkerOk(cfg, db, vw, w) && WorkerOk(cfg, db, vv, v)
    requires PairLinked(cfg, db, w, v)
    ensures PairLinked(cfg, db', w, v)
  {
    if HasList(w) && HasList(v) && Near(cfg, db', w.id, v.id) {
      assert Near(cfg, db, w.id, v.id);
      assert Lists(db, w, v.id) || Lists(db, v, w.id);
    }
  }

  /***** Classification *****/

  lemma BeginClassifyKeeps(cfg: Config, s: State, p: Pid)
    requires Inv(cfg, s) && PcOf(s, p).Classifying?
    ensures Inv(cfg, Step(cfg, s, BeginClassify(p)))
  {
    var w := PcOf(s, p);
    assert WorkerOk(cfg, s.db, VocabOf(s, p), w);
    if w.cl.Accepted? && s.tx.None? {
      TxStep(cfg, s, p, w.(cl := ClassifyOpen), s.db);
    }
  }

  lemma UpdateRowKeeps(cfg: Config, s: State, p: Pid)
    requires Inv(cfg, s) && PcOf(s, p).Classifying?
    ensures Inv(cfg, Step(cfg, s, UpdateRow(p)))
  {
    var w := PcOf(s, p);
    assert WorkerOk(cfg, s.db, VocabOf(s, p), w);
    if w.cl.ClassifyOpen? && Owns(s, p) {
      var t := s.tx.value.t;
      if w.id in t.docs && t.docs[w.id].None? {
        TxStep(cfg, s, p, w.(cl := Updated), t.(docs := t.docs[w.id := Some(w.out.facets)]));
      } else {
        DropKeeps(cfg, s, p);
      }
    }
  }

  lemma ProposeDomainKeeps(cfg: Config, s: State, p: Pid)
    requires Inv(cfg, s) && PcOf(s, p).Classifying?
    ensures Inv(cfg, Step(cfg, s, ProposeDomain(p)))
  {
    var w := PcOf(s, p);
    assert WorkerOk(cfg, s.db, VocabOf(s, p), w);
    if w.cl.Updated? && Owns(s, p) {
      var t := s.tx.value.t;
      TxStep(cfg, s, p, w.(cl := Proposing, k := 0), t.(terms := TermsAfter(t.terms, w.out, VocabOf(s, p), 0)));
    }
  }

  lemma ProposeTagKeeps(cfg: Config, s: State, p: Pid)
    requires Inv(cfg, s) && PcOf(s, p).Classifying?
    ensures Inv(cfg, Step(cfg, s, ProposeTag(p)))
  {
    var w := PcOf(s, p);
    assert WorkerOk(cfg, s.db, VocabOf(s, p), w);
    hide TablesOk, TagsClosed, IndexedLinked, PairLinked, SnapshotOf, BodyOk, CrossCheck;
    if w.cl.Proposing? && Owns(s, p) && w.k < |w.out.tagsProposed| {
      var t := s.tx.value.t;
      var tag := w.out.tagsProposed[w.k];
      var t' := if tag in VocabOf(s, p).tags then t else t.(terms := InsertProposed(t.terms, Tag, tag));
      assert Step(cfg, s, ProposeTag(p)) == SetTx(s, p, w.(k := w.k + 1), t');
      hide Step, InsertProposed;
      assert t'.terms == TermsAfter(s.db.terms, w.out, VocabOf(s, p), w.k + 1);
      hide TermsAfter;
      TxStep(cfg, s, p, w.(k := w.k + 1), t');
    }
  }

  /** Committing a classification sets one sentinel row and adds the proposals. */
  lemma CommitClassifyTables(cfg: Config, s: State, p: Pid)
    requires Inv(cfg, s) && Owns(s, p)
    requires PcOf(s, p).Classifying? && PcOf(s, p).cl.Proposing? && PcOf(s, p).k == |PcOf(s, p).out.tagsProposed|
    ensures var t := s.tx.value.t;
      && Grows(s.db, t) && TablesOk(cfg, t) && TagsClosed(t)
      && t.vec == s.db.vec && t.edges == s.db.edges
      && s.db.docs[PcOf(s, p).id].None? && t.docs == s.db.docs[PcOf(s, p).id := Some(PcOf(s, p).out.facets)]
      && t.terms == TermsAfter(s.db.terms, PcOf(s, p).out, VocabOf(s, p), PcOf(s, p).k)
  {
    var w, t, v := PcOf(s, p), s.tx.value.t, VocabOf(s, p);
    assert Staged(cfg, s.db, v, w, t) && WorkerOk(cfg, s.db, v, w);
    TermsAfterIs(s.db.terms, w.out, v, w.k);
    forall id, tag | Classified(t, id) && tag in t.docs[id].value.tags ensures (Tag, tag) in t.terms {
      if id == w.id {
        AcceptedTagIsTerm(s.db.terms, w.out, v, tag);
      } else {
        assert Classified(s.db, id);
      }
    }
    forall k | k in t.edges ensures EdgeOk(cfg, t, k, t.edges[k]) {
      assert EdgeOk(cfg, s.db, k, s.db.edges[k]);
    }
  }

  lemma AcceptedTagIsTerm(terms: Terms, out: Output, v: Vocabulary, tag: string)
    requires CrossCheck(out, v).Ok? && SnapshotOf(v, terms) && tag in out.facets.tags
    ensures (Tag, tag) in TermsAfter(terms, out, v, |out.tagsProposed|)
  {
    AcceptedOutput(out, v);
    TermsAfterIs(terms, out, v, |out.tagsProposed|);
    assert out.tagsProposed[..|out.tagsProposed|] == out.tagsProposed;
    if tag in v.tags {
      assert tag in EstablishedTerms(terms, Tag);
    }
  }

  lemma CommitClassifyKeeps(cfg: Config, s: State, p: Pid)
    requires Inv(cfg, s) && PcOf(s, p).Classifying?
    ensures Inv(cfg, Step(cfg, s, CommitClassify(p)))
  {
    var w := PcOf(s, p);
    if w.cl.Proposing? && Owns(s, p) && w.k == |w.out.tagsProposed| {
      var s' := Commit(s, p, w.(cl := Committed));
      assert Step(cfg, s, CommitClassify(p)) == s';
      CommitClassifyTables(cfg, s, p);
      assert WorkerOk(cfg, s.db, VocabOf(s, p), w);
      assert WorkerOk(cfg, s'.db, VocabOf(s, p), PcOf(s', p));
      hide Step, TermsAfter, Staged, PairLinked, SnapshotOf, IndexedLinked, WorkerOk, WorkerLinked, TablesOk, TagsClosed, TxOk, BodyOk;
      OthersKeep(cfg, s, s', p);
      LinksStay(cfg, s, s', p);
    }
  }

  /** With the same vectors and edges, a newly classified row adds no obligation. */
  lemma LinksStay(cfg: Config, s: State, s': State, p: Pid)
    requires Inv(cfg, s)
    requires Grows(s.db, s'.db) && s'.db.vec == s.db.vec && s'.db.edges == s.db.edges
    requires s'.pc == s.pc || (s'.pc == s.pc[p := PcOf(s', p)] && !HasList(PcOf(s', p)))
    ensures IndexedLinked(cfg, s'.db)
    ensures forall q :: WorkerLinked(cfg, s'.db, PcOf(s', q))
  {
    forall a, b | a in s'.db.vec && b in s'.db.vec && Near(cfg, s'.db, a, b) ensures Linked(s'.db, TagOverlap, a, b) {
      assert Near(cfg, s.db, a, b);
    }
    forall q ensures WorkerLinked(cfg, s'.db, PcOf(s', q)) {
      var v := PcOf(s', q);
      if HasList(v) {
        assert v == PcOf(s, q) && WorkerOk(cfg, s.db, VocabOf(s, q), v) && WorkerLinked(cfg, s.db, v);
        forall a | a in s'.db.vec && Near(cfg, s'.db, a, v.id)
          ensures Linked(s'.db, TagOverlap, a, v.id) || Lists(s'.db, v, a)
        {
          assert Near(cfg, s.db, a, v.id);
        }
      }
    }
  }

  lemma RenameKeeps(cfg: Config, s: State, p: Pid)
    requires Inv(cfg, s) && PcOf(s, p).Classifying?
    ensures Inv(cfg, Step(cfg, s, RenameBody(p)))
  {
    var w := PcOf(s, p);
    assert WorkerOk(cfg, s.db, VocabOf(s, p), w);
    hide TablesOk, TagsClosed, IndexedLinked, SnapshotOf, CrossCheck;
    if w.cl.Committed? {
      var mid := SetPc(s, p, Idle);
      var s' := mid.(body := s.body[w.id := Some(w.out.facets)]);
      assert Step(cfg, s, RenameBody(p)) == s';
      assert w.id in s.db.docs && s.db.docs[w.id] == Some(w.out.facets);
      hide Step;
      LocalTx(cfg, s, mid, p);
      hide TxOk;
      LocalStep(cfg, s, mid, p);
      hide WorkerOk, WorkerLinked, PairLinked;
      forall q ensures PcOf(s', q) == PcOf(mid, q) && VocabOf(s', q) == VocabOf(mid, q) {}
    }
  }

  /***** Steps of the environment *****/

  lemma EnvironmentFrame(cfg: Config, s: State, a: Action)
    requires a.AddDocument? || a.SeedTerm? || a.PromoteTerm?
    ensures var s' := Step(cfg, s, a);
      && s'.pc == s.pc && s'.vocab == s.vocab && s'.tx == s.tx && (s' != s ==> s.tx.None?)
      && (s'.body == s.body
          || (a.AddDocument? && s'.body == s.body[a.id := None] && s'.db == s.db.(docs := s.db.docs[a.id := None])))
  {
  }

  /** A new unclassified row, or a new established term, changes no vector, edge or classified row. */
  ghost predicate Extended(db: Tables, db': Tables) {
    && db'.fts == db.fts && db'.vec == db.vec && db'.edges == db.edges
    && (forall id :: id in db.docs ==> id in db'.docs && db'.docs[id] == db.docs[id])
    && (forall id :: Classified(db', id) <==> Classified(db, id))
    && TermsGrow(db.terms, db'.terms)
  }

  lemma EnvironmentExtends(cfg: Config, s: State, a: Action)
    requires a.AddDocument? || a.SeedTerm? || a.PromoteTerm?
    ensures Extended(s.db, Step(cfg, s, a).db)
  {
    DbMoves(cfg, s, a);
    hide Step;
  }

  lemma ExtendedOk(cfg: Config, db: Tables, db': Tables)
    requires TablesOk(cfg, db) && TagsClosed(db) && Extended(db, db')
    ensures Grows(db, db') && TablesOk(cfg, db') && TagsClosed(db')
  {
    hide EdgeOk;
    forall k | k in db'.edges ensures EdgeOk(cfg, db', k, db'.edges[k]) {
      ExtendedEdge(cfg, db, db', k);
    }
    forall id, t | Classified(db', id) && t in db'.docs[id].value.tags ensures (Tag, t) in db'.terms {
      assert Classified(db, id);
    }
  }

  lemma ExtendedEdge(cfg: Config, db: Tables, db': Tables, k: EdgeKey)
    requires Extended(db, db') && k in db.edges && EdgeOk(cfg, db, k, db.edges[k])
    ensures EdgeOk(cfg, db', k, db'.edges[k])
  {
    hide Jaccard, Elems, TermsGrow;
  }

  lemma EnvironmentTables(cfg: Config, s: State, a: Action)
    requires Inv(cfg, s) && (a.AddDocument? || a.SeedTerm? || a.PromoteTerm?)
    ensures var s' := Step(cfg, s, a);
      && Grows(s.db, s'.db) && s'.db.vec == s.db.vec && s'.db.edges == s.db.edges
      && TablesOk(cfg, s'.db) && TagsClosed(s'.db) && BodyOk(s')
  {
    EnvironmentFrame(cfg, s, a);
    EnvironmentExtends(cfg, s, a);
    hide Step, TablesOk, TagsClosed, IndexedLinked, WorkerOk, WorkerLinked, PairLinked, SnapshotOf, TxOk, TermsGrow, Classified;
    ExtendedOk(cfg, s.db, Step(cfg, s, a).db);
  }

  lemma EnvironmentKeeps(cfg: Config, s: State, a: Action)
    requires Inv(cfg, s) && (a.AddDocument? || a.SeedTerm? || a.PromoteTerm?)
    ensures Inv(cfg, Step(cfg, s, a))
  {
    EnvironmentFrame(cfg, s, a);
    EnvironmentTables(cfg, s, a);
    hide Step, TablesOk, TagsClosed, BodyOk, IndexedLinked, WorkerOk, WorkerLinked, PairLinked, SnapshotOf, Grows;
    var s' := Step(cfg, s, a);
    if s' != s {
      forall q ensures PcOf(s', q) == PcOf(s, q) && VocabOf(s', q) == VocabOf(s, q) {}
      LinksStay(cfg, s, s', 0);
      forall q ensures WorkerOk(cfg, s'.db, VocabOf(s', q), PcOf(s', q)) {
        WorkerStays(cfg, s.db, s'.db, VocabOf(s, q), PcOf(s, q));
      }
      forall q, r ensures PairLinked(cfg, s'.db, PcOf(s', q), PcOf(s', r)) {
        PairStays(cfg, s.db, s'.db, VocabOf(s, q), VocabOf(s, r), PcOf(s, q), PcOf(s, r));
      }
      TermsStay(cfg, s, s');
      forall q ensures !InTx(PcOf(s', q)) {
        assert InTx(PcOf(s, q)) ==> Owns(s, q);
      }
    }
  }

  lemma TermsStay(cfg: Config, s: State, s': State)
    requires Inv(cfg, s) && Grows(s.db, s'.db) && s'.vocab == s.vocab
    ensures forall q :: SnapshotOf(VocabOf(s', q), s'.db.terms)
  {
    forall q ensures SnapshotOf(VocabOf(s', q), s'.db.terms) {
      SnapshotStays(VocabOf(s, q), s.db.terms, s'.db.terms);
    }
  }

  /** The moves of an idle worker, and of one that has not built its edge list yet. */
  lemma EarlyKeeps(cfg: Config, s: State, a: Action)
    requires Inv(cfg, s)
    requires a.StartIndex? || a.AcceptOutput? || ((a.ReadRow? || a.Embed?) && PcOf(s, a.p).Indexing?)
    ensures Inv(cfg, Step(cfg, s, a))
  {
    hide TablesOk, TagsClosed, IndexedLinked, SnapshotOf, BodyOk, Jaccard;
    var s' := Step(cfg, s, a);
    if s' != s {
      assert WorkerOk(cfg, s.db, VocabOf(s, a.p), PcOf(s, a.p));
      LocalTx(cfg, s, s', a.p);
      hide TxOk;
      LocalStep(cfg, s, s', a.p);
    }
  }

  lemma LoadVocabularyKeeps(cfg: Config, s: State, p: Pid)
    requires Inv(cfg, s)
    ensures Inv(cfg, Step(cfg, s, LoadVocabulary(p)))
  {
    if PcOf(s, p).Idle? {
      var s' := Step(cfg, s, LoadVocabulary(p));
      forall q ensures PcOf(s', q) == PcOf(s, q) {}
      forall q ensures q != p ==> VocabOf(s', q) == VocabOf(s, q) {}
      forall q ensures WorkerOk(cfg, s'.db, VocabOf(s', q), PcOf(s', q)) {
        assert WorkerOk(cfg, s.db, VocabOf(s, q), PcOf(s, q));
      }
      if s.tx.Some? {
        assert s.tx.value.owner != p;
      }
    }
  }

  lemma StepKeeps(cfg: Config, s: State, a: Action)
    requires Inv(cfg, s)
    ensures Inv(cfg, Step(cfg, s, a))
  {
    hide Inv, IndexStep, ClassifyStep;
    match a
    case Crash(p) => DropKeeps(cfg, s, p);
    case AddDocument(_) => EnvironmentKeeps(cfg, s, a);
    case SeedTerm(_, _) => EnvironmentKeeps(cfg, s, a);
    case PromoteTerm(_, _) => EnvironmentKeeps(cfg, s, a);
    case LoadVocabulary(p) => LoadVocabularyKeeps(cfg, s, p);
    case StartIndex(_, _, _) => EarlyKeeps(cfg, s, a);
    case AcceptOutput(_, _, _) => EarlyKeeps(cfg, s, a);
    case _ =>
      match PcOf(s, a.p)
      case Idle =>
      case Indexing(_, _, _, _, _, _, _) => IndexStepKeeps(cfg, s, a);
      case Classifying(_, _, _, _) => ClassifyStepKeeps(cfg, s, a);
  }

  lemma IndexStepKeeps(cfg: Config, s: State, a: Action)
    requires Inv(cfg, s)
    requires !a.AddDocument? && !a.SeedTerm? && !a.PromoteTerm? && PcOf(s, a.p).Indexing?
    ensures Inv(cfg, IndexStep(cfg, s, a.p, a))
  {
    hide Inv;
    match a
    case ReadRow(p) => EarlyKeeps(cfg, s, a);
    case Embed(p, _, _) => EarlyKeeps(cfg, s, a);
    case ReadTags(p) => if PcOf(s, p).ix.Embedded? { ReadTagsKeeps(cfg, s, p); }
    case ReadVecs(p, readOk) => if PcOf(s, p).ix.TagsRead? { ReadVecsKeeps(cfg, s, p, readOk); }
    case BeginIndex(p) => BeginIndexKeeps(cfg, s, p);
    case InsertFts(p) => InsertFtsKeeps(cfg, s, p);
    case InsertVec(p) => InsertVecKeeps(cfg, s, p);
    case InsertEdge(p, e) => InsertEdgeKeeps(cfg, s, p, e);
    case CommitIndex(p) => CommitIndexKeeps(cfg, s, p);
    case _ =>
  }

  lemma ClassifyStepKeeps(cfg: Config, s: State, a: Action)
    requires Inv(cfg, s)
    requires !a.AddDocument? && !a.SeedTerm? && !a.PromoteTerm? && PcOf(s, a.p).Classifying?
    ensures Inv(cfg, ClassifyStep(s, a.p, a))
  {
    hide Inv;
    match a
    case BeginClassify(p) => BeginClassifyKeeps(cfg, s, p);
    case UpdateRow(p) => UpdateRowKeeps(cfg, s, p);
    case ProposeDomain(p) => ProposeDomainKeeps(cfg, s, p);
    case ProposeTag(p) => ProposeTagKeeps(cfg, s, p);
    case CommitClassify(p) => CommitClassifyKeeps(cfg, s, p);
    case RenameBody(p) => RenameKeeps(cfg, s, p);
    case _ =>
  }

  /** The steps that change the committed tables, and what they make of them. */
  lemma DbMoves(cfg: Config, s: State, a: Action)
    ensures var db' := Step(cfg, s, a).db;
      db' != s.db ==>
        if a.CommitIndex? then
          && Owns(s, a.p) && PcOf(s, a.p).Indexing? && PcOf(s, a.p).ix.VecDone? && PcOf(s, a.p).rest == {}
          && db' == s.tx.value.t
        else if a.CommitClassify? then
          && Owns(s, a.p) && PcOf(s, a.p).Classifying? && PcOf(s, a.p).cl.Proposing?
          && PcOf(s, a.p).k == |PcOf(s, a.p).out.tagsProposed| && db' == s.tx.value.t
        else if a.AddDocument? then a.id !in s.db.docs && db' == s.db.(docs := s.db.docs[a.id := None])
        else (a.SeedTerm? || a.PromoteTerm?) && db' == s.db.(terms := s.db.terms[(a.axis, a.term) := Established])
  {
    hide TagEdges, SimEdges, ExplicitEdges, TagRows, VecRows, TermsAfter, CrossCheck, VocabularyOf;
  }

  /** Every step only adds to what is committed; in particular facets, once set, never change. */
  lemma StepGrows(cfg: Config, s: State, a: Action)
    requires Inv(cfg, s)
    ensures Grows(s.db, Step(cfg, s, a).db)
  {
    hide Step, Inv;
    DbMoves(cfg, s, a);
    if Step(cfg, s, a).db != s.db {
      if a.CommitIndex? {
        assert ReadyToCommit(cfg, s, a.p);
        CommitTables(cfg, s, a.p);
      } else if a.CommitClassify? {
        CommitClassifyTables(cfg, s, a.p);
      }
    }
  }

  lemma {:induction false} RunKeeps(cfg: Config, run: seq<Action>)
    ensures Inv(cfg, Run(cfg, INITIAL, run))
  {
    if run == [] {
    } else {
      RunKeeps(cfg, run[..|run| - 1]);
      StepKeeps(cfg, Run(cfg, INITIAL, run[..|run| - 1]), run[|run| - 1]);
    }
  }
}
