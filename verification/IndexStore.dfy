/**
 * The retrieval orchestrator and the classify persister as one caller sees them: statements on a
 * connection, any of which may fail, with the error paths the code takes.
 */
module IndexStore {
  import opened Wrappers
  import opened EdgesBuilder
  import opened Taxonomy
  import opened Lifecycle

  datatype IndexOutcome = Indexed | Skipped | EmbedFailed | EdgesFailed | PersistFailed

  datatype ClassifyOutcome =
    | Persisted(proposedTermCount: nat)
    | NothingWritten
    | RowAheadOfFile   // committed, but the rename of the body file failed

  /** What the embed stage adds to the row: the vector, and the related ids of the body's frontmatter. */
  datatype Embedding = Embedding(vec: Vec, related: seq<string>)

  /** The constraints let the three index writes through: the vector table's primary key, and the foreign keys. */
  predicate Insertable(fk: bool, t: Tables, id: DocId, edges: seq<Edge>) {
    && id !in t.vec
    && (fk ==> EndsKnown(t, edges))
  }

  /**
   * A connection with the database it has open, its transaction, and the body files. When it is `faulty`,
   * any call may fail or be aborted; otherwise only the constraints of the tables make a statement fail.
   */
  class Connection {
    var db: Tables
    var tx: Option<Tables>
    var body: map<DocId, Option<Facets>>
    const fk: bool
    const faulty: bool

    constructor (db: Tables, body: map<DocId, Option<Facets>>, fk: bool, faulty: bool)
      ensures this.db == db && this.tx == None && this.body == body && this.fk == fk && this.faulty == faulty
    {
      this.db, this.tx, this.body, this.fk, this.faulty := db, None, body, fk, faulty;
    }

    /** Whether a call fails, or an abort is seen, for a reason outside the tables. */
    method Fails() returns (b: bool)
      ensures b ==> faulty
    {
      b := *;
      b := b && faulty;
    }

    method Begin() returns (ok: bool)
      requires tx.None?
      modifies this`tx
      ensures tx == if ok then Some(db) else None
      ensures !faulty ==> ok
    {
      var fails := Fails();
      ok := !fails;
      if ok { tx := Some(db); }
    }

    /** A COMMIT that fails leaves no rows. */
    method Commit() returns (ok: bool)
      requires tx.Some?
      modifies this`tx, this`db
      ensures ok ==> db == old(tx).value && tx == None
      ensures !ok ==> db == old(db) && tx == old(tx)
      ensures !faulty ==> ok
    {
      var fails := Fails();
      ok := !fails;
      if ok { db, tx := tx.value, None; }
    }

    method Rollback()
      modifies this`tx
      ensures tx == None
    {
      tx := None;
    }

    method InsertFts(id: DocId) returns (ok: bool)
      requires tx.Some?
      modifies this`tx
      ensures tx == if ok then Some(old(tx).value.(fts := old(tx).value.fts + multiset{id})) else old(tx)
      ensures !faulty ==> ok
    {
      var fails := Fails();
      ok := !fails;
      if ok { tx := Some(tx.value.(fts := tx.value.fts + multiset{id})); }
    }

    /** Fails on a duplicate primary key. */
    method InsertVec(id: DocId, vec: Vec) returns (ok: bool)
      requires tx.Some?
      modifies this`tx
      ensures ok ==> id !in old(tx).value.vec
      ensures tx == if ok then Some(old(tx).value.(vec := old(tx).value.vec[id := vec])) else old(tx)
      ensures !faulty && id !in old(tx).value.vec ==> ok
    {
      var fails := Fails();
      ok := !fails && id !in tx.value.vec;
      if ok { tx := Some(tx.value.(vec := tx.value.vec[id := vec])); }
    }

    /** INSERT OR IGNORE; a violated foreign key is an error, not ignored. */
    method InsertEdge(e: Edge) returns (ok: bool)
      requires tx.Some?
      modifies this`tx
      ensures ok && fk ==> Key(e) in old(tx).value.edges || (e.src in old(tx).value.docs && e.dst in old(tx).value.docs)
      ensures tx == if ok then Some(old(tx).value.(edges := InsertAll(old(tx).value.edges, [e]))) else old(tx)
      ensures !faulty && (fk ==> EndsKnown(old(tx).value, [e])) ==> ok
    {
      assert e in [e];
      assert InsertAll(tx.value.edges, [e][..0]) == tx.value.edges;
      var fails := Fails();
      ok := !fails;
      if Key(e) !in tx.value.edges {
        ok := ok && (fk ==> e.src in tx.value.docs && e.dst in tx.value.docs);
        if ok { tx := Some(tx.value.(edges := tx.value.edges[Key(e) := e.weight])); }
      }
    }

    /**
     * The three index writes, inside the caller's transaction; stops at the first failure or abort. Without
     * faults, they succeed exactly when the constraints let them through.
     */
    method PersistIndex(id: DocId, vec: Vec, edges: seq<Edge>) returns (ok: bool)
      requires tx.Some?
      modifies this`tx
      ensures tx.Some?
      ensures ok ==> Insertable(fk, old(tx).value, id, edges) && tx.value == WithIndex(old(tx).value, id, vec, edges)
      ensures !faulty && Insertable(fk, old(tx).value, id, edges) ==> ok
    {
      var aborted := Fails();
      if aborted { return false; }
      ok := InsertFts(id);
      if !ok { return false; }
      aborted := Fails();
      if aborted { return false; }
      ok := InsertVec(id, vec);
      if !ok { return false; }
      ok := InsertEdges(edges);
    }

    method InsertEdges(edges: seq<Edge>) returns (ok: bool)
      requires tx.Some?
      modifies this`tx
      ensures tx.Some?
      ensures ok ==>
        && tx.value == old(tx).value.(edges := InsertAll(old(tx).value.edges, edges))
        && (fk ==> EndsKnown(old(tx).value, edges))
      ensures !faulty && (fk ==> EndsKnown(old(tx).value, edges)) ==> ok
    {
      ghost var t := tx.value;
      for i := 0 to |edges|
        invariant tx == Some(t.(edges := InsertAll(t.edges, edges[..i])))
        invariant forall k :: k in t.edges ==> k in tx.value.edges
        invariant fk ==> forall k :: k in tx.value.edges ==> k in t.edges || (k.0 in t.docs && k.1 in t.docs)
        invariant fk ==> EndsKnown(t, edges[..i])
      {
        hide InsertAll;
        var aborted := Fails();
        if aborted { return false; }
        InsertAllSnoc(t.edges, edges, i);
        InsertOneKeys(tx.value.edges, edges[i]);
        assert edges[..i + 1] == edges[..i] + [edges[i]] && edges[i] in edges;
        ok := InsertEdge(edges[i]);
        if !ok { return false; }
      }
      assert edges[..|edges|] == edges;
      return true;
    }

    /** The tags of a document's row; `[]` while it is unclassified. */
    function RowTags(id: DocId): seq<string>
      reads this
    {
      if Classified(db, id) then db.docs[id].value.tags else []
    }

    /** The tag query, in whatever order the rows come. */
    method SelectTagRows(id: DocId) returns (rows: seq<TagRow>)
      ensures Elems(rows) == TagRows(db, id)
    {
      rows := [];
      var rest := TagRows(db, id);
      while rest != {}
        invariant Elems(rows) + rest == TagRows(db, id)
        decreases rest
      {
        var row :| row in rest;
        ElemsSnoc(rows, row);
        rows, rest := rows + [row], rest - {row};
      }
    }

    /** The vector query; None when the vector table cannot be read. */
    method SelectVecRows(id: DocId) returns (rows: Option<seq<VecRow>>)
      ensures rows.Some? ==> Elems(rows.value) == VecRows(db, id)
      ensures !faulty ==> rows.Some?
    {
      var unreadable := Fails();
      if unreadable { return None; }
      var found: seq<VecRow>, rest := [], VecRows(db, id);
      while rest != {}
        invariant Elems(found) + rest == VecRows(db, id)
        decreases rest
      {
        var row :| row in rest;
        ElemsSnoc(found, row);
        found, rest := found + [row], rest - {row};
      }
      return Some(found);
    }

    /**
     * Embed, build the edges from what the two queries return, then index inside one transaction.
     * `embedded` is what the embedding service and the body file give, None if that stage fails.
     */
    method RetrievalOrchestrator(id: DocId, embedded: Option<Embedding>, cfg: EdgeConfig)
      returns (outcome: IndexOutcome, ghost list: seq<Edge>, ghost vecsRead: bool)
      requires tx.None?
      modifies this`tx, this`db
      ensures tx == None && body == old(body)
      ensures outcome.Indexed? ==>
        && embedded.Some? && id in old(db).docs && id !in old(db).vec
        && db == WithIndex(old(db), id, embedded.value.vec, list)
        && Elems(list) ==
             TagEdges(id, if old(db).docs[id].Some? then Elems(old(db).docs[id].value.tags) else {}, TagRows(old(db), id),
                      cfg.tagThreshold)
             + (if vecsRead then SimEdges(id, embedded.value.vec, VecRows(old(db), id), cfg) else {})
             + ExplicitEdges(id, Elems(embedded.value.related))
      ensures outcome.Indexed? ==>
        forall r :: r in embedded.value.related && r != id && WrittenAsId(r) ==> (id, r, ExplicitRelated) in db.edges
      ensures !outcome.Indexed? ==> db == old(db)
      ensures outcome.Skipped? ==> id in old(db).vec
      ensures !faulty ==>
        && (outcome.Skipped? <==> id in old(db).vec)
        && (outcome.EmbedFailed? <==> id !in old(db).vec && (id !in old(db).docs || embedded.None?))
        && (outcome.Indexed? || outcome.PersistFailed? ==> vecsRead)
        && (outcome.PersistFailed? ==> !Insertable(fk, old(db), id, list))
        && !outcome.EdgesFailed?
      ensures embedded.None? || id !in old(db).docs ==> outcome.Skipped? || outcome.EmbedFailed?
    {
      list, vecsRead := [], false;
      var unreadable := Fails();
      if !unreadable && id in db.vec {
        return Skipped, [], false;
      }
      if id !in db.docs || embedded.None? {
        return EmbedFailed, [], false;
      }
      var tags := RowTags(id);
      var timedOut := Fails();
      if timedOut {
        return EdgesFailed, [], false;
      }
      var e := embedded.value;
      var tagRows := SelectTagRows(id);
      var vecRows := SelectVecRows(id);
      var edges := BuildEdges(id, tags, e.vec, e.related, tagRows, vecRows, cfg);
      list, vecsRead := edges, vecRows.Some?;
      var ok := Begin();
      if !ok {
        return PersistFailed, edges, vecsRead;
      }
      ok := PersistIndex(id, e.vec, edges);
      if !ok {
        Rollback();
        return PersistFailed, edges, vecsRead;
      }
      ok := Commit();
      if !ok {
        Rollback();
        return PersistFailed, edges, vecsRead;
      }
      RelatedStored(old(db).edges, edges, id, e.related);
      return Indexed, edges, vecsRead;
    }

    /** The guarded UPDATE; reports how many rows it changed. */
    method UpdateClassification(id: DocId, facets: Facets) returns (affected: nat)
      requires tx.Some?
      modifies this`tx
      ensures affected == if id in old(tx).value.docs && old(tx).value.docs[id].None? then 1 else 0
      ensures tx == if affected == 1 then Some(old(tx).value.(docs := old(tx).value.docs[id := Some(facets)])) else old(tx)
    {
      if id in tx.value.docs && tx.value.docs[id].None? {
        tx := Some(tx.value.(docs := tx.value.docs[id := Some(facets)]));
        return 1;
      }
      return 0;
    }

    method ProposeTerm(axis: Axis, term: string) returns (ok: bool)
      requires tx.Some?
      modifies this`tx
      ensures tx == if ok then Some(old(tx).value.(terms := InsertProposed(old(tx).value.terms, axis, term))) else old(tx)
      ensures !faulty ==> ok
    {
      var fails := Fails();
      ok := !fails;
      if ok { tx := Some(tx.value.(terms := InsertProposed(tx.value.terms, axis, term))); }
    }

    /** The UPDATE and the proposals; returns how many proposals were new to the snapshot. */
    method WriteClassification(id: DocId, out: Output, v: Vocabulary) returns (ok: bool, count: nat)
      requires tx.Some?
      modifies this`tx
      ensures tx.Some?
      ensures ok ==>
        && id in old(tx).value.docs && old(tx).value.docs[id].None?
        && tx.value == WithClassification(old(tx).value, id, out, v)
        && count == NewProposals(out, v, |out.tagsProposed|)
      ensures !faulty && id in old(tx).value.docs && old(tx).value.docs[id].None? ==> ok
    {
      count := 0;
      var affected := UpdateClassification(id, out.facets);
      if affected == 0 {
        return false, 0;
      }
      if out.domainProposed.Some? && out.domainProposed.value !in v.domains {
        ok := ProposeTerm(Domain, out.domainProposed.value);
        if !ok { return false, 0; }
        count := 1;
      }
      for i := 0 to |out.tagsProposed|
        invariant tx == Some(old(tx).value.(docs := old(tx).value.docs[id := Some(out.facets)],
                                            terms := TermsAfter(old(tx).value.terms, out, v, i)))
        invariant count == NewProposals(out, v, i)
      {
        if out.tagsProposed[i] !in v.tags {
          ok := ProposeTerm(Tag, out.tagsProposed[i]);
          if !ok { return false, 0; }
          count := count + 1;
        }
      }
      ok := true;
    }

    /**
     * Stores a classification: row and proposals in one transaction, committed first; only then is the
     * rewritten body file renamed into place.
     */
    method PersistClassification(id: DocId, out: Output, v: Vocabulary) returns (outcome: ClassifyOutcome)
      requires tx.None?
      modifies this
      ensures tx == None
      ensures outcome.Persisted? ==>
        && id in old(db).docs && old(db).docs[id].None?
        && db == WithClassification(old(db), id, out, v)
        && body == old(body)[id := Some(out.facets)]
        && outcome.proposedTermCount == NewProposals(out, v, |out.tagsProposed|)
      ensures outcome.NothingWritten? ==> db == old(db) && body == old(body)
      ensures outcome.RowAheadOfFile? ==>
        && id in old(db).docs && old(db).docs[id].None?
        && db == WithClassification(old(db), id, out, v)
        && body == old(body)
      ensures !faulty ==>
        (outcome.Persisted? <==> id in old(body) && id in old(db).docs && old(db).docs[id].None?)
        && !outcome.RowAheadOfFile?
    {
      var unreadable := Fails();   // body file read, parsed, rewritten to a temporary file
      if unreadable || id !in body {
        return NothingWritten;
      }
      var ok := Begin();
      if !ok {
        return NothingWritten;
      }
      var count;
      ok, count := WriteClassification(id, out, v);
      if !ok {
        Rollback();
        return NothingWritten;
      }
      ok := Commit();
      if !ok {
        Rollback();
        return NothingWritten;
      }
      var unrenamed := Fails();
      if unrenamed {
        return RowAheadOfFile;
      }
      body := body[id := Some(out.facets)];
      return Persisted(count);
    }
  }

  /** Every edge is stored already or has both ends among the rows. */
  predicate EndsKnown(t: Tables, edges: seq<Edge>) {
    forall e :: e in edges ==> Key(e) in t.edges || (e.src in t.docs && e.dst in t.docs)
  }

  lemma RelatedStored(stored: map<EdgeKey, real>, list: seq<Edge>, id: DocId, related: seq<string>)
    requires forall e :: ExplicitEdgeOf(e, id, Elems(related)) ==> e in list
    ensures forall r :: r in related && r != id && WrittenAsId(r) ==> (id, r, ExplicitRelated) in InsertAll(stored, list)
  {
    forall r | r in related && r != id && WrittenAsId(r) ensures (id, r, ExplicitRelated) in InsertAll(stored, list) {
      var e := Edge(id, r, ExplicitRelated, 1.0);
      assert ExplicitEdgeOf(e, id, Elems(related));
      InsertedIsKey(stored, list, e);
    }
  }

  lemma InsertOneKeys(edges: map<EdgeKey, real>, e: Edge)
    ensures InsertAll(edges, [e]) == if Key(e) in edges then edges else edges[Key(e) := e.weight]
  {
    assert InsertAll(edges, [e][..0]) == edges;
  }

  /** How many of the domain proposal and the first `k` tag proposals are not in the snapshot. */
  function NewProposals(out: Output, v: Vocabulary, k: nat): nat
    requires k <= |out.tagsProposed|
  {
    if k == 0 then
      if out.domainProposed.Some? && out.domainProposed.value !in v.domains then 1 else 0
    else
      NewProposals(out, v, k - 1) + if out.tagsProposed[k - 1] in v.tags then 0 else 1
  }

  /***** The same statements as steps of the lifecycle machine *****/

  lemma {:induction false} RunConcat(cfg: Config, s: State, r1: seq<Action>, r2: seq<Action>)
    ensures Run(cfg, s, r1 + r2) == Run(cfg, Run(cfg, s, r1), r2)
  {
    if r2 == [] {
      assert r1 + r2 == r1;
    } else {
      var run := r1 + r2;
      assert run[..|run| - 1] == r1 + r2[..|r2| - 1];
      RunConcat(cfg, s, r1, r2[..|r2| - 1]);
    }
  }

  function EdgeInserts(p: Pid, list: seq<Edge>): seq<Action> {
    seq(|list|, i requires 0 <= i < |list| => InsertEdge(p, list[i]))
  }

  /** `p` is the transaction owner, at position `w`, seeing `t`, over the committed tables `db`. */
  predicate At(s: State, p: Pid, db: Tables, w: Pc, t: Tables) {
    s.db == db && s.tx == Some(Tx(p, t)) && PcOf(s, p) == w
  }

  lemma InsertOne(cfg: Config, s: State, p: Pid, db: Tables, w: Pc, t: Tables, e: Edge)
    requires At(s, p, db, w, t) && w.Indexing? && w.ix.VecDone?
    requires e !in w.rest ==> Key(e) in t.edges
    requires cfg.fk ==> e.src in t.docs && e.dst in t.docs
    ensures At(Step(cfg, s, InsertEdge(p, e)), p, db, w.(rest := w.rest - {e}),
               t.(edges := InsertAll(t.edges, [e])))
  {
    assert InsertAll(t.edges, [e][..0]) == t.edges;
    if e !in w.rest {
      assert w.rest - {e} == w.rest;
    }
  }

  lemma InsertAllSnoc(edges: map<EdgeKey, real>, list: seq<Edge>, n: nat)
    requires n < |list|
    ensures InsertAll(edges, list[..n + 1]) == InsertAll(InsertAll(edges, list[..n]), [list[n]])
  {
    var before := InsertAll(edges, list[..n]);
    assert list[..n + 1][..n] == list[..n];
    assert InsertAll(before, [list[n]][..0]) == before;
  }

  /** Inserting the edges one step at a time stages what the INSERT loop stages. */
  lemma {:induction false} SoloInserts(cfg: Config, s: State, p: Pid, db: Tables, w: Pc, t: Tables, list: seq<Edge>, n: nat)
    requires n <= |list| && At(s, p, db, w, t) && w.Indexing? && w.ix.VecDone? && w.rest == Elems(list)
    requires cfg.fk ==> forall e :: e in list ==> e.src in t.docs && e.dst in t.docs
    ensures At(Run(cfg, s, EdgeInserts(p, list)[..n]), p, db, w.(rest := w.rest - Elems(list[..n])),
               t.(edges := InsertAll(t.edges, list[..n])))
  {
    var run := EdgeInserts(p, list)[..n];
    if n == 0 {
      assert w.rest - Elems(list[..0]) == w.rest;
    } else {
      SoloInserts(cfg, s, p, db, w, t, list, n - 1);
      assert run[..n - 1] == EdgeInserts(p, list)[..n - 1];
      var rest, e := w.rest - Elems(list[..n - 1]), list[n - 1];
      assert list[..n] == list[..n - 1] + [e];
      assert w.rest - Elems(list[..n]) == rest - {e};
      if e !in rest {
        assert e in list[..n - 1];
        InsertedIsKey(t.edges, list[..n - 1], e);
      }
      InsertAllSnoc(t.edges, list, n - 1);
      InsertOne(cfg, Run(cfg, s, run[..n - 1]), p, db, w.(rest := rest),
                t.(edges := InsertAll(t.edges, list[..n - 1])), e);
    }
  }

  lemma {:induction false} InsertedIsKey(edges: map<EdgeKey, real>, list: seq<Edge>, e: Edge)
    requires e in list
    ensures Key(e) in InsertAll(edges, list)
  {
    var k := |list| - 1;
    if list[k] != e {
      assert e in list[..k];
      InsertedIsKey(edges, list[..k], e);
    }
  }

  lemma SoloOpening(cfg: Config, s: State, p: Pid)
    requires s.tx.None? && PcOf(s, p).Indexing? && PcOf(s, p).ix.EdgesBuilt?
    requires PcOf(s, p).id !in s.db.vec
    ensures var w := PcOf(s, p);
      At(Run(cfg, s, [BeginIndex(p), InsertFts(p), InsertVec(p)]), p, s.db, w.(ix := VecDone, rest := w.edges),
         s.db.(fts := s.db.fts + multiset{w.id}, vec := s.db.vec[w.id := w.vec]))
  {
    hide Run;
    var w := PcOf(s, p);
    RunSnoc(cfg, s, [], BeginIndex(p));
    RunSnoc(cfg, s, [BeginIndex(p)], InsertFts(p));
    RunSnoc(cfg, s, [BeginIndex(p), InsertFts(p)], InsertVec(p));
    assert [BeginIndex(p)] + [InsertFts(p)] == [BeginIndex(p), InsertFts(p)];
    assert [BeginIndex(p), InsertFts(p)] + [InsertVec(p)] == [BeginIndex(p), InsertFts(p), InsertVec(p)];
    var s1 := Run(cfg, s, [BeginIndex(p)]);
    assert At(s1, p, s.db, w.(ix := IndexOpen, rest := w.edges), s.db);
    var s2 := Run(cfg, s, [BeginIndex(p), InsertFts(p)]);
    assert At(s2, p, s.db, w.(ix := FtsDone, rest := w.edges), s.db.(fts := s.db.fts + multiset{w.id}));
    assert Run(cfg, s, [BeginIndex(p), InsertFts(p), InsertVec(p)]) == Step(cfg, s2, InsertVec(p));
  }

  lemma RunSnoc(cfg: Config, s: State, run: seq<Action>, a: Action)
    ensures Run(cfg, s, run + [a]) == Step(cfg, Run(cfg, s, run), a)
    ensures run == [] ==> Run(cfg, s, [a]) == Step(cfg, s, a)
  {
    assert (run + [a])[..|run|] == run;
    assert run == [] ==> run + [a] == [a];
  }

  lemma SoloCommit(cfg: Config, s: State, p: Pid, db: Tables, w: Pc, t: Tables)
    requires At(s, p, db, w, t) && w.Indexing? && w.ix.VecDone? && w.rest == {}
    ensures var s' := Step(cfg, s, CommitIndex(p)); s'.db == t && s'.tx.None? && PcOf(s', p).Idle?
  {
  }

  /**
   * Left alone, a worker of the lifecycle machine that has built the edge list reaches, statement by
   * statement, exactly the tables the orchestrator commits.
   */
  lemma SoloIndexing(cfg: Config, s: State, p: Pid, list: seq<Edge>)
    requires s.tx.None? && PcOf(s, p).Indexing? && PcOf(s, p).ix.EdgesBuilt? && PcOf(s, p).edges == Elems(list)
    requires PcOf(s, p).id !in s.db.vec
    requires cfg.fk ==> forall e :: e in list ==> e.src in s.db.docs && e.dst in s.db.docs
    ensures var s' := Run(cfg, s, [BeginIndex(p), InsertFts(p), InsertVec(p)] + EdgeInserts(p, list) + [CommitIndex(p)]);
      s'.db == WithIndex(s.db, PcOf(s, p).id, PcOf(s, p).vec, list) && s'.tx.None? && PcOf(s', p).Idle?
  {
    var w, head, tail := PcOf(s, p), [BeginIndex(p), InsertFts(p), InsertVec(p)], EdgeInserts(p, list);
    SoloOpening(cfg, s, p);
    var w' := w.(ix := VecDone, rest := w.edges);
    var t := s.db.(fts := s.db.fts + multiset{w.id}, vec := s.db.vec[w.id := w.vec]);
    SoloInserts(cfg, Run(cfg, s, head), p, s.db, w', t, list, |list|);
    assert tail[..|list|] == tail && list[..|list|] == list;
    assert w'.rest - Elems(list) == {};
    RunConcat(cfg, s, head, tail);
    SoloCommit(cfg, Run(cfg, s, head + tail), p, s.db, w'.(rest := {}), t.(edges := InsertAll(t.edges, list)));
    RunSnoc(cfg, s, head + tail, CommitIndex(p));
  }
}
