/** A run of the lifecycle machine in which two overlapping indexers leave similar documents unlinked. */
module LifecycleWitness {
  import opened Wrappers
  import opened EdgesBuilder
  import opened Taxonomy
  import opened Lifecycle
  import IndexStore

  lemma RunCons(cfg: Config, s: State, a: Action, rest: seq<Action>)
    ensures Run(cfg, s, [a] + rest) == Run(cfg, Step(cfg, s, a), rest)
    ensures Run(cfg, s, [a]) == Step(cfg, s, a)
  {
    assert [a][..0] == [];
    IndexStore.RunConcat(cfg, s, [a], rest);
  }

  /** `s'` differs from `s` in the tables and body files only; no worker and no transaction is left over. */
  ghost predicate SameWorkers(s: State, s': State) {
    s.tx.None? && s'.tx.None? && s'.vocab == s.vocab && forall q :: PcOf(s', q) == PcOf(s, q)
  }

  /***** Classifying one new document *****/

  function Classification(p: Pid, id: DocId, out: Output): seq<Action> {
    [AddDocument(id), AcceptOutput(p, id, out)]
    + [BeginClassify(p), UpdateRow(p)]
    + [ProposeDomain(p), ProposeTag(p)]
    + [CommitClassify(p), RenameBody(p)]
  }

  lemma RunTwo(cfg: Config, s: State, a: Action, b: Action)
    ensures Run(cfg, s, [a, b]) == Step(cfg, Step(cfg, s, a), b)
  {
    RunCons(cfg, s, a, [b]);
    RunCons(cfg, Step(cfg, s, a), b, []);
    assert [a] + [b] == [a, b];
  }

  lemma RunFour(cfg: Config, s: State, r1: seq<Action>, r2: seq<Action>, r3: seq<Action>, r4: seq<Action>)
    ensures Run(cfg, s, r1 + r2 + r3 + r4) == Run(cfg, Run(cfg, Run(cfg, Run(cfg, s, r1), r2), r3), r4)
  {
    hide Run;
    IndexStore.RunConcat(cfg, s, r1 + r2 + r3, r4);
    IndexStore.RunConcat(cfg, s, r1 + r2, r3);
    IndexStore.RunConcat(cfg, s, r1, r2);
  }

  lemma Accepts(cfg: Config, s: State, p: Pid, id: DocId, out: Output)
    requires s.tx.None? && id !in s.db.docs && PcOf(s, p).Idle? && CrossCheck(out, VocabOf(s, p)).Ok?
    ensures var s' := Run(cfg, s, [AddDocument(id), AcceptOutput(p, id, out)]);
      && s'.db == s.db.(docs := s.db.docs[id := None]) && s'.tx.None? && s'.vocab == s.vocab
      && forall q :: PcOf(s', q) == if q == p then Classifying(Accepted, id, out, 0) else PcOf(s, q)
  {
    RunTwo(cfg, s, AddDocument(id), AcceptOutput(p, id, out));
    hide Run, CrossCheck;
  }

  lemma Updates(cfg: Config, s: State, p: Pid, id: DocId, out: Output)
    requires s.tx.None? && id in s.db.docs && s.db.docs[id].None? && PcOf(s, p) == Classifying(Accepted, id, out, 0)
    ensures var s' := Run(cfg, s, [BeginClassify(p), UpdateRow(p)]);
      && s'.db == s.db && s'.tx == Some(Tx(p, s.db.(docs := s.db.docs[id := Some(out.facets)]))) && s'.vocab == s.vocab
      && forall q :: PcOf(s', q) == if q == p then Classifying(Updated, id, out, 0) else PcOf(s, q)
  {
    RunTwo(cfg, s, BeginClassify(p), UpdateRow(p));
    hide Run;
  }

  lemma Proposes(cfg: Config, s: State, p: Pid, id: DocId, out: Output, t: Tables)
    requires s.tx == Some(Tx(p, t)) && PcOf(s, p) == Classifying(Updated, id, out, 0) && |out.tagsProposed| == 1
    ensures var s' := Run(cfg, s, [ProposeDomain(p), ProposeTag(p)]);
      && s'.db == s.db && s'.tx.Some? && s'.tx.value.owner == p && s'.tx.value.t == t.(terms := s'.tx.value.t.terms)
      && s'.vocab == s.vocab
      && forall q :: PcOf(s', q) == if q == p then Classifying(Proposing, id, out, 1) else PcOf(s, q)
  {
    hide TermsAfter, InsertProposed;
    RunTwo(cfg, s, ProposeDomain(p), ProposeTag(p));
    hide Run;
    var s1 := Step(cfg, s, ProposeDomain(p));
    assert s1.tx.Some? && s1.tx.value == Tx(p, t.(terms := s1.tx.value.t.terms));
    assert forall q :: PcOf(s1, q) == if q == p then Classifying(Proposing, id, out, 0) else PcOf(s, q);
  }

  lemma CommitsClassification(cfg: Config, s: State, p: Pid, id: DocId, out: Output, t: Tables)
    requires s.tx == Some(Tx(p, t)) && PcOf(s, p) == Classifying(Proposing, id, out, 1) && |out.tagsProposed| == 1
    ensures var s' := Run(cfg, s, [CommitClassify(p), RenameBody(p)]);
      && s'.db == t && s'.tx.None? && s'.vocab == s.vocab
      && forall q :: PcOf(s', q) == if q == p then Idle else PcOf(s, q)
  {
    RunTwo(cfg, s, CommitClassify(p), RenameBody(p));
    hide Run;
  }

  lemma ClassifiesAlone(cfg: Config, s: State, p: Pid, id: DocId, out: Output)
    requires s.tx.None? && id !in s.db.docs && PcOf(s, p).Idle?
    requires CrossCheck(out, VocabOf(s, p)).Ok? && |out.tagsProposed| == 1
    ensures var s' := Run(cfg, s, Classification(p, id, out));
      && SameWorkers(s, s')
      && s'.db == s.db.(docs := s.db.docs[id := Some(out.facets)], terms := s'.db.terms)
  {
    hide Run, CrossCheck;
    var r1, r2 := [AddDocument(id), AcceptOutput(p, id, out)], [BeginClassify(p), UpdateRow(p)];
    var r3, r4 := [ProposeDomain(p), ProposeTag(p)], [CommitClassify(p), RenameBody(p)];
    RunFour(cfg, s, r1, r2, r3, r4);
    var s1 := Run(cfg, s, r1);
    Accepts(cfg, s, p, id, out);
    Updates(cfg, s1, p, id, out);
    var s2 := Run(cfg, s1, r2);
    Proposes(cfg, s2, p, id, out, s2.tx.value.t);
    var s3 := Run(cfg, s2, r3);
    CommitsClassification(cfg, s3, p, id, out, s3.tx.value.t);
  }

  /***** The two halves of indexing *****/

  /** Up to the two queries, both successful. */
  function Queries(p: Pid, id: DocId, vec: Vec): seq<Action> {
    [StartIndex(p, id, true), ReadRow(p)] + [Embed(p, vec, {}), ReadTags(p)] + [ReadVecs(p, true)]
  }

  /** The transaction, when no edge was found. */
  function Inserts(p: Pid): seq<Action> {
    [BeginIndex(p), InsertFts(p)] + [InsertVec(p), CommitIndex(p)]
  }

  lemma QueriesFindNothing(cfg: Config, s: State, p: Pid, id: DocId, vec: Vec)
    requires PcOf(s, p).Idle? && Classified(s.db, id) && s.db.vec == map[]
    requires TagEdges(id, TagsOf(s.db, id), TagRows(s.db, id), cfg.edge.tagThreshold) == {}
    ensures var s' := Run(cfg, s, Queries(p, id, vec)); var w := PcOf(s', p);
      && s'.db == s.db && s'.tx == s.tx
      && w.Indexing? && w.ix.EdgesBuilt? && w.id == id && w.vec == vec && w.edges == {}
      && forall q :: q != p ==> PcOf(s', q) == PcOf(s, q)
  {
    hide Run, TagEdges, TagRows;
    var r1, r2 := [StartIndex(p, id, true), ReadRow(p)], [Embed(p, vec, {}), ReadTags(p)];
    IndexStore.RunConcat(cfg, s, r1 + r2, [ReadVecs(p, true)]);
    IndexStore.RunConcat(cfg, s, r1, r2);
    RunTwo(cfg, s, StartIndex(p, id, true), ReadRow(p));
    RunTwo(cfg, Run(cfg, s, r1), Embed(p, vec, {}), ReadTags(p));
    RunCons(cfg, Run(cfg, s, r1 + r2), ReadVecs(p, true), []);
    var s2 := Run(cfg, s, r1 + r2);
    assert s2.db == s.db && s2.tx == s.tx && PcOf(s2, p).edges == {};
    assert SimEdges(id, vec, VecRows(s.db, id), cfg.edge) == {} && ExplicitEdges(id, {}) == {};
  }

  lemma InsertsAlone(cfg: Config, s: State, p: Pid)
    requires s.tx.None? && PcOf(s, p).Indexing? && PcOf(s, p).ix.EdgesBuilt? && PcOf(s, p).edges == {}
    requires PcOf(s, p).id !in s.db.vec
    ensures var s' := Run(cfg, s, Inserts(p)); var w := PcOf(s, p);
      && s'.tx.None? && s'.db == s.db.(fts := s.db.fts + multiset{w.id}, vec := s.db.vec[w.id := w.vec])
      && forall q :: PcOf(s', q) == if q == p then Idle else PcOf(s, q)
  {
    hide Run;
    var r := [BeginIndex(p), InsertFts(p)];
    IndexStore.RunConcat(cfg, s, r, [InsertVec(p), CommitIndex(p)]);
    OpensAlone(cfg, s, p);
    var s1 := Run(cfg, s, r);
    ClosesAlone(cfg, s1, p);
  }

  lemma OpensAlone(cfg: Config, s: State, p: Pid)
    requires s.tx.None? && PcOf(s, p).Indexing? && PcOf(s, p).ix.EdgesBuilt? && PcOf(s, p).edges == {}
    ensures var s' := Run(cfg, s, [BeginIndex(p), InsertFts(p)]); var w := PcOf(s, p);
      && s'.db == s.db && s'.tx == Some(Tx(p, s.db.(fts := s.db.fts + multiset{w.id})))
      && forall q :: PcOf(s', q) == if q == p then w.(ix := FtsDone, rest := {}) else PcOf(s, q)
  {
    RunTwo(cfg, s, BeginIndex(p), InsertFts(p));
    hide Run;
  }

  lemma ClosesAlone(cfg: Config, s: State, p: Pid)
    requires Owns(s, p) && PcOf(s, p).Indexing? && PcOf(s, p).ix.FtsDone? && PcOf(s, p).rest == {}
    requires PcOf(s, p).id !in s.tx.value.t.vec
    ensures var s' := Run(cfg, s, [InsertVec(p), CommitIndex(p)]); var w, t := PcOf(s, p), s.tx.value.t;
      && s'.tx.None? && s'.db == t.(vec := t.vec[w.id := w.vec])
      && forall q :: PcOf(s', q) == if q == p then Idle else PcOf(s, q)
  {
    RunTwo(cfg, s, InsertVec(p), CommitIndex(p));
    hide Run;
  }

  /***** The witness *****/

  function Tagged(tag: string): Output {
    Output(Facets("d", "concept", [tag, tag, tag]), Some("d"), [tag])
  }

  /** Both documents are classified; then both indexers run their queries before either commits. */
  function Overlapping(a: DocId, b: DocId, u: Vec, v: Vec): seq<Action> {
    (Classification(1, a, Tagged("s")) + Classification(2, b, Tagged("t")))
    + (Queries(1, a, u) + Queries(2, b, v))
    + (Inserts(1) + Inserts(2))
  }

  lemma TaggedAccepted(tag: string, v: Vocabulary)
    ensures CrossCheck(Tagged(tag), v).Ok?
  {
    AcceptedOutput(Tagged(tag), v);
  }

  lemma BothClassified(cfg: Config, a: DocId, b: DocId)
    requires a != b
    ensures var s := Run(cfg, INITIAL, Classification(1, a, Tagged("s")) + Classification(2, b, Tagged("t")));
      && s.tx.None? && s.db.vec == map[] && s.db.edges == map[] && (forall q :: PcOf(s, q).Idle?)
      && s.db.docs == map[a := Some(Tagged("s").facets), b := Some(Tagged("t").facets)]
  {
    hide Run, CrossCheck, Classification;
    var r1, r2 := Classification(1, a, Tagged("s")), Classification(2, b, Tagged("t"));
    IndexStore.RunConcat(cfg, INITIAL, r1, r2);
    TaggedAccepted("s", VocabOf(INITIAL, 1));
    ClassifiesAlone(cfg, INITIAL, 1, a, Tagged("s"));
    var s1 := Run(cfg, INITIAL, r1);
    assert forall q :: PcOf(INITIAL, q).Idle?;
    TaggedAccepted("t", VocabOf(s1, 2));
    ClassifiesAlone(cfg, s1, 2, b, Tagged("t"));
  }

  /** Documents without a common tag list no tag edge. */
  lemma NoTagEdges(cfg: Config, db: Tables, a: DocId, b: DocId, x: string, y: string)
    requires cfg.edge.tagThreshold > 0.0 && x != y && a != b
    requires db.docs == map[a := Some(Tagged(x).facets), b := Some(Tagged(y).facets)]
    ensures TagEdges(a, TagsOf(db, a), TagRows(db, a), cfg.edge.tagThreshold) == {}
  {
    assert TagsOf(db, a) == {x};
    forall r | r in TagRows(db, a) ensures r.tags.Some? && Jaccard({x}, Elems(r.tags.value)) < cfg.edge.tagThreshold {
      assert r == TagRow(b, Some([y, y, y])) && Elems([y, y, y]) == {y};
      JaccardRange({x}, {y});
      assert {x} * {y} == {};
    }
  }

  /**
   * Any two vectors the configuration calls similar: both documents end up indexed, every query succeeded,
   * no worker crashed, and no similarity edge joins them in either direction.
   */
  lemma OverlapMissesLink(cfg: Config, a: DocId, b: DocId, u: Vec, v: Vec)
    requires cfg.edge.tagThreshold > 0.0 && a != b
    requires cfg.edge.sim(u, v) >= cfg.edge.simThreshold && cfg.edge.sim(v, u) >= cfg.edge.simThreshold
    ensures var db := Run(cfg, INITIAL, Overlapping(a, b, u, v)).db;
      && a in db.vec && b in db.vec
      && cfg.edge.sim(db.vec[a], db.vec[b]) >= cfg.edge.simThreshold
      && cfg.edge.sim(db.vec[b], db.vec[a]) >= cfg.edge.simThreshold
      && (a, b, SummarySimilarity) !in db.edges && (b, a, SummarySimilarity) !in db.edges
  {
    hide Run, Classification, Queries, Inserts, TagEdges, TagRows;
    var r1 := Classification(1, a, Tagged("s")) + Classification(2, b, Tagged("t"));
    var s1 := Run(cfg, INITIAL, r1);
    BothClassified(cfg, a, b);
    NoTagEdges(cfg, s1.db, a, b, "s", "t");
    NoTagEdges(cfg, s1.db, b, a, "t", "s");
    QueriesFindNothing(cfg, s1, 1, a, u);
    var s2 := Run(cfg, s1, Queries(1, a, u));
    QueriesFindNothing(cfg, s2, 2, b, v);
    var s3 := Run(cfg, s2, Queries(2, b, v));
    InsertsAlone(cfg, s3, 1);
    var s4 := Run(cfg, s3, Inserts(1));
    InsertsAlone(cfg, s4, 2);
    IndexStore.RunConcat(cfg, INITIAL, r1 + (Queries(1, a, u) + Queries(2, b, v)), Inserts(1) + Inserts(2));
    IndexStore.RunConcat(cfg, INITIAL, r1, Queries(1, a, u) + Queries(2, b, v));
    IndexStore.RunConcat(cfg, s1, Queries(1, a, u), Queries(2, b, v));
    IndexStore.RunConcat(cfg, s3, Inserts(1), Inserts(2));
  }
}
