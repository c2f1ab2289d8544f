/**
 * Classification and indexing as a step machine: any number of workers run the statements of the
 * retrieval orchestrator and of the classify persister against one database and one set of body
 * files, and each may die between any two of them.
 */
module Lifecycle {
  import opened Wrappers
  import opened EdgesBuilder
  import opened Taxonomy

  type Pid = nat
  type EdgeKey = (DocId, DocId, Kind)

  /** `fk` says whether the connection enforces the foreign keys declared on `edges`. */
  datatype Config = Config(edge: EdgeConfig, fk: bool)

  /** A document whose facets are None is still in the `unclassified` sentinel state. */
  datatype Tables = Tables(
    docs: map<DocId, Option<Facets>>,
    fts: multiset<DocId>,
    vec: map<DocId, Vec>,
    edges: map<EdgeKey, real>,
    terms: Terms)

  datatype IndexStage = Checked | RowRead | Embedded | TagsRead | EdgesBuilt | IndexOpen | FtsDone | VecDone

  datatype ClassifyStage = Accepted | ClassifyOpen | Updated | Proposing | Committed

  datatype Pc =
    | Idle
    | Indexing(ix: IndexStage, id: DocId, tags: seq<string>, vec: Vec, related: set<string>,
               edges: set<Edge>, rest: set<Edge>)
    | Classifying(cl: ClassifyStage, id: DocId, out: Output, k: nat)

  /** The single write transaction SQLite admits: its owner and the tables as the owner sees them. */
  datatype Tx = Tx(owner: Pid, t: Tables)

  /** `body` holds, for each body file, the facets in its frontmatter (None as first written). */
  datatype State = State(
    db: Tables,
    tx: Option<Tx>,
    pc: map<Pid, Pc>,
    vocab: map<Pid, Vocabulary>,
    body: map<DocId, Option<Facets>>)

  datatype Action =
    | Crash(p: Pid)
    | AddDocument(id: DocId)
    | SeedTerm(axis: Axis, term: string)
    | PromoteTerm(axis: Axis, term: string)
    | LoadVocabulary(p: Pid)
    | StartIndex(p: Pid, id: DocId, readOk: bool)
    | ReadRow(p: Pid)
    | Embed(p: Pid, vec: Vec, related: set<string>)
    | ReadTags(p: Pid)
    | ReadVecs(p: Pid, readOk: bool)
    | BeginIndex(p: Pid)
    | InsertFts(p: Pid)
    | InsertVec(p: Pid)
    | InsertEdge(p: Pid, e: Edge)
    | CommitIndex(p: Pid)
    | AcceptOutput(p: Pid, id: DocId, out: Output)
    | BeginClassify(p: Pid)
    | UpdateRow(p: Pid)
    | ProposeDomain(p: Pid)
    | ProposeTag(p: Pid)
    | CommitClassify(p: Pid)
    | RenameBody(p: Pid)

  /***** Reading the state *****/

  function PcOf(s: State, p: Pid): Pc {
    if p in s.pc then s.pc[p] else Idle
  }

  function VocabOf(s: State, p: Pid): Vocabulary {
    if p in s.vocab then s.vocab[p] else Vocabulary({}, {}, {})
  }

  predicate InTx(w: Pc) {
    match w
    case Idle => false
    case Indexing(ix, _, _, _, _, _, _) => ix.IndexOpen? || ix.FtsDone? || ix.VecDone?
    case Classifying(cl, _, _, _) => cl.ClassifyOpen? || cl.Updated? || cl.Proposing?
  }

  predicate Classified(db: Tables, id: DocId) {
    id in db.docs && db.docs[id].Some?
  }

  function TagsOf(db: Tables, id: DocId): set<string>
    requires Classified(db, id)
  {
    Elems(db.docs[id].value.tags)
  }

  function Key(e: Edge): EdgeKey {
    (e.src, e.dst, e.kind)
  }

  /** SELECT of the classified documents other than `id`. */
  function TagRows(db: Tables, id: DocId): set<TagRow> {
    set d | d in db.docs && db.docs[d].Some? && d != id :: TagRow(d, Some(db.docs[d].value.tags))
  }

  /** SELECT of the vector rows other than `id`. */
  function VecRows(db: Tables, id: DocId): set<VecRow> {
    set d | d in db.vec && d != id :: VecRow(d, db.vec[d])
  }

  /***** Steps: an action that is not enabled changes nothing *****/

  function SetPc(s: State, p: Pid, w: Pc): State {
    s.(pc := s.pc[p := w])
  }

  /** The worker moves on inside its open transaction. */
  function SetTx(s: State, p: Pid, w: Pc, t: Tables): State {
    s.(pc := s.pc[p := w], tx := Some(Tx(p, t)))
  }

  /** A failing statement, a ROLLBACK and the death of the process all drop what is not committed. */
  function Drop(s: State, p: Pid): State {
    s.(pc := s.pc[p := Idle], tx := if s.tx.Some? && s.tx.value.owner == p then None else s.tx)
  }

  /** COMMIT makes the owner's view the database. */
  function Commit(s: State, p: Pid, w: Pc): State
    requires s.tx.Some?
  {
    s.(db := s.tx.value.t, tx := None, pc := s.pc[p := w])
  }

  predicate Owns(s: State, p: Pid) {
    s.tx.Some? && s.tx.value.owner == p
  }

  function IndexStep(cfg: Config, s: State, p: Pid, a: Action): State
    requires PcOf(s, p).Indexing?
  {
    var w := PcOf(s, p);
    match a
    case ReadRow(_) =>
      if !w.ix.Checked? then s
      else if !Classified(s.db, w.id) then SetPc(s, p, Idle)
      else SetPc(s, p, w.(ix := RowRead, tags := s.db.docs[w.id].value.tags))
    case Embed(_, vec, related) =>
      if !w.ix.RowRead? then s
      else SetPc(s, p, w.(ix := Embedded, vec := vec, related := related))
    case ReadTags(_) =>
      if !w.ix.Embedded? then s
      else SetPc(s, p, w.(ix := TagsRead,
        edges := TagEdges(w.id, Elems(w.tags), TagRows(s.db, w.id), cfg.edge.tagThreshold)))
    case ReadVecs(_, readOk) =>
      if !w.ix.TagsRead? then s
      else SetPc(s, p, w.(ix := EdgesBuilt,
        edges := w.edges
          + (if readOk then SimEdges(w.id, w.vec, VecRows(s.db, w.id), cfg.edge) else {})
          + ExplicitEdges(w.id, w.related)))
    case BeginIndex(_) =>
      if !w.ix.EdgesBuilt? || s.tx.Some? then s
      else SetTx(s, p, w.(ix := IndexOpen, rest := w.edges), s.db)
    case InsertFts(_) =>
      if !w.ix.IndexOpen? || !Owns(s, p) then s
      else
        var t := s.tx.value.t;
        SetTx(s, p, w.(ix := FtsDone), t.(fts := t.fts + multiset{w.id}))
    case InsertVec(_) =>
      if !w.ix.FtsDone? || !Owns(s, p) then s
      else
        var t := s.tx.value.t;
        if w.id in t.vec then Drop(s, p)   // primary key
        else SetTx(s, p, w.(ix := VecDone), t.(vec := t.vec[w.id := w.vec]))
    case InsertEdge(_, e) =>
      if !w.ix.VecDone? || !Owns(s, p) || e !in w.rest then s
      else
        var t := s.tx.value.t;
        if Key(e) !in t.edges && cfg.fk && !(e.src in t.docs && e.dst in t.docs) then Drop(s, p)
        else SetTx(s, p, w.(rest := w.rest - {e}),
                   if Key(e) in t.edges then t else t.(edges := t.edges[Key(e) := e.weight]))
    case CommitIndex(_) =>
      if !w.ix.VecDone? || !Owns(s, p) || w.rest != {} then s
      else Commit(s, p, Idle)
    case _ => s
  }

  function ClassifyStep(s: State, p: Pid, a: Action): State
    requires PcOf(s, p).Classifying?
  {
    var w := PcOf(s, p);
    match a
    case BeginClassify(_) =>
      if !w.cl.Accepted? || s.tx.Some? then s
      else SetTx(s, p, w.(cl := ClassifyOpen), s.db)
    case UpdateRow(_) =>
      if !w.cl.ClassifyOpen? || !Owns(s, p) then s
      else
        var t := s.tx.value.t;
        if w.id in t.docs && t.docs[w.id].None? then
          SetTx(s, p, w.(cl := Updated), t.(docs := t.docs[w.id := Some(w.out.facets)]))
        else Drop(s, p)   // no row affected
    case ProposeDomain(_) =>
      if !w.cl.Updated? || !Owns(s, p) then s
      else
        var t := s.tx.value.t;
        SetTx(s, p, w.(cl := Proposing, k := 0), t.(terms := TermsAfter(t.terms, w.out, VocabOf(s, p), 0)))
    case ProposeTag(_) =>
      if !w.cl.Proposing? || !Owns(s, p) || w.k >= |w.out.tagsProposed| then s
      else
        var t := s.tx.value.t;
        var tag := w.out.tagsProposed[w.k];
        SetTx(s, p, w.(k := w.k + 1),
              if tag in VocabOf(s, p).tags then t else t.(terms := InsertProposed(t.terms, Tag, tag)))
    case CommitClassify(_) =>
      if !w.cl.Proposing? || !Owns(s, p) || w.k != |w.out.tagsProposed| then s
      else Commit(s, p, w.(cl := Committed))
    case RenameBody(_) =>
      if !w.cl.Committed? then s
      else SetPc(s, p, Idle).(body := s.body[w.id := Some(w.out.facets)])
    case _ => s
  }

  function Step(cfg: Config, s: State, a: Action): State {
    match a
    case Crash(p) => Drop(s, p)
    case AddDocument(id) =>
      if s.tx.Some? || id in s.db.docs then s
      else s.(db := s.db.(docs := s.db.docs[id := None]), body := s.body[id := None])
    case SeedTerm(axis, term) =>
      if s.tx.Some? || (axis, term) in s.db.terms then s
      else s.(db := s.db.(terms := s.db.terms[(axis, term) := Established]))
    case PromoteTerm(axis, term) =>
      if s.tx.Some? || (axis, term) !in s.db.terms then s
      else s.(db := s.db.(terms := s.db.terms[(axis, term) := Established]))
    case LoadVocabulary(p) =>
      if PcOf(s, p).Idle? then s.(vocab := s.vocab[p := VocabularyOf(s.db.terms)]) else s
    case StartIndex(p, id, readOk) =>
      // A skip check that cannot read the vector table lets the document through.
      if !PcOf(s, p).Idle? || !Classified(s.db, id) || (readOk && id in s.db.vec) then s
      else SetPc(s, p, Indexing(Checked, id, [], [], {}, {}, {}))
    case AcceptOutput(p, id, out) =>
      if !PcOf(s, p).Idle? || id !in s.db.docs || CrossCheck(out, VocabOf(s, p)).Err? then s
      else SetPc(s, p, Classifying(Accepted, id, out, 0))
    case _ =>
      match PcOf(s, a.p)
      case Idle => s
      case Indexing(_, _, _, _, _, _, _) => IndexStep(cfg, s, a.p, a)
      case Classifying(_, _, _, _) => ClassifyStep(s, a.p, a)
  }

  function Run(cfg: Config, s: State, run: seq<Action>): State {
    if run == [] then s
    else Step(cfg, Run(cfg, s, run[..|run| - 1]), run[|run| - 1])
  }

  /** INSERT OR IGNORE of a list of edges, in order. */
  function InsertAll(edges: map<EdgeKey, real>, list: seq<Edge>): map<EdgeKey, real> {
    if list == [] then edges
    else
      var before := InsertAll(edges, list[..|list| - 1]);
      var e := list[|list| - 1];
      if Key(e) in before then before else before[Key(e) := e.weight]
  }

  /** What indexing one document adds to the tables. */
  function WithIndex(db: Tables, id: DocId, vec: Vec, list: seq<Edge>): Tables {
    db.(fts := db.fts + multiset{id}, vec := db.vec[id := vec], edges := InsertAll(db.edges, list))
  }

  /** What classifying one document changes in the tables. */
  function WithClassification(db: Tables, id: DocId, out: Output, v: Vocabulary): Tables {
    db.(docs := db.docs[id := Some(out.facets)], terms := TermsAfter(db.terms, out, v, |out.tagsProposed|))
  }

  /** A freshly migrated index: empty tables, no worker, no body file. */
  const INITIAL := State(Tables(map[], multiset{}, map[], map[], map[]), None, map[], map[], map[])
}
