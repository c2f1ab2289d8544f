/** Materialisation of the graph edges of a newly indexed document. */
module EdgesBuilder {
  import opened Wrappers

  type DocId = string
  type Vec = seq<real>

  datatype Kind = TagOverlap | SummarySimilarity | ExplicitRelated

  datatype Edge = Edge(src: DocId, dst: DocId, kind: Kind, weight: real)

  /** One row of the tag query; `tags` is None when `tags_json` does not parse. */
  datatype TagRow = TagRow(id: DocId, tags: Option<seq<string>>)

  datatype VecRow = VecRow(id: DocId, vec: Vec)

  /** Thresholds and the cosine similarity (one minus the vector extension's distance). */
  datatype EdgeConfig = EdgeConfig(tagThreshold: real, simThreshold: real, sim: (Vec, Vec) -> real)

  /***** Jaccard similarity *****/

  /** Size of the intersection over size of the union; 0 when both sets are empty. */
  function Jaccard(a: set<string>, b: set<string>): real {
    if a + b == {} then 0.0 else |a * b| as real / |a + b| as real
  }

  /** Counts the common elements one by one and derives the union's size from the count. */
  method ComputeJaccard(a: set<string>, b: set<string>) returns (j: real)
    ensures j == Jaccard(a, b)
  {
    if |a| == 0 && |b| == 0 {
      return 0.0;
    }
    var intersection := 0;
    var rest := a;
    while rest != {}
      invariant rest <= a
      invariant intersection == |(a - rest) * b|
      decreases rest
    {
      var x :| x in rest;
      OneMoreCommon(a, b, rest, x);
      if x in b {
        intersection := intersection + 1;
      }
      rest := rest - {x};
    }
    assert a - rest == a;
    var union := |a| + |b| - intersection;
    UnionSize(a, b);
    if union == 0 {
      return 0.0;
    }
    j := intersection as real / union as real;
  }

  lemma OneMoreCommon(a: set<string>, b: set<string>, rest: set<string>, x: string)
    requires x in rest && rest <= a
    ensures |(a - (rest - {x})) * b| == |(a - rest) * b| + (if x in b then 1 else 0)
  {
    var more := (a - (rest - {x})) * b;
    if x in b {
      assert more == (a - rest) * b + {x};
    } else {
      assert more == (a - rest) * b;
    }
  }

  lemma UnionSize(a: set<string>, b: set<string>)
    ensures |a + b| == |a| + |b| - |a * b|
    ensures |a + b| == 0 <==> a + b == {}
  {
  }

  lemma JaccardSymmetric(a: set<string>, b: set<string>)
    ensures Jaccard(a, b) == Jaccard(b, a)
  {
    assert a + b == b + a && a * b == b * a;
  }

  /** The ratio, without division: it times the size of the union is the size of the intersection. */
  lemma JaccardIs(a: set<string>, b: set<string>)
    ensures Jaccard(a, b) * |a + b| as real == |a * b| as real
    ensures a + b == {} ==> Jaccard(a, b) == 0.0
  {
    assert a * b <= a + b;
    if a + b != {} {
      var i, u := |a * b| as real, |a + b| as real;
      assert u > 0.0 && i / u * u == i;
    } else {
      assert a * b == {};
    }
  }

  /** A ratio in [0, 1]; 1 exactly on equal non-empty sets, positive exactly when a tag is shared. */
  lemma JaccardRange(a: set<string>, b: set<string>)
    ensures 0.0 <= Jaccard(a, b) <= 1.0
    ensures Jaccard(a, b) == 1.0 <==> a == b && a != {}
    ensures Jaccard(a, b) > 0.0 <==> a * b != {}
  {
    var i, u := a * b, a + b;
    if u == {} {
      assert a == {} && b == {};
    } else {
      SubsetSize(i, u);
      RatioRange(|i|, |u|);
      if i == u {
        assert a == b by {
          forall x ensures x in a <==> x in b {
            if x in a { assert x in u; }
            if x in b { assert x in u; }
          }
        }
      } else {
        assert a != b;
      }
    }
  }

  lemma RatioRange(i: nat, u: nat)
    requires i <= u && u > 0
    ensures 0.0 <= i as real / u as real <= 1.0
    ensures i as real / u as real == 1.0 <==> i == u
    ensures i as real / u as real > 0.0 <==> i > 0
  {
    var q := i as real / u as real;
    assert q * u as real == i as real;
  }

  lemma SubsetSize<T>(s: set<T>, t: set<T>)
    requires s <= t
    ensures |s| <= |t|
    ensures |s| == |t| <==> s == t
  {
    assert t == s + (t - s);
    assert |t| == |s| + |t - s|;
  }

  /***** The three edge classes *****/

  function TagEdges(id: DocId, tags: set<string>, rows: set<TagRow>, threshold: real): set<Edge> {
    if tags == {} then {}
    else set r | r in rows && r.tags.Some? && Jaccard(tags, Elems(r.tags.value)) >= threshold
           :: Edge(id, r.id, TagOverlap, Jaccard(tags, Elems(r.tags.value)))
  }

  function SimEdges(id: DocId, vec: Vec, rows: set<VecRow>, cfg: EdgeConfig): set<Edge> {
    set r | r in rows && cfg.sim(r.vec, vec) >= cfg.simThreshold
      :: Edge(id, r.id, SummarySimilarity, cfg.sim(r.vec, vec))
  }

  predicate LowerHex(c: char) {
    '0' <= c <= '9' || 'a' <= c <= 'f'
  }

  /** `doc-` followed by exactly eight lower-case hexadecimal digits. */
  predicate IsDocId(s: string) {
    |s| == 12 && s[..4] == "doc-" && forall i :: 4 <= i < 12 ==> LowerHex(s[i])
  }

  function ExplicitEdges(id: DocId, related: set<string>): set<Edge> {
    set r | r in related && r != id && IsDocId(r) :: Edge(id, r, ExplicitRelated, 1.0)
  }

  /** `s` is written as a document id: `doc-` and eight characters of 0-9 and a-f. */
  predicate WrittenAsId(s: string) {
    |s| == 12 && s[0] == 'd' && s[1] == 'o' && s[2] == 'c' && s[3] == '-'
    && forall i :: 4 <= i < 12 ==> s[i] in "0123456789abcdef"
  }

  /** The edge `e` of `id` that its tags and one row of the tag query make. */
  ghost predicate TagEdgeOf(e: Edge, id: DocId, tags: set<string>, rows: set<TagRow>, threshold: real) {
    && e.src == id && e.kind == TagOverlap && tags != {}
    && e.weight >= threshold
    && exists row :: row in rows && row.id == e.dst && row.tags.Some? && e.weight == Jaccard(tags, Elems(row.tags.value))
  }

  ghost predicate SimEdgeOf(e: Edge, id: DocId, vec: Vec, rows: set<VecRow>, cfg: EdgeConfig) {
    && e.src == id && e.kind == SummarySimilarity
    && e.weight >= cfg.simThreshold
    && exists row :: row in rows && row.id == e.dst && e.weight == cfg.sim(row.vec, vec)
  }

  predicate ExplicitEdgeOf(e: Edge, id: DocId, related: set<string>) {
    && e.src == id && e.kind == ExplicitRelated && e.weight == 1.0
    && e.dst in related && e.dst != id && WrittenAsId(e.dst)
  }

  /** Membership in the three classes, edge by edge. */
  lemma EdgeClasses(id: DocId, tags: set<string>, vec: Vec, related: set<string>, tagRows: set<TagRow>,
                    vecRows: set<VecRow>, cfg: EdgeConfig, e: Edge)
    ensures e in TagEdges(id, tags, tagRows, cfg.tagThreshold) <==> TagEdgeOf(e, id, tags, tagRows, cfg.tagThreshold)
    ensures e in SimEdges(id, vec, vecRows, cfg) <==> SimEdgeOf(e, id, vec, vecRows, cfg)
    ensures e in ExplicitEdges(id, related) <==> ExplicitEdgeOf(e, id, related)
  {
    TagClass(id, tags, tagRows, cfg.tagThreshold, e);
    SimClass(id, vec, vecRows, cfg, e);
    WrittenIffId(e.dst);
  }

  lemma TagClass(id: DocId, tags: set<string>, rows: set<TagRow>, threshold: real, e: Edge)
    ensures e in TagEdges(id, tags, rows, threshold) <==> TagEdgeOf(e, id, tags, rows, threshold)
  {
    hide Jaccard;
    if TagEdgeOf(e, id, tags, rows, threshold) {
      var row :| row in rows && row.id == e.dst && row.tags.Some? && e.weight == Jaccard(tags, Elems(row.tags.value));
      assert e == Edge(id, row.id, TagOverlap, Jaccard(tags, Elems(row.tags.value)));
    }
  }

  lemma SimClass(id: DocId, vec: Vec, rows: set<VecRow>, cfg: EdgeConfig, e: Edge)
    ensures e in SimEdges(id, vec, rows, cfg) <==> SimEdgeOf(e, id, vec, rows, cfg)
  {
    if SimEdgeOf(e, id, vec, rows, cfg) {
      var row :| row in rows && row.id == e.dst && e.weight == cfg.sim(row.vec, vec);
      assert e == Edge(id, row.id, SummarySimilarity, cfg.sim(row.vec, vec));
    }
  }

  lemma WrittenIffId(s: string)
    ensures WrittenAsId(s) <==> IsDocId(s)
  {
    var digits := "0123456789abcdef";
    forall c: char ensures c in digits <==> LowerHex(c) { HexDigit(c); }
    if |s| == 12 {
      assert s[..4] == [s[0], s[1], s[2], s[3]] && "doc-" == ['d', 'o', 'c', '-'];
    }
  }

  lemma HexDigit(c: char)
    ensures c in "0123456789abcdef" <==> LowerHex(c)
  {
    var digits := "0123456789abcdef";
    if '0' <= c <= '9' { assert digits[c as int - '0' as int] == c; }
    if 'a' <= c <= 'f' { assert digits[c as int - 'a' as int + 10] == c; }
  }

  /** The id made of a digest in lower-case hexadecimal, if it is related, gives exactly its explicit edge. */
  lemma RelatedDigest(id: DocId, related: set<string>, digest: string)
    requires |digest| == 64 && forall c :: c in digest ==> c in "0123456789abcdef"
    requires "doc-" + digest[..8] in related && "doc-" + digest[..8] != id
    ensures var dst := "doc-" + digest[..8];
      forall e :: e in ExplicitEdges(id, related) && e.dst == dst <==> e == Edge(id, dst, ExplicitRelated, 1.0)
  {
    var dst := "doc-" + digest[..8];
    assert forall i :: 4 <= i < 12 ==> dst[i] == digest[i - 4] && digest[i - 4] in digest;
    WrittenIffId(dst);
  }

  lemma TagEdgesSnoc(id: DocId, tags: set<string>, rows: seq<TagRow>, i: nat, threshold: real)
    requires tags != {} && i < |rows|
    ensures TagEdges(id, tags, Elems(rows[..i + 1]), threshold)
         == TagEdges(id, tags, Elems(rows[..i]), threshold) + TagEdges(id, tags, {rows[i]}, threshold)
  {
    ElemsTake(rows, i);
  }

  lemma SimEdgesSnoc(id: DocId, vec: Vec, rows: seq<VecRow>, i: nat, cfg: EdgeConfig)
    requires i < |rows|
    ensures SimEdges(id, vec, Elems(rows[..i + 1]), cfg)
         == SimEdges(id, vec, Elems(rows[..i]), cfg) + SimEdges(id, vec, {rows[i]}, cfg)
  {
    ElemsTake(rows, i);
  }

  lemma ExplicitEdgesSnoc(id: DocId, related: seq<string>, i: nat)
    requires i < |related|
    ensures ExplicitEdges(id, Elems(related[..i + 1]))
         == ExplicitEdges(id, Elems(related[..i])) + ExplicitEdges(id, {related[i]})
  {
    ElemsTake(related, i);
  }

  lemma ElemsTake<T>(s: seq<T>, i: nat)
    requires i < |s|
    ensures Elems(s[..i + 1]) == Elems(s[..i]) + {s[i]}
  {
    assert s[..i + 1] == s[..i] + [s[i]];
  }

  /**
   * Builds the candidate edges of `id` from the two query results. A vector table that cannot be
   * read (`vecRows` is None) only loses the similarity class.
   */
  method BuildEdges(id: DocId, tags: seq<string>, vec: Vec, related: seq<string>,
                    tagRows: seq<TagRow>, vecRows: Option<seq<VecRow>>, cfg: EdgeConfig)
    returns (edges: seq<Edge>)
    ensures Elems(edges) ==
      TagEdges(id, Elems(tags), Elems(tagRows), cfg.tagThreshold)
      + (if vecRows.Some? then SimEdges(id, vec, Elems(vecRows.value), cfg) else {})
      + ExplicitEdges(id, Elems(related))
    ensures forall e :: e in edges <==>
      || TagEdgeOf(e, id, Elems(tags), Elems(tagRows), cfg.tagThreshold)
      || (vecRows.Some? && SimEdgeOf(e, id, vec, Elems(vecRows.value), cfg))
      || ExplicitEdgeOf(e, id, Elems(related))
  {
    edges := AddTagEdges(id, tags, tagRows, cfg.tagThreshold);
    if vecRows.Some? {
      edges := AddSimEdges(edges, id, vec, vecRows.value, cfg);
    }
    edges := AddExplicitEdges(edges, id, related);
    hide TagEdges, SimEdges, ExplicitEdges, TagEdgeOf, SimEdgeOf, ExplicitEdgeOf;
    var vecs := if vecRows.Some? then Elems(vecRows.value) else {};
    forall e ensures e in edges <==>
      || TagEdgeOf(e, id, Elems(tags), Elems(tagRows), cfg.tagThreshold)
      || (vecRows.Some? && SimEdgeOf(e, id, vec, Elems(vecRows.value), cfg))
      || ExplicitEdgeOf(e, id, Elems(related))
    {
      EdgeClasses(id, Elems(tags), vec, Elems(related), Elems(tagRows), vecs, cfg, e);
      assert e in edges <==> e in Elems(edges);
    }
  }

  method AddTagEdges(id: DocId, tags: seq<string>, rows: seq<TagRow>, threshold: real)
    returns (edges: seq<Edge>)
    ensures Elems(edges) == TagEdges(id, Elems(tags), Elems(rows), threshold)
  {
    edges := [];
    var newTags := Elems(tags);
    if |newTags| > 0 {
      for i := 0 to |rows|
        invariant Elems(edges) == TagEdges(id, newTags, Elems(rows[..i]), threshold)
      {
        var row := rows[i];
        TagEdgesSnoc(id, newTags, rows, i, threshold);
        if row.tags.Some? {
          var j := ComputeJaccard(newTags, Elems(row.tags.value));
          if j >= threshold {
            edges := edges + [Edge(id, row.id, TagOverlap, j)];
          }
        }
      }
      assert rows[..|rows|] == rows;
    }
  }

  method AddSimEdges(soFar: seq<Edge>, id: DocId, vec: Vec, rows: seq<VecRow>, cfg: EdgeConfig)
    returns (edges: seq<Edge>)
    ensures Elems(edges) == Elems(soFar) + SimEdges(id, vec, Elems(rows), cfg)
  {
    edges := soFar;
    for i := 0 to |rows|
      invariant Elems(edges) == Elems(soFar) + SimEdges(id, vec, Elems(rows[..i]), cfg)
    {
      SimEdgesSnoc(id, vec, rows, i, cfg);
      var sim := cfg.sim(rows[i].vec, vec);
      ghost var step := SimEdges(id, vec, {rows[i]}, cfg);
      if sim >= cfg.simThreshold {
        assert step == {Edge(id, rows[i].id, SummarySimilarity, sim)};
        ElemsSnoc(edges, Edge(id, rows[i].id, SummarySimilarity, sim));
        edges := edges + [Edge(id, rows[i].id, SummarySimilarity, sim)];
      } else {
        assert step == {};
      }
    }
    assert rows[..|rows|] == rows;
  }

  method AddExplicitEdges(soFar: seq<Edge>, id: DocId, related: seq<string>)
    returns (edges: seq<Edge>)
    ensures Elems(edges) == Elems(soFar) + ExplicitEdges(id, Elems(related))
  {
    edges := soFar;
    for i := 0 to |related|
      invariant Elems(edges) == Elems(soFar) + ExplicitEdges(id, Elems(related[..i]))
    {
      ExplicitEdgesSnoc(id, related, i);
      ghost var step := ExplicitEdges(id, {related[i]});
      if related[i] != id && IsDocId(related[i]) {
        assert step == {Edge(id, related[i], ExplicitRelated, 1.0)};
        ElemsSnoc(edges, Edge(id, related[i], ExplicitRelated, 1.0));
        edges := edges + [Edge(id, related[i], ExplicitRelated, 1.0)];
      } else {
        assert step == {};
      }
    }
    assert related[..|related|] == related;
  }
}
