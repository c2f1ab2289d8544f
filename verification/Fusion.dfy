/** Reciprocal rank fusion with the confidence multiplier, over real arithmetic. */
module Fusion {
  import opened Wrappers

  type DocId = string
  type Rank = n: int | n >= 1 witness 1

  datatype SignalKind = Bm25 | Dense | Graph | Confidence

  datatype Ranked = Ranked(docId: DocId, rank: Rank)

  datatype Signal = Signal(kind: SignalKind, results: seq<Ranked>, succeeded: bool)

  datatype Hit = Hit(docId: DocId, score: real, contrib: map<SignalKind, Rank>)

  type Weights = map<DocId, real>

  /***** Scores *****/

  /** One entry of a ranked list, with the signal it comes from. */
  datatype Listing = Listing(kind: SignalKind, entry: Ranked)

  function Tagged(kind: SignalKind, results: seq<Ranked>): seq<Listing> {
    seq(|results|, i requires 0 <= i < |results| => Listing(kind, results[i]))
  }

  /** All entries of the succeeded signals. */
  function Listings(signals: seq<Signal>): seq<Listing> {
    if signals == [] then []
    else
      var s := signals[|signals| - 1];
      Listings(signals[..|signals| - 1]) + if s.succeeded then Tagged(s.kind, s.results) else []
  }

  function Reciprocal(k: nat, rank: Rank): real {
    1.0 / (k + rank) as real
  }

  /** The RRF sum of a document over a list of entries. */
  function Rrf(ls: seq<Listing>, doc: DocId, k: nat): real {
    if ls == [] then 0.0
    else
      Rrf(ls[..|ls| - 1], doc, k)
      + if ls[|ls| - 1].entry.docId == doc then Reciprocal(k, ls[|ls| - 1].entry.rank) else 0.0
  }

  /** The last rank each kind of signal gave the document. */
  function Contrib(ls: seq<Listing>, doc: DocId): map<SignalKind, Rank> {
    if ls == [] then map[]
    else
      var before, l := Contrib(ls[..|ls| - 1], doc), ls[|ls| - 1];
      if l.entry.docId == doc then before[l.kind := l.entry.rank] else before
  }

  /** Listed documents, each once, in the order of their first entry. */
  function Candidates(ls: seq<Listing>): seq<DocId> {
    if ls == [] then []
    else
      var before, doc := Candidates(ls[..|ls| - 1]), ls[|ls| - 1].entry.docId;
      if doc in before then before else before + [doc]
  }

  function WeightOf(weights: Weights, doc: DocId): real {
    if doc in weights then weights[doc] else 1.0
  }

  function Score(ls: seq<Listing>, k: nat, weights: Weights, doc: DocId): real {
    Rrf(ls, doc, k) * WeightOf(weights, doc)
  }

  function HitOf(ls: seq<Listing>, k: nat, weights: Weights, doc: DocId): Hit {
    Hit(doc, Score(ls, k, weights, doc), Contrib(ls, doc))
  }

  function HitsOf(ls: seq<Listing>, k: nat, weights: Weights, docs: seq<DocId>): seq<Hit> {
    seq(|docs|, i requires 0 <= i < |docs| => HitOf(ls, k, weights, docs[i]))
  }

  /***** The library's stable descending sort *****/

  /** After every hit that scores at least as much. */
  function InsertHit(sorted: seq<Hit>, h: Hit): seq<Hit> {
    if sorted == [] || sorted[|sorted| - 1].score >= h.score then sorted + [h]
    else InsertHit(sorted[..|sorted| - 1], h) + [sorted[|sorted| - 1]]
  }

  function SortHits(hits: seq<Hit>): seq<Hit> {
    if hits == [] then [] else InsertHit(SortHits(hits[..|hits| - 1]), hits[|hits| - 1])
  }

  ghost predicate Descending(hits: seq<Hit>) {
    forall i, j :: 0 <= i <= j < |hits| ==> hits[i].score >= hits[j].score
  }

  lemma {:induction false} InsertHitBound(sorted: seq<Hit>, h: Hit, x: real)
    requires h.score >= x && forall e :: e in sorted ==> e.score >= x
    ensures forall e :: e in InsertHit(sorted, h) ==> e.score >= x
  {
    if sorted != [] && sorted[|sorted| - 1].score < h.score {
      InsertHitBound(sorted[..|sorted| - 1], h, x);
      assert sorted[|sorted| - 1] in sorted;
    }
  }

  lemma {:induction false} InsertHitPermutes(sorted: seq<Hit>, h: Hit)
    ensures multiset(InsertHit(sorted, h)) == multiset(sorted) + multiset{h}
  {
    if sorted != [] && sorted[|sorted| - 1].score < h.score {
      InsertHitPermutes(sorted[..|sorted| - 1], h);
      assert sorted == sorted[..|sorted| - 1] + [sorted[|sorted| - 1]];
    }
  }

  lemma {:induction false} InsertHitSorts(sorted: seq<Hit>, h: Hit)
    requires Descending(sorted)
    ensures Descending(InsertHit(sorted, h))
  {
    if sorted != [] && sorted[|sorted| - 1].score < h.score {
      var before, last := sorted[..|sorted| - 1], sorted[|sorted| - 1];
      InsertHitSorts(before, h);
      forall e | e in before ensures e.score >= last.score {
        var j :| 0 <= j < |before| && before[j] == e;
        assert sorted[j] == e;
      }
      InsertHitBound(before, h, last.score);
      DescendingSnoc(InsertHit(before, h), last);
    }
  }

  lemma DescendingSnoc(hits: seq<Hit>, last: Hit)
    requires Descending(hits) && forall e :: e in hits ==> e.score >= last.score
    ensures Descending(hits + [last])
  {
    forall i, j | 0 <= i <= j < |hits + [last]| ensures (hits + [last])[i].score >= (hits + [last])[j].score {
      if i < |hits| { assert hits[i] in hits; }
    }
  }

  lemma {:induction false} SortHitsSorts(hits: seq<Hit>)
    ensures Descending(SortHits(hits)) && multiset(SortHits(hits)) == multiset(hits)
    ensures |SortHits(hits)| == |hits|
  {
    if hits != [] {
      hide Descending, InsertHit;
      SortHitsSorts(hits[..|hits| - 1]);
      InsertHitSorts(SortHits(hits[..|hits| - 1]), hits[|hits| - 1]);
      InsertHitPermutes(SortHits(hits[..|hits| - 1]), hits[|hits| - 1]);
      assert hits == hits[..|hits| - 1] + [hits[|hits| - 1]];
    }
    assert |multiset(SortHits(hits))| == |SortHits(hits)|;
  }

  /***** Fusion *****/

  function Ranking(ls: seq<Listing>, k: nat, weights: Weights): seq<Hit> {
    SortHits(HitsOf(ls, k, weights, Candidates(ls)))
  }

  function Take(hits: seq<Hit>, limit: nat): seq<Hit> {
    if limit <= |hits| then hits[..limit] else hits
  }

  function Fuse(signals: seq<Signal>, k: nat, weights: Weights, limit: nat): seq<Hit> {
    Take(Ranking(Listings(signals), k, weights), limit)
  }

  /** What the score map holds after some of the entries. */
  ghost predicate Accumulated(ls: seq<Listing>, k: nat, order: seq<DocId>, rrf: map<DocId, real>,
                              contrib: map<DocId, map<SignalKind, Rank>>) {
    && order == Candidates(ls)
    && (forall d :: d in rrf <==> d in order) && (forall d :: d in contrib <==> d in order)
    && (forall d :: d in order ==> rrf[d] == Rrf(ls, d, k) && contrib[d] == Contrib(ls, d))
  }

  lemma AccumulateOne(ls: seq<Listing>, l: Listing, k: nat, order: seq<DocId>, rrf: map<DocId, real>,
                      contrib: map<DocId, map<SignalKind, Rank>>)
    requires Accumulated(ls, k, order, rrf, contrib)
    ensures var d := l.entry.docId;
      Accumulated(ls + [l], k, if d in order then order else order + [d],
        rrf[d := (if d in rrf then rrf[d] else 0.0) + Reciprocal(k, l.entry.rank)],
        contrib[d := (if d in contrib then contrib[d] else map[])[l.kind := l.entry.rank]])
  {
    hide Rrf, Contrib, Candidates, Reciprocal;
    OneListing(ls, l, k);
    if l.entry.docId !in order {
      Unlisted(ls, l.entry.docId, k);
    }
  }

  lemma OneListing(ls: seq<Listing>, l: Listing, k: nat)
    ensures forall d :: d != l.entry.docId ==> Rrf(ls + [l], d, k) == Rrf(ls, d, k) && Contrib(ls + [l], d) == Contrib(ls, d)
    ensures var d := l.entry.docId;
      && Rrf(ls + [l], d, k) == Rrf(ls, d, k) + Reciprocal(k, l.entry.rank)
      && Contrib(ls + [l], d) == Contrib(ls, d)[l.kind := l.entry.rank]
      && Candidates(ls + [l]) == if d in Candidates(ls) then Candidates(ls) else Candidates(ls) + [d]
  {
    assert (ls + [l])[..|ls|] == ls;
  }

  lemma {:induction false} Unlisted(ls: seq<Listing>, doc: DocId, k: nat)
    requires doc !in Candidates(ls)
    ensures Rrf(ls, doc, k) == 0.0 && Contrib(ls, doc) == map[]
  {
    if ls != [] {
      Unlisted(ls[..|ls| - 1], doc, k);
    }
  }

  lemma TaggedSnoc(before: seq<Listing>, s: Signal, j: nat)
    requires j < |s.results|
    ensures before + Tagged(s.kind, s.results[..j + 1])
         == before + Tagged(s.kind, s.results[..j]) + [Listing(s.kind, s.results[j])]
  {
  }

  /** Adds the entries of one succeeded signal to the map. */
  method AddSignal(s: Signal, ghost before: seq<Listing>, k: nat, order0: seq<DocId>, rrf0: map<DocId, real>,
                   contrib0: map<DocId, map<SignalKind, Rank>>)
    returns (order: seq<DocId>, rrf: map<DocId, real>, contrib: map<DocId, map<SignalKind, Rank>>)
    requires Accumulated(before, k, order0, rrf0, contrib0)
    ensures Accumulated(before + Tagged(s.kind, s.results), k, order, rrf, contrib)
  {
    order, rrf, contrib := order0, rrf0, contrib0;
    assert before + Tagged(s.kind, s.results[..0]) == before;
    for j := 0 to |s.results|
      invariant Accumulated(before + Tagged(s.kind, s.results[..j]), k, order, rrf, contrib)
    {
      hide Accumulated, Reciprocal;
      var r := s.results[j];
      AccumulateOne(before + Tagged(s.kind, s.results[..j]), Listing(s.kind, r), k, order, rrf, contrib);
      TaggedSnoc(before, s, j);
      var sum := (if r.docId in rrf then rrf[r.docId] else 0.0) + Reciprocal(k, r.rank);
      var ranks := (if r.docId in contrib then contrib[r.docId] else map[])[s.kind := r.rank];
      rrf, contrib := rrf[r.docId := sum], contrib[r.docId := ranks];
      if r.docId !in order { order := order + [r.docId]; }
    }
    assert s.results[..|s.results|] == s.results;
  }

  method Accumulate(signals: seq<Signal>, k: nat)
    returns (order: seq<DocId>, rrf: map<DocId, real>, contrib: map<DocId, map<SignalKind, Rank>>)
    ensures Accumulated(Listings(signals), k, order, rrf, contrib)
  {
    order, rrf, contrib := [], map[], map[];
    for i := 0 to |signals|
      invariant Accumulated(Listings(signals[..i]), k, order, rrf, contrib)
    {
      hide Accumulated;
      assert signals[..i + 1][..i] == signals[..i];
      if signals[i].succeeded {
        order, rrf, contrib := AddSignal(signals[i], Listings(signals[..i]), k, order, rrf, contrib);
      } else {
        assert Listings(signals[..i]) + [] == Listings(signals[..i]);
      }
    }
    assert signals[..|signals|] == signals;
  }

  /** Accumulates the scores in a map, multiplies by the weights, sorts, and cuts. */
  method FuseRrf(signals: seq<Signal>, k: nat, weights: Weights, limit: nat) returns (hits: seq<Hit>)
    ensures hits == Fuse(signals, k, weights, limit)
  {
    var order, rrf, contrib := Accumulate(signals, k);
    ghost var ls := Listings(signals);
    hide Rrf, Contrib, HitsOf, SortHits, Candidates, WeightOf;
    hits := [];
    HitsNone(ls, k, weights);
    for i := 0 to |order|
      invariant hits == HitsOf(ls, k, weights, order[..i])
    {
      var doc := order[i];
      assert doc in order;
      HitsSnoc(ls, k, weights, order, i);
      assert rrf[doc] == Rrf(ls, doc, k) && contrib[doc] == Contrib(ls, doc);
      var cw := WeightOf(weights, doc);
      var hit := Hit(doc, rrf[doc] * cw, contrib[doc]);
      assert hit.score == Score(ls, k, weights, doc);
      hits := hits + [hit];
    }
    assert order[..|order|] == order;
    hits := SortHits(hits);
    if limit < |hits| {
      hits := hits[..limit];
    }
  }

  lemma HitsSnoc(ls: seq<Listing>, k: nat, weights: Weights, docs: seq<DocId>, i: nat)
    requires i < |docs|
    ensures HitsOf(ls, k, weights, docs[..i + 1]) == HitsOf(ls, k, weights, docs[..i]) + [HitOf(ls, k, weights, docs[i])]
  {
    hide HitOf;
  }

  lemma HitsNone(ls: seq<Listing>, k: nat, weights: Weights)
    ensures HitsOf(ls, k, weights, []) == []
  {
  }

  /***** What the fused list is *****/

  lemma {:induction false} CandidatesAre(ls: seq<Listing>)
    ensures forall d :: d in Candidates(ls) <==> exists l :: l in ls && l.entry.docId == d
    ensures forall i, j :: 0 <= i < j < |Candidates(ls)| ==> Candidates(ls)[i] != Candidates(ls)[j]
  {
    if ls != [] {
      var before, last := ls[..|ls| - 1], ls[|ls| - 1];
      CandidatesAre(before);
      assert ls == before + [last];
      forall d ensures d in Candidates(ls) <==> exists l :: l in ls && l.entry.docId == d {
        if d in Candidates(before) {
          var l :| l in before && l.entry.docId == d;
          assert l in ls;
        }
        if d == last.entry.docId { assert last in ls; }
      }
    }
  }

  /** Two places of a sequence without repetition hold different members, in any arrangement. */
  lemma PermutationKeepsDistinct<T>(s: seq<T>, t: seq<T>)
    requires multiset(s) == multiset(t)
    requires forall i, j :: 0 <= i < j < |s| ==> s[i] != s[j]
    ensures forall i, j :: 0 <= i < j < |t| ==> t[i] != t[j]
  {
    forall i, j | 0 <= i < j < |t| ensures t[i] != t[j] {
      TwoPlaces(t, i, j);
      assert t[i] in multiset(s);
      OnePlace(s, t[i]);
    }
  }

  lemma TwoPlaces<T>(t: seq<T>, i: nat, j: nat)
    requires i < j < |t|
    ensures t[i] == t[j] ==> multiset(t)[t[i]] >= 2
  {
    assert t == t[..i] + [t[i]] + t[i + 1..j] + [t[j]] + t[j + 1..];
  }

  lemma OnePlace<T>(s: seq<T>, x: T)
    requires x in s && forall i, j :: 0 <= i < j < |s| ==> s[i] != s[j]
    ensures multiset(s)[x] == 1
  {
    var i :| 0 <= i < |s| && s[i] == x;
    assert s == s[..i] + [x] + s[i + 1..];
    assert x !in s[..i] && x !in s[i + 1..];
  }

  /**
   * The full ranking: every listed document once, with its weighted sum as score, in descending order.
   */
  lemma RankingIs(ls: seq<Listing>, k: nat, weights: Weights)
    ensures var r := Ranking(ls, k, weights);
      && Descending(r)
      && (forall h :: h in r ==> h == HitOf(ls, k, weights, h.docId) && exists l :: l in ls && l.entry.docId == h.docId)
      && (forall l :: l in ls ==> HitOf(ls, k, weights, l.entry.docId) in r)
      && (forall i, j :: 0 <= i < j < |r| ==> r[i].docId != r[j].docId)
  {
    var docs := Candidates(ls);
    var hits := HitsOf(ls, k, weights, docs);
    var r := Ranking(ls, k, weights);
    CandidatesAre(ls);
    SortHitsSorts(hits);
    forall h | h in r ensures h == HitOf(ls, k, weights, h.docId) && h.docId in docs {
      assert h in multiset(hits);
      var i :| 0 <= i < |hits| && hits[i] == h;
      assert docs[i] in docs;
    }
    forall l | l in ls ensures HitOf(ls, k, weights, l.entry.docId) in r {
      assert l.entry.docId in docs;
      var i :| 0 <= i < |docs| && docs[i] == l.entry.docId;
      assert hits[i] in multiset(hits);
      assert hits[i] in multiset(r);
    }
    forall i, j | 0 <= i < j < |hits| ensures hits[i] != hits[j] {
      assert hits[i].docId == docs[i] && hits[j].docId == docs[j];
    }
    PermutationKeepsDistinct(hits, r);
    forall i, j | 0 <= i < j < |r| ensures r[i].docId != r[j].docId {
      assert r[i] in r && r[j] in r;
    }
  }

  /**
   * The returned list: sorted, duplicate-free, every score the weighted RRF sum over the succeeded
   * signals, as long as the limit allows, and no omitted document scores above a returned one.
   */
  lemma FusedList(signals: seq<Signal>, k: nat, weights: Weights, limit: nat)
    ensures var ls := Listings(signals); var hits := Fuse(signals, k, weights, limit);
      && Descending(hits) && |hits| <= limit
      && (forall i, j :: 0 <= i < j < |hits| ==> hits[i].docId != hits[j].docId)
      && (forall h :: h in hits ==> h.score == Score(ls, k, weights, h.docId) && h.contrib == Contrib(ls, h.docId))
      && (|hits| < limit ==> forall l :: l in ls ==> HitOf(ls, k, weights, l.entry.docId) in hits)
      && (forall l, h :: l in ls && h in hits && HitOf(ls, k, weights, l.entry.docId) !in hits
            ==> Score(ls, k, weights, l.entry.docId) <= h.score)
  {
    var ls, hits := Listings(signals), Fuse(signals, k, weights, limit);
    var r := Ranking(ls, k, weights);
    RankingIs(ls, k, weights);
    hide Rrf, Contrib, Ranking, Listings, WeightOf;
    forall h | h in hits ensures h in r {}
    forall l, h | l in ls && h in hits && HitOf(ls, k, weights, l.entry.docId) !in hits
      ensures Score(ls, k, weights, l.entry.docId) <= h.score
    {
      var out := HitOf(ls, k, weights, l.entry.docId);
      var i :| 0 <= i < |r| && r[i] == out;
      var j :| 0 <= j < |hits| && hits[j] == h;
      assert r[j] == h && j < limit;
      assert i >= |hits|;
    }
  }

  /** A smaller limit returns a prefix. */
  lemma LimitIsPrefix(signals: seq<Signal>, k: nat, weights: Weights, small: nat, large: nat)
    requires small <= large
    ensures Fuse(signals, k, weights, small) <= Fuse(signals, k, weights, large)
    ensures |Fuse(signals, k, weights, small)| == small || Fuse(signals, k, weights, small) == Fuse(signals, k, weights, large)
  {
  }
}
