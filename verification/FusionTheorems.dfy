/** Order independence, dominance, and the bound behind the choice of k. */
module FusionTheorems {
  import opened Wrappers
  import opened Fusion

  /***** The sum over entries is a sum over a multiset *****/

  function Share(l: Listing, doc: DocId, k: nat): real {
    if l.entry.docId == doc then Reciprocal(k, l.entry.rank) else 0.0
  }

  lemma {:induction false} RrfConcat(a: seq<Listing>, b: seq<Listing>, doc: DocId, k: nat)
    ensures Rrf(a + b, doc, k) == Rrf(a, doc, k) + Rrf(b, doc, k)
  {
    if b == [] {
      assert a + b == a;
    } else {
      assert (a + b)[..|a + b| - 1] == a + b[..|b| - 1];
      RrfConcat(a, b[..|b| - 1], doc, k);
    }
  }

  lemma RrfSingle(l: Listing, doc: DocId, k: nat)
    ensures Rrf([l], doc, k) == Share(l, doc, k)
  {
    assert Rrf([l][..0], doc, k) == 0.0;
  }

  function Without<A>(s: seq<A>, i: nat): seq<A>
    requires i < |s|
  {
    s[..i] + s[i + 1..]
  }

  lemma WithoutMultiset<A>(s: seq<A>, i: nat)
    requires i < |s|
    ensures multiset(Without(s, i)) == multiset(s) - multiset{s[i]}
    ensures i == |s| - 1 ==> Without(s, i) == s[..i]
  {
    assert s == s[..i] + [s[i]] + s[i + 1..];
  }

  /** In a permutation of `a` there is a place of a's last member, and the rest are permutations too. */
  lemma MatchLast<A>(a: seq<A>, b: seq<A>) returns (i: nat)
    requires multiset(a) == multiset(b) && a != []
    ensures |a| == |b| && i < |b| && b[i] == a[|a| - 1]
    ensures multiset(a[..|a| - 1]) == multiset(Without(b, i))
  {
    assert |a| == |multiset(a)| && |b| == |multiset(b)|;
    assert a[|a| - 1] in multiset(b);
    i :| 0 <= i < |b| && b[i] == a[|a| - 1];
    WithoutMultiset(a, |a| - 1);
    WithoutMultiset(b, i);
  }

  lemma SameLength<A>(a: seq<A>, b: seq<A>)
    requires multiset(a) == multiset(b)
    ensures |a| == |b|
  {
    assert |a| == |multiset(a)| && |b| == |multiset(b)|;
  }

  /** A member can be taken out of the middle. */
  lemma RrfRemove(ls: seq<Listing>, i: nat, doc: DocId, k: nat)
    requires i < |ls|
    ensures Rrf(ls, doc, k) == Rrf(Without(ls, i), doc, k) + Share(ls[i], doc, k)
  {
    assert ls == ls[..i] + [ls[i]] + ls[i + 1..];
    RrfConcat(ls[..i] + [ls[i]], ls[i + 1..], doc, k);
    RrfConcat(ls[..i], [ls[i]], doc, k);
    RrfConcat(ls[..i], ls[i + 1..], doc, k);
    RrfSingle(ls[i], doc, k);
  }

  lemma {:induction false} RrfOfMultiset(a: seq<Listing>, b: seq<Listing>, doc: DocId, k: nat)
    requires multiset(a) == multiset(b)
    ensures Rrf(a, doc, k) == Rrf(b, doc, k)
  {
    SameLength(a, b);
    if a != [] {
      hide Without, Reciprocal;
      var i := MatchLast(a, b);
      RrfRemove(b, i, doc, k);
      RrfOfMultiset(a[..|a| - 1], Without(b, i), doc, k);
    }
  }

  lemma {:induction false} ListingsConcat(a: seq<Signal>, b: seq<Signal>)
    ensures Listings(a + b) == Listings(a) + Listings(b)
  {
    if b == [] {
      assert a + b == a;
    } else {
      assert (a + b)[..|a + b| - 1] == a + b[..|b| - 1];
      ListingsConcat(a, b[..|b| - 1]);
    }
  }

  lemma ListingsRemove(s: seq<Signal>, i: nat)
    requires i < |s|
    ensures multiset(Listings(s)) == multiset(Listings(Without(s, i))) + multiset(Listings([s[i]]))
  {
    hide Listings;
    assert s == s[..i] + [s[i]] + s[i + 1..];
    ListingsConcat(s[..i] + [s[i]], s[i + 1..]);
    ListingsConcat(s[..i], [s[i]]);
    ListingsConcat(s[..i], s[i + 1..]);
    var x, y, z := Listings(s[..i]), Listings([s[i]]), Listings(s[i + 1..]);
    assert Listings(s) == x + y + z && Listings(Without(s, i)) == x + z;
  }

  lemma {:induction false} ListingsOfMultiset(a: seq<Signal>, b: seq<Signal>)
    requires multiset(a) == multiset(b)
    ensures multiset(Listings(a)) == multiset(Listings(b))
  {
    SameLength(a, b);
    if a != [] {
      hide Without, Listings;
      var i := MatchLast(a, b);
      ListingsRemove(b, i);
      ListingsRemove(a, |a| - 1);
      WithoutMultiset(a, |a| - 1);
      ListingsOfMultiset(a[..|a| - 1], Without(b, i));
    }
  }

  /** Neither a document's score nor whether it is listed depends on the order of the signals. */
  lemma ScoresIgnoreSignalOrder(a: seq<Signal>, b: seq<Signal>, k: nat, weights: Weights, doc: DocId)
    requires multiset(a) == multiset(b)
    ensures Score(Listings(a), k, weights, doc) == Score(Listings(b), k, weights, doc)
    ensures doc in Candidates(Listings(a)) <==> doc in Candidates(Listings(b))
  {
    hide Listings, Candidates, Rrf;
    ListingsOfMultiset(a, b);
    RrfOfMultiset(Listings(a), Listings(b), doc, k);
    SameCandidates(Listings(a), Listings(b), doc);
  }

  lemma SameCandidates(x: seq<Listing>, y: seq<Listing>, doc: DocId)
    requires multiset(x) == multiset(y)
    ensures doc in Candidates(x) <==> doc in Candidates(y)
  {
    hide Candidates;
    CandidatesAre(x);
    CandidatesAre(y);
    SameMembers(x, y);
  }

  lemma SameMembers<T>(s: seq<T>, t: seq<T>)
    requires multiset(s) == multiset(t)
    ensures forall x :: x in s <==> x in t
  {
    forall x ensures x in s <==> x in t {
      assert x in s <==> x in multiset(s);
      assert x in t <==> x in multiset(t);
    }
  }

  function Map<A>(xs: seq<A>, f: A -> real): seq<real> {
    seq(|xs|, i requires 0 <= i < |xs| => f(xs[i]))
  }

  function Scores(hits: seq<Hit>): seq<real> {
    Map(hits, (h: Hit) => h.score)
  }

  /** Sequences without repetition and with the same members are permutations of each other. */
  lemma DistinctPermutation<T>(s: seq<T>, t: seq<T>)
    requires forall i, j :: 0 <= i < j < |s| ==> s[i] != s[j]
    requires forall i, j :: 0 <= i < j < |t| ==> t[i] != t[j]
    requires forall x :: x in s <==> x in t
    ensures multiset(s) == multiset(t)
  {
    forall x ensures multiset(s)[x] == multiset(t)[x] {
      CountDistinct(s, x);
      CountDistinct(t, x);
    }
  }

  lemma CountDistinct<T>(s: seq<T>, x: T)
    requires forall i, j :: 0 <= i < j < |s| ==> s[i] != s[j]
    ensures multiset(s)[x] == if x in s then 1 else 0
  {
    if x in s { OnePlace(s, x); }
  }

  lemma MapRemove<A>(s: seq<A>, i: nat, f: A -> real)
    requires i < |s|
    ensures multiset(Map(s, f)) == multiset(Map(Without(s, i), f)) + multiset{f(s[i])}
  {
    assert Map(Without(s, i), f) == Without(Map(s, f), i);
    WithoutMultiset(Map(s, f), i);
    assert Map(s, f)[i] in multiset(Map(s, f));
  }

  /** Mapping permutations through the same function gives permutations. */
  lemma {:induction false} MapOfMultiset<A>(ds: seq<A>, es: seq<A>, f: A -> real)
    requires multiset(ds) == multiset(es)
    ensures multiset(Map(ds, f)) == multiset(Map(es, f))
  {
    SameLength(ds, es);
    if ds != [] {
      hide Without, Map;
      var i := MatchLast(ds, es);
      MapRemove(ds, |ds| - 1, f);
      MapRemove(es, i, f);
      WithoutMultiset(ds, |ds| - 1);
      MapOfMultiset(ds[..|ds| - 1], Without(es, i), f);
    }
  }

  ghost predicate DescendingReals(s: seq<real>) {
    forall i, j :: 0 <= i <= j < |s| ==> s[i] >= s[j]
  }

  lemma LastIsLeast(s: seq<real>, t: seq<real>)
    requires DescendingReals(s) && multiset(s) == multiset(t) && s != [] && t != []
    ensures t[|t| - 1] >= s[|s| - 1]
  {
    assert t[|t| - 1] in multiset(s);
  }

  /** There is only one descending arrangement of given numbers. */
  lemma {:induction false} DescendingUnique(s: seq<real>, t: seq<real>)
    requires DescendingReals(s) && DescendingReals(t) && multiset(s) == multiset(t)
    ensures s == t
  {
    SameLength(s, t);
    if s != [] {
      var n := |s| - 1;
      LastsAgree(s, t);
      ShorterDescends(s, n);
      ShorterDescends(t, n);
      hide DescendingReals;
      DescendingUnique(s[..n], t[..n]);
      assert s == s[..n] + [s[n]] && t == t[..n] + [t[n]];
    }
  }

  lemma LastsAgree(s: seq<real>, t: seq<real>)
    requires DescendingReals(s) && DescendingReals(t) && multiset(s) == multiset(t) && |s| == |t| > 0
    ensures s[|s| - 1] == t[|t| - 1] && multiset(s[..|s| - 1]) == multiset(t[..|t| - 1])
  {
    LastIsLeast(s, t);
    LastIsLeast(t, s);
    hide DescendingReals;
    WithoutLast(s);
    WithoutLast(t);
  }

  lemma WithoutLast(s: seq<real>)
    requires s != []
    ensures multiset(s[..|s| - 1]) == multiset(s) - multiset{s[|s| - 1]}
  {
    assert s == s[..|s| - 1] + [s[|s| - 1]];
  }

  lemma ShorterDescends(s: seq<real>, n: nat)
    requires DescendingReals(s) && n <= |s|
    ensures DescendingReals(s[..n])
  {
  }

  /** Position by position the returned scores are the same whatever the order of the signals. */
  lemma ReturnedScoresIgnoreSignalOrder(a: seq<Signal>, b: seq<Signal>, k: nat, weights: Weights, limit: nat)
    requires multiset(a) == multiset(b)
    ensures Scores(Fuse(a, k, weights, limit)) == Scores(Fuse(b, k, weights, limit))
  {
    var la, lb := Listings(a), Listings(b);
    var ra, rb := Ranking(la, k, weights), Ranking(lb, k, weights);
    var ca, cb := Candidates(la), Candidates(lb);
    hide Ranking, Score, Candidates, Listings, Take;
    CandidatesAre(la);
    CandidatesAre(lb);
    forall d ensures (d in ca <==> d in cb) && Score(la, k, weights, d) == Score(lb, k, weights, d) {
      ScoresIgnoreSignalOrder(a, b, k, weights, d);
    }
    DistinctPermutation(ca, cb);
    var f := d => Score(la, k, weights, d);
    MapOfMultiset(ca, cb, f);
    RankedScores(la, k, weights, f);
    RankedScores(lb, k, weights, f);
    DescendingUnique(Scores(ra), Scores(rb));
    ScoresOfTake(ra, limit);
    ScoresOfTake(rb, limit);
  }

  lemma ScoresOfTake(r: seq<Hit>, limit: nat)
    ensures Scores(Take(r, limit)) == if limit <= |Scores(r)| then Scores(r)[..limit] else Scores(r)
  {
  }

  lemma RankedScores(ls: seq<Listing>, k: nat, weights: Weights, f: DocId -> real)
    requires forall d :: f(d) == Score(ls, k, weights, d)
    ensures var r := Ranking(ls, k, weights);
      DescendingReals(Scores(r)) && multiset(Scores(r)) == multiset(Map(Candidates(ls), f))
  {
    var hits := HitsOf(ls, k, weights, Candidates(ls));
    SortHitsSorts(hits);
    MapOfMultiset(SortHits(hits), hits, (h: Hit) => h.score);
    assert Scores(hits) == Map(Candidates(ls), f);
  }

  /***** Failed signals *****/

  function Succeeded(signals: seq<Signal>): seq<Signal> {
    if signals == [] then []
    else
      Succeeded(signals[..|signals| - 1])
      + if signals[|signals| - 1].succeeded then [signals[|signals| - 1]] else []
  }

  /** A failed signal leaves no trace in the result. */
  lemma {:induction false} FailedSignalsDoNotMatter(signals: seq<Signal>, k: nat, weights: Weights, limit: nat)
    ensures Fuse(signals, k, weights, limit) == Fuse(Succeeded(signals), k, weights, limit)
    ensures Listings(signals) == Listings(Succeeded(signals))
  {
    if signals != [] {
      var before, last := signals[..|signals| - 1], signals[|signals| - 1];
      FailedSignalsDoNotMatter(before, k, weights, limit);
      if last.succeeded {
        ListingsConcat(Succeeded(before), [last]);
        assert Listings([last][..0]) == [];
      } else {
        assert Succeeded(before) + [] == Succeeded(before);
        assert Listings(before) + [] == Listings(before);
      }
    }
  }

  /***** Dominance *****/

  /** A ranked list gives each document at most one place. */
  ghost predicate Unique(s: Signal) {
    forall i, j :: 0 <= i < j < |s.results| ==> s.results[i].docId != s.results[j].docId
  }

  function RankIn(results: seq<Ranked>, doc: DocId): Option<Rank> {
    if results == [] then None
    else if results[|results| - 1].docId == doc then Some(results[|results| - 1].rank)
    else RankIn(results[..|results| - 1], doc)
  }

  /** What one signal contributes to a document. */
  function Part(s: Signal, doc: DocId, k: nat): real {
    if s.succeeded && RankIn(s.results, doc).Some? then Reciprocal(k, RankIn(s.results, doc).value) else 0.0
  }

  function Parts(signals: seq<Signal>, doc: DocId, k: nat): real {
    if signals == [] then 0.0 else Parts(signals[..|signals| - 1], doc, k) + Part(signals[|signals| - 1], doc, k)
  }

  lemma {:induction false} NotListed(kind: SignalKind, results: seq<Ranked>, doc: DocId, k: nat)
    requires forall r :: r in results ==> r.docId != doc
    ensures Rrf(Tagged(kind, results), doc, k) == 0.0 && RankIn(results, doc).None?
  {
    if results != [] {
      var ls := Tagged(kind, results);
      assert results[|results| - 1] in results;
      assert ls[..|ls| - 1] == Tagged(kind, results[..|results| - 1]);
      NotListed(kind, results[..|results| - 1], doc, k);
    }
  }

  lemma {:induction false} PartIs(kind: SignalKind, results: seq<Ranked>, doc: DocId, k: nat)
    requires forall i, j :: 0 <= i < j < |results| ==> results[i].docId != results[j].docId
    ensures Rrf(Tagged(kind, results), doc, k)
         == if RankIn(results, doc).Some? then Reciprocal(k, RankIn(results, doc).value) else 0.0
  {
    if results != [] {
      var ls, before, last := Tagged(kind, results), results[..|results| - 1], results[|results| - 1];
      assert ls[..|ls| - 1] == Tagged(kind, before);
      if last.docId == doc {
        NotListed(kind, before, doc, k);
      } else {
        PartIs(kind, before, doc, k);
      }
    }
  }

  /** With unique places, the RRF sum is one reciprocal per succeeded signal that lists the document. */
  lemma {:induction false} RrfIsParts(signals: seq<Signal>, doc: DocId, k: nat)
    requires forall s :: s in signals ==> Unique(s)
    ensures Rrf(Listings(signals), doc, k) == Parts(signals, doc, k)
  {
    if signals != [] {
      var before, s := signals[..|signals| - 1], signals[|signals| - 1];
      RrfIsParts(before, doc, k);
      assert s in signals;
      if s.succeeded {
        PartIs(s.kind, s.results, doc, k);
        RrfConcat(Listings(before), Tagged(s.kind, s.results), doc, k);
      } else {
        assert Listings(before) + [] == Listings(before);
      }
    }
  }

  lemma ReciprocalMonotone(k: nat, a: Rank, b: Rank)
    requires a <= b
    ensures Reciprocal(k, a) >= Reciprocal(k, b) > 0.0
    ensures a < b ==> Reciprocal(k, a) > Reciprocal(k, b)
  {
    DivisionMonotone((k + a) as real, (k + b) as real);
  }

  lemma DivisionMonotone(x: real, y: real)
    requires 0.0 < x <= y
    ensures 1.0 / x >= 1.0 / y > 0.0
    ensures x < y ==> 1.0 / x > 1.0 / y
  {
    var p, q := 1.0 / x, 1.0 / y;
    assert p * x == 1.0 && q * y == 1.0;
    assert p > 0.0 && q > 0.0;
    TimesOrdered(x, y, p);
    TimesOrdered(p, q, y);
    TimesOrdered(q, p, y);
  }

  lemma TimesOrdered(x: real, y: real, z: real)
    ensures x < y && z > 0.0 ==> x * z < y * z
    ensures x <= y && z > 0.0 ==> x * z <= y * z
  {
  }

  /** Ranked no worse wherever the other is listed. */
  ghost predicate NoWorse(s: Signal, d: DocId, e: DocId) {
    s.succeeded && RankIn(s.results, e).Some? ==>
      RankIn(s.results, d).Some? && RankIn(s.results, d).value <= RankIn(s.results, e).value
  }

  ghost predicate Better(s: Signal, d: DocId, e: DocId) {
    s.succeeded && RankIn(s.results, d).Some?
    && (RankIn(s.results, e).Some? ==> RankIn(s.results, d).value < RankIn(s.results, e).value)
  }

  lemma PartNoWorse(s: Signal, d: DocId, e: DocId, k: nat)
    requires NoWorse(s, d, e)
    ensures Part(s, d, k) >= Part(s, e, k) >= 0.0
    ensures Better(s, d, e) ==> Part(s, d, k) > Part(s, e, k)
  {
    if s.succeeded && RankIn(s.results, d).Some? {
      var r := RankIn(s.results, d).value;
      ReciprocalMonotone(k, r, r);
      if RankIn(s.results, e).Some? {
        ReciprocalMonotone(k, r, RankIn(s.results, e).value);
      }
    }
  }

  lemma {:induction false} PartsNoWorse(signals: seq<Signal>, d: DocId, e: DocId, k: nat)
    requires forall s :: s in signals ==> NoWorse(s, d, e)
    ensures Parts(signals, d, k) >= Parts(signals, e, k) >= 0.0
    ensures (exists s :: s in signals && Better(s, d, e)) ==> Parts(signals, d, k) > Parts(signals, e, k)
  {
    if signals != [] {
      var before, last := signals[..|signals| - 1], signals[|signals| - 1];
      assert signals == before + [last];
      assert last in signals;
      PartsNoWorse(before, d, e, k);
      PartNoWorse(last, d, e, k);
    }
  }

  /** Ranked no worse everywhere, better somewhere, weighted no less: a strictly higher score. */
  lemma DominanceScores(signals: seq<Signal>, k: nat, weights: Weights, d: DocId, e: DocId)
    requires forall s :: s in signals ==> Unique(s) && NoWorse(s, d, e)
    requires exists s :: s in signals && Better(s, d, e)
    requires WeightOf(weights, d) >= WeightOf(weights, e) > 0.0
    ensures Score(Listings(signals), k, weights, d) > Score(Listings(signals), k, weights, e)
  {
    hide Parts, Rrf, Listings, NoWorse, Better, Unique, WeightOf;
    RrfIsParts(signals, d, k);
    RrfIsParts(signals, e, k);
    PartsNoWorse(signals, d, e, k);
    ProductsOrdered(Parts(signals, d, k), Parts(signals, e, k), WeightOf(weights, d), WeightOf(weights, e));
  }

  lemma ProductsOrdered(x: real, y: real, v: real, w: real)
    requires x > y >= 0.0 && v >= w > 0.0
    ensures x * v > y * w
  {
    assert x * v >= x * w;
    assert x * w > y * w;
  }

  /** A higher score comes first, and is returned whenever the lower one is. */
  lemma HigherScoreIsAhead(signals: seq<Signal>, k: nat, weights: Weights, limit: nat, d: DocId, j: nat)
    requires d in Candidates(Listings(signals))
    requires j < |Fuse(signals, k, weights, limit)|
    requires Score(Listings(signals), k, weights, d) > Fuse(signals, k, weights, limit)[j].score
    ensures exists i :: 0 <= i < j && Fuse(signals, k, weights, limit)[i].docId == d
  {
    var ls, hits := Listings(signals), Fuse(signals, k, weights, limit);
    var r := Ranking(ls, k, weights);
    RankingIs(ls, k, weights);
    CandidatesAre(ls);
    var l :| l in ls && l.entry.docId == d;
    var h := HitOf(ls, k, weights, d);
    assert h in r;
    var i :| 0 <= i < |r| && r[i] == h;
    assert r[j] == hits[j] && r[i].score > r[j].score;
    assert i < j;
    assert hits[i] == r[i];
  }

  /** Dominance in the returned list. */
  lemma DominantIsAhead(signals: seq<Signal>, k: nat, weights: Weights, limit: nat, d: DocId, e: DocId, j: nat)
    requires forall s :: s in signals ==> Unique(s) && NoWorse(s, d, e)
    requires exists s :: s in signals && Better(s, d, e)
    requires WeightOf(weights, d) >= WeightOf(weights, e) > 0.0
    requires j < |Fuse(signals, k, weights, limit)| && Fuse(signals, k, weights, limit)[j].docId == e
    ensures exists i :: 0 <= i < j && Fuse(signals, k, weights, limit)[i].docId == d
  {
    DominanceScores(signals, k, weights, d, e);
    FusedList(signals, k, weights, limit);
    assert Fuse(signals, k, weights, limit)[j] in Fuse(signals, k, weights, limit);
    var s :| s in signals && Better(s, d, e);
    RankedIsCandidate(signals, s, d);
    HigherScoreIsAhead(signals, k, weights, limit, d, j);
  }

  lemma {:induction false} RankedIsListed(kind: SignalKind, results: seq<Ranked>, d: DocId)
    requires RankIn(results, d).Some?
    ensures exists l :: l in Tagged(kind, results) && l.entry.docId == d
  {
    var ls, n := Tagged(kind, results), |results| - 1;
    if results[n].docId == d {
      assert ls[n] in ls;
    } else {
      RankedIsListed(kind, results[..n], d);
      var l :| l in Tagged(kind, results[..n]) && l.entry.docId == d;
      assert ls[..n] == Tagged(kind, results[..n]);
      assert l in ls;
    }
  }

  lemma RankedIsCandidate(signals: seq<Signal>, s: Signal, d: DocId)
    requires s in signals && s.succeeded && RankIn(s.results, d).Some?
    ensures d in Candidates(Listings(signals))
  {
    var i :| 0 <= i < |signals| && signals[i] == s;
    assert signals == signals[..i] + [s] + signals[i + 1..];
    ListingsConcat(signals[..i] + [s], signals[i + 1..]);
    ListingsConcat(signals[..i], [s]);
    assert Listings([s][..0]) == [];
    RankedIsListed(s.kind, s.results, d);
    var l :| l in Tagged(s.kind, s.results) && l.entry.docId == d;
    assert l in Listings(signals);
    CandidatesAre(Listings(signals));
  }

  /***** The bound *****/

  /** How many succeeded signals list the document at all, and how many at rank `top` or better. */
  function Listed(signals: seq<Signal>, doc: DocId): nat {
    if signals == [] then 0
    else
      var s := signals[|signals| - 1];
      Listed(signals[..|signals| - 1], doc) + if s.succeeded && RankIn(s.results, doc).Some? then 1 else 0
  }

  function ListedWithin(signals: seq<Signal>, doc: DocId, top: nat): nat {
    if signals == [] then 0
    else
      var s := signals[|signals| - 1];
      ListedWithin(signals[..|signals| - 1], doc, top)
      + if s.succeeded && RankIn(s.results, doc).Some? && RankIn(s.results, doc).value <= top then 1 else 0
  }

  /** Every listing is worth at most 1/(k+1), and one within the top K at least 1/(k+K). */
  lemma PartBounds(s: Signal, doc: DocId, k: nat, top: Rank)
    ensures Part(s, doc, k) <= if s.succeeded && RankIn(s.results, doc).Some? then Reciprocal(k, 1) else 0.0
    ensures Part(s, doc, k) >=
      if s.succeeded && RankIn(s.results, doc).Some? && RankIn(s.results, doc).value <= top then Reciprocal(k, top) else 0.0
  {
    if s.succeeded && RankIn(s.results, doc).Some? {
      var r := RankIn(s.results, doc).value;
      ReciprocalMonotone(k, 1, r);
      if r <= top { ReciprocalMonotone(k, r, top); }
    }
  }

  lemma {:induction false} PartsBounds(signals: seq<Signal>, doc: DocId, k: nat, top: Rank)
    ensures Parts(signals, doc, k) <= Times(Listed(signals, doc), Reciprocal(k, 1))
    ensures Parts(signals, doc, k) >= Times(ListedWithin(signals, doc, top), Reciprocal(k, top))
  {
    if signals != [] {
      hide Times, Part, Reciprocal, RankIn;
      var before, s := signals[..|signals| - 1], signals[|signals| - 1];
      PartsBounds(before, doc, k, top);
      PartBounds(s, doc, k, top);
      MoreTimes(Listed(before, doc), Listed(signals, doc), Reciprocal(k, 1));
      MoreTimes(ListedWithin(before, doc, top), ListedWithin(signals, doc, top), Reciprocal(k, top));
    }
  }

  lemma MoreTimes(n: nat, m: nat, x: real)
    ensures m == n + 1 ==> Times(m, x) == Times(n, x) + x
  {
  }

  function Times(n: nat, x: real): real {
    n as real * x
  }

  /**
   * A document that `m` signals list within their top K beats one that only `n` signals list, whenever
   * m/(k+K) > n/(k+1), that is m*(k+1) > n*(k+K).
   */
  lemma ManyListsBeatFew(signals: seq<Signal>, k: nat, top: Rank, d: DocId, e: DocId)
    requires ListedWithin(signals, d, top) * (k + 1) > Listed(signals, e) * (k + top)
    ensures Parts(signals, d, k) > Parts(signals, e, k)
  {
    PartsBounds(signals, d, k, top);
    PartsBounds(signals, e, k, 1);
    FractionsOrdered(ListedWithin(signals, d, top), Listed(signals, e), k, top);
    hide Parts, Listed, ListedWithin, Times, Reciprocal;
  }

  lemma FractionsOrdered(m: nat, n: nat, k: nat, top: Rank)
    requires m * (k + 1) > n * (k + top)
    ensures Times(m, Reciprocal(k, top)) > Times(n, Reciprocal(k, 1))
  {
    CrossMultiply(m, n, k + top, k + 1);
  }

  lemma CrossMultiply(m: nat, n: nat, a: nat, b: nat)
    requires a > 0 && b > 0 && m * b > n * a
    ensures m as real * (1.0 / a as real) > n as real * (1.0 / b as real)
  {
    var p, q, ab := 1.0 / a as real, 1.0 / b as real, a as real * b as real;
    hide *;
    assert p * a as real == 1.0 && q * b as real == 1.0;
    Regroup(m as real, p, a as real, b as real);
    Regroup(n as real, q, b as real, a as real);
    CastProduct(m, b);
    CastProduct(n, a);
    CastProduct(a, b);
    TimesOrdered(m as real * p, n as real * q, ab);
  }

  lemma CastProduct(m: nat, n: nat)
    ensures (m * n) as real == m as real * n as real
    ensures m > 0 && n > 0 ==> m as real * n as real > 0.0
  {
  }

  lemma Regroup(m: real, p: real, a: real, b: real)
    requires p * a == 1.0
    ensures (m * p) * (a * b) == m * b
    ensures (m * p) * (b * a) == m * b
  {
    assert (m * p) * (a * b) == m * (p * a) * b;
  }

  /** The defaults: k = 60 and lists of at most 64. */
  const K: nat := 60
  const TOP_K: Rank := 64

  /**
   * With the defaults, a document that all three retrieval lists return beats one that exactly one of
   * them returns, if its confidence rank and weight are no worse.
   */
  lemma ThreeListsBeatOne(retrieval: seq<Signal>, confidence: Signal, weights: Weights, d: DocId, e: DocId)
    requires |retrieval| == 3
    requires Unique(confidence) && forall s :: s in retrieval ==> Unique(s)
    requires ListedWithin(retrieval, d, TOP_K) == 3 && Listed(retrieval, e) == 1
    requires NoWorse(confidence, d, e)
    requires WeightOf(weights, d) >= WeightOf(weights, e) > 0.0
    ensures Score(Listings(retrieval + [confidence]), K, weights, d) > Score(Listings(retrieval + [confidence]), K, weights, e)
  {
    var signals := retrieval + [confidence];
    hide Part, Parts, Reciprocal, RankIn, Listed, ListedWithin, Score, Rrf, WeightOf, Listings, NoWorse, Unique;
    ManyListsBeatFew(retrieval, K, TOP_K, d, e);
    PartsSnoc(retrieval, confidence, d, K);
    PartsSnoc(retrieval, confidence, e, K);
    PartNoWorse(confidence, d, e, K);
    PartsNonNegative(retrieval, e, K);
    ScoreIsParts(signals, K, weights, d);
    ScoreIsParts(signals, K, weights, e);
    ProductsOrdered(Parts(signals, d, K), Parts(signals, e, K), WeightOf(weights, d), WeightOf(weights, e));
  }

  lemma PartsSnoc(signals: seq<Signal>, s: Signal, doc: DocId, k: nat)
    ensures Parts(signals + [s], doc, k) == Parts(signals, doc, k) + Part(s, doc, k)
  {
    assert (signals + [s])[..|signals|] == signals;
  }

  lemma ScoreIsParts(signals: seq<Signal>, k: nat, weights: Weights, doc: DocId)
    requires forall s :: s in signals ==> Unique(s)
    ensures Score(Listings(signals), k, weights, doc) == Parts(signals, doc, k) * WeightOf(weights, doc)
  {
    hide Rrf, Parts, Listings, WeightOf, Unique;
    RrfIsParts(signals, doc, k);
  }

  lemma {:induction false} PartsNonNegative(signals: seq<Signal>, doc: DocId, k: nat)
    ensures Parts(signals, doc, k) >= 0.0
  {
    if signals != [] {
      PartsNonNegative(signals[..|signals| - 1], doc, k);
      PartBounds(signals[|signals| - 1], doc, k, 1);
      ReciprocalMonotone(k, 1, 1);
    }
  }

  /***** The weights *****/

  /** The part of one signal: 1/(k+rank) if it succeeded and lists the document, and nothing otherwise. */
  lemma {:induction false} PartInReciprocals(s: Signal, doc: DocId, k: nat)
    requires Unique(s)
    ensures forall r: Rank :: s.succeeded && Ranked(doc, r) in s.results ==> Part(s, doc, k) == 1.0 / (k + r) as real
    ensures !s.succeeded || (forall e :: e in s.results ==> e.docId != doc) ==> Part(s, doc, k) == 0.0
  {
    forall r: Rank | Ranked(doc, r) in s.results ensures RankIn(s.results, doc) == Some(r) {
      PlaceIsRank(s.results, doc, r);
    }
    if forall e :: e in s.results ==> e.docId != doc {
      NotListed(s.kind, s.results, doc, k);
    }
  }

  lemma {:induction false} PlaceIsRank(results: seq<Ranked>, doc: DocId, r: Rank)
    requires forall i, j :: 0 <= i < j < |results| ==> results[i].docId != results[j].docId
    requires Ranked(doc, r) in results
    ensures RankIn(results, doc) == Some(r)
  {
    var i :| 0 <= i < |results| && results[i] == Ranked(doc, r);
    if i < |results| - 1 {
      assert results[..|results| - 1][i] == Ranked(doc, r);
      PlaceIsRank(results[..|results| - 1], doc, r);
    }
  }

  /** The multiplier of a document: its entry in the map, and one without an entry. */
  lemma HitScores(signals: seq<Signal>, k: nat, weights: Weights, limit: nat)
    requires forall s :: s in signals ==> Unique(s)
    ensures forall h :: h in Fuse(signals, k, weights, limit) && h.docId in weights ==>
              h.score == Parts(signals, h.docId, k) * weights[h.docId]
    ensures forall h :: h in Fuse(signals, k, weights, limit) && h.docId !in weights ==>
              h.score == Parts(signals, h.docId, k)
  {
    FusedList(signals, k, weights, limit);
    hide Score, Parts, Listings, Fuse, Contrib, Descending, Unique;
    forall h | h in Fuse(signals, k, weights, limit)
      ensures h.docId in weights ==> h.score == Parts(signals, h.docId, k) * weights[h.docId]
      ensures h.docId !in weights ==> h.score == Parts(signals, h.docId, k)
    {
      ScoreIsParts(signals, k, weights, h.docId);
    }
  }

  lemma {:induction false} ListedIsPositive(ls: seq<Listing>, doc: DocId, k: nat)
    ensures Rrf(ls, doc, k) >= 0.0
    ensures (exists l :: l in ls && l.entry.docId == doc) ==> Rrf(ls, doc, k) > 0.0
  {
    if ls != [] {
      var before, last := ls[..|ls| - 1], ls[|ls| - 1];
      assert ls == before + [last];
      ListedIsPositive(before, doc, k);
      ReciprocalMonotone(k, last.entry.rank, last.entry.rank);
    }
  }

  /** Of two documents with equal parts, the one with the larger entry in the map comes first. */
  lemma HeavierIsAhead(signals: seq<Signal>, k: nat, weights: Weights, limit: nat, d: DocId, e: DocId, j: nat)
    requires forall s :: s in signals ==> Unique(s)
    requires Parts(signals, d, k) == Parts(signals, e, k)
    requires (if d in weights then weights[d] else 1.0) > (if e in weights then weights[e] else 1.0)
    requires j < |Fuse(signals, k, weights, limit)| && Fuse(signals, k, weights, limit)[j].docId == e
    ensures exists i :: 0 <= i < j && Fuse(signals, k, weights, limit)[i].docId == d
  {
    hide *;
    var hits := Fuse(signals, k, weights, limit);
    assert hits[j] in hits;
    ReturnedIsPositive(signals, k, weights, limit, hits[j]);
    PositiveIsCandidate(signals, k, d);
    HeavierScores(signals, k, weights, d, e);
    ReturnedScore(signals, k, weights, limit, hits[j]);
    HigherScoreIsAhead(signals, k, weights, limit, d, j);
  }

  lemma HeavierScores(signals: seq<Signal>, k: nat, weights: Weights, d: DocId, e: DocId)
    requires forall s :: s in signals ==> Unique(s)
    requires Parts(signals, d, k) == Parts(signals, e, k) > 0.0
    requires (if d in weights then weights[d] else 1.0) > (if e in weights then weights[e] else 1.0)
    ensures Score(Listings(signals), k, weights, d) > Score(Listings(signals), k, weights, e)
  {
    HeavierWeight(weights, d, e);
    hide *;
    ScoreIsProduct(signals, k, weights, d);
    ScoreIsProduct(signals, k, weights, e);
    HeavierProduct(Parts(signals, e, k), WeightOf(weights, d), WeightOf(weights, e));
  }

  function Product(x: real, y: real): real {
    x * y
  }

  lemma ScoreIsProduct(signals: seq<Signal>, k: nat, weights: Weights, doc: DocId)
    requires forall s :: s in signals ==> Unique(s)
    ensures Score(Listings(signals), k, weights, doc) == Product(Parts(signals, doc, k), WeightOf(weights, doc))
  {
    hide Score, Listings, Parts, WeightOf, Unique;
    ScoreIsParts(signals, k, weights, doc);
  }

  lemma HeavierWeight(weights: Weights, d: DocId, e: DocId)
    requires (if d in weights then weights[d] else 1.0) > (if e in weights then weights[e] else 1.0)
    ensures WeightOf(weights, d) > WeightOf(weights, e)
  {
  }

  lemma HeavierProduct(p: real, v: real, w: real)
    requires p > 0.0 && v > w
    ensures Product(p, v) > Product(p, w)
  {
    TimesOrdered(w, v, p);
  }

  lemma ReturnedScore(signals: seq<Signal>, k: nat, weights: Weights, limit: nat, h: Hit)
    requires h in Fuse(signals, k, weights, limit)
    ensures h.score == Score(Listings(signals), k, weights, h.docId)
  {
    hide Fuse, Listings, Score, Contrib;
    FusedList(signals, k, weights, limit);
  }

  lemma ReturnedIsPositive(signals: seq<Signal>, k: nat, weights: Weights, limit: nat, h: Hit)
    requires h in Fuse(signals, k, weights, limit) && forall s :: s in signals ==> Unique(s)
    ensures Parts(signals, h.docId, k) > 0.0
  {
    var ls := Listings(signals);
    RankingIs(ls, k, weights);
    assert h in Ranking(ls, k, weights);
    hide *;
    ListedIsPositive(ls, h.docId, k);
    RrfIsParts(signals, h.docId, k);
  }

  lemma PositiveIsCandidate(signals: seq<Signal>, k: nat, d: DocId)
    requires Parts(signals, d, k) > 0.0 && forall s :: s in signals ==> Unique(s)
    ensures d in Candidates(Listings(signals))
  {
    hide *;
    RrfIsParts(signals, d, k);
    if d !in Candidates(Listings(signals)) {
      Unlisted(Listings(signals), d, k);
    }
  }

  /***** Ties, and the contributing ranks *****/

  ghost predicate Precedes(docs: seq<DocId>, x: DocId, y: DocId) {
    exists a, b :: 0 <= a < b < |docs| && docs[a] == x && docs[b] == y
  }

  /** By score, and among equal scores in the order of `docs`. */
  ghost predicate Ordered(hits: seq<Hit>, docs: seq<DocId>) {
    forall i, j :: 0 <= i < j < |hits| ==>
      hits[i].score > hits[j].score || (hits[i].score == hits[j].score && Precedes(docs, hits[i].docId, hits[j].docId))
  }

  lemma {:induction false} InsertHitOrders(sorted: seq<Hit>, h: Hit, docs: seq<DocId>)
    requires Ordered(sorted, docs) && forall e :: e in sorted ==> Precedes(docs, e.docId, h.docId)
    ensures Ordered(InsertHit(sorted, h), docs)
  {
    if sorted != [] && sorted[|sorted| - 1].score < h.score {
      var before, last := sorted[..|sorted| - 1], sorted[|sorted| - 1];
      InsertHitOrders(before, h, docs);
      InsertHitPermutes(before, h);
      var out := InsertHit(before, h);
      hide InsertHit, Precedes;
      forall e | e in out ensures e in before || e == h {
        assert e in multiset(out);
      }
      OrderedSnoc(before, out, h, last, docs);
    } else {
      hide Precedes;
      forall i | 0 <= i < |sorted| ensures sorted[i] in sorted && sorted[i].score >= h.score {}
    }
  }

  lemma OrderedSnoc(before: seq<Hit>, out: seq<Hit>, h: Hit, last: Hit, docs: seq<DocId>)
    requires Ordered(before + [last], docs) && Ordered(out, docs)
    requires h.score > last.score && forall e :: e in out ==> e in before || e == h
    ensures Ordered(out + [last], docs)
  {
    hide Precedes;
    assert (before + [last])[|before|] == last;
    forall i | 0 <= i < |out|
      ensures out[i].score > last.score || (out[i].score == last.score && Precedes(docs, out[i].docId, last.docId))
    {
      assert out[i] in out;
      if out[i] in before {
        var m :| 0 <= m < |before| && before[m] == out[i];
        assert (before + [last])[m] == out[i];
      }
    }
  }

  lemma {:induction false} SortHitsOrders(hits: seq<Hit>, docs: seq<DocId>)
    requires |hits| <= |docs| && forall i :: 0 <= i < |hits| ==> hits[i].docId == docs[i]
    ensures Ordered(SortHits(hits), docs)
  {
    if hits != [] {
      var n := |hits| - 1;
      SortHitsOrders(hits[..n], docs);
      SortHitsSorts(hits[..n]);
      forall e | e in SortHits(hits[..n]) ensures Precedes(docs, e.docId, hits[n].docId) {
        assert e in multiset(hits[..n]) by { assert e in multiset(SortHits(hits[..n])); }
        var i :| 0 <= i < n && hits[i] == e;
        assert docs[i] == e.docId && docs[n] == hits[n].docId;
      }
      InsertHitOrders(SortHits(hits[..n]), hits[n], docs);
    }
  }

  /** `x` has an entry before the first one of `y`. */
  ghost predicate ListedBefore(ls: seq<Listing>, x: DocId, y: DocId) {
    exists a :: 0 <= a < |ls| && ls[a].entry.docId == x && forall b :: 0 <= b <= a ==> ls[b].entry.docId != y
  }

  lemma {:induction false} CandidatesInOrder(ls: seq<Listing>)
    ensures forall i, j :: 0 <= i < j < |Candidates(ls)| ==> ListedBefore(ls, Candidates(ls)[i], Candidates(ls)[j])
  {
    if ls != [] {
      var before, docs, n := ls[..|ls| - 1], Candidates(ls[..|ls| - 1]), |ls| - 1;
      CandidatesInOrder(before);
      CandidatesAre(before);
      forall i, j | 0 <= i < j < |Candidates(ls)| ensures ListedBefore(ls, Candidates(ls)[i], Candidates(ls)[j]) {
        var x, y := Candidates(ls)[i], Candidates(ls)[j];
        assert docs[i] == x && x in docs;
        if j < |docs| {
          var a :| 0 <= a < |before| && before[a].entry.docId == x && forall b :: 0 <= b <= a ==> before[b].entry.docId != y;
          assert ls[a].entry.docId == x && forall b :: 0 <= b <= a ==> ls[b] == before[b];
        } else {
          var l :| l in before && l.entry.docId == x;
          var a :| 0 <= a < |before| && before[a] == l;
          forall b | 0 <= b <= a ensures ls[b].entry.docId != y {
            assert ls[b] in before;
          }
          assert ls[a].entry.docId == x;
        }
      }
    }
  }

  /** Documents with equal scores are returned in the order in which the signals first listed them. */
  lemma TiesAsListed(signals: seq<Signal>, k: nat, weights: Weights, limit: nat, i: nat, j: nat)
    requires i < j < |Fuse(signals, k, weights, limit)|
    requires Fuse(signals, k, weights, limit)[i].score == Fuse(signals, k, weights, limit)[j].score
    ensures var hits := Fuse(signals, k, weights, limit);
      ListedBefore(Listings(signals), hits[i].docId, hits[j].docId)
  {
    var ls := Listings(signals);
    var docs, r := Candidates(ls), Ranking(ls, k, weights);
    hide ListedBefore, Candidates, Listings, SortHits, Precedes;
    SortHitsOrders(HitsOf(ls, k, weights, docs), docs);
    assert r[i].score == r[j].score && Precedes(docs, r[i].docId, r[j].docId);
    CandidatesInOrder(ls);
    PrecedesIs(docs, r[i].docId, r[j].docId);
  }

  lemma PrecedesIs(docs: seq<DocId>, x: DocId, y: DocId)
    requires Precedes(docs, x, y)
    ensures exists a, b :: 0 <= a < b < |docs| && docs[a] == x && docs[b] == y
  {
  }

  /** The entries the loop reads: those of the succeeded signals. */
  lemma {:induction false} ListingsAre(signals: seq<Signal>, l: Listing)
    ensures l in Listings(signals) <==> exists s :: s in signals && s.succeeded && s.kind == l.kind && l.entry in s.results
  {
    if signals != [] {
      var before, last := signals[..|signals| - 1], signals[|signals| - 1];
      assert signals == before + [last];
      ListingsAre(before, l);
      assert l in Tagged(last.kind, last.results) <==> last.kind == l.kind && l.entry in last.results by {
        TaggedAre(last.kind, last.results, l);
      }
    }
  }

  lemma TaggedAre(kind: SignalKind, results: seq<Ranked>, l: Listing)
    ensures l in Tagged(kind, results) <==> l.kind == kind && l.entry in results
  {
    if l.kind == kind && l.entry in results {
      var i :| 0 <= i < |results| && results[i] == l.entry;
      assert Tagged(kind, results)[i] == l;
    }
  }

  lemma {:induction false} ContribIs(ls: seq<Listing>, doc: DocId, kind: SignalKind)
    ensures kind in Contrib(ls, doc) <==> exists l :: l in ls && l.kind == kind && l.entry.docId == doc
    ensures kind in Contrib(ls, doc) ==> Listing(kind, Ranked(doc, Contrib(ls, doc)[kind])) in ls
  {
    if ls != [] {
      var before, last := ls[..|ls| - 1], ls[|ls| - 1];
      assert ls == before + [last];
      ContribIs(before, doc, kind);
    }
  }

  /** A hit names, for each kind of signal, a rank some succeeded signal of that kind gave the document. */
  lemma HitRanks(signals: seq<Signal>, k: nat, weights: Weights, limit: nat, h: Hit, kind: SignalKind)
    requires h in Fuse(signals, k, weights, limit)
    ensures kind in h.contrib <==>
      exists s, e :: s in signals && s.succeeded && s.kind == kind && e in s.results && e.docId == h.docId
    ensures kind in h.contrib ==>
      exists s :: s in signals && s.succeeded && s.kind == kind && Ranked(h.docId, h.contrib[kind]) in s.results
  {
    var ls := Listings(signals);
    FusedList(signals, k, weights, limit);
    hide Listings, Contrib, Fuse;
    ContribIs(ls, h.docId, kind);
    if kind in h.contrib {
      ListingsAre(signals, Listing(kind, Ranked(h.docId, h.contrib[kind])));
    }
    forall s, e | s in signals && s.succeeded && s.kind == kind && e in s.results && e.docId == h.docId
      ensures kind in h.contrib
    {
      ListingsAre(signals, Listing(kind, e));
    }
  }
}
