/** The four-tier search cascade: merge by URI, stop early, report the deepest tier that contributed. */
module TierCascade {
  import opened Wrappers

  type Uri = string

  datatype Tier = Hybrid | Bm25Only | CatalogGrep | FsGrep

  datatype Hit = Hit(uri: Uri, tier: Tier, text: string)

  datatype TierOutcome = Completed | Skipped | Failed | Aborted

  /** What invoking a tier does. */
  datatype TierRun = Threw | Ran(hits: seq<Hit>, outcome: TierOutcome)

  /** One attempt: the run, and the state of the budget signal before and after it. */
  datatype Attempt = Attempt(run: TierRun, abortedBefore: bool, abortedAfter: bool)

  datatype Output = Output(hits: seq<Hit>, tierUsed: Tier, attempted: seq<Tier>, budgetExceeded: bool)

  const TIER_ORDER: seq<Tier> := [Hybrid, Bm25Only, CatalogGrep, FsGrep]

  function Depth(t: Tier): nat {
    match t
    case Hybrid => 0
    case Bm25Only => 1
    case CatalogGrep => 2
    case FsGrep => 3
  }

  /***** First occurrence by URI *****/

  predicate HasUri(hits: seq<Hit>, uri: Uri) {
    exists h :: h in hits && h.uri == uri
  }

  function Dedup(hits: seq<Hit>): seq<Hit> {
    if hits == [] then []
    else
      var before, last := Dedup(hits[..|hits| - 1]), hits[|hits| - 1];
      if HasUri(before, last.uri) then before else before + [last]
  }

  /** The hits of the first `n` attempts, in order; a tier that throws has none. */
  function HitsOf(attempts: seq<Attempt>, n: nat): seq<Hit>
    requires n <= |attempts|
  {
    if n == 0 then []
    else HitsOf(attempts, n - 1) + if attempts[n - 1].run.Ran? then attempts[n - 1].run.hits else []
  }

  function Distinct(attempts: seq<Attempt>, n: nat): nat
    requires n <= |attempts|
  {
    |Dedup(HitsOf(attempts, n))|
  }

  lemma HasUriSnoc(hits: seq<Hit>, h: Hit)
    ensures forall uri :: HasUri(hits + [h], uri) <==> HasUri(hits, uri) || h.uri == uri
  {
    forall uri ensures HasUri(hits + [h], uri) <==> HasUri(hits, uri) || h.uri == uri {
      if HasUri(hits, uri) {
        var g :| g in hits && g.uri == uri;
        assert g in hits + [h];
      }
      assert h in hits + [h];
    }
  }

  lemma UriOfMember(hits: seq<Hit>)
    ensures forall i :: 0 <= i < |hits| ==> HasUri(hits, hits[i].uri)
  {
    forall i | 0 <= i < |hits| ensures HasUri(hits, hits[i].uri) {
      assert hits[i] in hits;
    }
  }

  /** Dedup keeps, of every URI, exactly the first hit, in order of first occurrence. */
  lemma DedupIs(hits: seq<Hit>)
    ensures forall h :: h in Dedup(hits) ==> h in hits
    ensures forall uri :: HasUri(Dedup(hits), uri) <==> HasUri(hits, uri)
    ensures forall i, j :: 0 <= i < j < |Dedup(hits)| ==> Dedup(hits)[i].uri != Dedup(hits)[j].uri
    ensures forall j :: 0 <= j < |hits| && !HasUri(hits[..j], hits[j].uri) ==> hits[j] in Dedup(hits)
  {
    DedupCovers(hits);
    DedupKeepsFirsts(hits);
  }

  lemma {:induction false} DedupCovers(hits: seq<Hit>)
    ensures forall h :: h in Dedup(hits) ==> h in hits
    ensures forall uri :: HasUri(Dedup(hits), uri) <==> HasUri(hits, uri)
    ensures forall i, j :: 0 <= i < j < |Dedup(hits)| ==> Dedup(hits)[i].uri != Dedup(hits)[j].uri
  {
    if hits != [] {
      var before, last := hits[..|hits| - 1], hits[|hits| - 1];
      DedupCovers(before);
      assert hits == before + [last];
      HasUriSnoc(before, last);
      HasUriSnoc(Dedup(before), last);
      UriOfMember(Dedup(before));
      hide HasUri;
    }
  }

  lemma {:induction false} DedupKeepsFirsts(hits: seq<Hit>)
    ensures forall j :: 0 <= j < |hits| && !HasUri(hits[..j], hits[j].uri) ==> hits[j] in Dedup(hits)
  {
    if hits != [] {
      hide HasUri, Dedup;
      DedupCovers(hits[..|hits| - 1]);
      DedupKeepsFirsts(hits[..|hits| - 1]);
      FirstsKept(hits);
    }
  }

  lemma FirstsKept(hits: seq<Hit>)
    requires hits != []
    requires var before := hits[..|hits| - 1];
      && (forall uri :: HasUri(Dedup(before), uri) <==> HasUri(before, uri))
      && (forall j :: 0 <= j < |before| && !HasUri(before[..j], before[j].uri) ==> before[j] in Dedup(before))
    ensures forall j :: 0 <= j < |hits| && !HasUri(hits[..j], hits[j].uri) ==> hits[j] in Dedup(hits)
  {
    hide HasUri;
    var before := hits[..|hits| - 1];
    forall j | 0 <= j < |hits| && !HasUri(hits[..j], hits[j].uri) ensures hits[j] in Dedup(hits) {
      if j < |before| {
        assert before[..j] == hits[..j] && before[j] == hits[j];
      } else {
        assert hits[..j] == before;
      }
    }
  }

  lemma {:induction false} DedupAppend(a: seq<Hit>, b: seq<Hit>)
    ensures Dedup(a) <= Dedup(a + b)
  {
    if b == [] {
      assert a + b == a;
    } else {
      assert (a + b)[..|a + b| - 1] == a + b[..|b| - 1];
      DedupAppend(a, b[..|b| - 1]);
    }
  }

  /** In a concatenation a URI of the first part hides those of the second. */
  lemma {:induction false} DedupConcat(a: seq<Hit>, b: seq<Hit>, h: Hit)
    ensures h in Dedup(a + b) <==> h in Dedup(a) || (!HasUri(a, h.uri) && h in Dedup(b))
  {
    if b == [] {
      assert a + b == a;
    } else {
      var before, last := b[..|b| - 1], b[|b| - 1];
      assert (a + b)[..|a + b| - 1] == a + before;
      DedupConcat(a, before, h);
      DedupCovers(a + before);
      DedupCovers(before);
      HasUriConcat(a, before, last.uri);
    }
  }

  lemma HasUriConcat(a: seq<Hit>, b: seq<Hit>, uri: Uri)
    ensures HasUri(a + b, uri) <==> HasUri(a, uri) || HasUri(b, uri)
  {
    forall h | h in a || h in b ensures h in a + b {}
  }

  /** A hit is kept if and only if it stands before every other hit of its URI. */
  lemma KeptIff(hits: seq<Hit>, h: Hit)
    ensures h in Dedup(hits) <==>
      exists m :: 0 <= m < |hits| && hits[m] == h && forall j :: 0 <= j < m ==> hits[j].uri != h.uri
  {
    DedupIs(hits);
    if h in Dedup(hits) {
      var at :| 0 <= at < |Dedup(hits)| && Dedup(hits)[at] == h;
      var m := FirstOfUri(hits, h.uri);
      assert !HasUri(hits[..m], hits[m].uri);
      var other :| 0 <= other < |Dedup(hits)| && Dedup(hits)[other] == hits[m];
      assert other == at;
    }
    forall m | 0 <= m < |hits| && hits[m] == h && forall j :: 0 <= j < m ==> hits[j].uri != h.uri
      ensures h in Dedup(hits)
    {
      assert !HasUri(hits[..m], h.uri);
    }
  }

  lemma {:induction false} FirstOfUri(hits: seq<Hit>, uri: Uri) returns (m: nat)
    requires HasUri(hits, uri)
    ensures m < |hits| && hits[m].uri == uri && forall j :: 0 <= j < m ==> hits[j].uri != uri
  {
    if HasUri(hits[..|hits| - 1], uri) {
      m := FirstOfUri(hits[..|hits| - 1], uri);
    } else {
      m := |hits| - 1;
      forall j | 0 <= j < m ensures hits[j].uri != uri {
        assert hits[j] in hits[..m];
      }
    }
  }

  lemma {:induction false} HitsOfMembers(attempts: seq<Attempt>, n: nat, uri: Uri)
    requires n <= |attempts|
    ensures HasUri(HitsOf(attempts, n), uri) <==>
      exists i, e :: 0 <= i < n && attempts[i].run.Ran? && e in attempts[i].run.hits && e.uri == uri
  {
    if n > 0 {
      HitsOfMembers(attempts, n - 1, uri);
      HasUriConcat(HitsOf(attempts, n - 1), if attempts[n - 1].run.Ran? then attempts[n - 1].run.hits else [], uri);
    }
  }

  /** `h` is the first hit of its URI in the answer of the first tier that found the URI at all. */
  ghost predicate FirstFound(attempts: seq<Attempt>, n: nat, h: Hit)
    requires n <= |attempts|
  {
    exists i, m :: 0 <= i < n && attempts[i].run.Ran? && 0 <= m < |attempts[i].run.hits| && attempts[i].run.hits[m] == h
      && (forall j :: 0 <= j < m ==> attempts[i].run.hits[j].uri != h.uri)
      && (forall j, e :: 0 <= j < i && attempts[j].run.Ran? && e in attempts[j].run.hits ==> e.uri != h.uri)
  }

  /** Earlier tiers win: the merged hits are exactly the first ones found. */
  lemma {:induction false} EarlierTiersWin(attempts: seq<Attempt>, n: nat, h: Hit)
    requires n <= |attempts|
    ensures h in Dedup(HitsOf(attempts, n)) <==> FirstFound(attempts, n, h)
  {
    if n > 0 {
      hide Dedup, HasUri, FirstFound;
      var run := attempts[n - 1].run;
      var before, more := HitsOf(attempts, n - 1), if run.Ran? then run.hits else [];
      EarlierTiersWin(attempts, n - 1, h);
      DedupConcat(before, more, h);
      FoundLater(attempts, n, h, more);
    } else {
      assert Dedup(HitsOf(attempts, 0)) == [];
    }
  }

  lemma FoundLater(attempts: seq<Attempt>, n: nat, h: Hit, more: seq<Hit>)
    requires 0 < n <= |attempts| && more == if attempts[n - 1].run.Ran? then attempts[n - 1].run.hits else []
    ensures FirstFound(attempts, n, h) <==>
      FirstFound(attempts, n - 1, h) || (!HasUri(HitsOf(attempts, n - 1), h.uri) && h in Dedup(more))
  {
    hide Dedup, HitsOf, HasUri;
    HitsOfMembers(attempts, n - 1, h.uri);
    KeptIff(more, h);
    if FirstFound(attempts, n - 1, h) {
      assert FirstFound(attempts, n, h);
    }
    if !HasUri(HitsOf(attempts, n - 1), h.uri) && h in Dedup(more) {
      var m :| 0 <= m < |more| && more[m] == h && forall j :: 0 <= j < m ==> more[j].uri != h.uri;
      assert attempts[n - 1].run.hits[m] == h;
    }
  }

  /***** The cascade *****/

  /** Adds the new URIs of one tier's hits; earlier tiers win. */
  method Merge(merged: seq<Hit>, ghost before: seq<Hit>, hits: seq<Hit>) returns (after: seq<Hit>, added: nat)
    requires merged == Dedup(before)
    ensures after == Dedup(before + hits)
    ensures added == |after| - |merged| >= 0
  {
    after, added := merged, 0;
    assert before + hits[..0] == before;
    for i := 0 to |hits|
      invariant after == Dedup(before + hits[..i])
      invariant |after| == |merged| + added
    {
      var next := before + hits[..i + 1];
      assert next[..|next| - 1] == before + hits[..i];
      if !HasUri(after, hits[i].uri) {
        after := after + [hits[i]];
        added := added + 1;
      }
    }
    assert hits[..|hits|] == hits;
  }

  /** The deepest of the tracked tier and the labels of the returned hits. */
  method DeepestTier(fallback: Tier, hits: seq<Hit>) returns (t: Tier)
    ensures t == fallback || exists h :: h in hits && h.tier == t
    ensures Depth(t) >= Depth(fallback) && forall h :: h in hits ==> Depth(t) >= Depth(h.tier)
  {
    t := fallback;
    for i := 0 to |hits|
      invariant t == fallback || exists h :: h in hits[..i] && h.tier == t
      invariant Depth(t) >= Depth(fallback) && forall h :: h in hits[..i] ==> Depth(t) >= Depth(h.tier)
    {
      assert hits[..i + 1] == hits[..i] + [hits[i]];
      if Depth(hits[i].tier) > Depth(t) {
        t := hits[i].tier;
        assert hits[i] in hits[..i + 1];
      }
    }
    assert hits[..|hits|] == hits;
  }

  /** After `n` attempts the merged hits are enough, and the last attempt did not throw. */
  predicate EnoughAfter(attempts: seq<Attempt>, n: nat, minResults: nat)
    requires n <= |attempts|
  {
    n > 0 && attempts[n - 1].run.Ran? && Distinct(attempts, n) >= minResults
  }

  predicate Undisturbed(attempts: seq<Attempt>) {
    forall a :: a in attempts ==> !a.abortedBefore && !a.abortedAfter && (a.run.Ran? ==> a.run.outcome != Aborted)
  }

  /** The number of the deepest attempt among the first `n` that added a URI, 0 if none did. */
  function DeepestAdding(attempts: seq<Attempt>, n: nat): (d: nat)
    requires n <= |attempts|
    ensures d == 0 || d < n
  {
    if n == 0 then 0
    else if Distinct(attempts, n) > Distinct(attempts, n - 1) then n - 1
    else DeepestAdding(attempts, n - 1)
  }

  /** Every tier labels its hits with its own name. */
  predicate OwnLabels(attempts: seq<Attempt>)
    requires |attempts| == 4
  {
    forall i, h :: 0 <= i < 4 && attempts[i].run.Ran? && h in attempts[i].run.hits ==> h.tier == TIER_ORDER[i]
  }

  /** How many tiers the cascade asks, and whether their results are all merged. */
  ghost predicate StopsAfter(attempts: seq<Attempt>, n: nat, minResults: nat)
    requires n <= |attempts|
  {
    && (forall i :: 0 < i < n ==> !EnoughAfter(attempts, i, minResults))
    && (n == |attempts| || EnoughAfter(attempts, n, minResults))
  }

  lemma OneMore(attempts: seq<Attempt>, i: nat)
    requires i < |attempts|
    ensures HitsOf(attempts, i + 1)
         == if attempts[i].run.Ran? then HitsOf(attempts, i) + attempts[i].run.hits else HitsOf(attempts, i)
    ensures DeepestAdding(attempts, i + 1)
         == if Distinct(attempts, i + 1) > Distinct(attempts, i) then i else DeepestAdding(attempts, i)
  {
    assert HitsOf(attempts, i) + [] == HitsOf(attempts, i);
  }

  /** The tier loop: `n` tiers are merged, the last one asked may have been cut off by the budget. */
  method AskTiers(attempts: seq<Attempt>, minResults: nat)
    returns (merged: seq<Hit>, attempted: seq<Tier>, deepest: Tier, budgetExceeded: bool, ghost n: nat)
    requires |attempts| == 4
    ensures n <= |attempted| <= 4 && attempted == TIER_ORDER[..|attempted|]
    ensures merged == Dedup(HitsOf(attempts, n)) && deepest == TIER_ORDER[DeepestAdding(attempts, n)]
    ensures forall j :: 0 < j < n ==> !EnoughAfter(attempts, j, minResults)
    ensures !budgetExceeded ==> n == |attempted| && (n == 4 || EnoughAfter(attempts, n, minResults))
    ensures Undisturbed(attempts) ==> !budgetExceeded
  {
    hide Dedup, HitsOf, DeepestAdding, Undisturbed;
    merged, attempted, deepest, budgetExceeded, n := [], [], Hybrid, false, 0;
    NothingAsked(attempts);
    for i := 0 to 4
      invariant n == i && attempted == TIER_ORDER[..i] && !budgetExceeded
      invariant merged == Dedup(HitsOf(attempts, i)) && deepest == TIER_ORDER[DeepestAdding(attempts, i)]
      invariant forall j :: 0 < j <= i ==> !EnoughAfter(attempts, j, minResults)
    {
      var a := attempts[i];
      OneMore(attempts, i);
      UndisturbedAt(attempts, i);
      attempted := attempted + [TIER_ORDER[i]];
      if a.abortedBefore {
        budgetExceeded := true;
        return;
      }
      n := i + 1;
      if a.run.Ran? {
        var added;
        merged, added := Merge(merged, HitsOf(attempts, i), a.run.hits);
        if added > 0 {
          deepest := TIER_ORDER[i];
        }
        if a.run.outcome == Aborted {
          budgetExceeded := true;
          return;
        }
        if |merged| >= minResults {
          return;
        }
        if a.abortedAfter {
          budgetExceeded := true;
          return;
        }
      }
    }
  }

  lemma NothingAsked(attempts: seq<Attempt>)
    ensures Dedup(HitsOf(attempts, 0)) == [] && DeepestAdding(attempts, 0) == 0
  {
  }

  lemma UndisturbedAt(attempts: seq<Attempt>, i: nat)
    requires i < |attempts|
    ensures Undisturbed(attempts) ==>
      var a := attempts[i]; !a.abortedBefore && !a.abortedAfter && (a.run.Ran? ==> a.run.outcome != Aborted)
  {
    assert attempts[i] in attempts;
  }

  /**
   * Runs the tiers in order. The hits are the first `limit` of the first-occurrence dedup of what the
   * merged tiers returned; undisturbed, the tiers asked are the shortest prefix that yields enough.
   */
  method RunTieredSearch(attempts: seq<Attempt>, limit: nat, minResults: nat) returns (out: Output, ghost n: nat)
    requires |attempts| == 4
    ensures n <= |out.attempted| <= 4
    ensures out.attempted == [Hybrid, Bm25Only, CatalogGrep, FsGrep][..|out.attempted|]
    ensures var all := Dedup(HitsOf(attempts, n)); out.hits == if limit < |all| then all[..limit] else all
    // every tier but the last one merged either threw or left too few hits ...
    ensures forall i :: 0 < i < n ==> attempts[i - 1].run.Threw? || |Dedup(HitsOf(attempts, i))| < minResults
    // ... and unless the budget ran out, fewer than four were asked because the last one brought enough
    ensures !out.budgetExceeded ==> n == |out.attempted| && StopsAfter(attempts, n, minResults)
    ensures !out.budgetExceeded && n < 4 ==> n > 0 && attempts[n - 1].run.Ran? && |Dedup(HitsOf(attempts, n))| >= minResults
    ensures (forall a :: a in attempts ==> !a.abortedBefore && !a.abortedAfter && (a.run.Ran? ==> !a.run.outcome.Aborted?)) ==>
      !out.budgetExceeded
    ensures (forall i, h :: 0 <= i < 4 && attempts[i].run.Ran? && h in attempts[i].run.hits ==>
               h.tier == [Hybrid, Bm25Only, CatalogGrep, FsGrep][i]) ==>
      out.tierUsed == [Hybrid, Bm25Only, CatalogGrep, FsGrep][DeepestAdding(attempts, n)]
  {
    assert OwnLabels(attempts) <==>
      forall i, h :: 0 <= i < 4 && attempts[i].run.Ran? && h in attempts[i].run.hits ==>
        h.tier == [Hybrid, Bm25Only, CatalogGrep, FsGrep][i];
    var merged, attempted, deepest, budgetExceeded;
    merged, attempted, deepest, budgetExceeded, n := AskTiers(attempts, minResults);
    Shortest(attempts, n, minResults);
    assert Undisturbed(attempts) <==>
      forall a :: a in attempts ==> !a.abortedBefore && !a.abortedAfter && (a.run.Ran? ==> !a.run.outcome.Aborted?);
    hide Dedup, HitsOf, DeepestAdding, OwnLabels, EnoughAfter, Undisturbed;
    var hits := if limit < |merged| then merged[..limit] else merged;
    var tierUsed := DeepestTier(deepest, hits);
    out := Output(hits, tierUsed, attempted, budgetExceeded);
    if OwnLabels(attempts) {
      LabelsNotDeeper(attempts, n, deepest, hits);
      DepthInjective(tierUsed, deepest);
    }
  }

  lemma Shortest(attempts: seq<Attempt>, n: nat, minResults: nat)
    requires n <= |attempts| && forall j :: 0 < j < n ==> !EnoughAfter(attempts, j, minResults)
    ensures forall i :: 0 < i < n ==> attempts[i - 1].run.Threw? || |Dedup(HitsOf(attempts, i))| < minResults
    ensures EnoughAfter(attempts, n, minResults) ==>
      n > 0 && attempts[n - 1].run.Ran? && |Dedup(HitsOf(attempts, n))| >= minResults
  {
    hide Dedup, HitsOf;
    forall i | 0 < i < n ensures attempts[i - 1].run.Threw? || |Dedup(HitsOf(attempts, i))| < minResults {
      assert !EnoughAfter(attempts, i, minResults);
    }
  }

  lemma DepthInjective(a: Tier, b: Tier)
    ensures Depth(a) == Depth(b) <==> a == b
  {
  }

  /** With own labels, no merged hit is labelled deeper than the deepest tier that added one. */
  lemma LabelsNotDeeper(attempts: seq<Attempt>, n: nat, deepest: Tier, hits: seq<Hit>)
    requires |attempts| == 4 && n <= 4 && OwnLabels(attempts)
    requires deepest == TIER_ORDER[DeepestAdding(attempts, n)]
    requires hits <= Dedup(HitsOf(attempts, n))
    ensures forall h :: h in hits ==> Depth(h.tier) <= Depth(deepest)
  {
    LabelsBounded(attempts, n);
    forall h | h in hits ensures Depth(h.tier) <= Depth(deepest) {
      assert h in Dedup(HitsOf(attempts, n));
    }
  }

  lemma {:induction false} LabelsBounded(attempts: seq<Attempt>, n: nat)
    requires |attempts| == 4 && n <= 4 && OwnLabels(attempts)
    ensures DeepestAdding(attempts, n) < 4
    ensures forall h :: h in Dedup(HitsOf(attempts, n)) ==> Depth(h.tier) <= DeepestAdding(attempts, n)
  {
    if n > 0 {
      LabelsBounded(attempts, n - 1);
      var before, now := HitsOf(attempts, n - 1), HitsOf(attempts, n);
      var more := if attempts[n - 1].run.Ran? then attempts[n - 1].run.hits else [];
      assert now == before + more;
      DedupAppend(before, more);
      if Distinct(attempts, n) > Distinct(attempts, n - 1) {
        LabelsUpTo(attempts, n);
        DedupIs(now);
      } else {
        assert Dedup(now) == Dedup(before);
      }
    }
  }

  lemma {:induction false} LabelsUpTo(attempts: seq<Attempt>, n: nat)
    requires |attempts| == 4 && n <= 4 && OwnLabels(attempts)
    ensures forall h :: h in HitsOf(attempts, n) ==> Depth(h.tier) < n
  {
    if n > 0 {
      LabelsUpTo(attempts, n - 1);
    }
  }

  lemma DistinctGrows(attempts: seq<Attempt>, n: nat)
    requires 0 < n <= |attempts|
    ensures Distinct(attempts, n - 1) <= Distinct(attempts, n)
  {
    var more := if attempts[n - 1].run.Ran? then attempts[n - 1].run.hits else [];
    DedupAppend(HitsOf(attempts, n - 1), more);
  }

  /**
   * The reported tier is the deepest that added a new URI, hybrid if none did: the attempt it names
   * added one, and no later one did.
   */
  lemma {:induction false} DeepestAddingIs(attempts: seq<Attempt>, n: nat)
    requires n <= |attempts|
    ensures var d := DeepestAdding(attempts, n);
      && (forall i :: d < i < n ==> Distinct(attempts, i + 1) == Distinct(attempts, i))
      && (Distinct(attempts, n) > 0 ==> d < n && Distinct(attempts, d + 1) > Distinct(attempts, d))
      && (Distinct(attempts, n) == 0 ==> d == 0)
  {
    if n > 0 {
      hide Distinct, HitsOf, Dedup;
      DeepestAddingIs(attempts, n - 1);
      DistinctGrows(attempts, n);
    } else {
      assert Dedup(HitsOf(attempts, 0)) == [];
    }
  }
}
