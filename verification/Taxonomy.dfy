/**
 * The taxonomy table, the vocabulary snapshot taken from it, and the vocabulary cross-check that
 * every classifier output has to pass.
 */
module Taxonomy {
  import opened Wrappers

  datatype Axis = Domain | Tag | Type | SourceType

  datatype TermState = Proposed | Established

  type Terms = map<(Axis, string), TermState>

  datatype Vocabulary = Vocabulary(domains: set<string>, tags: set<string>, types: set<string>)

  datatype Facets = Facets(domain: string, ftype: string, tags: seq<string>)

  /** A schema-valid classifier output; absent proposals are None and the empty sequence. */
  datatype Output = Output(facets: Facets, domainProposed: Option<string>, tagsProposed: seq<string>)

  datatype Violation = UnknownDomain(domain: string) | UnknownTag(tag: string)

  /** The established terms of one axis. */
  function EstablishedTerms(terms: Terms, axis: Axis): set<string> {
    set key | key in terms && key.0 == axis && terms[key] == Established :: key.1
  }

  function VocabularyOf(terms: Terms): Vocabulary {
    Vocabulary(EstablishedTerms(terms, Domain), EstablishedTerms(terms, Tag), EstablishedTerms(terms, Type))
  }

  /** Sorts the rows of the established-terms query into the three sets. */
  method LoadEstablishedVocabulary(terms: Terms, rows: seq<(Axis, string)>) returns (v: Vocabulary)
    requires Elems(rows) == set key | key in terms && key.0 in {Domain, Tag, Type} && terms[key] == Established
    ensures v == VocabularyOf(terms)
  {
    var domains: set<string>, tags: set<string>, types: set<string> := {}, {}, {};
    for i := 0 to |rows|
      invariant domains == set key | key in rows[..i] && key.0 == Domain :: key.1
      invariant tags == set key | key in rows[..i] && key.0 == Tag :: key.1
      invariant types == set key | key in rows[..i] && key.0 == Type :: key.1
    {
      assert rows[..i + 1] == rows[..i] + [rows[i]];
      match rows[i].0
      case Domain => domains := domains + {rows[i].1};
      case Tag => tags := tags + {rows[i].1};
      case Type => types := types + {rows[i].1};
      case SourceType =>
    }
    assert rows[..|rows|] == rows;
    assert forall key :: key in rows <==> key in Elems(rows);
    v := Vocabulary(domains, tags, types);
  }

  /** INSERT of a proposal that leaves an existing row, in whatever state, alone. */
  function InsertProposed(terms: Terms, axis: Axis, term: string): Terms {
    if (axis, term) in terms then terms else terms[(axis, term) := Proposed]
  }

  /** The first tag that is neither in the snapshot nor proposed. */
  function FirstUnknownTag(tags: seq<string>, known: set<string>): Option<string> {
    if tags == [] then None
    else if tags[0] in known then FirstUnknownTag(tags[1..], known)
    else Some(tags[0])
  }

  /** Any domain passes once some domain is proposed, whether or not it is the same one. */
  function CrossCheck(out: Output, v: Vocabulary): Result<Output, Violation> {
    if out.facets.domain !in v.domains && out.domainProposed.None? then
      Err(UnknownDomain(out.facets.domain))
    else
      match FirstUnknownTag(out.facets.tags, v.tags + Elems(out.tagsProposed))
      case Some(tag) => Err(UnknownTag(tag))
      case None => Ok(out)
  }

  lemma {:induction false} FirstUnknownTagIs(tags: seq<string>, known: set<string>)
    ensures FirstUnknownTag(tags, known).None? <==> forall t :: t in tags ==> t in known
    ensures FirstUnknownTag(tags, known).Some? ==>
      exists i :: 0 <= i < |tags| && tags[i] == FirstUnknownTag(tags, known).value && tags[i] !in known
               && forall j :: 0 <= j < i ==> tags[j] in known
  {
    if tags == [] {
    } else if tags[0] in known {
      FirstUnknownTagIs(tags[1..], known);
      assert forall t :: t in tags <==> t == tags[0] || t in tags[1..];
      if FirstUnknownTag(tags[1..], known).Some? {
        var i :| 0 <= i < |tags[1..]| && tags[1..][i] == FirstUnknownTag(tags[1..], known).value
              && tags[1..][i] !in known && forall j :: 0 <= j < i ==> tags[1..][j] in known;
        assert tags[i + 1] == tags[1..][i];
        forall j | 0 <= j < i + 1 ensures tags[j] in known {
          if j > 0 { assert tags[j] == tags[1..][j - 1]; }
        }
      }
    } else {
      assert tags[0] == FirstUnknownTag(tags, known).value;
    }
  }

  /** What an accepted output promises, and what it does not promise about the domain. */
  lemma AcceptedOutput(out: Output, v: Vocabulary)
    ensures CrossCheck(out, v).Ok? <==>
      && (out.facets.domain in v.domains || out.domainProposed.Some?)
      && (forall t :: t in out.facets.tags ==> t in v.tags || t in out.tagsProposed)
  {
    FirstUnknownTagIs(out.facets.tags, v.tags + Elems(out.tagsProposed));
  }

  /***** The proposals written by one classification *****/

  /** The table after the domain proposal and the first `k` tag proposals. */
  function TermsAfter(terms: Terms, out: Output, v: Vocabulary, k: nat): Terms
    requires k <= |out.tagsProposed|
  {
    if k == 0 then
      if out.domainProposed.Some? && out.domainProposed.value !in v.domains then
        InsertProposed(terms, Domain, out.domainProposed.value)
      else terms
    else
      var before := TermsAfter(terms, out, v, k - 1);
      if out.tagsProposed[k - 1] in v.tags then before
      else InsertProposed(before, Tag, out.tagsProposed[k - 1])
  }

  /** Terms are only added or promoted: nothing disappears and `Established` never reverts. */
  ghost predicate TermsGrow(before: Terms, after: Terms) {
    forall key :: key in before ==> key in after && (before[key] == Established ==> after[key] == Established)
  }

  /** The snapshot may be stale, but everything in it is still established. */
  ghost predicate SnapshotOf(v: Vocabulary, terms: Terms) {
    && v.domains <= EstablishedTerms(terms, Domain)
    && v.tags <= EstablishedTerms(terms, Tag)
  }

  lemma SnapshotStays(v: Vocabulary, before: Terms, after: Terms)
    requires SnapshotOf(v, before) && TermsGrow(before, after)
    ensures SnapshotOf(v, after)
  {
    forall d | d in v.domains ensures d in EstablishedTerms(after, Domain) {
      assert d in EstablishedTerms(before, Domain);
      assert (Domain, d) in after;
    }
    forall t | t in v.tags ensures t in EstablishedTerms(after, Tag) {
      assert t in EstablishedTerms(before, Tag);
      assert (Tag, t) in after;
    }
  }

  /** The proposals add exactly the missing terms, as `Proposed`, and alter no existing row. */
  lemma {:induction false} TermsAfterIs(terms: Terms, out: Output, v: Vocabulary, k: nat)
    requires k <= |out.tagsProposed| && SnapshotOf(v, terms)
    ensures var after := TermsAfter(terms, out, v, k);
      && (forall key :: key in terms ==> key in after && after[key] == terms[key])
      && (forall key :: key in after && key !in terms ==> after[key] == Proposed)
      && (forall key :: key in after <==>
            || key in terms
            || (out.domainProposed.Some? && key == (Domain, out.domainProposed.value))
            || (key.0 == Tag && key.1 in out.tagsProposed[..k]))
  {
    if k == 0 {
      if out.domainProposed.Some? && out.domainProposed.value in v.domains {
        assert out.domainProposed.value in EstablishedTerms(terms, Domain);
      }
    } else {
      TermsAfterIs(terms, out, v, k - 1);
      var tag := out.tagsProposed[k - 1];
      assert out.tagsProposed[..k] == out.tagsProposed[..k - 1] + [tag];
      if tag in v.tags {
        assert tag in EstablishedTerms(terms, Tag);
        assert (Tag, tag) in terms;
      }
    }
  }
}
