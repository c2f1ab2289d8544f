/**
 * The drain: inbox files are validated, moved to pending/, hashed, checked for duplicates, normalised
 * and persisted; failures go to failed/ with a sidecar. Every call may fail, an abort may throw, and
 * the process may die between any two calls (`Died`), leaving the lake as it then is. No other drain
 * touches the lake meanwhile.
 */
module Ingest {
  import opened Wrappers
  import opened Lake

  datatype Outcome = Ingested | Deduplicated | Failed | Died

  datatype PersistResult = Stored | PersistError | Threw | PersistDied

  /** `stopped` is true when the process died or the drain returned an error. */
  datatype Summary = Summary(ingested: nat, deduplicated: nat, failed: nat, lockContended: nat, stopped: bool)

  datatype Fetched = NotFound | IntegrityLoss | BodyMissing | Fetched(frontmatter: Frontmatter)

  predicate IsHex(s: string) {
    forall c :: c in s ==> '0' <= c <= '9' || 'a' <= c <= 'f'
  }

  /** Random tags are taken to give names that are not in use yet. */
  method FreshTag(used: set<Name>) returns (tag: string)
    ensures IsHex(tag) && |tag| > 0 && forall n :: n in used ==> |n| < |tag|
  {
    tag := "0";
    var rest := used;
    while rest != {}
      invariant IsHex(tag) && |tag| > 0 && rest <= used
      invariant forall n :: n in used && n !in rest ==> |n| < |tag|
      decreases rest
    {
      var n :| n in rest;
      tag := tag + seq(|n|, _ => '0');
      rest := rest - {n};
    }
  }

  lemma TaggedIsNoSidecar(base: Name, tag: string)
    requires IsHex(tag) && |tag| > 0
    ensures !EndsWith(base + "-" + tag, SIDECAR_SUFFIX)
  {
    var s := base + "-" + tag;
    assert s[|s| - 1] == tag[|tag| - 1] && tag[|tag| - 1] in tag;
    assert |s| >= 11 ==> s[|s| - 11..][10] == s[|s| - 1];
    assert SIDECAR_SUFFIX[10] == 'n';
  }

  /***** What becomes of one file when nothing fails *****/

  /** A content has gone to failed/, under its own name or a tagged one, with a sidecar beside it. */
  predicate RoutedAs(failed: map<Name, FailedFile>, failed': map<Name, FailedFile>, base: Name, target: Name, d: Digest) {
    && target !in failed
    && (if base in failed then |target| > |base| && target[..|base| + 1] == base + "-" else target == base)
    && failed' == failed[target := Moved(d)][target + ".error.json" := Sidecar]
  }

  ghost predicate Routed(failed: map<Name, FailedFile>, failed': map<Name, FailedFile>, base: Name, d: Digest) {
    exists target :: RoutedAs(failed, failed', base, target, d)
  }

  /** A content has its row, its body file, and its source under a name of its own in processed/. */
  predicate StoredAs(l: Lake, l': Lake, d: Digest, source: Name, mime: string, user: Frontmatter) {
    var id := "doc-" + d[..8];
    && id !in l.docs && l'.docs == l.docs[id := d]
    && l'.processed == l.processed[id + "__" + source := d]
    && l'.body.Keys == l.body.Keys + {id} && (forall x :: x in l.body && x != id ==> l'.body[x] == l.body[x])
    && FirstWritten(l'.body[id], user, id, source, mime, d)
  }

  predicate SameStore(l: Lake, l': Lake) {
    l'.docs == l.docs && l'.body == l.body && l'.processed == l.processed
  }

  /**
   * A validated file of content `d`, now in pending/ as `n`: a stored content is dropped, one that cannot be
   * normalised goes to failed/, and any other is stored.
   */
  ghost predicate MovedFile(l: Lake, l': Lake, n: Name, source: Name, mime: string, user: Option<Frontmatter>, o: Outcome)
    requires n in l.pending
  {
    var d := l.pending[n];
    && l'.inbox == l.inbox && l'.pending == l.pending - {n}
    && if d in l.docs.Values then o.Deduplicated? && SameStore(l, l') && l'.failed == l.failed
       else if user.Some? then o.Ingested? && StoredAs(l, l', d, source, mime, user.value) && l'.failed == l.failed
       else o.Failed? && SameStore(l, l') && Routed(l.failed, l'.failed, n, d)
  }

  /** The same for an inbox file: `mime` is None when the validation gate rejects it. */
  ghost predicate OneFile(l: Lake, l': Lake, name: Name, mime: Option<string>, user: Option<Frontmatter>, o: Outcome)
    requires name in l.inbox
  {
    var d := l.inbox[name];
    && l'.inbox == l.inbox - {name} && l'.pending == l.pending
    && if mime.Some? && d in l.docs.Values then o.Deduplicated? && SameStore(l, l') && l'.failed == l.failed
       else if mime.Some? && user.Some? then
         o.Ingested? && StoredAs(l, l', d, name, mime.value, user.value) && l'.failed == l.failed
       else
         && o.Failed? && SameStore(l, l')
         && exists base: Name :: (name !in l.pending ==> base == name) && Routed(l.failed, l'.failed, base, d)
  }

  /** A rejected file in plain terms: a new name in failed/ holds it, with a sidecar, and nothing that was there is gone. */
  lemma RejectedIsKept(l: Lake, l': Lake, name: Name, mime: Option<string>, user: Option<Frontmatter>)
    requires name in l.inbox && OneFile(l, l', name, mime, user, Failed)
    ensures exists target: Name ::
      (&& target !in l.failed
       && target in l'.failed && l'.failed[target] == Moved(l.inbox[name])
       && target + ".error.json" in l'.failed && l'.failed[target + ".error.json"] == Sidecar
       && forall x :: x in l.failed && x != target + ".error.json" ==> x in l'.failed && l'.failed[x] == l.failed[x])
  {
    hide SameStore, StoredAs;
    var d := l.inbox[name];
    var base: Name :| Routed(l.failed, l'.failed, base, d);
    RoutedMeans(l.failed, l'.failed, base, d);
  }

  lemma RoutedMeans(failed: map<Name, FailedFile>, failed': map<Name, FailedFile>, base: Name, d: Digest)
    requires Routed(failed, failed', base, d)
    ensures exists target: Name ::
      (&& target !in failed
       && target in failed' && failed'[target] == Moved(d)
       && target + ".error.json" in failed' && failed'[target + ".error.json"] == Sidecar
       && forall x :: x in failed && x != target + ".error.json" ==> x in failed' && failed'[x] == failed[x])
  {
    var target :| RoutedAs(failed, failed', base, target, d);
    assert |target + ".error.json"| != |target|;
  }

  lemma TargetRouted(l: Lake, l': Lake, loc: Loc, target: Name)
    requires ContentAt(l, loc).Some? && target !in l.failed
    requires if loc.name in l.failed then |target| > |loc.name| && target[..|loc.name| + 1] == loc.name + "-" else target == loc.name
    requires var moved := Without(WithFailed(l, target, ContentAt(l, loc).value), loc);
      l' == moved.(failed := moved.failed[target + SIDECAR_SUFFIX := Sidecar])
    ensures Routed(l.failed, l'.failed, loc.name, ContentAt(l, loc).value) && l' == Without(l, loc).(failed := l'.failed)
  {
    assert RoutedAs(l.failed, l'.failed, loc.name, target, ContentAt(l, loc).value);
  }

  lemma WithoutPending(l: Lake, n: Name)
    ensures Without(l, Pending(n)) == l.(pending := l.pending - {n})
    ensures ContentAt(l, Pending(n)) == if n in l.pending then Some(l.pending[n]) else None
  {
  }

  lemma WithoutInbox(l: Lake, n: Name)
    ensures Without(l, Inbox(n)) == l.(inbox := l.inbox - {n})
    ensures ContentAt(l, Inbox(n)) == if n in l.inbox then Some(l.inbox[n]) else None
  {
  }

  lemma MovedDuplicate(l: Lake, n: Name, source: Name, mime: string, user: Option<Frontmatter>)
    requires n in l.pending && l.pending[n] in l.docs.Values
    ensures MovedFile(l, l.(pending := l.pending - {n}), n, source, mime, user, Deduplicated)
  {
  }

  lemma MovedRejected(l: Lake, l': Lake, n: Name, source: Name, mime: string)
    requires n in l.pending && l.pending[n] !in l.docs.Values
    requires l' == l.(pending := l.pending - {n}, failed := l'.failed)
    requires Routed(l.failed, l'.failed, n, l.pending[n])
    ensures MovedFile(l, l', n, source, mime, None, Failed)
  {
    hide Routed;
  }

  lemma MovedStored(l: Lake, l': Lake, n: Name, source: Name, mime: string, user: Frontmatter)
    requires n in l.pending && l.pending[n] !in l.docs.Values
    requires l'.inbox == l.inbox && l'.pending == l.pending - {n} && l'.failed == l.failed
    requires StoredAs(l, l', l.pending[n], source, mime, user)
    ensures MovedFile(l, l', n, source, mime, Some(user), Ingested)
  {
    hide StoredAs;
  }

  lemma FileRejected(l: Lake, l': Lake, name: Name, user: Option<Frontmatter>)
    requires name in l.inbox && l' == l.(inbox := l.inbox - {name}, failed := l'.failed)
    requires Routed(l.failed, l'.failed, name, l.inbox[name])
    ensures OneFile(l, l', name, None, user, Failed)
  {
    hide Routed;
  }

  /** What becomes of a file after the move to pending/ is what becomes of it. */
  lemma FileMoved(l: Lake, l': Lake, name: Name, n: Name, mime: string, user: Option<Frontmatter>, o: Outcome)
    requires name in l.inbox && n !in l.pending && (name !in l.pending ==> n == name)
    requires var l1 := l.(pending := l.pending[n := l.inbox[name]], inbox := l.inbox - {name});
      MovedFile(l1, l', n, name, mime, user, o)
    ensures OneFile(l, l', name, Some(mime), user, o)
  {
    hide Routed, StoredAs;
    var l1 := l.(pending := l.pending[n := l.inbox[name]], inbox := l.inbox - {name});
    assert l1.pending - {n} == l.pending;
    StoredElsewhere(l, l1, l');
  }

  /** Storing does not depend on where the file was queued. */
  lemma StoredElsewhere(l: Lake, l1: Lake, l': Lake)
    requires l1.docs == l.docs && l1.body == l.body && l1.processed == l.processed
    ensures forall d: Digest, source, mime, user :: StoredAs(l1, l', d, source, mime, user) ==> StoredAs(l, l', d, source, mime, user)
  {
    hide FirstWritten;
  }

  /** Each file of the two directories once, leftovers first. */
  ghost predicate Listed(l: Lake, files: seq<Loc>) {
    && (forall loc :: loc in files <==> ContentAt(l, loc).Some?)
    && (forall i, j :: 0 <= i < j < |files| ==> files[i] != files[j] && !(files[i].Inbox? && files[j].Pending?))
  }

  /** From position `i` on the listed files are where they were, and no other file is left to drain. */
  ghost predicate Left(l0: Lake, l: Lake, files: seq<Loc>, i: nat) {
    && (forall j :: i <= j < |files| ==> ContentAt(l, files[j]) == ContentAt(l0, files[j]))
    && (forall loc :: ContentAt(l, loc).Some? ==> exists j :: i <= j < |files| && files[j] == loc)
  }

  /** The file at `loc` is gone from there, nothing else moved in the queues, and its content has a row if usable. */
  predicate TakenOut(l: Lake, l': Lake, loc: Loc, usable: bool)
    requires ContentAt(l, loc).Some?
  {
    && l'.inbox == Without(l, loc).inbox && l'.pending == Without(l, loc).pending
    && l'.docs.Values == l.docs.Values + if usable then {ContentAt(l, loc).value} else {}
  }

  lemma LeftAfter(l0: Lake, l: Lake, l': Lake, files: seq<Loc>, i: nat)
    requires i < |files| && Left(l0, l, files, i)
    requires forall j, k :: 0 <= j < k < |files| ==> files[j] != files[k]
    requires l'.inbox == Without(l, files[i]).inbox && l'.pending == Without(l, files[i]).pending
    ensures Left(l0, l', files, i + 1)
  {
    TakenContents(l, l', files[i]);
    hide ContentAt, Without;
    forall loc | ContentAt(l', loc).Some? ensures exists j :: i + 1 <= j < |files| && files[j] == loc {
      var j :| i <= j < |files| && files[j] == loc;
      assert j != i;
    }
    forall j | i + 1 <= j < |files| ensures ContentAt(l', files[j]) == ContentAt(l0, files[j]) {
      assert files[j] != files[i];
    }
  }

  lemma TakenContents(l: Lake, l': Lake, loc: Loc)
    requires l'.inbox == Without(l, loc).inbox && l'.pending == Without(l, loc).pending
    ensures ContentAt(l', loc).None?
    ensures forall other: Loc :: other != loc ==> ContentAt(l', other) == ContentAt(l, other)
  {
  }

  lemma SameContent(l0: Lake, l: Lake, files: seq<Loc>, i: nat)
    requires i < |files| && Left(l0, l, files, i)
    ensures ContentAt(l, files[i]) == ContentAt(l0, files[i])
  {
  }

  lemma NoneLeft(l0: Lake, l: Lake, files: seq<Loc>)
    requires Left(l0, l, files, |files|)
    ensures l.inbox == map[] && l.pending == map[]
  {
    forall n ensures n !in l.inbox && n !in l.pending {
      assert ContentAt(l, Inbox(n)).None? && ContentAt(l, Pending(n)).None?;
    }
  }

  /** As many rows have come as there are different new contents, and each content has its own. */
  lemma FreshStored(l0: Lake, l: Lake, added: set<Digest>)
    requires Valid(l0) && Valid(l) && added !! l0.docs.Values
    requires l.docs.Values == l0.docs.Values + added
    ensures |l.docs| == |l0.docs| + |added|
    ensures forall d :: d in added ==>
      && "doc-" + d[..8] in l.docs && l.docs["doc-" + d[..8]] == d
      && "doc-" + d[..8] in l.body && d in l.processed.Values
  {
    RowsAreContents(l0);
    RowsAreContents(l);
    forall d | d in added
      ensures "doc-" + d[..8] in l.docs && l.docs["doc-" + d[..8]] == d
      ensures "doc-" + d[..8] in l.body && d in l.processed.Values
    {
      var id :| id in l.docs && l.docs[id] == d;
      assert RowOk(l, id);
    }
  }

  /** Each content has one row. */
  lemma RowsAreContents(l: Lake)
    requires Valid(l)
    ensures |l.docs| == |l.docs.Values|
  {
    OneKeyEach(l.docs);
    forall x, y | x in l.docs && y in l.docs && l.docs[x] == l.docs[y] ensures x == y { HashesUnique(l, x, y); }
  }

  lemma {:induction false} OneKeyEach<K, V>(m: map<K, V>)
    ensures (forall x, y :: x in m && y in m && m[x] == m[y] ==> x == y) ==> |m| == |m.Values|
    decreases |m|
  {
    if m != map[] && forall x, y :: x in m && y in m && m[x] == m[y] ==> x == y {
      var k :| k in m;
      var rest := m - {k};
      OneKeyEach(rest);
      assert |rest| == |m| - 1 by { assert m.Keys == rest.Keys + {k}; assert |m.Keys| == |m| && |rest.Keys| == |rest|; }
      assert m.Values == rest.Values + {m[k]} by { KeyOut(m, k); }
      assert m[k] !in rest.Values;
    } else {
      assert m == map[] ==> m.Values == {};
    }
  }

  lemma KeyOut<K, V>(m: map<K, V>, k: K)
    requires k in m
    ensures m.Values == (m - {k}).Values + {m[k]}
  {
    forall v | v in m.Values ensures v in (m - {k}).Values + {m[k]} {
      var x :| x in m && m[x] == v;
      if x != k { assert (m - {k})[x] == v; }
    }
    forall v | v in (m - {k}).Values ensures v in m.Values {
      var x :| x in m - {k} && (m - {k})[x] == v;
      assert m[x] == v;
    }
    assert m[k] in m.Values;
  }

  /** A committed row, its body file and its source make a stored content. */
  lemma WrittenAndRemoved(body: map<DocId, Frontmatter>, id: DocId, fm: Frontmatter)
    ensures body[id := fm] - {id} == body - {id}
  {
  }

  lemma StoredIs(l0: Lake, l: Lake, n: Name, source: Name, mime: string, user: Frontmatter, fm: Frontmatter)
    requires n in l0.pending
    requires var d := l0.pending[n]; var id := DocIdFromHash(d);
      && id !in l0.docs && FirstWritten(fm, user, id, source, mime, d)
      && l == ToProcessed(l0.(body := l0.body[id := fm]), n, ProcessedName(id, source)).(docs := l0.docs[id := d])
    ensures StoredAs(l0, l, l0.pending[n], source, mime, user) && l.pending == l0.pending - {n}
    ensures l.inbox == l0.inbox && l.failed == l0.failed
  {
    hide FirstWritten;
  }

  lemma StoredCount(l: Lake, l': Lake, d: Digest, source: Name, mime: string, user: Frontmatter)
    requires StoredAs(l, l', d, source, mime, user)
    ensures |l'.docs| == |l.docs| + 1
  {
    hide FirstWritten;
    assert l'.docs.Keys == l.docs.Keys + {"doc-" + d[..8]};
    assert |l'.docs| == |l'.docs.Keys| && |l.docs| == |l.docs.Keys|;
  }

  lemma RestoreIs(l: Lake, n: Name)
    requires n in l.pending
    ensures Restore(l, n) == l.(inbox := l.inbox[n := l.pending[n]], pending := l.pending - {n})
    ensures n in Restore(l, n).inbox && Restore(l, n).inbox[n] == l.pending[n]
  {
  }

  lemma RowBody(l: Lake, id: DocId)
    requires Valid(l) && id in l.docs
    ensures id in l.body && "id" in l.body[id] && l.body[id]["id"] == id
  {
    assert RowOk(l, id);
  }

  /** The summary accounts for `i` files, and for every row that has come. */
  predicate Accounts(l0: Lake, l: Lake, s: Summary, i: nat) {
    && !s.stopped && s.lockContended == 0
    && s.ingested + s.deduplicated + s.failed == i
    && |l.docs| == |l0.docs| + s.ingested
  }

  lemma AccountsMean(l0: Lake, l: Lake, s: Summary, i: nat)
    requires Accounts(l0, l, s, i)
    ensures !s.stopped && s.lockContended == 0 && s.ingested + s.deduplicated + s.failed == i
    ensures |l.docs| == |l0.docs| + s.ingested
  {
  }

  lemma NoneAccounted(l: Lake)
    ensures Accounts(l, l, Summary(0, 0, 0, 0, false), 0)
  {
  }

  /** The summary after one more file. */
  function Counted(s: Summary, o: Outcome): (s': Summary)
    requires !o.Died?
    ensures s'.ingested == s.ingested + (if o.Ingested? then 1 else 0)
    ensures s'.ingested + s'.deduplicated + s'.failed == s.ingested + s.deduplicated + s.failed + 1
    ensures s'.lockContended == s.lockContended && s'.stopped == s.stopped
  {
    match o
    case Ingested => s.(ingested := s.ingested + 1)
    case Deduplicated => s.(deduplicated := s.deduplicated + 1)
    case Failed => s.(failed := s.failed + 1)
  }

  /** When it is `faulty`, any call may fail, an abort may come, and the process may die; otherwise nothing of that happens. */
  class Corpus {
    var inbox: map<Name, Digest>
    var pending: map<Name, Digest>
    var processed: map<Name, Digest>
    var failed: map<Name, FailedFile>
    var docs: map<DocId, Digest>
    var body: map<DocId, Frontmatter>
    const faulty: bool
    /** Whether the removal of a body file can fail; the code ignores it when it does. */
    const leaky: bool
    /** The validation gate: the MIME type of an acceptable file. */
    const mime: (Name, Digest) -> Option<string>
    /** The normaliser of a MIME type: the frontmatter the file brings along, None if it cannot be normalised. */
    const normalise: (string, Digest) -> Option<Frontmatter>

    function User(name: Name, d: Digest): Option<Frontmatter> {
      if mime(name, d).Some? then normalise(mime(name, d).value, d) else None
    }

    /** A file that can be ingested under its name. */
    predicate Usable(name: Name, d: Digest) {
      mime(name, d).Some? && User(name, d).Some?
    }

    function Now(): Lake
      reads this
    {
      Lake(inbox, pending, processed, failed, docs, body)
    }

    constructor (faulty: bool, leaky: bool, mime: (Name, Digest) -> Option<string>, normalise: (string, Digest) -> Option<Frontmatter>)
      ensures this.faulty == faulty && this.leaky == leaky && this.mime == mime && this.normalise == normalise
      ensures Now() == Lake(map[], map[], map[], map[], map[], map[])
      ensures Valid(Now()) && Tidy(Now())
    {
      this.faulty, this.leaky, this.mime, this.normalise := faulty, leaky, mime, normalise;
      inbox, pending, processed, failed, docs, body := map[], map[], map[], map[], map[], map[];
    }

    /** A user drops a file; `accepted` says that the name is one the conservation argument covers. */
    method Drop(name: Name, content: Digest) returns (accepted: bool)
      requires Valid(Now()) && Separated(Held(Now()) + {content})
      modifies this`inbox
      ensures accepted == (name !in old(inbox) && name !in pending && !EndsWith(name, SIDECAR_SUFFIX))
      ensures Now() == if accepted then old(Now()).(inbox := old(inbox)[name := content]) else old(Now())
      ensures Valid(Now()) && (old(Tidy(Now())) ==> Tidy(Now()))
      ensures accepted ==> Held(Now()) == old(Held(Now())) + {content}
    {
      accepted := name !in inbox && name !in pending && !EndsWith(name, SIDECAR_SUFFIX);
      if accepted {
        ghost var before := Now();
        inbox := inbox[name := content];
        ReplaceValues(before.inbox, name, content);
        assert Held(Now()) == Held(before) + {content};
        forall id | id in docs ensures RowOk(Now(), id) { assert RowOk(before, id); }
      }
    }

    /** The file's own name, or a tagged one if that is taken. */
    method FailedTarget(base: Name) returns (target: Name)
      ensures target !in failed && (target == base || !EndsWith(target, SIDECAR_SUFFIX))
      ensures if base in failed then |target| > |base| && target[..|base| + 1] == base + "-" else target == base
    {
      target := base;
      if base in failed {
        var tag := FreshTag(failed.Keys);
        TaggedIsNoSidecar(base, tag);
        target := base + "-" + tag;
        assert |target| > |tag|;
      }
    }

    method Remove(loc: Loc)
      modifies this`inbox, this`pending
      ensures Now() == Without(old(Now()), loc)
    {
      match loc {
        case Inbox(n) => inbox := inbox - {n};
        case Pending(n) => pending := pending - {n};
      }
    }

    /** Renames a file to its place in failed/; `gone` is false when that fails. */
    method MoveToFailed(loc: Loc, target: Name) returns (gone: bool, died: bool)
      requires Valid(Now()) && ContentAt(Now(), loc).Some?
      requires target !in failed && (target == loc.name || !EndsWith(target, SIDECAR_SUFFIX))
      modifies this`inbox, this`pending, this`failed
      ensures Valid(Now()) && Evolves(old(Now()), Now())
      ensures !faulty ==>
        gone && !died && Now() == Without(WithFailed(old(Now()), target, ContentAt(old(Now()), loc).value), loc)
    {
      hide Valid, Evolves, Tidy, Held, Queue, FailedContents, EndsWith;
      ghost var l0 := Now();
      EvolvesReflexive(l0);
      gone, died := false, false;
      var fails: bool :| fails ==> faulty;
      if fails { return; }
      if Tidy(l0) && target == loc.name { TidyName(l0, loc); }
      fails :| fails ==> faulty;
      if fails {                      // a cross-device copy breaks off, or the process dies during it
        PartialEvolves(l0, target);
        failed := failed[target := Partial];
        died := *;
        return;
      }
      CopyEvolves(l0, loc, target);
      failed := failed[target := Moved(ContentAt(Now(), loc).value)];
      died :| died ==> faulty;                // between copy and unlink of a cross-device move
      if died { return; }
      fails :| fails ==> faulty;
      if fails { return; }            // that unlink fails
      ghost var l1 := Now();
      assert l1 == WithFailed(l0, target, ContentAt(l0, loc).value) && ContentAt(l1, loc) == ContentAt(l0, loc);
      RemoveCopiedEvolves(l1, loc);
      Remove(loc);
      EvolvesTransitive(l0, l1, Now());
      gone := true;
      died :| died ==> faulty;
    }

    /** Moves a file that may have vanished to failed/ and writes its sidecar. */
    method RouteToFailed(loc: Loc) returns (died: bool)
      requires Valid(Now())
      modifies this`inbox, this`pending, this`failed
      ensures died ==> faulty
      ensures Valid(Now()) && Evolves(old(Now()), Now())
      ensures !faulty && ContentAt(old(Now()), loc).Some? ==>
        && !died && Now() == Without(old(Now()), loc).(failed := failed)
        && Routed(old(failed), failed, loc.name, ContentAt(old(Now()), loc).value)
    {
      hide Valid, Evolves, EndsWith, Routed, Without, WithFailed, ContentAt;
      ghost var l0 := Now();
      EvolvesReflexive(l0);
      var target := FailedTarget(loc.name);
      died :| died ==> faulty;
      if died { return; }
      if ContentAt(Now(), loc).Some? {
        var gone;
        gone, died := MoveToFailed(loc, target);
        if died || !gone { return; }
      }
      ghost var l1 := Now();
      var fails: bool :| fails ==> faulty;
      if fails { return; }            // the sidecar cannot be written
      SidecarEvolves(l1, target);
      failed := failed[target + SIDECAR_SUFFIX := Sidecar];
      EvolvesTransitive(l0, l1, Now());
      if !faulty && ContentAt(l0, loc).Some? { TargetRouted(l0, Now(), loc, target); }
      died :| died ==> faulty;
    }

    /** Routes only a file that is still there. */
    method RouteIfPresent(loc: Loc) returns (o: Outcome)
      requires Valid(Now())
      modifies this`inbox, this`pending, this`failed
      ensures o == Failed || (o == Died && faulty)
      ensures Valid(Now()) && Evolves(old(Now()), Now())
      ensures !faulty && ContentAt(old(Now()), loc).Some? ==>
        && o.Failed? && Now() == Without(old(Now()), loc).(failed := failed)
        && Routed(old(failed), failed, loc.name, ContentAt(old(Now()), loc).value)
    {
      if ContentAt(Now(), loc).Some? {
        var died := RouteToFailed(loc);
        if died { return Died; }
      }
      return Failed;
    }

    /** Renames an inbox file into pending/, never knowingly over a leftover. None when the rename throws. */
    method MoveToPending(name: Name) returns (target: Option<Name>)
      requires Valid(Now()) && name in inbox
      modifies this`inbox, this`pending
      ensures Valid(Now()) && Evolves(old(Now()), Now())
      ensures target.None? ==> Now() == old(Now())
      ensures target.Some? ==>
        Now() == old(Now()).(pending := old(pending)[target.value := old(inbox)[name]], inbox := old(inbox) - {name})
      ensures target.Some? && target.value != name ==>
        name in old(pending) && exists tag: string :: IsHex(tag) && tag != "" && target.value == tag + "-" + name
      ensures !faulty ==> target.Some? && target.value !in old(pending) && (name !in old(pending) ==> target.value == name)
    {
      hide Valid, Evolves, Tidy, Held, Queue, FailedContents;
      ghost var l0 := Now();
      EvolvesReflexive(l0);
      var to := name;
      if name in pending {
        var tag := FreshTag(pending.Keys);
        var fails: bool :| fails ==> faulty;
        // When the rename to the tagged name fails, the plain name is tried after all.
        if !fails {
          to := tag + "-" + name;
          assert |to| > |tag|;
        }
      }
      var fails: bool :| fails ==> faulty;
      if fails { return None; }
      ToPendingEvolves(l0, name, to);
      pending := pending[to := inbox[name]];
      inbox := inbox - {name};
      return Some(to);
    }

    /** Best-effort removal of the body file of a row that was not committed. */
    method RemoveBody(id: DocId)
      requires Valid(Now()) && id !in docs
      modifies this`body
      ensures Valid(Now()) && Evolves(old(Now()), Now())
      ensures body == old(body) - {id} || (leaky && body == old(body))
    {
      hide Valid, Evolves;
      EvolvesReflexive(Now());
      var fails: bool :| fails ==> leaky;
      if fails { return; }
      BodyEvolves(Now(), id, body - {id});
      body := body - {id};
    }

    /** INSERT, then the rename to processed/; false if either fails. The row is not committed yet. */
    method InsertAndRename(n: Name, original: Name) returns (ok: bool, died: bool)
      requires Valid(Now()) && n in pending
      modifies this`pending, this`processed
      ensures Valid(Now()) && Evolves(old(Now()), Now())
      ensures ok ==>
        var d := old(pending)[n];
        && DocIdFromHash(d) !in docs && d !in docs.Values && d in processed.Values
        && Now() == ToProcessed(old(Now()), n, ProcessedName(DocIdFromHash(d), original))
      ensures !faulty && DocIdFromHash(old(pending)[n]) !in docs && old(pending)[n] !in docs.Values ==> ok && !died
    {
      hide Valid, Evolves, DocIdFromHash, ProcessedName;
      ghost var l0 := Now();
      EvolvesReflexive(l0);
      var d := pending[n];
      var fails: bool :| fails ==> faulty;                  // BEGIN and INSERT; the constraints are checked here
      died := false;
      ok := !fails && DocIdFromHash(d) !in docs && d !in docs.Values;
      if !ok { return; }
      fails :| fails ==> faulty;
      if fails { return false, true; }
      fails :| fails ==> faulty;
      if fails { return false, false; }      // the rename fails
      ToProcessedEvolves(l0, n, original);
      processed := processed[ProcessedName(DocIdFromHash(d), original) := d];
      pending := pending - {n};
      fails :| fails ==> faulty;
      if fails { return false, true; }
    }

    /**
     * Writes the body file, then inserts the row and renames the source to processed/ in one
     * transaction; anything that fails before the commit removes the body file again.
     */
    method Persist(n: Name, original: Name, mimeType: string, user: Frontmatter) returns (r: PersistResult)
      requires Valid(Now()) && n in pending && pending[n] !in docs.Values
      modifies this`pending, this`processed, this`docs, this`body
      ensures Valid(Now()) && Evolves(old(Now()), Now())
      ensures r.Stored? ==>
        pending == old(pending) - {n} && StoredAs(old(Now()), Now(), old(pending)[n], original, mimeType, user)
      ensures r.PersistError? || r.Threw? ==> docs == old(docs)
      ensures r.PersistError? && !leaky ==> body == old(body) || body == old(body) - {DocIdFromHash(old(pending)[n])}
      ensures !faulty ==> r.Stored?
    {
      hide Valid, Evolves, Tidy, Held, Queue, FailedContents, DocIdFromHash, ProcessedName, StoredAs, FirstWritten, ToProcessed, Committable;
      ghost var l0 := Now();
      EvolvesReflexive(l0);
      var d := pending[n];
      var id := DocIdFromHash(d);
      PendingIsHeld(l0, n);
      FreshId(l0, d);
      var fails: bool :| fails ==> faulty;
      if fails { return Threw; }
      fails :| fails ==> faulty;
      if fails { return PersistError; }      // no shard directory, or the body file cannot be written
      var fm := WriteBody(id, original, mimeType, user, d);
      ghost var l1 := Now();
      fails :| fails ==> faulty;
      if fails { return PersistDied; }
      fails :| fails ==> faulty;
      if fails { return Threw; }             // aborted, or the database cannot be opened
      r := CommitOrCleanUp(n, original);
      EvolvesTransitive(l0, l1, Now());
      if r.Stored? {
        StoredIs(l0, Now(), n, original, mimeType, user, fm);
      }
      WrittenAndRemoved(l0.body, id, fm);
    }

    /** The body file: the normalised frontmatter under the new id. */
    method WriteBody(id: DocId, original: Name, mimeType: string, user: Frontmatter, d: Digest) returns (fm: Frontmatter)
      requires Valid(Now()) && id !in docs && id == DocIdFromHash(d)
      modifies this`body
      ensures Valid(Now()) && Evolves(old(Now()), Now()) && Committable(Now(), d)
      ensures body == old(body)[id := fm] && FirstWritten(fm, user, id, original, mimeType, d)
    {
      hide Valid, Evolves, NormalizedFrontmatter, DocIdFromHash;
      var time: string := *;
      fm := NormalizedFrontmatter(user, id, original, time, mimeType, d);
      OverlayIs(user, id, original, time, mimeType, d);
      BodyEvolves(Now(), id, body[id := fm]);
      body := body[id := fm];
    }

    /** The transaction; when it fails, the body file written before it is removed again. */
    method CommitOrCleanUp(n: Name, original: Name) returns (r: PersistResult)
      requires Valid(Now()) && n in pending && pending[n] !in docs.Values && Committable(Now(), pending[n])
      modifies this`pending, this`processed, this`docs, this`body
      ensures Valid(Now()) && Evolves(old(Now()), Now())
      ensures r.Stored? ==>
        var d := old(pending)[n]; var id := DocIdFromHash(d);
        Now() == ToProcessed(old(Now()), n, ProcessedName(id, original)).(docs := old(docs)[id := d])
      ensures r.PersistError? ==> docs == old(docs)
      ensures r.PersistError? ==> body == old(body) - {DocIdFromHash(old(pending)[n])} || (leaky && body == old(body))
      ensures !r.Threw?
      ensures !faulty ==> r.Stored?
    {
      hide Valid, Evolves, DocIdFromHash, ProcessedName, ToProcessed;
      ghost var l0 := Now();
      var d := pending[n];
      r := CommitRow(n, original);
      if r.PersistError? {
        ghost var l1 := Now();
        RemoveBody(DocIdFromHash(d));
        EvolvesTransitive(l0, l1, Now());
      }
    }

    /** The transaction, with the rename inside it. */
    method CommitRow(n: Name, original: Name) returns (r: PersistResult)
      requires Valid(Now()) && n in pending && pending[n] !in docs.Values && Committable(Now(), pending[n])
      modifies this`pending, this`processed, this`docs
      ensures Valid(Now()) && Evolves(old(Now()), Now())
      ensures r.Stored? ==>
        var d := old(pending)[n]; var id := DocIdFromHash(d);
        Now() == ToProcessed(old(Now()), n, ProcessedName(id, original)).(docs := old(docs)[id := d])
      ensures r.PersistError? ==> docs == old(docs)
      ensures !r.Threw?
      ensures !faulty ==> r.Stored?
    {
      hide Valid, Evolves, Tidy, Held, Queue, FailedContents, DocIdFromHash, ProcessedName;
      ghost var l0 := Now();
      var d := pending[n];
      PendingIsHeld(l0, n);
      var renamed, died := InsertAndRename(n, original);
      ghost var l1 := Now();
      if died { return PersistDied; }
      var fails: bool :| fails ==> faulty;
      if !renamed || fails { return PersistError; }
      CommitEvolves(l0, l1, d);
      docs := docs[DocIdFromHash(d) := d];
      fails :| fails ==> faulty;
      if fails { return PersistDied; }
      return Stored;
    }

    /** The gates after the move to pending/: hash, duplicate check, normalisation, persist. */
    method ProcessMoved(name: Name, n: Name, mimeType: string) returns (o: Outcome)
      requires Valid(Now()) && n in pending
      modifies this
      ensures Valid(Now()) && Evolves(old(Now()), Now())
      ensures o.Died? ==> faulty
      ensures !o.Died? ==> |docs| == |old(docs)| + (if o.Ingested? then 1 else 0)
      ensures !o.Died? && !o.Ingested? ==> docs == old(docs)
      ensures o.Deduplicated? ==> old(pending)[n] in old(docs).Values
      ensures o.Ingested? ==>
        && old(pending)[n] !in old(docs).Values && normalise(mimeType, old(pending)[n]).Some?
        && StoredAs(old(Now()), Now(), old(pending)[n], name, mimeType, normalise(mimeType, old(pending)[n]).value)
      ensures !faulty ==> MovedFile(old(Now()), Now(), n, name, mimeType, normalise(mimeType, old(pending)[n]), o)
    {
      hide Valid, Evolves, Routed, StoredAs, MovedFile, Without;
      ghost var l0 := Now();
      EvolvesReflexive(l0);
      var d := pending[n];
      var fails: bool :| fails ==> faulty;
      if fails {
        o := RouteIfPresent(Inbox(name));    // an abort thrown by the hasher: nothing is left there
        return;
      }
      fails :| fails ==> faulty;
      if fails {
        o := RouteIfPresent(Pending(n));     // unreadable, unstable or aborted while hashing
        return;
      }
      if d in docs.Values {
        fails :| fails ==> faulty;
        if fails { return Deduplicated; }    // the removal fails silently
        DropDuplicateEvolves(l0, n);
        WithoutPending(l0, n);
        MovedDuplicate(l0, n, name, mimeType, normalise(mimeType, d));
        pending := pending - {n};
        fails :| fails ==> faulty;
        if fails { return Died; }
        return Deduplicated;
      }
      o := StoreMoved(name, n, mimeType);
    }

    /** The gates after the duplicate check: normalisation, persist. */
    method StoreMoved(name: Name, n: Name, mimeType: string) returns (o: Outcome)
      requires Valid(Now()) && n in pending && pending[n] !in docs.Values
      modifies this
      ensures Valid(Now()) && Evolves(old(Now()), Now())
      ensures o.Died? ==> faulty
      ensures !o.Deduplicated?
      ensures !o.Died? ==> |docs| == |old(docs)| + (if o.Ingested? then 1 else 0)
      ensures !o.Died? && !o.Ingested? ==> docs == old(docs)
      ensures o.Ingested? ==>
        && normalise(mimeType, old(pending)[n]).Some?
        && StoredAs(old(Now()), Now(), old(pending)[n], name, mimeType, normalise(mimeType, old(pending)[n]).value)
      ensures !faulty ==> MovedFile(old(Now()), Now(), n, name, mimeType, normalise(mimeType, old(pending)[n]), o)
    {
      hide Valid, Evolves, Routed, StoredAs, MovedFile, Without;
      ghost var l0 := Now();
      EvolvesReflexive(l0);
      var d := pending[n];
      var fails: bool :| fails ==> faulty;
      if fails { return Died; }
      var user := normalise(mimeType, d);
      fails :| fails ==> faulty;
      if fails || user.None? {
        o := RouteIfPresent(Pending(n));     // normalisation fails
        if !faulty {
          WithoutPending(l0, n);
          MovedRejected(l0, Now(), n, name, mimeType);
        }
        return;
      }
      var r := Persist(n, name, mimeType, user.value);
      ghost var l1 := Now();
      match r {
        case PersistDied => return Died;
        case Stored =>
          StoredCount(l0, l1, d, name, mimeType, user.value);
          MovedStored(l0, l1, n, name, mimeType, user.value);
          return Ingested;
        case PersistError => o := RouteIfPresent(Pending(n));
        case Threw => o := RouteIfPresent(Inbox(name));
      }
      EvolvesTransitive(l0, l1, Now());
    }

    /** One inbox file, through all six gates. */
    method ProcessOneFile(name: Name) returns (o: Outcome)
      requires Valid(Now())
      modifies this
      ensures Valid(Now()) && Evolves(old(Now()), Now())
      ensures o.Died? ==> faulty
      ensures !o.Died? ==> |docs| == |old(docs)| + (if o.Ingested? then 1 else 0)
      ensures !o.Died? && !o.Ingested? ==> docs == old(docs)
      ensures o.Deduplicated? ==> name in old(inbox) && old(inbox)[name] in old(docs).Values
      ensures o.Ingested? ==>
        && name in old(inbox) && old(inbox)[name] !in old(docs).Values
        && var d := old(inbox)[name];
           Usable(name, d) && StoredAs(old(Now()), Now(), d, name, mime(name, d).value, User(name, d).value)
      ensures !faulty && name in old(inbox) ==>
        var d := old(inbox)[name]; OneFile(old(Now()), Now(), name, mime(name, d), User(name, d), o)
    {
      hide Valid, Evolves, Routed, StoredAs, MovedFile, OneFile, Without, ContentAt;
      ghost var l0 := Now();
      EvolvesReflexive(l0);
      var fails: bool :| fails ==> faulty;
      if fails || name !in inbox || mime(name, inbox[name]).None? {
        o := RouteIfPresent(Inbox(name));    // rejected, vanished, or an abort thrown by the validation gate
        if !faulty && name in l0.inbox {
          WithoutInbox(l0, name);
          FileRejected(l0, Now(), name, User(name, l0.inbox[name]));
        }
        return;
      }
      o := ProcessValid(name, mime(name, inbox[name]).value);
    }

    /** The gates after validation, which found the MIME type. */
    method ProcessValid(name: Name, mimeType: string) returns (o: Outcome)
      requires Valid(Now()) && name in inbox
      modifies this
      ensures Valid(Now()) && Evolves(old(Now()), Now())
      ensures o.Died? ==> faulty
      ensures !o.Died? ==> |docs| == |old(docs)| + (if o.Ingested? then 1 else 0)
      ensures !o.Died? && !o.Ingested? ==> docs == old(docs)
      ensures o.Deduplicated? ==> old(inbox)[name] in old(docs).Values
      ensures o.Ingested? ==>
        var d := old(inbox)[name];
        && d !in old(docs).Values && normalise(mimeType, d).Some?
        && StoredAs(old(Now()), Now(), d, name, mimeType, normalise(mimeType, d).value)
      ensures !faulty ==>
        OneFile(old(Now()), Now(), name, Some(mimeType), normalise(mimeType, old(inbox)[name]), o)
    {
      hide Valid, Evolves, Routed, StoredAs, MovedFile, OneFile, Without, ContentAt, IsHex, SameStore, FirstWritten, DocIdFromHash, Separated;
      ghost var l0 := Now();
      EvolvesReflexive(l0);
      var fails: bool :| fails ==> faulty;
      if fails { return Died; }
      var moved := MoveToPending(name);
      if moved.None? {
        o := RouteIfPresent(Inbox(name));
        return;
      }
      fails :| fails ==> faulty;
      if fails { return Died; }
      o := ProcessQueued(name, moved.value, mimeType, l0);
    }

    /** The gates after the move to pending/, from the lake before it. */
    method ProcessQueued(name: Name, n: Name, mimeType: string, ghost l0: Lake) returns (o: Outcome)
      requires Valid(Now()) && name in l0.inbox && Evolves(l0, Now())
      requires Now() == l0.(pending := l0.pending[n := l0.inbox[name]], inbox := l0.inbox - {name})
      requires !faulty ==> n !in l0.pending && (name !in l0.pending ==> n == name)
      modifies this
      ensures Valid(Now()) && Evolves(l0, Now())
      ensures o.Died? ==> faulty
      ensures !o.Died? ==> |docs| == |l0.docs| + (if o.Ingested? then 1 else 0)
      ensures !o.Died? && !o.Ingested? ==> docs == l0.docs
      ensures o.Deduplicated? ==> l0.inbox[name] in l0.docs.Values
      ensures o.Ingested? ==>
        var d := l0.inbox[name];
        && d !in l0.docs.Values && normalise(mimeType, d).Some?
        && StoredAs(l0, Now(), d, name, mimeType, normalise(mimeType, d).value)
      ensures !faulty ==>
        OneFile(l0, Now(), name, Some(mimeType), normalise(mimeType, l0.inbox[name]), o)
    {
      hide Valid, Evolves, Routed, StoredAs, MovedFile, OneFile, Without, ContentAt;
      ghost var l1 := Now();
      o := ProcessMoved(name, n, mimeType);
      ghost var l2 := Now();
      EvolvesTransitive(l0, l1, l2);
      StoredElsewhere(l0, l1, l2);
      if !faulty { FileMoved(l0, l2, name, n, mimeType, normalise(mimeType, l0.inbox[name]), o); }
    }

    /** A leftover goes back to the inbox and through the gates again. */
    method ProcessPendingFile(n: Name) returns (o: Outcome)
      requires Valid(Now())
      modifies this
      ensures Valid(Now()) && Evolves(old(Now()), Now())
      ensures o.Died? ==> faulty
      ensures !o.Died? ==> |docs| == |old(docs)| + (if o.Ingested? then 1 else 0)
      ensures !o.Died? && !o.Ingested? ==> docs == old(docs)
      ensures o.Deduplicated? ==> n in old(pending) && old(pending)[n] in old(docs).Values
      ensures o.Ingested? ==>
        && n in old(pending) && old(pending)[n] !in old(docs).Values
        && var d := old(pending)[n];
           Usable(n, d) && StoredAs(old(Now()), Now(), d, n, mime(n, d).value, User(n, d).value)
      ensures !faulty && n in old(pending) ==>
        var d := old(pending)[n]; OneFile(Restore(old(Now()), n), Now(), n, mime(n, d), User(n, d), o)
    {
      hide Valid, Evolves, StoredAs, OneFile, Routed, Restore;
      ghost var l0 := Now();
      var fails: bool :| fails ==> faulty;
      if fails || n !in pending {
        o := RouteIfPresent(Pending(n));
        return;
      }
      RestoreEvolves(l0, n);
      assert n in l0.pending;
      inbox := inbox[n := pending[n]];
      pending := pending - {n};
      ghost var l1 := Now();
      RestoreIs(l0, n);
      fails :| fails ==> faulty;
      if fails { return Died; }
      o := ProcessOneFile(n);
      EvolvesTransitive(l0, l1, Now());
      StoredElsewhere(l0, l1, Now());
    }

    /** Leftovers first, then the inbox, each in whatever order the directory is read. */
    method ListFiles() returns (files: seq<Loc>)
      ensures |files| == |pending| + |inbox|
      ensures Listed(Now(), files)
    {
      files := [];
      var rest := pending.Keys;
      while rest != {}
        invariant rest <= pending.Keys && |files| + |rest| == |pending|
        invariant forall loc :: loc in files <==> loc.Pending? && loc.name in pending && loc.name !in rest
        invariant forall i, j :: 0 <= i < j < |files| ==> files[i] != files[j]
        decreases rest
      {
        var n :| n in rest;
        files, rest := files + [Pending(n)], rest - {n};
      }
      var listed := files;
      rest := inbox.Keys;
      while rest != {}
        invariant rest <= inbox.Keys && |files| + |rest| == |pending| + |inbox|
        invariant |listed| <= |files| && files[..|listed|] == listed
        invariant forall loc :: loc in files <==> loc in listed || (loc.Inbox? && loc.name in inbox && loc.name !in rest)
        invariant forall i :: |listed| <= i < |files| ==> files[i].Inbox?
        invariant forall i, j :: 0 <= i < j < |files| ==> files[i] != files[j]
        decreases rest
      {
        var n :| n in rest;
        files, rest := files + [Inbox(n)], rest - {n};
      }
      forall i, j | 0 <= i < j < |files| ensures !(files[i].Inbox? && files[j].Pending?) {
        if j < |listed| { assert files[i] == listed[i]; }
      }
    }

    /** One listed file, where it was listed; an aborted drain only routes it to failed/. */
    method ProcessListed(loc: Loc) returns (o: Outcome)
      requires Valid(Now())
      modifies this
      ensures Valid(Now()) && Evolves(old(Now()), Now())
      ensures o.Died? ==> faulty
      ensures !o.Died? ==> |docs| == |old(docs)| + (if o.Ingested? then 1 else 0)
      ensures !faulty ==> Proceeds(old(Now()), Now(), loc)
    {
      hide Valid, Evolves, OneFile, StoredAs, Routed, Usable, User, TakenOut, Restore;
      ghost var l0 := Now();
      var aborted: bool :| aborted ==> faulty;
      if aborted {
        o := RouteIfPresent(loc);
      } else if loc.Pending? {
        o := ProcessPendingFile(loc.name);
        if !faulty && loc.name in l0.pending && loc.name !in l0.inbox { LeftoverTaken(l0, Now(), loc.name, o); }
      } else {
        o := ProcessOneFile(loc.name);
        if !faulty && loc.name in l0.inbox { InboxTaken(l0, Now(), loc.name, o); }
      }
    }

    /** If the file is there, and its name is free in the inbox in case it is a leftover, it is taken out. */
    ghost predicate Proceeds(l: Lake, l': Lake, loc: Loc) {
      ContentAt(l, loc).Some? && (loc.Pending? ==> loc.name !in l.inbox) ==>
        TakenOut(l, l', loc, Usable(loc.name, ContentAt(l, loc).value))
    }

    lemma InboxTaken(l: Lake, l': Lake, n: Name, o: Outcome)
      requires n in l.inbox && OneFile(l, l', n, mime(n, l.inbox[n]), User(n, l.inbox[n]), o)
      ensures TakenOut(l, l', Inbox(n), Usable(n, l.inbox[n]))
      ensures ContentAt(l, Inbox(n)) == Some(l.inbox[n])
    {
      RowsAfter(l, l', n, mime(n, l.inbox[n]), User(n, l.inbox[n]), o);
      hide StoredAs, Routed;
    }

    lemma LeftoverTaken(l: Lake, l': Lake, n: Name, o: Outcome)
      requires n in l.pending && n !in l.inbox
      requires OneFile(Restore(l, n), l', n, mime(n, l.pending[n]), User(n, l.pending[n]), o)
      ensures TakenOut(l, l', Pending(n), Usable(n, l.pending[n]))
      ensures ContentAt(l, Pending(n)) == Some(l.pending[n])
    {
      RowsAfter(Restore(l, n), l', n, mime(n, l.pending[n]), User(n, l.pending[n]), o);
      hide StoredAs, Routed;
      assert Restore(l, n).inbox - {n} == l.inbox;
    }

    /** The contents to ingest: those of the usable files, without those that are stored. */
    function Fresh(l: Lake): set<Digest> {
      (set n | n in l.inbox && Usable(n, l.inbox[n]) && l.inbox[n] !in l.docs.Values :: l.inbox[n])
      + (set n | n in l.pending && Usable(n, l.pending[n]) && l.pending[n] !in l.docs.Values :: l.pending[n])
    }

    /** The contents of the usable files among the first `i` listed. */
    ghost function Done(l: Lake, files: seq<Loc>, i: nat): set<Digest>
      requires i <= |files| && forall j :: 0 <= j < i ==> ContentAt(l, files[j]).Some?
    {
      if i == 0 then {}
      else
        var d := ContentAt(l, files[i - 1]).value;
        Done(l, files, i - 1) + if Usable(files[i - 1].name, d) then {d} else {}
    }

    lemma {:induction false} DoneIs(l: Lake, files: seq<Loc>, i: nat, d: Digest)
      requires i <= |files| && forall j :: 0 <= j < i ==> ContentAt(l, files[j]).Some?
      ensures d in Done(l, files, i)
        <==> exists j :: 0 <= j < i && ContentAt(l, files[j]) == Some(d) && Usable(files[j].name, d)
    {
      if i > 0 { DoneIs(l, files, i - 1, d); }
    }

    /** Over all files listed, what is done is what is fresh, besides what was stored already. */
    lemma AllDone(l: Lake, files: seq<Loc>)
      requires Listed(l, files)
      ensures (forall j :: 0 <= j < |files| ==> ContentAt(l, files[j]).Some?)
      ensures Done(l, files, |files|) - l.docs.Values == Fresh(l)
    {
      assert forall j :: 0 <= j < |files| ==> files[j] in files;
      forall d ensures d in Done(l, files, |files|) - l.docs.Values <==> d in Fresh(l) {
        DoneIs(l, files, |files|, d);
        if d in Fresh(l) { ListedFresh(l, files, d); }
      }
    }

    lemma ListedFresh(l: Lake, files: seq<Loc>, d: Digest)
      requires Listed(l, files) && d in Fresh(l)
      ensures exists j :: 0 <= j < |files| && ContentAt(l, files[j]) == Some(d) && Usable(files[j].name, d)
    {
      if n :| n in l.inbox && l.inbox[n] == d && Usable(n, d) {
        assert ContentAt(l, Inbox(n)) == Some(d) && Inbox(n) in files;
      } else {
        var n :| n in l.pending && l.pending[n] == d && Usable(n, d);
        assert ContentAt(l, Pending(n)) == Some(d) && Pending(n) in files;
      }
    }

    /**
     * Drains pending/ and inbox/. A drain that takes the lock and returns has accounted for every file
     * it listed, and has added one row per ingested file and no other. When nothing fails and no names
     * clash, both directories are empty afterwards, and the ingested files are as many as there were
     * different new usable contents, each of which has its row, its body file and its source.
     */
    method Drain(lockFree: bool) returns (s: Summary)
      requires Valid(Now())
      modifies this
      ensures Valid(Now()) && Evolves(old(Now()), Now())
      ensures !lockFree ==> s == Summary(0, 0, 0, 1, false) && Now() == old(Now())
      ensures lockFree && !s.stopped ==>
        && s.lockContended == 0
        && s.ingested + s.deduplicated + s.failed == |old(pending)| + |old(inbox)|
        && |docs| == |old(docs)| + s.ingested
      ensures lockFree && !faulty ==> !s.stopped
      ensures lockFree && !faulty && old(Tidy(Now())) ==>
        && inbox == map[] && pending == map[]
        && s.ingested == |Fresh(old(Now()))|
        && docs.Values == old(docs).Values + Fresh(old(Now()))
        && forall d :: d in Fresh(old(Now())) ==>
             && "doc-" + d[..8] in docs && docs["doc-" + d[..8]] == d
             && "doc-" + d[..8] in body && d in processed.Values
    {
      hide Valid, Evolves, Tidy, Fresh, Progress;
      ghost var l0 := Now();
      EvolvesReflexive(l0);
      if !lockFree {
        return Summary(0, 0, 0, 1, false);
      }
      var files := ListFiles();
      s := DrainFiles(files, l0);
      if !faulty && Tidy(l0) { Drained(l0, Now(), files); }
    }

    /** The loop over the listed files. */
    method DrainFiles(files: seq<Loc>, ghost l0: Lake) returns (s: Summary)
      requires Valid(Now()) && l0 == Now() && Listed(l0, files)
      modifies this
      ensures Valid(Now()) && Evolves(l0, Now())
      ensures !s.stopped ==>
        && s.lockContended == 0 && s.ingested + s.deduplicated + s.failed == |files|
        && |docs| == |l0.docs| + s.ingested
      ensures !faulty ==> !s.stopped
      ensures !faulty && Tidy(l0) ==> Progress(l0, Now(), files, |files|)
    {
      hide Valid, Evolves, Tidy, Progress, Listed, Accounts;
      s := Summary(0, 0, 0, 0, false);
      EvolvesReflexive(l0);
      NoneAccounted(l0);
      NothingDone(l0, files);
      for i := 0 to |files|
        invariant Valid(Now()) && Evolves(l0, Now()) && Accounts(l0, Now(), s, i)
        invariant !faulty && Tidy(l0) ==> Progress(l0, Now(), files, i)
      {
        var stops: bool :| stops ==> faulty;
        if stops { return s.(stopped := true); }
        s := DrainNext(files, i, s, l0);
        if s.stopped { return; }
      }
      AccountsMean(l0, Now(), s, |files|);
    }

    /** One turn of the loop. */
    method DrainNext(files: seq<Loc>, i: nat, s: Summary, ghost l0: Lake) returns (s': Summary)
      requires i < |files| && Listed(l0, files) && Valid(Now()) && Evolves(l0, Now()) && Accounts(l0, Now(), s, i)
      requires !faulty && Tidy(l0) ==> Progress(l0, Now(), files, i)
      modifies this
      ensures Valid(Now()) && Evolves(l0, Now())
      ensures s'.stopped ==> faulty
      ensures !s'.stopped ==> Accounts(l0, Now(), s', i + 1)
      ensures !faulty && Tidy(l0) ==> Progress(l0, Now(), files, i + 1)
    {
      hide Valid, Evolves, Tidy, Progress, Listed, Proceeds;
      ghost var l1 := Now();
      var o := ProcessListed(files[i]);
      ghost var l2 := Now();
      EvolvesTransitive(l0, l1, l2);
      if !faulty && Tidy(l0) { OneMore(l0, l1, l2, files, i); }
      if o.Died? { return s.(stopped := true); }
      return Counted(s, o);
    }

    /** After `i` of the listed files: the others are untouched, and the usable contents among the first have rows. */
    ghost predicate Progress(l0: Lake, l: Lake, files: seq<Loc>, i: nat) {
      && i <= |files| && (forall j :: 0 <= j < |files| ==> ContentAt(l0, files[j]).Some?)
      && Left(l0, l, files, i) && l.docs.Values == l0.docs.Values + Done(l0, files, i)
    }

    lemma NothingDone(l: Lake, files: seq<Loc>)
      requires Listed(l, files)
      ensures Progress(l, l, files, 0)
    {
      assert forall j :: 0 <= j < |files| ==> files[j] in files;
    }

    /** One listed file, taken out of its directory, adds its content to the rows if it is usable. */
    lemma OneMore(l0: Lake, l: Lake, l': Lake, files: seq<Loc>, i: nat)
      requires i < |files| && Listed(l0, files) && Progress(l0, l, files, i)
      requires Tidy(l0) && Evolves(l0, l) && Proceeds(l, l', files[i])
      ensures Progress(l0, l', files, i + 1)
    {
      hide Left, Usable, Evolves, Tidy;
      NextLeft(l0, l, files, i);
      LeftAfter(l0, l, l', files, i);
      SameContent(l0, l, files, i);
    }

    /** The next file listed is there, and a leftover's name is free in the inbox. */
    lemma NextLeft(l0: Lake, l: Lake, files: seq<Loc>, i: nat)
      requires i < |files| && Progress(l0, l, files, i) && Tidy(l0) && Evolves(l0, l)
      ensures ContentAt(l, files[i]).Some? && (files[i].Pending? ==> files[i].name !in l.inbox)
    {
      EvolvesMeans(l0, l);
      hide Evolves, Held;
      SameContent(l0, l, files, i);
    }

    lemma Drained(l0: Lake, l: Lake, files: seq<Loc>)
      requires Listed(l0, files) && Progress(l0, l, files, |files|) && Valid(l0) && Valid(l)
      ensures l.inbox == map[] && l.pending == map[]
      ensures |l.docs| == |l0.docs| + |Fresh(l0)| && l.docs.Values == l0.docs.Values + Fresh(l0)
      ensures forall d :: d in Fresh(l0) ==>
        && "doc-" + d[..8] in l.docs && l.docs["doc-" + d[..8]] == d
        && "doc-" + d[..8] in l.body && d in l.processed.Values
    {
      NoneLeft(l0, l, files);
      AllDone(l0, files);
      NotStored(l0);
      hide Fresh, Done, Left, Valid, Listed;
      SameUnion(l0.docs.Values, Done(l0, files, |files|), Fresh(l0));
      hide Progress;
      FreshStored(l0, l, Fresh(l0));
    }

    lemma SameUnion(stored: set<Digest>, done: set<Digest>, more: set<Digest>)
      requires done - stored == more
      ensures stored + done == stored + more
    {
    }

    lemma NotStored(l: Lake)
      ensures Fresh(l) !! l.docs.Values
    {
    }

    lemma RowsAfter(l: Lake, l': Lake, n: Name, m: Option<string>, user: Option<Frontmatter>, o: Outcome)
      requires n in l.inbox && OneFile(l, l', n, m, user, o)
      ensures l'.docs.Values == l.docs.Values + if m.Some? && user.Some? then {l.inbox[n]} else {}
    {
      hide Routed, FirstWritten;
      var d := l.inbox[n];
      if o.Ingested? { ReplaceValues(l.docs, "doc-" + d[..8], d); }
    }

    /** Rewrites the body file of a row: its own four fields are set, the forbidden keys go, the others stay. */
    method RewriteBody(id: DocId, domain: string, ftype: string, tags: string, summary: string)
      requires Valid(Now()) && id in docs
      modifies this`body
      ensures Valid(Now()) && Evolves(old(Now()), Now())
      ensures id in old(body) && body.Keys == old(body).Keys && forall x :: x in body && x != id ==> body[x] == old(body)[x]
      ensures Classified(old(body)[id], body[id], domain, ftype, tags, summary)
    {
      hide Valid, Evolves, MergeClassification, Classified;
      RowBody(Now(), id);
      MergeKeepsId(body[id], domain, ftype, tags, summary);
      MergeKeeps(body[id], domain, ftype, tags, summary);
      RewriteEvolves(Now(), id, MergeClassification(body[id], domain, ftype, tags, summary));
      body := body[id := MergeClassification(body[id], domain, ftype, tags, summary)];
    }

    /**
     * The read path, on any lake: a row without a body file, and a body file that does not name its row, are
     * reported. In a valid lake a stored document is found, and never reported as either.
     */
    method FetchDocument(id: DocId) returns (r: Fetched)
      ensures r.NotFound? <==> id !in docs
      ensures r.BodyMissing? <==> id in docs && id !in body
      ensures r.IntegrityLoss? <==> id in docs && id in body && ("id" in body[id] ==> body[id]["id"] != id)
      ensures r.Fetched? ==> r.frontmatter == body[id]
      ensures Valid(Now()) && id in docs ==> r.Fetched?
    {
      if Valid(Now()) && id in docs { RowBody(Now(), id); }
      if id !in docs {
        return NotFound;
      }
      if id !in body {
        return BodyMissing;
      }
      var fm := body[id];
      if "id" !in fm || fm["id"] != id {
        return IntegrityLoss;
      }
      return Fetched(fm);
    }

    /**
     * Any sequence of drops, drains and classifier rewrites, each drain possibly cut short anywhere: nothing
     * dropped under a free name is lost, no row goes away, and the lake stays valid. `trace` holds the lake
     * before each activity and at the end.
     */
    method Sessions(acts: seq<Activity>) returns (accepted: set<Digest>, ghost trace: seq<Lake>)
      requires Valid(Now()) && Tidy(Now())
      requires Separated(Held(Now()) + DroppedContents(acts))
      modifies this
      ensures |trace| == |acts| + 1 && trace[0] == old(Now()) && trace[|acts|] == Now()
      ensures forall i :: 0 <= i < |acts| ==> Follows(trace[i], acts[i], trace[i + 1])
      ensures accepted == Accepted(acts, trace, |acts|)
      ensures Valid(Now()) && Tidy(Now())
      ensures Held(Now()) == old(Held(Now())) + accepted
      ensures forall id :: id in old(docs) ==> id in docs && docs[id] == old(docs)[id]
    {
      hide Valid, Evolves, Held, Tidy, Follows, Separated, Offered, DroppedContents, FreeName;
      accepted, trace := {}, [Now()];
      for i := 0 to |acts|
        invariant |trace| == i + 1 && trace[0] == old(Now()) && trace[i] == Now()
        invariant forall j :: 0 <= j < i ==> Follows(trace[j], acts[j], trace[j + 1])
        invariant accepted == Accepted(acts, trace, i) <= DroppedContents(acts)
        invariant Valid(Now()) && Tidy(Now())
        invariant Held(Now()) == old(Held(Now())) + accepted
        invariant forall id :: id in old(docs) ==> id in docs && docs[id] == old(docs)[id]
      {
        OfferedIsDropped(acts, i);
        SeparatedSubset(old(Held(Now())) + DroppedContents(acts), Held(Now()) + Offered(acts[i]));
        var more := Perform(acts[i]);
        AcceptedMore(acts, trace, Now(), i);
        accepted, trace := accepted + more, trace + [Now()];
      }
    }

    /** One activity; returns the content of a drop that was accepted. */
    method Perform(act: Activity) returns (accepted: set<Digest>)
      requires Valid(Now()) && Tidy(Now())
      requires Separated(Held(Now()) + Offered(act))
      modifies this
      ensures Follows(old(Now()), act, Now())
      ensures accepted == if act.Dropping? && FreeName(old(Now()), act.name) then {act.content} else {}
      ensures Valid(Now()) && Tidy(Now())
      ensures Held(Now()) == old(Held(Now())) + accepted
      ensures forall id :: id in old(docs) ==> id in docs && docs[id] == old(docs)[id]
    {
      hide Valid, Evolves, Held, Tidy, Classified, EndsWith;
      accepted := {};
      ghost var l := Now();
      match act
      case Dropping(name, content) =>
        var ok := Drop(name, content);
        if ok { accepted := {content}; }
      case Draining(lockFree) =>
        var _ := Drain(lockFree);
        EvolvesMeans(l, Now());
      case Classifying(id, domain, ftype, tags, summary) =>
        if id in docs {
          RewriteBody(id, domain, ftype, tags, summary);
          EvolvesMeans(l, Now());
        }
    }
  }

  /** The names under which a drop is accepted: those that no file in inbox/ or pending/ and no sidecar can have. */
  predicate FreeName(l: Lake, name: Name) {
    name !in l.inbox && name !in l.pending && !EndsWith(name, SIDECAR_SUFFIX)
  }

  /** What an activity may make of the lake. */
  ghost predicate Follows(l: Lake, act: Activity, l': Lake) {
    match act
    case Dropping(name, content) => l' == if FreeName(l, name) then l.(inbox := l.inbox[name := content]) else l
    case Draining(lockFree) => Evolves(l, l') && (!lockFree ==> l' == l)
    case Classifying(id, domain, ftype, tags, summary) =>
      && l' == l.(body := l'.body) && l'.body.Keys == l.body.Keys
      && (forall x :: x in l.body && (x != id || id !in l.docs) ==> l'.body[x] == l.body[x])
      && (id in l.docs && id in l.body ==> Classified(l.body[id], l'.body[id], domain, ftype, tags, summary))
  }

  function Offered(act: Activity): set<Digest> {
    if act.Dropping? then {act.content} else {}
  }

  /** The contents of the drops among the first `n` activities whose name was free when they were made. */
  function Accepted(acts: seq<Activity>, trace: seq<Lake>, n: nat): set<Digest>
    requires n <= |acts| && n <= |trace|
  {
    if n == 0 then {}
    else
      Accepted(acts, trace, n - 1)
      + if acts[n - 1].Dropping? && FreeName(trace[n - 1], acts[n - 1].name) then {acts[n - 1].content} else {}
  }

  lemma OfferedIsDropped(acts: seq<Activity>, i: nat)
    requires i < |acts|
    ensures Offered(acts[i]) <= DroppedContents(acts)
    ensures acts[i].Dropping? ==> acts[i].content in DroppedContents(acts)
  {
    assert acts[i] in acts;
  }

  lemma AcceptedMore(acts: seq<Activity>, trace: seq<Lake>, last: Lake, n: nat)
    requires n < |acts| && |trace| == n + 1
    ensures Accepted(acts, trace + [last], n + 1)
         == Accepted(acts, trace, n)
            + (if acts[n].Dropping? && FreeName(trace[n], acts[n].name) then {acts[n].content} else {})
  {
    AcceptedSame(acts, trace, trace + [last], n);
  }

  lemma {:induction false} AcceptedSame(acts: seq<Activity>, trace: seq<Lake>, longer: seq<Lake>, n: nat)
    requires n <= |acts| && n <= |trace| && trace <= longer
    ensures Accepted(acts, longer, n) == Accepted(acts, trace, n)
  {
    if n > 0 { AcceptedSame(acts, trace, longer, n - 1); }
  }

  datatype Activity =
    | Dropping(name: Name, content: Digest)
    | Draining(lockFree: bool)
    | Classifying(id: DocId, domain: string, ftype: string, tags: string, summary: string)

  function DroppedContents(acts: seq<Activity>): set<Digest> {
    set act | act in acts && act.Dropping? :: act.content
  }

  /** Draining contents that are all stored already leaves the rows as they were. */
  lemma RedrainAddsNothing(before: Lake, after: Lake)
    requires Valid(before) && Evolves(before, after) && Queue(before) <= before.docs.Values
    ensures after.docs == before.docs
  {
    hide Valid, Tidy, Held;
  }
}
