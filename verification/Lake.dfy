/**
 * The directories a dropped file travels through, the rows of `documents`, and the body files, as
 * values; and what one or many ingest steps may do to them. A file's content is represented by its
 * SHA-256 digest.
 */
module Lake {
  import opened Wrappers

  type Name = string
  type Digest = d: string | |d| == 64 witness seq(64, _ => '0')
  type DocId = string
  type Frontmatter = map<string, string>

  /** What lies in the failure directory: a routed file, the sidecar describing one, or a copy broken off. */
  datatype FailedFile = Moved(content: Digest) | Sidecar | Partial

  datatype Lake = Lake(
    inbox: map<Name, Digest>,
    pending: map<Name, Digest>,
    processed: map<Name, Digest>,
    failed: map<Name, FailedFile>,
    docs: map<DocId, Digest>,
    body: map<DocId, Frontmatter>)

  /** The id keeps only the first eight digits of the digest. */
  function DocIdFromHash(d: Digest): DocId {
    "doc-" + d[..8]
  }

  function ProcessedName(id: DocId, original: Name): Name {
    id + "__" + original
  }

  const SIDECAR_SUFFIX := ".error.json"

  predicate EndsWith(s: string, suffix: string) {
    |s| >= |suffix| && s[|s| - |suffix|..] == suffix
  }

  function FailedContents(failed: map<Name, FailedFile>): set<Digest> {
    set n | n in failed && failed[n].Moved? :: failed[n].content
  }

  /** Contents still to be ingested. */
  function Queue(l: Lake): set<Digest> {
    l.inbox.Values + l.pending.Values
  }

  /** Every content the lake holds: in a directory, or known by the hash of a row. */
  function Held(l: Lake): set<Digest> {
    Queue(l) + l.processed.Values + FailedContents(l.failed) + l.docs.Values
  }

  /** Different contents have different ids: no collision of truncated digests among what is held. */
  ghost predicate Separated(ds: set<Digest>) {
    forall d, e :: d in ds && e in ds && DocIdFromHash(d) == DocIdFromHash(e) ==> d == e
  }

  /** A row has the id of its hash, a body file whose frontmatter names it, and its source in processed/. */
  ghost predicate RowOk(l: Lake, id: DocId)
    requires id in l.docs
  {
    && id == DocIdFromHash(l.docs[id])
    && id in l.body && "id" in l.body[id] && l.body[id]["id"] == id
    && l.docs[id] in l.processed.Values
  }

  ghost predicate Valid(l: Lake) {
    && (forall id :: id in l.docs ==> RowOk(l, id))
    && (forall n :: n in l.processed ==> |n| >= 12 && n[..12] == DocIdFromHash(l.processed[n]))
    && Separated(Held(l))
  }

  /**
   * What conservation needs: no leftover in pending/ has the basename of an inbox file, and no file
   * has a name that a failing file's sidecar would take.
   */
  predicate Tidy(l: Lake) {
    && l.inbox.Keys !! l.pending.Keys
    && (forall n :: n in l.inbox ==> !EndsWith(n, SIDECAR_SUFFIX))
    && (forall n :: n in l.pending ==> !EndsWith(n, SIDECAR_SUFFIX))
    && (forall n :: n in l.failed && l.failed[n].Moved? ==> !EndsWith(n, SIDECAR_SUFFIX))
  }

  /** What any number of ingest steps, completed or cut short, may do. */
  ghost predicate Evolves(a: Lake, b: Lake) {
    && Held(b) <= Held(a)
    && Queue(b) <= Queue(a)
    && (Tidy(a) ==> Tidy(b) && Held(b) == Held(a))
    && (forall id :: id in a.docs ==> id in b.docs && b.docs[id] == a.docs[id])
    && (forall id :: id in b.docs && id !in a.docs ==> b.docs[id] in Queue(a) && b.docs[id] !in a.docs.Values)
  }

  lemma EvolvesReflexive(l: Lake)
    ensures Evolves(l, l)
  {
  }

  lemma EvolvesTransitive(a: Lake, b: Lake, c: Lake)
    requires Evolves(a, b) && Evolves(b, c)
    ensures Evolves(a, c)
  {
    forall id | id in c.docs && id !in a.docs ensures c.docs[id] in Queue(a) && c.docs[id] !in a.docs.Values {
      if id !in b.docs {
        assert c.docs[id] !in b.docs.Values;
        forall x | x in a.docs ensures a.docs[x] != c.docs[id] {
          assert b.docs[x] == a.docs[x] && b.docs[x] in b.docs.Values;
        }
      }
    }
  }

  lemma SeparatedSubset(a: set<Digest>, b: set<Digest>)
    requires Separated(a) && b <= a
    ensures Separated(b)
  {
  }

  /** No two rows share a hash. */
  lemma HashesUnique(l: Lake, id: DocId, id': DocId)
    requires Valid(l) && id in l.docs && id' in l.docs && l.docs[id] == l.docs[id']
    ensures id == id'
  {
    assert RowOk(l, id) && RowOk(l, id');
  }

  /** A content without a row of its hash has no row of its id either. */
  lemma FreshId(l: Lake, d: Digest)
    requires Valid(l) && d in Held(l) && d !in l.docs.Values
    ensures DocIdFromHash(d) !in l.docs
  {
    forall x | x in l.docs ensures x == DocIdFromHash(l.docs[x]) && l.docs[x] in l.docs.Values && l.docs[x] in Held(l) {
      assert RowOk(l, x);
    }
  }

  /***** The moves *****/

  function Restore(l: Lake, n: Name): Lake
    requires n in l.pending
  {
    l.(inbox := l.inbox[n := l.pending[n]], pending := l.pending - {n})
  }

  function ToPending(l: Lake, n: Name, target: Name): Lake
    requires n in l.inbox
  {
    l.(pending := l.pending[target := l.inbox[n]], inbox := l.inbox - {n})
  }

  function WithSidecar(l: Lake, n: Name): Lake {
    l.(failed := l.failed[n := Sidecar])
  }

  lemma ValuesOf<K, V>(m: map<K, V>)
    ensures forall k :: k in m ==> m[k] in m.Values
    ensures forall v :: v in m.Values ==> exists k :: k in m && m[k] == v
  {
  }

  /** Moving an entry from one directory to a free name in another keeps the contents of both. */
  lemma MoveValues(a: map<Name, Digest>, b: map<Name, Digest>, n: Name, target: Name)
    requires n in a
    ensures (a - {n}).Values + b[target := a[n]].Values <= a.Values + b.Values
    ensures target !in b || b[target] == a[n] ==> (a - {n}).Values + b[target := a[n]].Values == a.Values + b.Values
    ensures (a - {n}).Values <= a.Values
  {
    var a', b' := a - {n}, b[target := a[n]];
    forall v | v in a'.Values + b'.Values ensures v in a.Values + b.Values {
      if v in a'.Values {
        var k :| k in a' && a'[k] == v;
        assert a[k] == v;
      } else {
        var k :| k in b' && b'[k] == v;
        if k == target { assert a[n] == v; } else { assert b[k] == v; }
      }
    }
    if target !in b || b[target] == a[n] {
      forall v | v in a.Values + b.Values ensures v in a'.Values + b'.Values {
        if v in a.Values {
          var k :| k in a && a[k] == v;
          if k == n { assert b'[target] == v; } else { assert a'[k] == v; }
        } else {
          var k :| k in b && b[k] == v;
          assert k in b' && b'[k] == v;
        }
      }
    }
  }

  /**
   * Putting a leftover back overwrites an inbox file of the same name. Exactly when nothing is lost:
   * the name is free, or the overwritten content is held elsewhere.
   */
  lemma RestoreKeepsIff(l: Lake, n: Name)
    requires n in l.pending
    ensures Held(Restore(l, n)) == Held(l) <==> n !in l.inbox || l.inbox[n] in Held(l.(inbox := l.inbox - {n}))
  {
    hide FailedContents;
    UpdatedValues(l.inbox, n, l.pending[n]);
    RemoveValues(l.inbox, n);
    RemoveValues(l.pending, n);
    assert n !in l.inbox ==> l.inbox - {n} == l.inbox;
    QueueMoved(l, Restore(l, n), l.(inbox := l.inbox - {n}));
    QueueSplit(l, l.(inbox := l.inbox - {n}), n in l.inbox, if n in l.inbox then l.inbox[n] else l.pending[n]);
  }

  /** Two lakes that differ from a third in their queues only, and have the same contents queued. */
  lemma QueueMoved(l: Lake, a: Lake, b: Lake)
    requires Queue(a) == Queue(b)
    requires a.processed == b.processed == l.processed && a.failed == b.failed == l.failed && a.docs == b.docs == l.docs
    ensures Held(a) == Held(b)
  {
    hide Queue, FailedContents;
  }

  /** Queueing one content less loses nothing exactly when that content is held besides. */
  lemma QueueSplit(l: Lake, apart: Lake, less: bool, d: Digest)
    requires Queue(l) == Queue(apart) + if less then {d} else {}
    requires apart.processed == l.processed && apart.failed == l.failed && apart.docs == l.docs
    ensures Held(apart) == Held(l) <==> !less || d in Held(apart)
  {
    hide Queue, FailedContents;
  }

  lemma UpdatedValues<K, V>(m: map<K, V>, k: K, v: V)
    ensures m[k := v].Values == (m - {k}).Values + {v}
  {
    var m' := m[k := v];
    forall x ensures x in m'.Values <==> x in (m - {k}).Values + {v} {
      if x in m'.Values {
        var j :| j in m' && m'[j] == x;
        assert j != k ==> j in m - {k} && (m - {k})[j] == x;
      }
      if x in (m - {k}).Values {
        var j :| j in m - {k} && (m - {k})[j] == x;
        assert m'[j] == x;
      }
      assert m'[k] == v;
    }
  }

  /** The loss is real: a leftover and a newer inbox file of the same name. */
  lemma RestoreLosesContent(name: Name, older: Digest, newer: Digest)
    requires older != newer
    ensures var l := Lake(map[name := newer], map[name := older], map[], map[], map[], map[]);
      newer in Held(l) && newer !in Held(Restore(l, name))
  {
    var l := Lake(map[name := newer], map[name := older], map[], map[], map[], map[]);
    RestoreKeepsIff(l, name);
    assert l.inbox[name] in l.inbox.Values;
    OneValue(name, older);
    assert l.inbox - {name} == map[];
    assert Restore(l, name).inbox == map[name := older] && Restore(l, name).pending == map[];
  }

  lemma OneValue(name: Name, d: Digest)
    ensures (map[name := d]).Values == {d}
  {
    assert map[name := d][name] == d;
  }

  /**
   * The rename into pending/ checks that its target is free, but when the rename to the tagged name throws
   * it falls back to the plain one. Exactly when nothing is lost: the target is free, or the overwritten
   * content is held in another place.
   */
  lemma ToPendingKeepsIff(l: Lake, n: Name, target: Name)
    requires n in l.inbox
    ensures Held(ToPending(l, n, target)) == Held(l)
      <==> target !in l.pending || l.pending[target] in Held(l.(pending := l.pending - {target}))
  {
    hide FailedContents;
    UpdatedValues(l.pending, target, l.inbox[n]);
    RemoveValues(l.inbox, n);
    RemoveValues(l.pending, target);
    assert target !in l.pending ==> l.pending - {target} == l.pending;
    QueueMoved(l, ToPending(l, n, target), l.(pending := l.pending - {target}));
    QueueSplit(l, l.(pending := l.pending - {target}), target in l.pending, if target in l.pending then l.pending[target] else l.inbox[n]);
  }

  /** The fallback is such a loss: a leftover of the same name is overwritten. */
  lemma FallbackLosesContent(name: Name, older: Digest, newer: Digest)
    requires older != newer
    ensures var l := Lake(map[name := newer], map[name := older], map[], map[], map[], map[]);
      older in Held(l) && older !in Held(ToPending(l, name, name))
  {
    var l := Lake(map[name := newer], map[name := older], map[], map[], map[], map[]);
    assert l.pending[name] in l.pending.Values;
    OneValue(name, newer);
    assert ToPending(l, name, name).pending == map[name := newer] && ToPending(l, name, name).inbox == map[];
  }

  /**
   * Writing a sidecar checks that the failed file's own name is free, not the sidecar's. Exactly when
   * nothing is lost: no routed file has that name, or its content is held elsewhere.
   */
  lemma SidecarKeepsIff(l: Lake, n: Name)
    ensures Held(WithSidecar(l, n)) == Held(l)
      <==> !(n in l.failed && l.failed[n].Moved?) || l.failed[n].content in Held(l.(failed := l.failed - {n}))
    ensures Held(WithSidecar(l, n)) <= Held(l)
  {
    var l' := WithSidecar(l, n);
    var apart := l.failed - {n};
    forall d ensures d in FailedContents(l'.failed) <==> d in FailedContents(apart) {
      if d in FailedContents(l'.failed) {
        var k :| k in l'.failed && l'.failed[k].Moved? && l'.failed[k].content == d;
        assert k in apart && apart[k] == l'.failed[k];
      }
      if d in FailedContents(apart) {
        var k :| k in apart && apart[k].Moved? && apart[k].content == d;
        assert k in l'.failed && l'.failed[k] == apart[k];
      }
    }
    forall d ensures d in FailedContents(l.failed)
      <==> d in FailedContents(apart) || (n in l.failed && l.failed[n].Moved? && l.failed[n].content == d)
    {
      if d in FailedContents(l.failed) {
        var k :| k in l.failed && l.failed[k].Moved? && l.failed[k].content == d;
        assert k != n ==> k in apart && apart[k] == l.failed[k];
      }
      if d in FailedContents(apart) {
        var k :| k in apart && apart[k].Moved? && apart[k].content == d;
        assert k in l.failed && l.failed[k] == apart[k];
      }
    }
    assert Held(l') == Held(l.(failed := apart));
  }

  /** The loss is real: a rejected file named like a sidecar is overwritten when its namesake fails. */
  lemma SidecarLosesContent(d: Digest)
    ensures var l := Lake(map[], map[], map[], map["a.md.error.json" := Moved(d)], map[], map[]);
      Valid(l) && d in Held(l) && d !in Held(WithSidecar(l, "a.md" + SIDECAR_SUFFIX))
  {
    var l := Lake(map[], map[], map[], map["a.md.error.json" := Moved(d)], map[], map[]);
    assert "a.md" + SIDECAR_SUFFIX == "a.md.error.json";
    assert l.failed["a.md.error.json"].content == d;
    assert FailedContents(l.failed) == {d};
    assert FailedContents(WithSidecar(l, "a.md.error.json").failed) == {};
  }

  /***** Each change an ingest makes, and why it is one of those allowed *****/

  datatype Loc = Inbox(name: Name) | Pending(name: Name)

  function ContentAt(l: Lake, loc: Loc): Option<Digest> {
    match loc
    case Inbox(n) => if n in l.inbox then Some(l.inbox[n]) else None
    case Pending(n) => if n in l.pending then Some(l.pending[n]) else None
  }

  function Without(l: Lake, loc: Loc): Lake {
    match loc
    case Inbox(n) => l.(inbox := l.inbox - {n})
    case Pending(n) => l.(pending := l.pending - {n})
  }

  function WithFailed(l: Lake, target: Name, d: Digest): Lake {
    l.(failed := l.failed[target := Moved(d)])
  }

  /** Steps that leave rows, bodies and processed/ alone keep the lake valid if they hold nothing new. */
  lemma SameRowsValid(l: Lake, l': Lake)
    requires Valid(l) && l'.docs == l.docs && l'.body == l.body && l'.processed == l.processed && Held(l') <= Held(l)
    ensures Valid(l')
  {
    forall id | id in l'.docs ensures RowOk(l', id) { assert RowOk(l, id); }
  }

  lemma RestoreEvolves(l: Lake, n: Name)
    requires Valid(l) && n in l.pending
    ensures Valid(Restore(l, n)) && Evolves(l, Restore(l, n))
  {
    MoveValues(l.pending, l.inbox, n, n);
    SameRowsValid(l, Restore(l, n));
  }

  lemma ToPendingEvolves(l: Lake, n: Name, target: Name)
    requires Valid(l) && n in l.inbox
    requires target == n || n in l.pending
    ensures Valid(ToPending(l, n, target)) && Evolves(l, ToPending(l, n, target))
  {
    MoveValues(l.inbox, l.pending, n, target);
    SameRowsValid(l, ToPending(l, n, target));
  }

  lemma WithFailedContents(l: Lake, target: Name, d: Digest)
    requires target !in l.failed
    ensures FailedContents(l.failed[target := Moved(d)]) == FailedContents(l.failed) + {d}
  {
    var failed' := l.failed[target := Moved(d)];
    forall x | x in FailedContents(l.failed) + {d} ensures x in FailedContents(failed') {
      if x == d {
        assert failed'[target].content == d;
      } else {
        var k :| k in l.failed && l.failed[k].Moved? && l.failed[k].content == x;
        assert failed'[k] == l.failed[k];
      }
    }
    forall x | x in FailedContents(failed') ensures x in FailedContents(l.failed) + {d} {
      var k :| k in failed' && failed'[k].Moved? && failed'[k].content == x;
      assert k != target ==> failed'[k] == l.failed[k];
    }
  }

  /** Copying a queued file to a free name in failed/ ... */
  lemma CopyEvolves(l: Lake, loc: Loc, target: Name)
    requires Valid(l) && ContentAt(l, loc).Some?
    requires target !in l.failed && (Tidy(l) ==> !EndsWith(target, SIDECAR_SUFFIX))
    ensures var copied := WithFailed(l, target, ContentAt(l, loc).value);
      && Valid(copied) && Evolves(l, copied)
      && ContentAt(l, loc).value in FailedContents(copied.failed)
  {
    var d := ContentAt(l, loc).value;
    WithFailedContents(l, target, d);
    assert d in Queue(l) by {
      ValuesOf(l.inbox);
      ValuesOf(l.pending);
    }
    SameRowsValid(l, WithFailed(l, target, d));
  }

  /** ... and then removing it where it was. */
  lemma RemoveCopiedEvolves(l: Lake, loc: Loc)
    requires Valid(l) && ContentAt(l, loc).Some? && ContentAt(l, loc).value in FailedContents(l.failed)
    ensures Valid(Without(l, loc)) && Evolves(l, Without(l, loc))
  {
    hide Valid, FailedContents, EndsWith;
    match loc {
      case Inbox(n) => RemoveValues(l.inbox, n);
      case Pending(n) => RemoveValues(l.pending, n);
    }
    assert Held(Without(l, loc)) == Held(l) && Queue(Without(l, loc)) <= Queue(l);
    hide Held, Queue;
    SameRowsValid(l, Without(l, loc));
  }

  lemma RemoveValues(m: map<Name, Digest>, n: Name)
    ensures (m - {n}).Values <= m.Values
    ensures n in m ==> m.Values == (m - {n}).Values + {m[n]}
  {
    var m' := m - {n};
    forall v | v in m'.Values ensures v in m.Values {
      var k :| k in m' && m'[k] == v;
      assert m[k] == v;
    }
    if n in m {
      forall v | v in m.Values ensures v in m'.Values + {m[n]} {
        var k :| k in m && m[k] == v;
        if k != n { assert m'[k] == v; }
      }
      assert m[n] in m.Values;
    }
  }

  lemma SidecarEvolves(l: Lake, target: Name)
    requires Valid(l)
    ensures var l' := WithSidecar(l, target + SIDECAR_SUFFIX); Valid(l') && Evolves(l, l')
  {
    var n := target + SIDECAR_SUFFIX;
    assert EndsWith(n, SIDECAR_SUFFIX);
    SidecarKeepsIff(l, n);
    SameRowsValid(l, WithSidecar(l, n));
  }

  /** A cross-device copy that is broken off leaves a fragment under a free name. */
  lemma PartialEvolves(l: Lake, target: Name)
    requires Valid(l) && target !in l.failed
    ensures var l' := l.(failed := l.failed[target := Partial]); Valid(l') && Evolves(l, l')
  {
    var l' := l.(failed := l.failed[target := Partial]);
    forall d ensures d in FailedContents(l'.failed) <==> d in FailedContents(l.failed) {
      if d in FailedContents(l.failed) {
        var k :| k in l.failed && l.failed[k].Moved? && l.failed[k].content == d;
        assert l'.failed[k] == l.failed[k];
      }
    }
    SameRowsValid(l, l');
  }

  /** A queued duplicate of a stored content may go: the row's hash holds it. */
  lemma DropDuplicateEvolves(l: Lake, n: Name)
    requires Valid(l) && n in l.pending && l.pending[n] in l.docs.Values
    ensures Valid(Without(l, Pending(n))) && Evolves(l, Without(l, Pending(n)))
  {
    hide Valid, FailedContents, EndsWith;
    RemoveValues(l.pending, n);
    SameRowsValid(l, Without(l, Pending(n)));
  }

  /** Body files have no part in what is held. */
  lemma SameFiles(l: Lake, l': Lake)
    requires l' == l.(body := l'.body)
    ensures Held(l') == Held(l) && Queue(l') == Queue(l) && (Tidy(l') <==> Tidy(l))
  {
  }

  /** A body file that belongs to no row may be written or removed. */
  lemma BodyEvolves(l: Lake, id: DocId, body: map<DocId, Frontmatter>)
    requires Valid(l) && id !in l.docs && body - {id} == l.body - {id}
    ensures Valid(l.(body := body)) && Evolves(l, l.(body := body))
  {
    hide DocIdFromHash;
    SameFiles(l, l.(body := body));
    hide Held, Queue, Tidy, Separated;
    forall x | x in l.docs ensures RowOk(l.(body := body), x) {
      assert RowOk(l, x);
      OtherBody(l.body, body, id, x);
    }
  }

  lemma OtherBody(a: map<DocId, Frontmatter>, b: map<DocId, Frontmatter>, id: DocId, x: DocId)
    requires a - {id} == b - {id} && x != id && x in a
    ensures x in b && b[x] == a[x]
  {
    assert x in a - {id} && (a - {id})[x] == a[x];
    assert x in b - {id} && (b - {id})[x] == b[x];
  }

  /** The body file of a row may be rewritten if its frontmatter keeps the id. */
  lemma RewriteEvolves(l: Lake, id: DocId, fm: Frontmatter)
    requires Valid(l) && id in l.docs && "id" in fm && fm["id"] == id
    ensures var l' := l.(body := l.body[id := fm]); Valid(l') && Evolves(l, l')
  {
    hide DocIdFromHash, EndsWith, FailedContents, Separated;
    var l' := l.(body := l.body[id := fm]);
    SameFiles(l, l');
    hide Held, Queue, Tidy;
    forall x | x in l.docs ensures RowOk(l', x) { assert RowOk(l, x); }
  }

  lemma PendingIsHeld(l: Lake, n: Name)
    requires n in l.pending
    ensures l.pending[n] in Queue(l) && l.pending[n] in Held(l)
  {
    ValuesOf(l.pending);
  }

  lemma TidyName(l: Lake, loc: Loc)
    requires ContentAt(l, loc).Some? && Tidy(l)
    ensures !EndsWith(loc.name, SIDECAR_SUFFIX)
  {
  }

  function ToProcessed(l: Lake, n: Name, target: Name): Lake
    requires n in l.pending
  {
    l.(processed := l.processed[target := l.pending[n]], pending := l.pending - {n})
  }

  /** The target may exist: then it holds the same content, because ids are separated. */
  lemma SameProcessed(l: Lake, target: Name, d: Digest)
    requires Valid(l) && d in Held(l) && target in l.processed
    requires |target| >= 12 && target[..12] == DocIdFromHash(d)
    ensures l.processed[target] == d
  {
    assert l.processed[target] in l.processed.Values;
    assert l.processed[target] in Held(l);
  }

  lemma ToProcessedHeld(l: Lake, n: Name, target: Name)
    requires n in l.pending && (target in l.processed ==> l.processed[target] == l.pending[n])
    ensures var l' := ToProcessed(l, n, target);
      && Held(l') == Held(l) && Queue(l') <= Queue(l)
      && l'.processed.Values == l.processed.Values + {l.pending[n]}
      && l'.pending.Keys <= l.pending.Keys
  {
    ReplaceValues(l.processed, target, l.pending[n]);
    RemoveValues(l.pending, n);
  }

  lemma ToProcessedEvolves(l: Lake, n: Name, original: Name)
    requires Valid(l) && n in l.pending
    ensures var l' := ToProcessed(l, n, ProcessedName(DocIdFromHash(l.pending[n]), original));
      Valid(l') && Evolves(l, l') && l.pending[n] in l'.processed.Values
  {
    var d := l.pending[n];
    var target := ProcessedName(DocIdFromHash(d), original);
    assert |target| >= 12 && target[..12] == DocIdFromHash(d);
    assert d in Held(l) by { ValuesOf(l.pending); }
    if target in l.processed {
      SameProcessed(l, target, d);
    }
    ToProcessedHeld(l, n, target);
    ToProcessedValid(l, n, target);
  }

  lemma ToProcessedValid(l: Lake, n: Name, target: Name)
    requires Valid(l) && n in l.pending
    requires |target| >= 12 && target[..12] == DocIdFromHash(l.pending[n])
    requires var l' := ToProcessed(l, n, target);
      Held(l') == Held(l) && l.processed.Values <= l'.processed.Values
    ensures Valid(ToProcessed(l, n, target))
  {
    var l' := ToProcessed(l, n, target);
    forall id | id in l'.docs ensures RowOk(l', id) {
      assert RowOk(l, id);
    }
  }

  /** Writing under a free name, or the same value again, adds one value and loses none. */
  lemma ReplaceValues<K>(m: map<K, Digest>, k: K, d: Digest)
    requires k in m ==> m[k] == d
    ensures m[k := d].Values == m.Values + {d}
  {
    var m' := m[k := d];
    forall v | v in m'.Values ensures v in m.Values + {d} {
      var x :| x in m' && m'[x] == v;
      if x != k { assert m[x] == v; }
    }
    forall v | v in m.Values + {d} ensures v in m'.Values {
      if v == d {
        assert m'[k] == d;
      } else {
        var x :| x in m && m[x] == v;
        assert m'[x] == v;
      }
    }
  }

  /** A committed row: its body file is written and its source is in processed/. */
  lemma CommitKeeps(l: Lake, d: Digest)
    requires Valid(l) && d in l.processed.Values && Committable(l, d)
    ensures var l' := l.(docs := l.docs[DocIdFromHash(d) := d]);
      Valid(l') && Held(l') == Held(l) && l'.docs.Values == l.docs.Values + {d}
  {
    var id := DocIdFromHash(d);
    var l' := l.(docs := l.docs[id := d]);
    ReplaceValues(l.docs, id, d);
    assert Held(l') == Held(l);
    hide FailedContents;
    forall x | x in l'.docs ensures RowOk(l', x) {
      if x != id { assert RowOk(l, x); }
    }
  }

  /** The body file of a new row is there and names it. */
  predicate Committable(l: Lake, d: Digest) {
    var id := DocIdFromHash(d);
    id !in l.docs && id in l.body && "id" in l.body[id] && l.body[id]["id"] == id
  }

  lemma CommitEvolves(l0: Lake, l: Lake, d: Digest)
    requires Evolves(l0, l) && Valid(l)
    requires d in Queue(l0) && d !in l0.docs.Values && l.docs == l0.docs
    requires d in l.processed.Values && Committable(l, d)
    ensures var l' := l.(docs := l.docs[DocIdFromHash(d) := d]);
      Valid(l') && Evolves(l0, l')
  {
    hide Valid, Evolves, FailedContents, EndsWith, DocIdFromHash, Held;
    CommitKeeps(l, d);
    RowAdded(l0, l, l.(docs := l.docs[DocIdFromHash(d) := d]), DocIdFromHash(d), d);
  }

  lemma RowAdded(l0: Lake, l: Lake, l': Lake, id: DocId, d: Digest)
    requires Evolves(l0, l) && l.docs == l0.docs
    requires Held(l') == Held(l) && Queue(l') == Queue(l) && (Tidy(l') <==> Tidy(l))
    requires d in Queue(l0) && d !in l0.docs.Values && id !in l.docs && l'.docs == l.docs[id := d]
    ensures Evolves(l0, l')
  {
    hide Held, Queue, Tidy;
  }

  /***** Any sequence of changes *****/

  /** The changes to files and rows that ingest and classification consist of; a crash may follow any of them. */
  datatype Change =
    | Restored(n: Name)
    | QueuedAs(n: Name, target: Name)
    | Copied(loc: Loc, target: Name)
    | CopyBroken(target: Name)
    | Removed(loc: Loc)
    | SidecarWritten(target: Name)
    | Archived(n: Name, original: Name)
    | RowCommitted(d: Digest)
    | BodyChanged(id: DocId, fm: Frontmatter)
    | BodyRemoved(id: DocId)

  /** When the code makes the change. */
  predicate Allowed(l: Lake, c: Change) {
    match c
    case Restored(n) => n in l.pending
    case QueuedAs(n, target) => n in l.inbox && (target == n || n in l.pending)
    case Copied(loc, target) =>
      && ContentAt(l, loc).Some? && target !in l.failed
      && (target == loc.name || !EndsWith(target, SIDECAR_SUFFIX))
    case CopyBroken(target) => target !in l.failed
    case Removed(loc) =>
      && ContentAt(l, loc).Some?
      && (|| ContentAt(l, loc).value in FailedContents(l.failed)
          || (loc.Pending? && ContentAt(l, loc).value in l.docs.Values))
    case SidecarWritten(target) => true
    case Archived(n, original) => n in l.pending
    case RowCommitted(d) => d in l.processed.Values && Committable(l, d)
    case BodyChanged(id, fm) => id in l.docs ==> "id" in fm && fm["id"] == id
    case BodyRemoved(id) => id !in l.docs
  }

  function Apply(l: Lake, c: Change): Lake
    requires Allowed(l, c)
  {
    match c
    case Restored(n) => Restore(l, n)
    case QueuedAs(n, target) => ToPending(l, n, target)
    case Copied(loc, target) => WithFailed(l, target, ContentAt(l, loc).value)
    case CopyBroken(target) => l.(failed := l.failed[target := Partial])
    case Removed(loc) => Without(l, loc)
    case SidecarWritten(target) => WithSidecar(l, target + SIDECAR_SUFFIX)
    case Archived(n, original) => ToProcessed(l, n, ProcessedName(DocIdFromHash(l.pending[n]), original))
    case RowCommitted(d) => l.(docs := l.docs[DocIdFromHash(d) := d])
    case BodyChanged(id, fm) => l.(body := l.body[id := fm])
    case BodyRemoved(id) => l.(body := l.body - {id})
  }

  /** Each change is allowed where it is made. */
  predicate Possible(l: Lake, cs: seq<Change>)
    decreases |cs|
  {
    cs == [] || (Allowed(l, cs[0]) && Possible(Apply(l, cs[0]), cs[1..]))
  }

  function ApplyAll(l: Lake, cs: seq<Change>): Lake
    requires Possible(l, cs)
    decreases |cs|
  {
    if cs == [] then l else ApplyAll(Apply(l, cs[0]), cs[1..])
  }

  /**
   * Conservation over any sequence of changes, hence after a crash anywhere: rows, body files and sources
   * stay in order, no row goes away or changes its hash, and a lake without name clashes has exactly the
   * contents it had and still no name clash.
   */
  lemma {:induction false} ChangesConserve(l: Lake, cs: seq<Change>)
    requires Valid(l) && Possible(l, cs)
    ensures var l' := ApplyAll(l, cs);
      && Valid(l')
      && (forall id :: id in l.docs ==> id in l'.docs && l'.docs[id] == l.docs[id])
      && Held(l') <= Held(l)
      && (Tidy(l) ==> Tidy(l') && Held(l') == Held(l))
    decreases |cs|
  {
    if cs != [] {
      hide Valid, Tidy, Held, Allowed, Apply;
      ChangeKeeps(l, cs[0]);
      ChangesConserve(Apply(l, cs[0]), cs[1..]);
    }
  }

  /** From any lake the changes of an undisturbed ingest are possible one after another, and store the file. */
  lemma StoringIsPossible(l: Lake, n: Name, fm: Frontmatter)
    requires Valid(l) && n in l.inbox && n !in l.pending && l.inbox[n] !in l.docs.Values
    requires "id" in fm && fm["id"] == DocIdFromHash(l.inbox[n])
    ensures var d := l.inbox[n]; var id := "doc-" + d[..8];
      var cs := [QueuedAs(n, n), BodyChanged(id, fm), Archived(n, n), RowCommitted(d)];
      && Possible(l, cs)
      && ApplyAll(l, cs) == l.(inbox := l.inbox - {n}, processed := l.processed[id + "__" + n := d],
                               docs := l.docs[id := d], body := l.body[id := fm])
  {
    hide Valid;
    var d := l.inbox[n];
    var id := DocIdFromHash(d);
    FreshInInbox(l, n);
    var l1 := Apply(l, QueuedAs(n, n));
    var l2 := Apply(l1, BodyChanged(id, fm));
    var l3 := Apply(l2, Archived(n, n));
    assert l1.pending - {n} == l.pending;
    assert l3.processed[id + "__" + n] == d;
    PossibleOne(l3, RowCommitted(d));
    PossibleStep(l2, Archived(n, n), [RowCommitted(d)]);
    PossibleStep(l1, BodyChanged(id, fm), [Archived(n, n), RowCommitted(d)]);
    PossibleStep(l, QueuedAs(n, n), [BodyChanged(id, fm), Archived(n, n), RowCommitted(d)]);
  }

  /** And those of a rejection: copy, remove, sidecar. */
  lemma RejectingIsPossible(l: Lake, n: Name)
    requires Valid(l) && n in l.inbox && n !in l.failed
    ensures var cs := [Copied(Inbox(n), n), Removed(Inbox(n)), SidecarWritten(n)];
      && Possible(l, cs)
      && ApplyAll(l, cs) == l.(inbox := l.inbox - {n}, failed := l.failed[n := Moved(l.inbox[n])][n + ".error.json" := Sidecar])
  {
    hide Valid;
    var l1 := Apply(l, Copied(Inbox(n), n));
    assert l1.failed[n] == Moved(l.inbox[n]);
    var l2 := Apply(l1, Removed(Inbox(n)));
    PossibleOne(l2, SidecarWritten(n));
    PossibleStep(l1, Removed(Inbox(n)), [SidecarWritten(n)]);
    PossibleStep(l, Copied(Inbox(n), n), [Removed(Inbox(n)), SidecarWritten(n)]);
  }

  lemma FreshInInbox(l: Lake, n: Name)
    requires Valid(l) && n in l.inbox && l.inbox[n] !in l.docs.Values
    ensures DocIdFromHash(l.inbox[n]) !in l.docs
  {
    FreshId(l, l.inbox[n]);
  }

  lemma PossibleOne(l: Lake, c: Change)
    requires Allowed(l, c)
    ensures Possible(l, [c]) && ApplyAll(l, [c]) == Apply(l, c)
  {
    hide Allowed, Apply;
    PossibleStep(l, c, []);
  }

  lemma PossibleStep(l: Lake, c: Change, rest: seq<Change>)
    requires Allowed(l, c) && Possible(Apply(l, c), rest)
    ensures Possible(l, [c] + rest) && ApplyAll(l, [c] + rest) == ApplyAll(Apply(l, c), rest)
  {
    hide Allowed, Apply;
    assert ([c] + rest)[1..] == rest;
  }

  lemma ChangeKeeps(l: Lake, c: Change)
    requires Valid(l) && Allowed(l, c)
    ensures var l' := Apply(l, c);
      && Valid(l')
      && (forall id :: id in l.docs ==> id in l'.docs && l'.docs[id] == l.docs[id])
      && Held(l') <= Held(l)
      && (Tidy(l) ==> Tidy(l') && Held(l') == Held(l))
  {
    hide Valid, Held, Queue;
    if c.RowCommitted? {
      CommitKeeps(l, c.d);
    } else {
      ChangeEvolves(l, c);
      EvolvesMeans(l, Apply(l, c));
    }
  }

  lemma EvolvesMeans(a: Lake, b: Lake)
    requires Evolves(a, b)
    ensures forall id :: id in a.docs ==> id in b.docs && b.docs[id] == a.docs[id]
    ensures Held(b) <= Held(a) && (Tidy(a) ==> Tidy(b) && Held(b) == Held(a))
  {
    hide Held, Queue, Tidy;
  }

  lemma ChangeEvolves(l: Lake, c: Change)
    requires Valid(l) && Allowed(l, c) && !c.RowCommitted?
    ensures Valid(Apply(l, c)) && Evolves(l, Apply(l, c))
  {
    hide Valid, Evolves, Held, Queue, FailedContents, EndsWith, DocIdFromHash, Tidy;
    match c
    case Restored(n) => RestoreEvolves(l, n);
    case QueuedAs(n, target) => ToPendingEvolves(l, n, target);
    case Copied(loc, target) =>
      if Tidy(l) && target == loc.name { TidyName(l, loc); }
      CopyEvolves(l, loc, target);
    case CopyBroken(target) => PartialEvolves(l, target);
    case Removed(loc) =>
      if ContentAt(l, loc).value in FailedContents(l.failed) {
        RemoveCopiedEvolves(l, loc);
      } else {
        DropDuplicateEvolves(l, loc.name);
      }
    case SidecarWritten(target) => SidecarEvolves(l, target);
    case Archived(n, original) => ToProcessedEvolves(l, n, original);
    case BodyChanged(id, fm) =>
      if id in l.docs { RewriteEvolves(l, id, fm); } else { BodyEvolves(l, id, l.body[id := fm]); }
    case BodyRemoved(id) => BodyEvolves(l, id, l.body - {id});
    case RowCommitted(_) =>
  }

  /***** Frontmatter *****/

  const FORBIDDEN: set<string> := {
    "confidence", "origin", "provenance", "provenance_kind", "provenance_uri", "captured_at",
    "corpus capture", "facet_domain_proposed", "facet_tags_proposed"
  }

  /** The normalisers' overlay: the canonical keys win over whatever the dropped file says. */
  function NormalizedFrontmatter(user: Frontmatter, id: DocId, source: string, time: string, mime: string, hash: Digest):
    Frontmatter
  {
    user["id" := id]["source_path" := source]["ingest_timestamp" := time]["mime_type" := mime]["hash" := hash]
  }

  /** A body file as first written: the five canonical keys, and the dropped file's other keys. */
  predicate FirstWritten(fm: Frontmatter, user: Frontmatter, id: DocId, source: string, mime: string, hash: Digest) {
    && fm.Keys == user.Keys + {"id", "source_path", "ingest_timestamp", "mime_type", "hash"}
    && fm["id"] == id && fm["source_path"] == source && fm["mime_type"] == mime && fm["hash"] == hash
    && forall k :: k in user && k !in {"id", "source_path", "ingest_timestamp", "mime_type", "hash"} ==> fm[k] == user[k]
  }

  lemma OverlayIs(user: Frontmatter, id: DocId, source: string, time: string, mime: string, hash: Digest)
    ensures var fm := NormalizedFrontmatter(user, id, source, time, mime, hash);
      FirstWritten(fm, user, id, source, mime, hash) && fm["ingest_timestamp"] == time
  {
    CanonicalKeysDiffer();
  }

  lemma CanonicalKeysDiffer()
    ensures "id" != "source_path" && "id" != "ingest_timestamp" && "id" != "mime_type" && "id" != "hash"
    ensures "source_path" != "ingest_timestamp" && "source_path" != "mime_type" && "source_path" != "hash"
    ensures "ingest_timestamp" != "mime_type" && "ingest_timestamp" != "hash" && "mime_type" != "hash"
  {
    assert |"id"| == 2 && |"source_path"| == 11 && |"ingest_timestamp"| == 16 && |"mime_type"| == 9 && |"hash"| == 4;
  }

  /** The classifier's merge: forbidden keys out, its four fields in. */
  function MergeClassification(fm: Frontmatter, domain: string, ftype: string, tags: string, summary: string): Frontmatter {
    (fm - FORBIDDEN)["facet_domain" := domain]["facet_type" := ftype]["tags" := tags]["summary" := summary]
  }

  lemma MergeKeepsId(fm: Frontmatter, domain: string, ftype: string, tags: string, summary: string)
    requires "id" in fm
    ensures var merged := MergeClassification(fm, domain, ftype, tags, summary);
      "id" in merged && merged["id"] == fm["id"]
  {
    MergeKeeps(fm, domain, ftype, tags, summary);
  }

  /** A body file after a classification: four keys set, nine forbidden ones gone, every other as it was. */
  predicate Classified(fm: Frontmatter, merged: Frontmatter, domain: string, ftype: string, tags: string, summary: string) {
    && merged.Keys == (fm.Keys - {"confidence", "origin", "provenance", "provenance_kind", "provenance_uri", "captured_at",
                                  "corpus capture", "facet_domain_proposed", "facet_tags_proposed"})
                      + {"facet_domain", "facet_type", "tags", "summary"}
    && merged["facet_domain"] == domain && merged["facet_type"] == ftype
    && merged["tags"] == tags && merged["summary"] == summary
    && forall k :: k in merged && k !in {"facet_domain", "facet_type", "tags", "summary"} ==> merged[k] == fm[k]
  }

  /** What a reader finds in the file afterwards. */
  lemma ClassifiedFacets(fm: Frontmatter, merged: Frontmatter, domain: string, ftype: string, tags: string, summary: string)
    requires Classified(fm, merged, domain, ftype, tags, summary)
    ensures {"facet_domain", "facet_type", "tags", "summary"} <= merged.Keys <= fm.Keys + {"facet_domain", "facet_type", "tags", "summary"}
    ensures merged["facet_domain"] == domain && merged["facet_type"] == ftype
    ensures merged["tags"] == tags && merged["summary"] == summary
    ensures "provenance" !in merged && "confidence" !in merged && "origin" !in merged
    ensures forall k :: k in ["id", "source_path", "ingest_timestamp", "mime_type", "hash"] && k in fm ==> k in merged && merged[k] == fm[k]
  {
    OtherKeys();
  }

  lemma OtherKeys()
    ensures forall k :: k in ["id", "source_path", "ingest_timestamp", "mime_type", "hash"] ==>
      && k !in {"facet_domain", "facet_type", "tags", "summary"}
      && k !in {"confidence", "origin", "provenance", "provenance_kind", "provenance_uri", "captured_at",
                "corpus capture", "facet_domain_proposed", "facet_tags_proposed"}
    ensures forall k :: k in ["provenance", "confidence", "origin"] ==> k !in {"facet_domain", "facet_type", "tags", "summary"}
  {
    assert "id"[0] == 'i' && "ingest_timestamp"[0] == 'i' && "mime_type"[0] == 'm' && "hash"[0] == 'h';
    assert "source_path"[0] == 's' && "source_path"[1] == 'o' && "summary"[1] == 'u';
    assert "facet_domain"[0] == 'f' && "facet_type"[0] == 'f' && "tags"[0] == 't' && "summary"[0] == 's';
    assert "confidence"[0] == 'c' && "origin"[0] == 'o' && "provenance"[0] == 'p' && "provenance_kind"[0] == 'p';
    assert "provenance_uri"[0] == 'p' && "captured_at"[0] == 'c' && "corpus capture"[0] == 'c';
    assert "facet_domain_proposed"[0] == 'f' && "facet_tags_proposed"[0] == 'f';
  }

  /** The merge sets its four keys, keeps every other, among them the id, and lets nothing forbidden survive. */
  lemma MergeKeeps(fm: Frontmatter, domain: string, ftype: string, tags: string, summary: string)
    ensures var merged := MergeClassification(fm, domain, ftype, tags, summary);
      && Classified(fm, merged, domain, ftype, tags, summary)
      && ("id" in fm ==> "id" in merged && merged["id"] == fm["id"])
  {
    assert |"facet_domain"| == 12 && |"facet_type"| == 10 && |"tags"| == 4 && |"summary"| == 7;
    assert |"id"| == 2 && "id"[0] == 'i' && "id" !in FORBIDDEN;
  }
}
