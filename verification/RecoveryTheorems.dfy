/** The orphans and their fate in terms of the logged events, without the tables and keys of the scan. */
module RecoveryTheorems {
  import opened Wrappers
  import opened Recovery

  /***** Events in words *****/

  /** The event that marks a stage as begun. */
  predicate BeginsStage(name: string, stage: Stage) {
    match stage
    case IngestStage => name == "ingest.normalized"
    case ClassifyStage => name == "classify.started"
    case EmbedStage => name == "embed.started"
    case IndexStage => name == "index.started"
    case EdgesStage => name == "edges.started"
  }

  /** The events after which a stage is no longer open: ingest has one, every later stage a completion and a failure. */
  predicate EndsStage(name: string, stage: Stage) {
    match stage
    case IngestStage => name == "ingest.completed"
    case ClassifyStage => name in ["classify.completed", "classify.failed"]
    case EmbedStage => name in ["embed.completed", "embed.failed"]
    case IndexStage => name in ["index.completed", "index.failed"]
    case EdgesStage => name in ["edges.completed", "edges.failed"]
  }

  /** Two events are about the same document; a missing id is as good as the text "(null)". */
  predicate SameId(a: Option<string>, b: Option<string>) {
    a == b || (a == None && b == Some("(null)")) || (a == Some("(null)") && b == None)
  }

  lemma TablesAgree(name: string, stage: Stage)
    ensures StartedStage(name) == Some(stage) <==> BeginsStage(name, stage)
    ensures CompletedStage(name) == Some(stage) <==> EndsStage(name, stage)
  {
    StartsAgree(name, stage);
    EndsAgree(name, stage);
  }

  lemma StartsAgree(name: string, stage: Stage)
    ensures StartedStage(name) == Some(stage) <==> BeginsStage(name, stage)
  {
    assert "ingest.normalized"[0] == 'i' && "ingest.normalized"[2] == 'g' && "index.started"[2] == 'd';
    assert "classify.started"[0] == 'c' && "embed.started"[1] == 'm' && "edges.started"[1] == 'd';
  }

  lemma EndsAgree(name: string, stage: Stage)
    ensures CompletedStage(name) == Some(stage) <==> EndsStage(name, stage)
  {
    assert "ingest.completed"[0] == 'i' && "ingest.completed"[2] == 'g';
    assert "index.completed"[0] == 'i' && "index.completed"[2] == 'd' && "index.failed"[0] == 'i' && "index.failed"[2] == 'd';
    assert "classify.completed"[0] == 'c' && "classify.failed"[0] == 'c';
    assert "embed.completed"[0] == 'e' && "embed.completed"[1] == 'm';
    assert "embed.failed"[0] == 'e' && "embed.failed"[1] == 'm';
    assert "edges.completed"[0] == 'e' && "edges.completed"[1] == 'd';
    assert "edges.failed"[0] == 'e' && "edges.failed"[1] == 'd';
  }

  lemma KeysAgree(e: Event, docId: Option<string>, stage: Stage)
    ensures Starts(e, OrphanKey(docId, stage)) <==> BeginsStage(e.name, stage) && SameId(e.docId, docId)
    ensures Completes(e, OrphanKey(docId, stage)) <==> EndsStage(e.name, stage) && SameId(e.docId, docId)
  {
    TablesAgree(e.name, stage);
    if StartedStage(e.name).Some? { KeyInjective(e.docId, StartedStage(e.name).value, docId, stage); }
    if CompletedStage(e.name).Some? { KeyInjective(e.docId, CompletedStage(e.name).value, docId, stage); }
    hide OrphanKey, StartedStage, CompletedStage, BeginsStage, EndsStage;
  }

  /***** The orphans *****/

  ghost predicate Begun(w: seq<Event>, docId: Option<string>, stage: Stage) {
    exists e :: e in w && BeginsStage(e.name, stage) && SameId(e.docId, docId)
  }

  ghost predicate Ended(w: seq<Event>, docId: Option<string>, stage: Stage) {
    exists e :: e in w && EndsStage(e.name, stage) && SameId(e.docId, docId)
  }

  ghost predicate Reported(orphans: seq<Entry>, docId: Option<string>, stage: Stage) {
    exists o :: o in orphans && o.stage == stage && SameId(o.docId, docId)
  }

  /** A stage of a document is reported exactly when the session began it and neither completed nor failed it. */
  lemma OrphanIff(w: seq<Event>, docId: Option<string>, stage: Stage)
    ensures Reported(Orphans(w), docId, stage) <==> Begun(w, docId, stage) && !Ended(w, docId, stage)
  {
    var k := OrphanKey(docId, stage);
    OrphanKeysExact(w);
    KeyReported(w, docId, stage);
    assert k in OrphanKeys(w) <==> (exists e :: e in w && Starts(e, k)) && !(exists e :: e in w && Completes(e, k));
    hide Starts, Completes, Orphans, OrphanKeys, OrphanKey;
    forall e ensures Starts(e, k) <==> BeginsStage(e.name, stage) && SameId(e.docId, docId) { KeysAgree(e, docId, stage); }
    forall e ensures Completes(e, k) <==> EndsStage(e.name, stage) && SameId(e.docId, docId) { KeysAgree(e, docId, stage); }
    assert Begun(w, docId, stage) <==> exists e :: e in w && Starts(e, k);
    assert Ended(w, docId, stage) <==> exists e :: e in w && Completes(e, k);
  }

  lemma KeyReported(w: seq<Event>, docId: Option<string>, stage: Stage)
    ensures Reported(Orphans(w), docId, stage) <==> OrphanKey(docId, stage) in OrphanKeys(w)
  {
    var k := OrphanKey(docId, stage);
    var orphans, keys := Orphans(w), OrphanKeys(w);
    OrphanCount(w);
    hide Orphans, OrphanKeys, OrphanKey;
    forall i | 0 <= i < |keys|
      ensures keys[i] == k <==> orphans[i].stage == stage && SameId(orphans[i].docId, docId)
    {
      OrphanReport(w, i);
      KeyInjective(orphans[i].docId, orphans[i].stage, docId, stage);
    }
    if k in keys {
      var i :| 0 <= i < |keys| && keys[i] == k;
      assert orphans[i] in orphans;
    }
    if Reported(orphans, docId, stage) {
      var o :| o in orphans && o.stage == stage && SameId(o.docId, docId);
      var i :| 0 <= i < |orphans| && orphans[i] == o;
      assert keys[i] == k;
    }
  }

  lemma OrphanCount(w: seq<Event>)
    ensures |Orphans(w)| == |OrphanKeys(w)|
  {
  }

  /***** Inbox files *****/

  /** `file` is the last component of a path: what follows its last slash. */
  predicate LastComponent(path: string, file: string) {
    && |file| <= |path| && path[|path| - |file|..] == file && '/' !in file
    && (|file| == |path| || path[|path| - |file| - 1] == '/')
  }

  lemma {:induction false} BasenameIs(path: string)
    ensures LastComponent(path, Basename(path))
  {
    if path != "" && path[|path| - 1] != '/' {
      hide LastComponent;
      BasenameIs(path[..|path| - 1]);
      MoreComponent(path[..|path| - 1], Basename(path[..|path| - 1]), path[|path| - 1]);
      assert path == path[..|path| - 1] + [path[|path| - 1]];
    }
  }

  lemma MoreComponent(path: string, file: string, c: char)
    requires LastComponent(path, file) && c != '/'
    ensures LastComponent(path + [c], file + [c])
  {
    var m := |path| - |file|;
    assert (path + [c])[m..] == path[m..] + [c];
    assert m > 0 ==> (path + [c])[m - 1] == path[m - 1];
  }

  lemma OneLastComponent(path: string, a: string, b: string)
    requires LastComponent(path, a) && LastComponent(path, b)
    ensures a == b
  {
    NotLonger(path, a, b);
    NotLonger(path, b, a);
  }

  lemma NotLonger(path: string, a: string, b: string)
    requires LastComponent(path, a) && LastComponent(path, b)
    ensures |b| <= |a|
  {
    forall j | |path| - |b| <= j < |path| ensures path[j] in b {
      assert path[|path| - |b|..][j - (|path| - |b|)] == path[j];
    }
  }

  /** The event carries a path whose last component is the non-empty `file`. */
  predicate Carries(e: Event, file: string) {
    e.filePath.Some? && file != "" && LastComponent(e.filePath.value, file)
  }

  predicate IngestStart(e: Event, docId: Option<string>) {
    e.name == "ingest.normalized" && SameId(e.docId, docId)
  }

  /** Event `j` is the first ingest start of the document that carries a file, and the file is `file`. */
  ghost predicate FirstCarrier(w: seq<Event>, docId: Option<string>, j: int, file: string) {
    && 0 <= j < |w| && IngestStart(w[j], docId) && Carries(w[j], file)
    && forall m, f :: 0 <= m < j && IngestStart(w[m], docId) ==> !Carries(w[m], f)
  }

  /** The file that the first carrying ingest start of the document names is in the inbox. */
  ghost predicate FileThere(w: seq<Event>, docId: Option<string>, inbox: set<string>) {
    exists j, file :: FirstCarrier(w, docId, j, file) && file in inbox
  }

  lemma CarriesIffNamed(e: Event, file: string)
    requires e.name == "ingest.normalized"
    ensures Carries(e, file) <==> Named(e) && InboxName(e) == Some(file)
  {
    if e.filePath.Some? {
      BasenameIs(e.filePath.value);
      if Carries(e, file) { OneLastComponent(e.filePath.value, file, Basename(e.filePath.value)); }
    }
  }

  lemma {:induction false} FirstNamedIs(w: seq<Event>, k: Key)
    ensures FirstNamed(w, k) >= 0 ==> Starts(w[FirstNamed(w, k)], k) && Named(w[FirstNamed(w, k)])
  {
    if w != [] {
      hide Starts, Named;
      FirstNamedIs(w[..|w| - 1], k);
    }
  }

  lemma {:induction false} FirstNamedLeast(w: seq<Event>, k: Key, m: int)
    requires 0 <= m < |w| && Starts(w[m], k) && Named(w[m])
    ensures 0 <= FirstNamed(w, k) <= m
  {
    hide Starts, Named;
    if m < |w| - 1 { FirstNamedLeast(w[..|w| - 1], k, m); }
  }

  /** Whether a reported orphan is resumed: always after ingest, and an ingest exactly when its file is there. */
  lemma ResumedIff(w: seq<Event>, i: nat, inbox: set<string>)
    requires i < |Orphans(w)|
    ensures var o := Orphans(w)[i]; Resumable(o, inbox) <==> o.stage != IngestStage || FileThere(w, o.docId, inbox)
  {
    OrphanCount(w);
    OrphanReport(w, i);
    var o, k := Orphans(w)[i], OrphanKeys(w)[i];
    EntryOfOrphan(w, i);
    if o.stage == IngestStage { IngestFile(w, o.docId, k, o.inboxFile, inbox); }
  }

  lemma EntryOfOrphan(w: seq<Event>, i: nat)
    requires i < |Orphans(w)|
    ensures |Orphans(w)| == |OrphanKeys(w)|
    ensures FirstStart(w, OrphanKeys(w)[i]) >= 0 && Orphans(w)[i] == EntryFor(w, OrphanKeys(w)[i])
  {
    OrphanReport(w, i);
    hide EntryFor, FirstStart;
  }

  lemma IngestFile(w: seq<Event>, docId: Option<string>, k: Key, inboxFile: Option<string>, inbox: set<string>)
    requires k == OrphanKey(docId, IngestStage) && FirstStart(w, k) >= 0
    requires inboxFile == (if FirstNamed(w, k) >= 0 then InboxName(w[FirstNamed(w, k)]) else InboxName(w[FirstStart(w, k)]))
    ensures inboxFile.Some? && inboxFile.value != "" && inboxFile.value in inbox <==> FileThere(w, docId, inbox)
  {
    FirstNamedIs(w, k);
    forall m | 0 <= m < |w| && Starts(w[m], k) && Named(w[m]) ensures 0 <= FirstNamed(w, k) <= m {
      FirstNamedLeast(w, k, m);
    }
    var n := FirstNamed(w, k);
    if n >= 0 { NamedHasName(w[n]); }
    hide OrphanKey, FirstNamed, FirstStart, Starts, Named, InboxName, SameId;
    forall e ensures Starts(e, k) <==> IngestStart(e, docId) { KeysAgree(e, docId, IngestStage); }
    forall e, f | IngestStart(e, docId) ensures Carries(e, f) <==> Named(e) && InboxName(e) == Some(f) {
      CarriesIffNamed(e, f);
    }
    if n >= 0 {
      NamedIsFirst(w, docId, n, inboxFile.value);
      forall j, f | FirstCarrier(w, docId, j, f) ensures j == n && f == inboxFile.value {
        assert Carries(w[j], f) && Carries(w[n], inboxFile.value);
      }
    } else {
      assert forall j, f :: !FirstCarrier(w, docId, j, f);
      NotNamed(w[FirstStart(w, k)]);
    }
  }

  lemma NamedHasName(e: Event)
    requires Named(e)
    ensures InboxName(e).Some? && InboxName(e).value != ""
  {
  }

  lemma NotNamed(e: Event)
    requires !Named(e)
    ensures InboxName(e).None? || InboxName(e).value == ""
  {
  }

  lemma NamedIsFirst(w: seq<Event>, docId: Option<string>, n: int, file: string)
    requires 0 <= n < |w| && IngestStart(w[n], docId) && Carries(w[n], file)
    requires forall m, f :: 0 <= m < |w| && IngestStart(w[m], docId) && Carries(w[m], f) ==> n <= m
    ensures FirstCarrier(w, docId, n, file)
  {
  }

  /** How many of the entries are ingests whose file is not there. */
  ghost function Lost(w: seq<Event>, entries: seq<Entry>, inbox: set<string>): nat {
    if entries == [] then 0
    else
      var o := entries[|entries| - 1];
      Lost(w, entries[..|entries| - 1], inbox) + if o.stage == IngestStage && !FileThere(w, o.docId, inbox) then 1 else 0
  }
}
