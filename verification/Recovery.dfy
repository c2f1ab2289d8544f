/**
 * The recovery scan: from the telemetry log of the last daemon session, the (document, stage) pairs
 * that were started and neither completed nor failed, dispatched by the resumability matrix.
 */
module Recovery {
  import opened Wrappers

  datatype Stage = IngestStage | ClassifyStage | EmbedStage | IndexStage | EdgesStage

  datatype Event = Event(name: string, ts: Option<string>, docId: Option<string>, filePath: Option<string>)

  /** A log line; `NullLine` is the JSON value null, which is kept as an event without fields. */
  datatype Line = Blank | Malformed | NullLine | Logged(event: Event)

  type Key = string

  datatype Entry = Entry(stage: Stage, docId: Option<string>, startedTs: string, lastSeenTs: string, inboxFile: Option<string>)

  function StageName(stage: Stage): string {
    match stage
    case IngestStage => "ingest"
    case ClassifyStage => "classify"
    case EmbedStage => "embed"
    case IndexStage => "index"
    case EdgesStage => "edges-build"
  }

  function StartedStage(name: string): Option<Stage> {
    if name == "ingest.normalized" then Some(IngestStage)
    else if name == "classify.started" then Some(ClassifyStage)
    else if name == "embed.started" then Some(EmbedStage)
    else if name == "index.started" then Some(IndexStage)
    else if name == "edges.started" then Some(EdgesStage)
    else None
  }

  /** Both outcomes end a stage, except that a failed ingest has no event of its own. */
  function CompletedStage(name: string): Option<Stage> {
    if name == "ingest.completed" then Some(IngestStage)
    else if name == "classify.completed" || name == "classify.failed" then Some(ClassifyStage)
    else if name == "embed.completed" || name == "embed.failed" then Some(EmbedStage)
    else if name == "index.completed" || name == "index.failed" then Some(IndexStage)
    else if name == "edges.completed" || name == "edges.failed" then Some(EdgesStage)
    else None
  }

  function OrphanKey(docId: Option<string>, stage: Stage): Key {
    (if docId.Some? then docId.value else "(null)") + "::" + StageName(stage)
  }

  /** The name after the last slash. */
  function Basename(path: string): string {
    if path == "" || path[|path| - 1] == '/' then ""
    else Basename(path[..|path| - 1]) + [path[|path| - 1]]
  }

  function TsOf(e: Event): string {
    if e.ts.Some? then e.ts.value else ""
  }

  /***** What the scan should find *****/

  predicate Starts(e: Event, key: Key) {
    StartedStage(e.name).Some? && OrphanKey(e.docId, StartedStage(e.name).value) == key
  }

  predicate Completes(e: Event, key: Key) {
    CompletedStage(e.name).Some? && OrphanKey(e.docId, CompletedStage(e.name).value) == key
  }

  function InboxName(e: Event): Option<string> {
    if e.name == "ingest.normalized" && e.filePath.Some? then Some(Basename(e.filePath.value)) else None
  }

  predicate Named(e: Event) {
    InboxName(e).Some? && InboxName(e).value != ""
  }

  /** The index of the last daemon start, or -1. */
  function LastBoundary(events: seq<Event>): (i: int)
    ensures -1 <= i < |events|
  {
    if events == [] then -1
    else if events[|events| - 1].name == "daemon.started" then |events| - 1
    else LastBoundary(events[..|events| - 1])
  }

  function FirstStart(w: seq<Event>, key: Key): (i: int)
    ensures -1 <= i < |w|
    ensures i >= 0 ==> Starts(w[i], key)
  {
    if w == [] then -1
    else
      var before := FirstStart(w[..|w| - 1], key);
      if before >= 0 then before else if Starts(w[|w| - 1], key) then |w| - 1 else -1
  }

  function LastStart(w: seq<Event>, key: Key): (i: int)
    ensures -1 <= i < |w|
  {
    if w == [] then -1
    else if Starts(w[|w| - 1], key) then |w| - 1
    else LastStart(w[..|w| - 1], key)
  }

  /** The first start that names an inbox file. */
  function FirstNamed(w: seq<Event>, key: Key): (i: int)
    ensures -1 <= i < |w|
  {
    if w == [] then -1
    else
      var before := FirstNamed(w[..|w| - 1], key);
      if before >= 0 then before else if Starts(w[|w| - 1], key) && Named(w[|w| - 1]) then |w| - 1 else -1
  }

  predicate Completed(w: seq<Event>, key: Key) {
    exists e :: e in w && Completes(e, key)
  }

  /** The keys started in the window, each once, in the order of their first start. */
  function StartKeys(w: seq<Event>): seq<Key> {
    if w == [] then []
    else
      var before, stage := StartKeys(w[..|w| - 1]), StartedStage(w[|w| - 1].name);
      if stage.None? then before
      else
        var key := OrphanKey(w[|w| - 1].docId, stage.value);
        if key in before then before else before + [key]
  }

  /** What is reported about a started key: its first and last start, and the first inbox name seen. */
  function EntryFor(w: seq<Event>, key: Key): Entry
    requires FirstStart(w, key) >= 0
  {
    var first, last, named := w[FirstStart(w, key)], LastStart(w, key), FirstNamed(w, key);
    Entry(StartedStage(first.name).value, first.docId, TsOf(first),
          if last >= 0 then TsOf(w[last]) else "",
          if named >= 0 then InboxName(w[named]) else InboxName(first))
  }

  /** Started minus completed, in order. */
  function OrphanKeys(w: seq<Event>): seq<Key> {
    OpenKeys(StartKeys(w), w)
  }

  function OpenKeys(keys: seq<Key>, w: seq<Event>): seq<Key> {
    if keys == [] then []
    else
      OpenKeys(keys[..|keys| - 1], w)
      + if Completed(w, keys[|keys| - 1]) then [] else [keys[|keys| - 1]]
  }

  function Entries(w: seq<Event>, keys: seq<Key>): seq<Entry>
    requires forall k :: k in keys ==> FirstStart(w, k) >= 0
  {
    seq(|keys|, i requires 0 <= i < |keys| => EntryFor(w, keys[i]))
  }

  function Orphans(w: seq<Event>): seq<Entry> {
    StartKeysStarted(w);
    OpenKeysOf(StartKeys(w), w);
    Entries(w, OrphanKeys(w))
  }

  /** The matrix: a pre-persist orphan needs its inbox file, every later stage is idempotent. */
  predicate Resumable(orphan: Entry, inbox: set<string>) {
    !orphan.stage.IngestStage?
    || (orphan.inboxFile.Some? && orphan.inboxFile.value != "" && orphan.inboxFile.value in inbox)
  }

  /***** What those definitions mean *****/

  lemma {:induction false} FirstStartIs(w: seq<Event>, key: Key)
    ensures FirstStart(w, key) >= 0 <==> exists e :: e in w && Starts(e, key)
    ensures forall i :: 0 <= i < |w| && Starts(w[i], key) ==> FirstStart(w, key) <= i <= LastStart(w, key)
    ensures LastStart(w, key) >= 0 ==> Starts(w[LastStart(w, key)], key)
  {
    if w != [] {
      var w' := w[..|w| - 1];
      FirstStartIs(w', key);
      assert w == w' + [w[|w| - 1]];
      if FirstStart(w, key) >= 0 { assert w[FirstStart(w, key)] in w; }
    }
  }

  lemma {:induction false} StartKeysStarted(w: seq<Event>)
    ensures forall k :: k in StartKeys(w) <==> FirstStart(w, k) >= 0
    ensures InStartOrder(w, StartKeys(w))
  {
    if w != [] {
      StartKeysStarted(w[..|w| - 1]);
    }
  }

  lemma {:induction false} OpenKeysOf(keys: seq<Key>, w: seq<Event>)
    ensures forall k :: k in OpenKeys(keys, w) <==> k in keys && !Completed(w, k)
  {
    if keys != [] {
      OpenKeysOf(keys[..|keys| - 1], w);
      assert keys == keys[..|keys| - 1] + [keys[|keys| - 1]];
    }
  }

  /** Distinct keys, in the order of their first start. */
  ghost predicate InStartOrder(w: seq<Event>, keys: seq<Key>) {
    forall i, j :: 0 <= i < j < |keys| ==> FirstStart(w, keys[i]) < FirstStart(w, keys[j])
  }

  lemma InStartOrderSnoc(w: seq<Event>, keys: seq<Key>, k: Key)
    requires InStartOrder(w, keys)
    requires forall x :: x in keys ==> FirstStart(w, x) < FirstStart(w, k)
    ensures InStartOrder(w, keys + [k])
  {
    hide FirstStart;
    forall i, j | 0 <= i < j < |keys + [k]| ensures FirstStart(w, (keys + [k])[i]) < FirstStart(w, (keys + [k])[j]) {
      assert keys[i] in keys;
    }
  }

  lemma {:induction false} OpenKeysOrdered(keys: seq<Key>, w: seq<Event>)
    requires InStartOrder(w, keys)
    ensures InStartOrder(w, OpenKeys(keys, w))
  {
    hide FirstStart, Completed;
    if keys != [] {
      var before, k := keys[..|keys| - 1], keys[|keys| - 1];
      OpenKeysOrdered(before, w);
      OpenKeysOf(before, w);
      forall x | x in before ensures FirstStart(w, x) < FirstStart(w, k) {
        var i :| 0 <= i < |before| && before[i] == x;
        assert keys[i] == x;
      }
      InStartOrderSnoc(w, OpenKeys(before, w), k);
      assert OpenKeys(before, w) + [] == OpenKeys(before, w);
    }
  }

  /**
   * The orphans are exactly the keys with a start and no completion or failure anywhere in the window,
   * each once, in the order of their first start.
   */
  lemma OrphanKeysExact(w: seq<Event>)
    ensures forall k :: k in OrphanKeys(w) <==>
      (exists e :: e in w && Starts(e, k)) && !(exists e :: e in w && Completes(e, k))
    ensures InStartOrder(w, OrphanKeys(w))
  {
    hide FirstStart, StartKeys, OpenKeys, Starts, Completes;
    StartKeysStarted(w);
    OpenKeysOf(StartKeys(w), w);
    OpenKeysOrdered(StartKeys(w), w);
    assert OrphanKeys(w) == OpenKeys(StartKeys(w), w);
    forall k ensures FirstStart(w, k) >= 0 <==> exists e :: e in w && Starts(e, k) {
      FirstStartIs(w, k);
    }
  }

  /** Each is reported with its stage and id and the times of its first and last start. */
  lemma OrphanReport(w: seq<Event>, i: nat)
    requires i < |OrphanKeys(w)|
    ensures |Orphans(w)| == |OrphanKeys(w)|
    ensures var k := OrphanKeys(w)[i]; var first, last := FirstStart(w, k), LastStart(w, k);
      && 0 <= first <= last < |w|
      && Starts(w[first], k) && Starts(w[last], k)
      && (forall j :: 0 <= j < |w| && Starts(w[j], k) ==> first <= j <= last)
      && Orphans(w)[i].startedTs == (match w[first].ts case Some(t) => t case None => "")
      && Orphans(w)[i].lastSeenTs == (match w[last].ts case Some(t) => t case None => "")
      && OrphanKey(Orphans(w)[i].docId, Orphans(w)[i].stage) == k
  {
    var k := OrphanKeys(w)[i];
    StartKeysStarted(w);
    OpenKeysOf(StartKeys(w), w);
    assert k in OrphanKeys(w);
    FirstStartIs(w, k);
  }

  /** Two events have the same key exactly when their stages agree and so do their ids, null read as "(null)". */
  lemma KeyInjective(a: Option<string>, s: Stage, b: Option<string>, t: Stage)
    ensures OrphanKey(a, s) == OrphanKey(b, t) <==>
      s == t && (if a.Some? then a.value else "(null)") == (if b.Some? then b.value else "(null)")
  {
    var x, y := if a.Some? then a.value else "(null)", if b.Some? then b.value else "(null)";
    var m, n := StageName(s), StageName(t);
    NoColon(s);
    NoColon(t);
    if x + "::" + m == y + "::" + n {
      if |m| < |n| { SuffixClash(x, m, y, n); }
      if |n| < |m| { SuffixClash(y, n, x, m); }
      assert |m| == |n| && |x| == |y|;
      assert m == (x + "::" + m)[|x| + 2..] && n == (y + "::" + n)[|y| + 2..];
      assert x == (x + "::" + m)[..|x|] && y == (y + "::" + n)[..|y|];
      StageNames(s, t);
    }
  }

  lemma NoColon(t: Stage)
    ensures ':' !in StageName(t)
  {
  }

  lemma StageNames(s: Stage, t: Stage)
    requires StageName(s) == StageName(t)
    ensures s == t
  {
    assert "ingest"[0] == 'i' && "index"[1] == 'n' && "classify"[0] == 'c' && "embed"[1] == 'm' && "edges-build"[1] == 'd';
    assert |"ingest"| == 6 && |"index"| == 5 && |"classify"| == 8 && |"embed"| == 5 && |"edges-build"| == 11;
  }

  /** If a shorter word ends a key that a longer one ends too, the longer one has a colon. */
  lemma SuffixClash(x: string, m: string, y: string, n: string)
    requires |m| < |n| && x + "::" + m == y + "::" + n
    ensures ':' in n
  {
    var whole := x + "::" + m;
    assert whole[|x| + 1] == ':';
    assert whole == y + "::" + n;
    assert n[|x| - |y| - 1] == whole[|x| + 1];
  }

  /***** The scan reads its own output without being misled *****/

  /** The events the scan itself appends to the log. */
  const RECOVERY_EVENTS: set<string> := {
    "recovery.aborted_scan", "recovery.scan_skipped", "recovery.telemetry_parse_failed", "recovery.scan_reentry",
    "recovery.scan_started", "recovery.orphan_found", "recovery.resumed", "recovery.aborted", "recovery.scan_completed"
  }

  lemma RecoveryEventsAreNeutral(e: Event)
    requires e.name in RECOVERY_EVENTS
    ensures e.name != "daemon.started" && StartedStage(e.name).None? && CompletedStage(e.name).None?
  {
    hide StartedStage, CompletedStage;
    assert e.name != "" && e.name[0] == 'r';
    NamesOfOthers(e.name);
  }

  /** No session marker, start or completion has a name with that first letter. */
  lemma NamesOfOthers(name: string)
    requires name != "" && name[0] == 'r'
    ensures name != "daemon.started" && StartedStage(name).None? && CompletedStage(name).None?
  {
    assert "daemon.started"[0] == 'd' && "ingest.normalized"[0] == 'i' && "ingest.completed"[0] == 'i';
    assert "classify.started"[0] == 'c' && "classify.completed"[0] == 'c' && "classify.failed"[0] == 'c';
    assert "embed.started"[0] == 'e' && "embed.completed"[0] == 'e' && "embed.failed"[0] == 'e';
    assert "index.started"[0] == 'i' && "index.completed"[0] == 'i' && "index.failed"[0] == 'i';
    assert "edges.started"[0] == 'e' && "edges.completed"[0] == 'e' && "edges.failed"[0] == 'e';
  }

  function Window(events: seq<Event>): seq<Event>
    requires LastBoundary(events) >= 0
  {
    events[LastBoundary(events)..]
  }

  lemma KeysSkipNeutral(w: seq<Event>, e: Event)
    requires e.name in RECOVERY_EVENTS
    ensures OrphanKeys(w + [e]) == OrphanKeys(w)
  {
    RecoveryEventsAreNeutral(e);
    assert (w + [e])[..|w|] == w;
    assert StartKeys(w + [e]) == StartKeys(w);
    forall k ensures Completed(w + [e], k) == Completed(w, k) {
      assert forall x :: x in w + [e] <==> x in w || x == e;
    }
    OpenKeysAgree(StartKeys(w), w, w + [e]);
  }

  lemma EntrySkipsNeutral(w: seq<Event>, e: Event, k: Key)
    requires e.name in RECOVERY_EVENTS && FirstStart(w, k) >= 0
    ensures FirstStart(w + [e], k) >= 0 && EntryFor(w + [e], k) == EntryFor(w, k)
  {
    RecoveryEventsAreNeutral(e);
    assert (w + [e])[..|w|] == w;
  }

  /** A neutral event at the end changes no key, no completion and no entry. */
  lemma OrphansSkipNeutral(w: seq<Event>, e: Event)
    requires e.name in RECOVERY_EVENTS
    ensures Orphans(w + [e]) == Orphans(w)
  {
    hide FirstStart, LastStart, FirstNamed, StartKeys, OpenKeys, EntryFor;
    KeysSkipNeutral(w, e);
    StartKeysStarted(w);
    OpenKeysOf(StartKeys(w), w);
    StartKeysStarted(w + [e]);
    OpenKeysOf(StartKeys(w + [e]), w + [e]);
    var keys := OrphanKeys(w);
    forall i | 0 <= i < |keys| ensures FirstStart(w, keys[i]) >= 0 && EntryFor(w + [e], keys[i]) == EntryFor(w, keys[i]) {
      assert keys[i] in keys;
      EntrySkipsNeutral(w, e, keys[i]);
    }
  }

  lemma {:induction false} OpenKeysAgree(keys: seq<Key>, w: seq<Event>, w': seq<Event>)
    requires forall k :: Completed(w, k) == Completed(w', k)
    ensures OpenKeys(keys, w) == OpenKeys(keys, w')
  {
    if keys != [] {
      OpenKeysAgree(keys[..|keys| - 1], w, w');
    }
  }

  /** A second scan, over the log extended by the first scan's own lines, finds the same orphans. */
  lemma {:induction false} RescanFindsTheSame(events: seq<Event>, emitted: seq<Event>)
    requires LastBoundary(events) >= 0
    requires forall e :: e in emitted ==> e.name in RECOVERY_EVENTS
    ensures LastBoundary(events + emitted) == LastBoundary(events)
    ensures Orphans(Window(events + emitted)) == Orphans(Window(events))
  {
    if emitted == [] {
      assert events + emitted == events;
    } else {
      var before, e := emitted[..|emitted| - 1], emitted[|emitted| - 1];
      assert events + emitted == (events + before) + [e];
      RescanFindsTheSame(events, before);
      assert e in emitted;
      RecoveryEventsAreNeutral(e);
      assert (events + emitted)[..|events + before|] == events + before;
      assert Window(events + emitted) == Window(events + before) + [e];
      OrphansSkipNeutral(Window(events + before), e);
    }
  }
}
