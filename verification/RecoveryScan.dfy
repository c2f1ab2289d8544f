/** The recovery scan as code: one pass over the log, two maps, then the dispatch loop. */
module RecoveryScan {
  import opened Wrappers
  import opened Recovery
  import opened RecoveryTheorems

  datatype SkipReason = NoPriorSession | LockContention

  datatype Verdict = Verdict(entry: Entry, resumable: bool)

  datatype ScanResult = ScanResult(
    skipped: Option<SkipReason>,
    aborted: bool,
    orphans: seq<Verdict>,
    resumedCount: nat,
    abortedCount: nat,
    sessionStart: Option<string>)

  const EMPTY := ScanResult(None, false, [], 0, 0, None)

  function EventsOf(lines: seq<Line>): seq<Event> {
    if lines == [] then []
    else
      EventsOf(lines[..|lines| - 1])
      + if lines[|lines| - 1].Logged? then [lines[|lines| - 1].event] else []
  }

  /** How many events precede the last line that is the JSON value null. */
  function LastNull(lines: seq<Line>): Option<nat> {
    if lines == [] then None
    else if lines[|lines| - 1].NullLine? then Some(|EventsOf(lines[..|lines| - 1])|)
    else LastNull(lines[..|lines| - 1])
  }

  /** Such a line after the last session marker makes the scan throw. */
  predicate NullInSession(lines: seq<Line>) {
    LastNull(lines).Some? && LastNull(lines).value > LastBoundary(EventsOf(lines))
  }

  predicate IsMarker(line: Line) {
    line.Logged? && line.event.name == "daemon.started"
  }

  ghost predicate HasMarker(lines: seq<Line>) {
    exists m :: 0 <= m < |lines| && IsMarker(lines[m])
  }

  ghost predicate HasFatalNull(lines: seq<Line>) {
    exists i :: NullFollowsMarker(lines, i)
  }

  /** Line `i` is null, a session marker precedes it, and none follows it. */
  ghost predicate NullFollowsMarker(lines: seq<Line>, i: int) {
    && 0 <= i < |lines| && lines[i].NullLine?
    && HasMarker(lines[..i])
    && (forall j :: i < j < |lines| ==> !IsMarker(lines[j]))
  }

  lemma {:induction false} MarkerIsBoundary(lines: seq<Line>)
    ensures LastBoundary(EventsOf(lines)) >= 0 <==> HasMarker(lines)
    ensures LastNull(lines).Some? ==> LastNull(lines).value <= |EventsOf(lines)|
  {
    if lines != [] {
      var n := |lines| - 1;
      MarkerIsBoundary(lines[..n]);
      EventsOne(lines);
      MarkerOne(lines);
      hide EventsOf, LastBoundary, HasMarker;
    }
  }

  lemma MarkerOne(lines: seq<Line>)
    requires lines != []
    ensures var n := |lines| - 1; HasMarker(lines) <==> HasMarker(lines[..n]) || IsMarker(lines[n])
  {
    var n := |lines| - 1;
    if m :| 0 <= m < n && IsMarker(lines[..n][m]) {
      assert IsMarker(lines[m]);
    }
    if m :| 0 <= m < |lines| && IsMarker(lines[m]) {
      assert m < n ==> IsMarker(lines[..n][m]);
    }
  }

  /** What the last line does to the events and to the last marker among them. */
  lemma EventsOne(lines: seq<Line>)
    requires lines != []
    ensures var n := |lines| - 1; var before := EventsOf(lines[..n]);
      && |before| <= |EventsOf(lines)|
      && LastBoundary(EventsOf(lines)) == if IsMarker(lines[n]) then |before| else LastBoundary(before)
  {
    var n := |lines| - 1;
    var before := EventsOf(lines[..n]);
    if lines[n].Logged? {
      assert EventsOf(lines) == before + [lines[n].event];
      assert (before + [lines[n].event])[..|before|] == before;
    } else {
      assert EventsOf(lines) == before;
    }
  }

  /** The scan meets a null line exactly when one follows the last session marker. */
  lemma {:induction false} NullInSessionIs(lines: seq<Line>)
    ensures LastBoundary(EventsOf(lines)) >= 0 && NullInSession(lines) <==> HasFatalNull(lines)
  {
    if lines != [] {
      var n := |lines| - 1;
      NullInSessionIs(lines[..n]);
      MarkerIsBoundary(lines[..n]);
      EventsOne(lines);
      FatalOne(lines);
      hide EventsOf, LastBoundary, HasMarker, HasFatalNull;
    }
  }

  lemma FatalOne(lines: seq<Line>)
    requires lines != []
    ensures var before, last := lines[..|lines| - 1], lines[|lines| - 1];
      HasFatalNull(lines) <==> if last.NullLine? then HasMarker(before) else !IsMarker(last) && HasFatalNull(before)
  {
    hide HasMarker;
    var n := |lines| - 1;
    assert NullFollowsMarker(lines, n) <==> lines[n].NullLine? && HasMarker(lines[..n]);
    forall i | 0 <= i < n ensures NullFollowsMarker(lines, i) <==> !IsMarker(lines[n]) && NullFollowsMarker(lines[..n], i) {
      FatalEarlier(lines, i);
    }
    if lines[n].NullLine? {
      FatalHasMarker(lines);
    } else {
      if i :| NullFollowsMarker(lines, i) { assert i != n && NullFollowsMarker(lines[..n], i); }
      if i :| NullFollowsMarker(lines[..n], i) { assert NullFollowsMarker(lines, i) || IsMarker(lines[n]); }
    }
  }

  lemma FatalEarlier(lines: seq<Line>, i: int)
    requires 0 <= i < |lines| - 1
    ensures var n := |lines| - 1;
      NullFollowsMarker(lines, i) <==> !IsMarker(lines[n]) && NullFollowsMarker(lines[..n], i)
  {
    hide HasMarker;
    var n := |lines| - 1;
    assert lines[..n][..i] == lines[..i];
    assert forall j :: 0 <= j < n ==> lines[..n][j] == lines[j];
  }

  lemma FatalHasMarker(lines: seq<Line>)
    requires lines != []
    ensures HasFatalNull(lines) ==> HasMarker(lines[..|lines| - 1])
  {
    var n := |lines| - 1;
    if i :| NullFollowsMarker(lines, i) {
      var m :| 0 <= m < i && IsMarker(lines[..i][m]);
      assert lines[..n][m] == lines[..i][m];
    }
  }

  /***** How a scan ends *****/

  datatype Ending = Skipped(reason: SkipReason) | Aborted | NullThrow | SidecarThrow | SystemThrow | Finished

  /** What may go wrong from outside: an abort, a sidecar that cannot be written, another failing system call. */
  datatype Faults = Faults(abort: bool, sidecar: bool, system: bool)

  /** How a scan ends when nothing goes wrong from outside. */
  function Undisturbed(lockFree: bool, log: Option<seq<Line>>): Ending {
    if !lockFree then Skipped(LockContention)
    else if log.None? || LastBoundary(EventsOf(log.value)) < 0 then Skipped(NoPriorSession)
    else if NullInSession(log.value) then NullThrow
    else Finished
  }

  /** Undisturbed, a scan throws exactly when it reads a log with a null line after its last session marker. */
  lemma NullThrowIff(lockFree: bool, log: Option<seq<Line>>)
    ensures Undisturbed(lockFree, log) == NullThrow
      <==> lockFree && log.Some? && HasFatalNull(log.value)
  {
    if log.Some? { NullInSessionIs(log.value); }
  }

  /** One null line after the marker makes the scan throw; before the marker it does no harm. */
  lemma NullLineThrows(started: Event)
    requires started.name == "daemon.started"
    ensures Undisturbed(true, Some([Logged(started), NullLine])) == NullThrow
    ensures Undisturbed(true, Some([NullLine, Logged(started)])) == Finished
  {
    var bad, good := [Logged(started), NullLine], [NullLine, Logged(started)];
    assert IsMarker(bad[..1][0]) && IsMarker(good[1]);
    assert NullFollowsMarker(bad, 1);
    assert forall i :: !NullFollowsMarker(good, i);
    NullInSessionIs(bad);
    NullInSessionIs(good);
    MarkerIsBoundary(good);
  }

  function CountResumable(orphans: seq<Verdict>): nat {
    if orphans == [] then 0
    else CountResumable(orphans[..|orphans| - 1]) + if orphans[|orphans| - 1].resumable then 1 else 0
  }

  ghost predicate AllRecovery(emitted: seq<Event>) {
    forall e :: e in emitted ==> e.name in RECOVERY_EVENTS
  }

  /** The reports are the dispatched part of the orphans, each with the verdict of the matrix. */
  ghost predicate Dispatched(reports: seq<Verdict>, orphans: seq<Entry>, inbox: set<string>) {
    && |reports| <= |orphans|
    && forall i :: 0 <= i < |reports| ==> reports[i] == Verdict(orphans[i], Resumable(orphans[i], inbox))
  }

  /***** What the scan writes to the log *****/

  /** An event without its time. */
  datatype Note = Note(name: string, docId: Option<string>)

  function Notes(emitted: seq<Event>): seq<Note> {
    seq(|emitted|, i requires 0 <= i < |emitted| => Note(emitted[i].name, emitted[i].docId))
  }

  lemma NotesConcat(a: seq<Event>, b: seq<Event>)
    ensures Notes(a + b) == Notes(a) + Notes(b)
  {
  }

  lemma NotesOne(e: Event)
    ensures Notes([e]) == [Note(e.name, e.docId)]
    ensures Notes([]) == []
  {
  }

  /** One note for every malformed line. */
  function ParseNotes(lines: seq<Line>): seq<Note> {
    if lines == [] then []
    else
      ParseNotes(lines[..|lines| - 1])
      + if lines[|lines| - 1].Malformed? then [Note("recovery.telemetry_parse_failed", None)] else []
  }

  /** The session holds the start of a scan and no completion. */
  ghost predicate Interrupted(w: seq<Event>) {
    (exists e :: e in w && e.name == "recovery.scan_started") && forall e :: e in w ==> e.name != "recovery.scan_completed"
  }

  ghost predicate NoneCompleted(emitted: seq<Event>) {
    forall e :: e in emitted ==> e.name != "recovery.scan_completed"
  }

  ghost function OpeningNotes(w: seq<Event>): seq<Note> {
    (if Interrupted(w) then [Note("recovery.scan_reentry", None)] else []) + [Note("recovery.scan_started", None)]
  }

  /** An orphan is announced, and then its fate; a resumed one without an id goes unmentioned. */
  function VerdictNotes(reports: seq<Verdict>): seq<Note> {
    if reports == [] then []
    else
      var v := reports[|reports| - 1];
      var id := v.entry.docId;
      VerdictNotes(reports[..|reports| - 1]) + [Note("recovery.orphan_found", id)]
      + if !v.resumable then [Note("recovery.aborted", id)]
        else if id == None || id == Some("") then []
        else [Note("recovery.resumed", id)]
  }

  lemma VerdictNotesSnoc(reports: seq<Verdict>, v: Verdict)
    ensures VerdictNotes(reports + [v]) == VerdictNotes(reports) + ([Note("recovery.orphan_found", v.entry.docId)]
      + if !v.resumable then [Note("recovery.aborted", v.entry.docId)]
        else if v.entry.docId == None || v.entry.docId == Some("") then []
        else [Note("recovery.resumed", v.entry.docId)])
  {
    assert (reports + [v])[..|reports|] == reports;
  }

  /** A telemetry event of the scan; the clock is arbitrary. */
  method Emit(name: string, docId: Option<string>) returns (e: Event)
    requires name in RECOVERY_EVENTS
    ensures e.name == name && e.docId == docId
  {
    var now: string := *;
    e := Event(name, Some(now), docId, None);
  }

  /** Whether something that may happen does. */
  method Happens(possible: bool) returns (b: bool)
    ensures b ==> possible
  {
    b := *;
    b := b && possible;
  }

  /** Reads the log line by line; a malformed line is reported and skipped, an abort stops the reading. */
  method ParseLog(lines: seq<Line>, abortable: bool)
    returns (events: seq<Event>, lastNull: Option<nat>, emitted: seq<Event>, aborted: bool)
    ensures AllRecovery(emitted) && NoneCompleted(emitted)
    ensures aborted ==> abortable
    ensures !aborted ==> events == EventsOf(lines) && lastNull == LastNull(lines) && Notes(emitted) == ParseNotes(lines)
  {
    events, lastNull, emitted, aborted := [], None, [], false;
    for i := 0 to |lines|
      invariant AllRecovery(emitted) && NoneCompleted(emitted) && Notes(emitted) == ParseNotes(lines[..i])
      invariant events == EventsOf(lines[..i]) && lastNull == LastNull(lines[..i])
      invariant !aborted
    {
      assert lines[..i + 1][..i] == lines[..i];
      aborted := Happens(abortable);
      if aborted { return; }
      match lines[i]
      case Blank =>
      case Malformed =>
        var e := Emit("recovery.telemetry_parse_failed", None);
        NotesConcat(emitted, [e]);
        emitted := emitted + [e];
      case NullLine =>
        lastNull := Some(|events|);
      case Logged(event) =>
        events := events + [event];
    }
    assert lines[..|lines|] == lines;
  }

  /** Looks backwards for the last daemon start. */
  method FindBoundary(events: seq<Event>) returns (boundary: int)
    ensures boundary == LastBoundary(events)
  {
    var i := |events| - 1;
    assert events[..|events|] == events;
    while i >= 0
      invariant -1 <= i < |events|
      invariant LastBoundary(events) == LastBoundary(events[..i + 1])
    {
      if events[i].name == "daemon.started" {
        return i;
      }
      assert events[..i + 1][..i] == events[..i];
      i := i - 1;
    }
    return -1;
  }

  /** What the two maps hold after a prefix of the window. */
  ghost predicate Tracked(w: seq<Event>, order: seq<Key>, started: map<Key, Entry>, completed: set<Key>) {
    && order == StartKeys(w)
    && (forall k :: k in started <==> k in order)
    && (forall k :: k in started ==> FirstStart(w, k) >= 0 && started[k] == EntryFor(w, k))
    && (forall k :: k in completed <==> Completed(w, k))
  }

  lemma TrackNeutral(w: seq<Event>, e: Event, order: seq<Key>, started: map<Key, Entry>, completed: set<Key>)
    requires Tracked(w, order, started, completed) && StartedStage(e.name).None? && CompletedStage(e.name).None?
    ensures Tracked(w + [e], order, started, completed)
  {
    hide EntryFor, FirstStart, Completed;
    assert (w + [e])[..|w|] == w;
    NeutralCompletes(w, e);
    forall k ensures FirstStart(w + [e], k) == FirstStart(w, k)
      && (FirstStart(w, k) >= 0 ==> EntryFor(w + [e], k) == EntryFor(w, k))
    {
      OtherKeysKeep(w, e, k);
    }
  }

  lemma NeutralCompletes(w: seq<Event>, e: Event)
    requires CompletedStage(e.name).None?
    ensures forall k :: Completed(w + [e], k) == Completed(w, k)
  {
    assert forall x :: x in w + [e] <==> x in w || x == e;
  }

  lemma CompletionSnoc(w: seq<Event>, e: Event)
    requires StartedStage(e.name).None? && CompletedStage(e.name).Some?
    ensures StartKeys(w + [e]) == StartKeys(w)
    ensures forall k :: !Starts(e, k)
    ensures forall k :: Completed(w + [e], k) <==> Completed(w, k) || k == OrphanKey(e.docId, CompletedStage(e.name).value)
  {
    assert (w + [e])[..|w|] == w;
    hide StartKeys;
    assert forall x :: x in w + [e] <==> x in w || x == e;
    assert Completes(e, OrphanKey(e.docId, CompletedStage(e.name).value));
  }

  lemma TrackCompletion(w: seq<Event>, e: Event, order: seq<Key>, started: map<Key, Entry>, completed: set<Key>)
    requires Tracked(w, order, started, completed) && StartedStage(e.name).None? && CompletedStage(e.name).Some?
    ensures Tracked(w + [e], order, started, completed + {OrphanKey(e.docId, CompletedStage(e.name).value)})
  {
    hide EntryFor, FirstStart, StartKeys, Completed, Completes, OrphanKey, StartedStage, CompletedStage;
    CompletionSnoc(w, e);
    forall k ensures FirstStart(w + [e], k) == FirstStart(w, k)
      && (FirstStart(w, k) >= 0 ==> EntryFor(w + [e], k) == EntryFor(w, k))
    {
      OtherKeysKeep(w, e, k);
    }
  }

  /** The entry of a key after one more start of it. */
  function Restarted(prior: Entry, e: Event): Entry {
    var seen := prior.(lastSeenTs := TsOf(e));
    if Named(e) && (prior.inboxFile.None? || prior.inboxFile.value == "") then seen.(inboxFile := InboxName(e)) else seen
  }

  lemma RestartedIs(w: seq<Event>, e: Event, k: Key)
    requires Starts(e, k) && FirstStart(w, k) >= 0
    ensures FirstStart(w + [e], k) >= 0 && EntryFor(w + [e], k) == Restarted(EntryFor(w, k), e)
  {
    assert (w + [e])[..|w|] == w;
    FirstNamedFirst(w, k);
  }

  /** An entry has a usable inbox name exactly when some start of it gave one. */
  lemma {:induction false} FirstNamedFirst(w: seq<Event>, k: Key)
    ensures FirstNamed(w, k) >= 0 ==> Named(w[FirstNamed(w, k)])
    ensures FirstNamed(w, k) < 0 && FirstStart(w, k) >= 0 ==> !Named(w[FirstStart(w, k)])
  {
    if w != [] {
      FirstNamedFirst(w[..|w| - 1], k);
    }
  }

  lemma OtherKeysKeep(w: seq<Event>, e: Event, k: Key)
    requires !Starts(e, k)
    ensures FirstStart(w + [e], k) == FirstStart(w, k)
    ensures FirstStart(w, k) >= 0 ==> EntryFor(w + [e], k) == EntryFor(w, k)
  {
    assert (w + [e])[..|w|] == w;
  }

  lemma StartsOnce(e: Event, key: Key, k: Key)
    requires Starts(e, key) && Starts(e, k)
    ensures k == key
  {
  }

  lemma StartSnoc(w: seq<Event>, e: Event, key: Key)
    requires Starts(e, key)
    ensures StartKeys(w + [e]) == if key in StartKeys(w) then StartKeys(w) else StartKeys(w) + [key]
    ensures forall k :: Completed(w + [e], k) == Completed(w, k)
  {
    assert (w + [e])[..|w|] == w;
    assert CompletedStage(e.name).None?;
    assert forall x :: x in w + [e] <==> x in w || x == e;
  }

  lemma TrackStart(w: seq<Event>, e: Event, order: seq<Key>, started: map<Key, Entry>, completed: set<Key>, key: Key)
    requires Tracked(w, order, started, completed) && Starts(e, key)
    ensures key in started ==> Tracked(w + [e], order, started[key := Restarted(started[key], e)], completed)
    ensures key !in started ==>
      Tracked(w + [e], order + [key],
              started[key := Entry(StartedStage(e.name).value, e.docId, TsOf(e), TsOf(e), InboxName(e))], completed)
  {
    hide EntryFor, Restarted, FirstStart, StartKeys, Completed, Starts, InboxName;
    StartSnoc(w, e, key);
    forall k | k != key && k in started
      ensures FirstStart(w + [e], k) >= 0 && EntryFor(w + [e], k) == started[k]
    {
      if Starts(e, k) { StartsOnce(e, key, k); }
      OtherKeysKeep(w, e, k);
    }
    if key in started {
      RestartedIs(w, e, key);
    } else {
      StartKeysStarted(w);
      FirstEntry(w, e, key);
    }
  }

  lemma FirstEntry(w: seq<Event>, e: Event, key: Key)
    requires Starts(e, key) && FirstStart(w, key) < 0
    ensures FirstStart(w + [e], key) >= 0
    ensures EntryFor(w + [e], key) == Entry(StartedStage(e.name).value, e.docId, TsOf(e), TsOf(e), InboxName(e))
  {
    FirstAtEnd(w, e, key);
    hide FirstStart, LastStart, FirstNamed, OrphanKey, StartedStage, TsOf;
  }

  lemma FirstAtEnd(w: seq<Event>, e: Event, key: Key)
    requires Starts(e, key) && FirstStart(w, key) < 0
    ensures FirstStart(w + [e], key) == |w| && LastStart(w + [e], key) == |w|
    ensures FirstNamed(w + [e], key) == if Named(e) then |w| else -1
  {
    NoStartNoName(w, key);
    hide Starts, Named;
    assert (w + [e])[..|w|] == w;
  }

  lemma {:induction false} NoStartNoName(w: seq<Event>, key: Key)
    requires FirstStart(w, key) < 0
    ensures FirstNamed(w, key) < 0
  {
    if w != [] {
      NoStartNoName(w[..|w| - 1], key);
    }
  }

  /** Another start of a key that has an entry. */
  method SeeAgain(existing: Entry, e: Event, inboxFile: Option<string>) returns (entry: Entry)
    requires inboxFile == InboxName(e)
    ensures entry == Restarted(existing, e)
  {
    entry := existing.(lastSeenTs := TsOf(e));
    if inboxFile.Some? && inboxFile.value != "" && (entry.inboxFile.None? || entry.inboxFile.value == "") {
      entry := entry.(inboxFile := inboxFile);
    }
  }

  /** The pass over the window. */
  method BuildMaps(w: seq<Event>, abortable: bool)
    returns (order: seq<Key>, started: map<Key, Entry>, completed: set<Key>, aborted: bool)
    ensures aborted ==> abortable
    ensures !aborted ==> Tracked(w, order, started, completed)
  {
    order, started, completed, aborted := [], map[], {}, false;
    for i := 0 to |w|
      invariant Tracked(w[..i], order, started, completed)
      invariant !aborted
    {
      hide Tracked, FirstStart, EntryFor, StartKeys, Completed, Restarted, InboxName, TsOf;
      var e := w[i];
      assert w[..i + 1] == w[..i] + [e];
      aborted := Happens(abortable);
      if aborted { return; }
      var startStage := StartedStage(e.name);
      var completedStage := CompletedStage(e.name);
      if startStage.Some? {
        var key := OrphanKey(e.docId, startStage.value);
        TrackStart(w[..i], e, order, started, completed, key);
        var inboxFile := InboxName(e);
        if key !in started {
          started := started[key := Entry(startStage.value, e.docId, TsOf(e), TsOf(e), inboxFile)];
          order := order + [key];
        } else {
          var entry := SeeAgain(started[key], e, inboxFile);
          started := started[key := entry];
        }
      } else if completedStage.Some? {
        TrackCompletion(w[..i], e, order, started, completed);
        completed := completed + {OrphanKey(e.docId, completedStage.value)};
      } else {
        TrackNeutral(w[..i], e, order, started, completed);
      }
    }
    assert w[..|w|] == w;
  }

  lemma EntriesSnoc(w: seq<Event>, keys: seq<Key>, k: Key)
    requires (forall x :: x in keys ==> FirstStart(w, x) >= 0) && FirstStart(w, k) >= 0
    ensures Entries(w, keys + [k]) == Entries(w, keys) + [EntryFor(w, k)]
  {
  }

  lemma OpenKeysStart(w: seq<Event>)
    ensures OpenKeys([], w) == [] && Entries(w, []) == []
  {
  }

  lemma OpenKeysSnoc(keys: seq<Key>, i: nat, w: seq<Event>)
    requires i < |keys|
    ensures OpenKeys(keys[..i + 1], w) == OpenKeys(keys[..i], w) + (if Completed(w, keys[i]) then [] else [keys[i]])
    ensures Completed(w, keys[i]) ==> OpenKeys(keys[..i + 1], w) == OpenKeys(keys[..i], w)
  {
    hide Completed;
    assert keys[..i + 1][..i] == keys[..i];
  }

  /** Started minus completed, in insertion order. */
  method CollectOrphans(w: seq<Event>, order: seq<Key>, started: map<Key, Entry>, completed: set<Key>)
    returns (orphans: seq<Entry>)
    requires Tracked(w, order, started, completed)
    ensures orphans == Orphans(w)
  {
    hide FirstStart, EntryFor, Completed, StartKeys, OpenKeys, Entries;
    orphans := [];
    StartKeysStarted(w);
    OpenKeysStart(w);
    for i := 0 to |order|
      invariant forall k :: k in OpenKeys(order[..i], w) ==> FirstStart(w, k) >= 0
      invariant orphans == Entries(w, OpenKeys(order[..i], w))
    {
      OpenKeysSnoc(order, i, w);
      assert order[i] in order;
      if order[i] !in completed {
        EntriesSnoc(w, OpenKeys(order[..i], w), order[i]);
        orphans := orphans + [started[order[i]]];
      }
    }
    assert order[..|order|] == order;
    OpenKeysOf(order, w);
  }

  lemma ReportsSnoc(reports: seq<Verdict>, orphans: seq<Entry>, inbox: set<string>)
    requires Dispatched(reports, orphans, inbox) && |reports| < |orphans|
    ensures Dispatched(reports + [Verdict(orphans[|reports|], Resumable(orphans[|reports|], inbox))], orphans, inbox)
  {
    hide Resumable;
  }

  /** Each report in words: resumed always after ingest, and after an ingest exactly when its file is there. */
  ghost predicate InWords(w: seq<Event>, reports: seq<Verdict>, inbox: set<string>) {
    && |reports| <= |Orphans(w)|
    && forall i :: 0 <= i < |reports| ==>
         && reports[i].entry == Orphans(w)[i]
         && (reports[i].resumable <==> Orphans(w)[i].stage != IngestStage || FileThere(w, Orphans(w)[i].docId, inbox))
  }

  lemma DispatchedInWords(w: seq<Event>, reports: seq<Verdict>, inbox: set<string>)
    requires Dispatched(reports, Orphans(w), inbox)
    ensures InWords(w, reports, inbox)
    ensures CountResumable(reports) + Lost(w, Orphans(w)[..|reports|], inbox) == |reports|
    ensures |reports| < |Orphans(w)| && !Resumable(Orphans(w)[|reports|], inbox) ==>
      Orphans(w)[|reports|].stage == IngestStage && !FileThere(w, Orphans(w)[|reports|].docId, inbox)
  {
    forall i: nat | i < |Orphans(w)|
      ensures var o := Orphans(w)[i]; Resumable(o, inbox) <==> o.stage != IngestStage || FileThere(w, o.docId, inbox)
    {
      ResumedIff(w, i, inbox);
    }
    hide Orphans, Resumable, FileThere;
    LostCount(w, reports, inbox);
  }

  lemma {:induction false} LostCount(w: seq<Event>, reports: seq<Verdict>, inbox: set<string>)
    requires InWords(w, reports, inbox)
    ensures CountResumable(reports) + Lost(w, Orphans(w)[..|reports|], inbox) == |reports|
  {
    hide Orphans, FileThere;
    if reports != [] {
      var n := |reports| - 1;
      LostCount(w, reports[..n], inbox);
      assert Orphans(w)[..n + 1][..n] == Orphans(w)[..n];
    }
  }

  lemma CountSnoc(reports: seq<Verdict>, last: Verdict)
    ensures CountResumable(reports + [last]) == CountResumable(reports) + (if last.resumable then 1 else 0)
  {
    assert (reports + [last])[..|reports|] == reports;
  }

  lemma NothingNoted()
    ensures Notes([]) == [] && VerdictNotes([]) == []
  {
  }

  /** Routes each orphan through the matrix; `threw` when the sidecar of an unresumable one cannot be written. */
  method Dispatch(orphans: seq<Entry>, inbox: set<string>, faults: Faults)
    returns (reports: seq<Verdict>, resumed: nat, failed: nat, emitted: seq<Event>, aborted: bool, threw: bool)
    ensures AllRecovery(emitted) && NoneCompleted(emitted)
    ensures Dispatched(reports, orphans, inbox)
    ensures resumed + failed == |reports| && resumed == CountResumable(reports)
    ensures !aborted && !threw ==> |reports| == |orphans|
    ensures !threw ==> Notes(emitted) == VerdictNotes(reports)
    ensures aborted ==> faults.abort && !threw
    ensures threw ==> faults.sidecar && |reports| < |orphans| && !Resumable(orphans[|reports|], inbox)
  {
    reports, resumed, failed, emitted, aborted, threw := [], 0, 0, [], false, false;
    assert Dispatched([], orphans, inbox) && CountResumable([]) == 0;
    hide Dispatched, CountResumable, Resumable, Notes, VerdictNotes;
    NothingNoted();
    for i := 0 to |orphans|
      invariant AllRecovery(emitted) && NoneCompleted(emitted) && Notes(emitted) == VerdictNotes(reports)
      invariant |reports| == i && Dispatched(reports, orphans, inbox)
      invariant resumed + failed == i && resumed == CountResumable(reports)
      invariant !aborted && !threw
    {
      aborted := Happens(faults.abort);
      if aborted { return; }
      var orphan := orphans[i];
      var found := Emit("recovery.orphan_found", orphan.docId);
      ghost var before := emitted;
      emitted := emitted + [found];
      NotesConcat(before, [found]);
      NotesOne(found);
      var resumable := Resumable(orphan, inbox);
      VerdictNotesSnoc(reports, Verdict(orphan, resumable));
      if resumable {
        if orphan.docId.Some? && orphan.docId.value != "" {
          var e := Emit("recovery.resumed", orphan.docId);
          NotesConcat(emitted, [e]);
          NotesOne(e);
          emitted := emitted + [e];
        }
        resumed := resumed + 1;
      } else {
        threw := Happens(faults.sidecar);
        if threw { return; }
        var e := Emit("recovery.aborted", orphan.docId);
        NotesConcat(emitted, [e]);
        NotesOne(e);
        emitted := emitted + [e];
        failed := failed + 1;
      }
      ReportsSnoc(reports, orphans, inbox);
      CountSnoc(reports, Verdict(orphan, resumable));
      reports := reports + [Verdict(orphan, resumable)];
    }
  }

  /**
   * A scan of the log as it stands (None when there is no log file). It ends as it would undisturbed, or for
   * one of the faults it is exposed to. A finished scan reports exactly the orphans of the last session, in
   * order, each resumed or failed as the matrix says; whatever it appends to the log are recovery events.
   */
  method RunRecoveryScan(lockFree: bool, log: Option<seq<Line>>, inbox: set<string>, faults: Faults)
    returns (r: ScanResult, emitted: seq<Event>, ending: Ending)
    ensures AllRecovery(emitted)
    ensures r.resumedCount + r.abortedCount == |r.orphans| && r.resumedCount == CountResumable(r.orphans)
    ensures r.aborted <==> ending.Aborted?
    ensures r.skipped == if ending.Skipped? then Some(ending.reason) else None
    ensures ending == Undisturbed(lockFree, log)
         || (ending.Aborted? && faults.abort)
         || (ending.SystemThrow? && faults.system)
         || (ending.SidecarThrow? && faults.sidecar && Undisturbed(lockFree, log).Finished?)
    ensures ending.SidecarThrow? || ending.Finished? ==>
      && log.Some? && LastBoundary(EventsOf(log.value)) >= 0
      && var w := Window(EventsOf(log.value));
         && Dispatched(r.orphans, Orphans(w), inbox) && r.sessionStart == w[0].ts
         && (ending.Finished? ==> |r.orphans| == |Orphans(w)|)
         && (ending.SidecarThrow? ==> |r.orphans| < |Orphans(w)| && !Resumable(Orphans(w)[|r.orphans|], inbox))
    ensures r.orphans != [] ==>
      && log.Some? && LastBoundary(EventsOf(log.value)) >= 0
      && Dispatched(r.orphans, Orphans(Window(EventsOf(log.value))), inbox)
      && InWords(Window(EventsOf(log.value)), r.orphans, inbox)
    ensures ending.Finished? ==>
      var w := Window(EventsOf(log.value)); r.abortedCount == Lost(w, Orphans(w), inbox)
    // what a finished scan appends to the log
    ensures ending.Finished? ==>
      Notes(emitted) == ParseNotes(log.value)
        + (OpeningNotes(Window(EventsOf(log.value))) + (VerdictNotes(r.orphans) + [Note("recovery.scan_completed", None)]))
    // the next scan of the session finds no interrupted one after a finished one; after a scan that threw at a
    // sidecar it does, unless an earlier one of the session was completed
    ensures ending.Finished? ==> !Interrupted(Window(EventsOf(log.value)) + emitted)
    ensures ending.SidecarThrow? ==>
      (Interrupted(Window(EventsOf(log.value)) + emitted) <==> NoneCompleted(Window(EventsOf(log.value))))
  {
    hide Tracked, Orphans, EventsOf, Dispatched, LastBoundary, InWords, Lost, Notes, ParseNotes, VerdictNotes, OpeningNotes;
    r, emitted, ending := EMPTY, [], Finished;
    var stop := Happens(faults.abort);
    if stop {
      var e := Emit("recovery.aborted_scan", None);
      return EMPTY.(aborted := true), [e], Aborted;
    }
    stop := Happens(faults.system);         // the lock file
    if stop { return EMPTY, [], SystemThrow; }
    if !lockFree {
      var e := Emit("recovery.scan_skipped", None);
      return EMPTY.(skipped := Some(LockContention)), [e], Skipped(LockContention);
    }
    if log.None? {
      var e := Emit("recovery.scan_skipped", None);
      return EMPTY.(skipped := Some(NoPriorSession)), [e], Skipped(NoPriorSession);
    }
    var events, lastNull;
    events, lastNull, emitted, stop := ParseLog(log.value, faults.abort);
    if stop {
      var e := Emit("recovery.aborted_scan", None);
      return EMPTY.(aborted := true), emitted + [e], Aborted;
    }
    stop := Happens(faults.system);         // the read stream
    if stop { return EMPTY, emitted, SystemThrow; }
    var boundary := FindBoundary(events);
    if boundary == -1 {
      var e := Emit("recovery.scan_skipped", None);
      return EMPTY.(skipped := Some(NoPriorSession)), emitted + [e], Skipped(NoPriorSession);
    }
    if lastNull.Some? && lastNull.value > boundary {
      var more;
      r, more, ending := MeetNull(events[boundary].ts, faults.abort);
      return r, emitted + more, ending;
    }
    var more;
    r, more, ending := ScanWindow(events[boundary..], inbox, faults);
    NotesConcat(emitted, more);
    emitted := emitted + more;
    NextOpening(events[boundary..], emitted);
  }

  lemma NextOpening(w: seq<Event>, emitted: seq<Event>)
    ensures Notes(emitted) != [] && Notes(emitted)[|Notes(emitted)| - 1].name == "recovery.scan_completed" ==>
      !Interrupted(w + emitted)
    ensures NoneCompleted(emitted) && (exists e :: e in emitted && e.name == "recovery.scan_started") ==>
      (Interrupted(w + emitted) <==> NoneCompleted(w))
  {
    var all := w + emitted;
    assert forall e :: e in all <==> e in w || e in emitted;
    if emitted != [] {
      assert emitted[|emitted| - 1] in all;
    }
  }

  /** The search for a prior scan meets the null line, or else the pass over the window does, unless aborted before. */
  method MeetNull(sessionStart: Option<string>, abortable: bool)
    returns (r: ScanResult, emitted: seq<Event>, ending: Ending)
    ensures AllRecovery(emitted)
    ensures r == EMPTY.(sessionStart := sessionStart, aborted := ending.Aborted?)
    ensures ending.NullThrow? || (ending.Aborted? && abortable)
  {
    r := EMPTY.(sessionStart := sessionStart);
    if * { return r, [], NullThrow; }
    var e := Emit("recovery.scan_started", None);
    emitted := [e];
    var stop := Happens(abortable);
    if stop {
      e := Emit("recovery.aborted_scan", None);
      return r.(aborted := true), emitted + [e], Aborted;
    }
    return r, emitted, NullThrow;
  }

  /** The part of the scan that works on the window of the last session. */
  method ScanWindow(w: seq<Event>, inbox: set<string>, faults: Faults)
    returns (r: ScanResult, emitted: seq<Event>, ending: Ending)
    requires w != []
    ensures AllRecovery(emitted)
    ensures r.resumedCount + r.abortedCount == |r.orphans| && r.resumedCount == CountResumable(r.orphans)
    ensures r.aborted <==> ending.Aborted?
    ensures r.skipped == None && r.sessionStart == w[0].ts
    ensures Dispatched(r.orphans, Orphans(w), inbox)
    ensures ending.Finished? || (ending.Aborted? && faults.abort) || (ending.SidecarThrow? && faults.sidecar)
    ensures ending.Finished? ==> |r.orphans| == |Orphans(w)|
    ensures ending.SidecarThrow? ==> |r.orphans| < |Orphans(w)| && !Resumable(Orphans(w)[|r.orphans|], inbox)
    ensures InWords(w, r.orphans, inbox)
    ensures ending.Finished? ==> r.abortedCount == Lost(w, Orphans(w), inbox)
    ensures ending.Finished? ==>
      Notes(emitted) == OpeningNotes(w) + (VerdictNotes(r.orphans) + [Note("recovery.scan_completed", None)])
    ensures ending.SidecarThrow? ==>
      NoneCompleted(emitted) && exists e :: e in emitted && e.name == "recovery.scan_started"
  {
    NothingReported(w, inbox);
    hide *;
    r := EMPTY.(sessionStart := w[0].ts);
    emitted := Announce(w);
    var orphans, aborted := FindOrphans(w, faults.abort);
    var more;
    if aborted {
      more := Closing(true);
      return r.(aborted := true), emitted + more, Aborted;
    }
    r, more, ending := RouteOrphans(w, orphans, inbox, faults);
    NotesConcat(emitted, more);
    emitted := emitted + more;
  }

  lemma NothingReported(w: seq<Event>, inbox: set<string>)
    ensures InWords(w, [], inbox) && Dispatched([], Orphans(w), inbox) && CountResumable([]) == 0
    ensures EMPTY == ScanResult(None, false, [], 0, 0, None)
    ensures forall a: seq<Event>, b: seq<Event> :: AllRecovery(a) && AllRecovery(b) ==> AllRecovery(a + b)
    ensures forall a: seq<Event>, b: seq<Event> :: NoneCompleted(a) && NoneCompleted(b) ==> NoneCompleted(a + b)
  {
  }

  /** The events before the pass over the window: a scan that was broken off earlier, and the start of this one. */
  method Announce(w: seq<Event>) returns (emitted: seq<Event>)
    ensures AllRecovery(emitted) && NoneCompleted(emitted) && Notes(emitted) == OpeningNotes(w)
    ensures exists e :: e in emitted && e.name == "recovery.scan_started"
  {
    emitted := [];
    if (exists e :: e in w && e.name == "recovery.scan_started")
       && !(exists e :: e in w && e.name == "recovery.scan_completed") {
      var e := Emit("recovery.scan_reentry", None);
      emitted := emitted + [e];
    }
    var begun := Emit("recovery.scan_started", None);
    emitted := emitted + [begun];
  }

  method Closing(aborted: bool) returns (emitted: seq<Event>)
    ensures AllRecovery(emitted)
    ensures Notes(emitted) == [Note(if aborted then "recovery.aborted_scan" else "recovery.scan_completed", None)]
  {
    var e := Emit(if aborted then "recovery.aborted_scan" else "recovery.scan_completed", None);
    return [e];
  }

  method FindOrphans(w: seq<Event>, abortable: bool) returns (orphans: seq<Entry>, aborted: bool)
    ensures aborted ==> abortable
    ensures !aborted ==> orphans == Orphans(w)
  {
    hide *;
    orphans := [];
    var order, started, completed;
    order, started, completed, aborted := BuildMaps(w, abortable);
    if !aborted { orphans := CollectOrphans(w, order, started, completed); }
  }

  /** The dispatch of the orphans, and the scan's last event. */
  method RouteOrphans(w: seq<Event>, orphans: seq<Entry>, inbox: set<string>, faults: Faults)
    returns (r: ScanResult, emitted: seq<Event>, ending: Ending)
    requires w != [] && orphans == Orphans(w)
    ensures AllRecovery(emitted)
    ensures r.resumedCount + r.abortedCount == |r.orphans| && r.resumedCount == CountResumable(r.orphans)
    ensures r.aborted <==> ending.Aborted?
    ensures r.skipped == None && r.sessionStart == w[0].ts
    ensures Dispatched(r.orphans, Orphans(w), inbox) && InWords(w, r.orphans, inbox)
    ensures ending.Finished? || (ending.Aborted? && faults.abort) || (ending.SidecarThrow? && faults.sidecar)
    ensures ending.Finished? ==> |r.orphans| == |Orphans(w)| && r.abortedCount == Lost(w, Orphans(w), inbox)
    ensures ending.SidecarThrow? ==> |r.orphans| < |Orphans(w)| && !Resumable(Orphans(w)[|r.orphans|], inbox)
    ensures ending.Finished? ==> Notes(emitted) == VerdictNotes(r.orphans) + [Note("recovery.scan_completed", None)]
    ensures ending.SidecarThrow? ==> NoneCompleted(emitted)
  {
    NothingReported(w, inbox);
    hide *;
    var reports, resumed, failed, aborted, threw;
    reports, resumed, failed, emitted, aborted, threw := Dispatch(orphans, inbox, faults);
    DispatchedInWords(w, reports, inbox);
    assert |reports| == |orphans| ==> Orphans(w)[..|reports|] == Orphans(w);
    r := EMPTY.(sessionStart := w[0].ts, aborted := aborted, orphans := reports, resumedCount := resumed, abortedCount := failed);
    if threw { return r, emitted, SidecarThrow; }
    var last := Closing(aborted);
    NotesConcat(emitted, last);
    return r, emitted + last, if aborted then Aborted else Finished;
  }

  function AsLines(emitted: seq<Event>): seq<Line> {
    seq(|emitted|, i requires 0 <= i < |emitted| => Logged(emitted[i]))
  }

  lemma {:induction false} EventsAppended(lines: seq<Line>, emitted: seq<Event>)
    ensures EventsOf(lines + AsLines(emitted)) == EventsOf(lines) + emitted
  {
    var log := lines + AsLines(emitted);
    if emitted == [] {
      assert log == lines;
    } else {
      var before := emitted[..|emitted| - 1];
      assert log[..|log| - 1] == lines + AsLines(before);
      EventsAppended(lines, before);
      assert EventsOf(lines) + emitted == EventsOf(lines) + before + [emitted[|emitted| - 1]];
    }
  }

  /** The log extended by everything one scan appended yields the same session and the same orphans. */
  lemma RescanOfTheLog(lines: seq<Line>, emitted: seq<Event>)
    requires AllRecovery(emitted) && LastBoundary(EventsOf(lines)) >= 0
    ensures var again := EventsOf(lines + AsLines(emitted));
      && LastBoundary(again) == LastBoundary(EventsOf(lines))
      && Orphans(Window(again)) == Orphans(Window(EventsOf(lines)))
  {
    EventsAppended(lines, emitted);
    RescanFindsTheSame(EventsOf(lines), emitted);
  }
}
