/**
 * The engagement report: events of a time window aggregated by request, latency percentiles over the
 * reals, the verdict, and the schema every emitted report has to meet.
 */
module EngagementReport {
  import opened Wrappers

  datatype Tier = Hybrid | Bm25Only | CatalogGrep | FsGrep

  datatype Event =
    | Find(timestamp: string, requestId: string, queryHash: string, resultCount: nat, tierUsed: Tier, duration: nat)
    | Acceptance(timestamp: string, requestId: string)

  datatype Aggregate = Aggregate(
    queries: nat, acceptances: nat, median: Option<real>, p95: Option<real>,
    tiers: map<Tier, nat>, zeroResults: nat, distinctHashes: nat)

  datatype Verdict = Verdict(thresholdMet: bool, killSignal: bool, pass: bool)

  datatype Report = Report(since: string, until: string, aggregate: Aggregate, verdict: Verdict, parseErrors: nat)

  /** A log line: empty, not JSON, of another kind, an engagement event its schema rejects, or an accepted one. */
  datatype LogLine = Empty | NotJson | Unrelated | Rejected | Recorded(event: Event)

  datatype ReportError = BadSince | BadUntil | Reversed | BadArguments | ScanFailed | SchemaViolation

  /** The arguments of the command after its defaults are filled in; None is a timeout that is not a number. */
  datatype Arguments = Arguments(since: string, until: string, format: string, logPath: string, timeout: Option<int>)

  /***** Timestamps are compared as strings *****/

  predicate Less(a: string, b: string) {
    b != [] && (a == [] || a[0] < b[0] || (a[0] == b[0] && Less(a[1..], b[1..])))
  }

  predicate AtMost(a: string, b: string) {
    a == b || Less(a, b)
  }

  lemma {:induction false} Compared(a: string, b: string)
    ensures AtMost(a, b) <==> !Less(b, a)
  {
    if a != [] && b != [] && a[0] == b[0] {
      Compared(a[1..], b[1..]);
      assert a == [a[0]] + a[1..] && b == [b[0]] + b[1..];
    } else {
      assert a != [] && b != [] ==> a[0] != b[0];
    }
  }

  /** The order is the lexicographic one: at the first difference the smaller character decides, or the end. */
  lemma {:induction false} LessIs(a: string, b: string)
    ensures Less(a, b) <==>
      exists k :: 0 <= k < |b| && k <= |a| && a[..k] == b[..k] && (k == |a| || a[k] < b[k])
  {
    if a != [] && b != [] && a[0] == b[0] {
      var x, y := a[1..], b[1..];
      LessIs(x, y);
      if Less(a, b) {
        var k :| 0 <= k < |y| && k <= |x| && x[..k] == y[..k] && (k == |x| || x[k] < y[k]);
        assert a[..k + 1] == [a[0]] + x[..k] && b[..k + 1] == [b[0]] + y[..k];
        assert k + 1 == |a| || a[k + 1] < b[k + 1];
      }
      forall k | 0 <= k < |b| && k <= |a| && a[..k] == b[..k] && (k == |a| || a[k] < b[k]) ensures Less(a, b) {
        assert k > 0;
        assert x[..k - 1] == a[..k][1..] && y[..k - 1] == b[..k][1..];
        assert k - 1 == |x| || x[k - 1] < y[k - 1];
      }
    } else {
      assert a[..0] == b[..0];
      forall k | 0 < k <= |a| && k <= |b| ensures a[..k] != b[..k] {
        assert a[..k][0] == a[0] && b[..k][0] == b[0];
      }
    }
  }

  /***** Well-formed timestamps *****/

  predicate Digits(s: string) {
    forall c :: c in s ==> '0' <= c <= '9'
  }

  /** `Z`, or a sign, two digits, a colon and two digits. */
  predicate Zone(s: string) {
    || s == "Z"
    || (|s| == 6 && (s[0] == '+' || s[0] == '-') && Digits(s[1..3]) && s[3] == ':' && Digits(s[4..]))
  }

  /** A point, at least one digit, and the zone. */
  predicate FractionAndZone(s: string) {
    s != "" && s[0] == '.' && exists k :: 2 <= k <= |s| && Digits(s[1..k]) && Zone(s[k..])
  }

  /** `YYYY-MM-DDThh:mm:ss`, an optional fraction, and the zone; the digits are not checked to be a date. */
  predicate WellFormed(s: string) {
    && |s| >= 20
    && Digits(s[..4]) && s[4] == '-' && Digits(s[5..7]) && s[7] == '-' && Digits(s[8..10])
    && s[10] == 'T' && Digits(s[11..13]) && s[13] == ':' && Digits(s[14..16]) && s[16] == ':' && Digits(s[17..19])
    && (Zone(s[19..]) || FractionAndZone(s[19..]))
  }

  /** A text cut at the places of a timestamp is one if the pieces are digits and the rest is `Z`, an offset, or a fraction and either. */
  lemma WellFormedText(year: string, month: string, day: string, hour: string, minute: string, second: string, rest: string)
    requires |year| == 4 && |month| == |day| == |hour| == |minute| == |second| == 2
    ensures var s := year + "-" + month + "-" + day + "T" + hour + ":" + minute + ":" + second + rest;
      WellFormed(s) <==>
        && (forall c :: c in year + month + day + hour + minute + second ==> '0' <= c <= '9')
        && (Zone(rest) || FractionAndZone(rest))
  {
    var s := year + "-" + month + "-" + day + "T" + hour + ":" + minute + ":" + second + rest;
    hide Zone, FractionAndZone;
    assert s[..4] == year && s[5..7] == month && s[8..10] == day;
    assert s[11..13] == hour && s[14..16] == minute && s[17..19] == second && s[19..] == rest;
    assert s[4] == '-' && s[7] == '-' && s[10] == 'T' && s[13] == ':' && s[16] == ':';
    EmptyZone();
    assert |s| >= 20 || rest == "";
    DigitsConcat(year, month);
    DigitsConcat(year + month, day);
    DigitsConcat(year + month + day, hour);
    DigitsConcat(year + month + day + hour, minute);
    DigitsConcat(year + month + day + hour + minute, second);
  }

  lemma DigitsConcat(a: string, b: string)
    ensures Digits(a + b) <==> Digits(a) && Digits(b)
    ensures Digits(a + b) <==> forall c :: c in a + b ==> '0' <= c <= '9'
  {
    forall c | c in a || c in b ensures c in a + b {}
  }

  lemma EmptyZone()
    ensures !Zone("") && !FractionAndZone("")
  {
  }

  /** What may follow the seconds: `Z` or a signed offset, after an optional fraction of at least one digit. */
  lemma ZoneText(sign: char, hours: string, minutes: string, fraction: string)
    requires |hours| == |minutes| == 2
    ensures Zone("Z") && !Zone("") && !FractionAndZone("." + "Z")
    ensures Zone([sign] + hours + ":" + minutes) <==>
      (sign == '+' || sign == '-') && forall c :: c in hours + minutes ==> '0' <= c <= '9'
    ensures fraction != "" && (forall c :: c in fraction ==> '0' <= c <= '9') ==> FractionAndZone("." + fraction + "Z")
  {
    var s, t := [sign] + hours + ":" + minutes, "." + fraction + "Z";
    assert s[1..3] == hours && s[4..] == minutes && s[3] == ':' && s[0] == sign;
    assert |s| == 6 && s != "Z";
    DigitsConcat(hours, minutes);
    var k := 1 + |fraction|;
    assert t[1..k] == fraction && t[k..] == "Z";
  }

  /** What the parser accepts: two well-formed timestamps in order, a known format, a log path, a timeout in range. */
  predicate Accepted(a: Arguments) {
    && WellFormed(a.since) && WellFormed(a.until) && AtMost(a.since, a.until)
    && (a.format == "text" || a.format == "json") && a.logPath != ""
    && a.timeout.Some? && 1 <= a.timeout.value <= 600000
  }

  method ParseArguments(a: Arguments) returns (error: Option<ReportError>)
    ensures error.None? <==> Accepted(a)
    ensures error == Some(BadSince) <==> !WellFormed(a.since)
    ensures error == Some(BadUntil) <==> WellFormed(a.since) && !WellFormed(a.until)
    ensures error == Some(Reversed) <==> WellFormed(a.since) && WellFormed(a.until) && Less(a.until, a.since)
    ensures error.Some? ==> error.value != ScanFailed && error.value != SchemaViolation
  {
    Compared(a.since, a.until);
    if !WellFormed(a.since) { return Some(BadSince); }
    if !WellFormed(a.until) { return Some(BadUntil); }
    if Less(a.until, a.since) { return Some(Reversed); }
    if a.format != "text" && a.format != "json" { return Some(BadArguments); }
    if a.logPath == "" || a.timeout.None? || !(1 <= a.timeout.value <= 600000) { return Some(BadArguments); }
    return None;
  }

  /** The events of the window, in the order of the lines. */
  function InWindow(lines: seq<LogLine>, since: string, until: string): seq<Event> {
    if lines == [] then []
    else
      var n := |lines| - 1;
      InWindow(lines[..n], since, until)
      + if lines[n].Recorded? && AtMost(since, lines[n].event.timestamp) && AtMost(lines[n].event.timestamp, until)
        then [lines[n].event] else []
  }

  /** The lines that are not JSON or whose event the schema rejects, inside the window or not. */
  function BadLines(lines: seq<LogLine>): nat {
    if lines == [] then 0
    else BadLines(lines[..|lines| - 1]) + if lines[|lines| - 1].NotJson? || lines[|lines| - 1].Rejected? then 1 else 0
  }

  /** An event is looked at exactly when its line is well-formed and its timestamp lies in the window. */
  lemma {:induction false} InWindowIs(lines: seq<LogLine>, since: string, until: string, e: Event)
    ensures e in InWindow(lines, since, until)
      <==> Recorded(e) in lines && AtMost(since, e.timestamp) && AtMost(e.timestamp, until)
    ensures |InWindow(lines, since, until)| + BadLines(lines) <= |lines|
  {
    if lines != [] {
      var n := |lines| - 1;
      InWindowIs(lines[..n], since, until, e);
      hide AtMost;
      assert lines == lines[..n] + [lines[n]];
    }
  }

  lemma {:induction false} BadLinesCount(lines: seq<LogLine>)
    ensures BadLines(lines) == multiset(lines)[NotJson] + multiset(lines)[Rejected]
  {
    if lines != [] {
      var n := |lines| - 1;
      BadLinesCount(lines[..n]);
      assert lines == lines[..n] + [lines[n]];
    }
  }

  /***** One event per request *****/

  function FindIds(events: seq<Event>): set<string> {
    set e | e in events && e.Find? :: e.requestId
  }

  function AcceptedIds(events: seq<Event>): set<string> {
    set e | e in events && e.Acceptance? :: e.requestId
  }

  /** For each request its first find, in order of appearance. */
  function Finds(events: seq<Event>): seq<Event> {
    if events == [] then []
    else
      var n := |events| - 1;
      Finds(events[..n])
      + if events[n].Find? && events[n].requestId !in FindIds(events[..n]) then [events[n]] else []
  }

  /** Event `i` is the first find of its request. */
  ghost predicate FirstFind(events: seq<Event>, i: int) {
    && 0 <= i < |events| && events[i].Find?
    && forall j :: 0 <= j < i && events[j].Find? ==> events[j].requestId != events[i].requestId
  }

  ghost predicate DistinctRequests(finds: seq<Event>) {
    forall i, j :: 0 <= i < j < |finds| ==> finds[i].requestId != finds[j].requestId
  }

  lemma IdsSnoc(events: seq<Event>, e: Event)
    ensures FindIds(events + [e]) == FindIds(events) + if e.Find? then {e.requestId} else {}
    ensures AcceptedIds(events + [e]) == AcceptedIds(events) + if e.Acceptance? then {e.requestId} else {}
  {
    assert forall x :: x in events + [e] <==> x in events || x == e;
  }

  /** The finds that are kept: exactly the first one of each request, each request once. */
  lemma FindsAreFirsts(events: seq<Event>)
    ensures DistinctRequests(Finds(events))
    ensures forall f :: f in Finds(events) <==> exists i :: FirstFind(events, i) && events[i] == f
    ensures |Finds(events)| == |FindIds(events)|
  {
    KeptAreFirsts(events);
    KeptOnce(events);
  }

  lemma {:induction false} KeptAreFirsts(events: seq<Event>)
    ensures forall f :: f in Finds(events) <==> exists i :: FirstFind(events, i) && events[i] == f
  {
    if events != [] {
      var n := |events| - 1;
      var head, e := events[..n], events[n];
      KeptAreFirsts(head);
      FirstFindSnoc(head, e);
      assert head + [e] == events;
      hide FirstFind;
      forall f ensures f in Finds(events) <==> exists i :: FirstFind(events, i) && events[i] == f {
        KeptSnoc(head, e, f);
      }
    }
  }

  lemma KeptSnoc(head: seq<Event>, e: Event, f: Event)
    ensures (exists i :: FirstFind(head + [e], i) && (head + [e])[i] == f)
       <==> (exists i :: FirstFind(head, i) && head[i] == f) || (f == e && e.Find? && e.requestId !in FindIds(head))
  {
    var events := head + [e];
    FirstFindSnoc(head, e);
    if i :| FirstFind(head, i) && head[i] == f {
      assert FirstFind(events, i) && events[i] == f;
    }
    if i :| FirstFind(events, i) && events[i] == f {
      assert i < |head| ==> FirstFind(head, i) && head[i] == f;
    }
    assert events[|head|] == e;
  }

  /** Finds of different requests, all from `ids` and as many. */
  ghost predicate OneEach(finds: seq<Event>, ids: set<string>) {
    && DistinctRequests(finds)
    && (forall f :: f in finds ==> f.Find? && f.requestId in ids)
    && |finds| == |ids|
  }

  lemma {:induction false} KeptOnce(events: seq<Event>)
    ensures OneEach(Finds(events), FindIds(events))
  {
    if events == [] {
      NothingYet();
    } else {
      var n := |events| - 1;
      hide FindIds, Finds, OneEach;
      KeptOnce(events[..n]);
      KeepNext(events[..n], events[n]);
      assert events[..n] + [events[n]] == events;
    }
  }

  lemma KeepNext(events: seq<Event>, e: Event)
    requires OneEach(Finds(events), FindIds(events))
    ensures OneEach(Finds(events + [e]), FindIds(events + [e]))
  {
    hide FindIds, Finds, OneEach;
    IdsSnoc(events, e);
    FindsSnoc(events, e);
    assert FindIds(events) + {} == FindIds(events);
    if e.Find? { AddRequest(Finds(events), FindIds(events), e); }
  }

  lemma AddRequest(finds: seq<Event>, ids: set<string>, e: Event)
    requires OneEach(finds, ids) && e.Find?
    ensures e.requestId !in ids ==> OneEach(finds + [e], ids + {e.requestId})
    ensures e.requestId in ids ==> ids + {e.requestId} == ids
  {
    var more := finds + [e];
    assert forall i :: 0 <= i < |finds| ==> finds[i] in finds;
  }

  lemma FindsSnoc(events: seq<Event>, e: Event)
    ensures Finds(events + [e])
         == if e.Find? && e.requestId !in FindIds(events) then Finds(events) + [e] else Finds(events)
  {
    assert (events + [e])[..|events|] == events;
  }

  lemma FirstFindSnoc(events: seq<Event>, e: Event)
    ensures forall i: nat :: i < |events| ==> (FirstFind(events + [e], i) <==> FirstFind(events, i))
    ensures FirstFind(events + [e], |events|) <==> e.Find? && e.requestId !in FindIds(events)
  {
    var more := events + [e];
    assert forall j :: 0 <= j < |events| ==> more[j] == events[j];
    forall i: nat | i < |events| ensures FirstFind(more, i) <==> FirstFind(events, i) {
    }
    if e.Find? && e.requestId in FindIds(events) {
      var x :| x in events && x.Find? && x.requestId == e.requestId;
      var j :| 0 <= j < |events| && events[j] == x;
      assert more[j].Find?;
    }
    if e.Find? && e.requestId !in FindIds(events) {
      forall j | 0 <= j < |events| && more[j].Find? ensures more[j].requestId != e.requestId {
        assert events[j] in events;
      }
    }
  }

  /***** Percentiles *****/

  ghost predicate Ascending(s: seq<real>) {
    forall i, j :: 0 <= i <= j < |s| ==> s[i] <= s[j]
  }

  function Insert(x: real, s: seq<real>): seq<real> {
    if s == [] || x <= s[0] then [x] + s else [s[0]] + Insert(x, s[1..])
  }

  function Sorted(s: seq<real>): seq<real> {
    if s == [] then [] else Insert(s[0], Sorted(s[1..]))
  }

  lemma {:induction false} InsertIs(x: real, s: seq<real>)
    ensures multiset(Insert(x, s)) == multiset(s) + multiset{x}
  {
    if s != [] && x > s[0] {
      InsertIs(x, s[1..]);
      assert s == [s[0]] + s[1..];
    }
  }

  lemma {:induction false} InsertAscends(x: real, s: seq<real>)
    requires Ascending(s)
    ensures Ascending(Insert(x, s))
  {
    if s != [] && x > s[0] {
      InsertAscends(x, s[1..]);
      InsertIs(x, s[1..]);
      var t := Insert(x, s[1..]);
      forall i | 0 <= i < |t| ensures s[0] <= t[i] {
        assert t[i] in multiset(t);
      }
    }
  }

  lemma {:induction false} SortedIs(s: seq<real>)
    ensures Ascending(Sorted(s)) && multiset(Sorted(s)) == multiset(s) && |Sorted(s)| == |s|
  {
    if s != [] {
      SortedIs(s[1..]);
      InsertIs(s[0], Sorted(s[1..]));
      InsertAscends(s[0], Sorted(s[1..]));
      assert s == [s[0]] + s[1..];
    }
    assert |multiset(Sorted(s))| == |Sorted(s)| && |multiset(s)| == |s|;
  }

  function Ceil(x: real): int {
    if x == x.Floor as real then x.Floor else x.Floor + 1
  }

  /** The straight line between neighbouring samples, read at position `rank`. */
  function Interpolated(s: seq<real>, rank: real): real
    requires 0.0 <= rank <= (|s| - 1) as real
  {
    var lo, hi := rank.Floor, Ceil(rank);
    if lo == hi then s[lo]
    else
      var frac := rank - lo as real;
      s[lo] * (1.0 - frac) + s[hi] * frac
  }

  function Rank(p: real, n: nat): (r: real)
    requires 0.0 <= p <= 100.0 && n > 0
    ensures 0.0 <= r <= (n - 1) as real
  {
    RankRange(p, n);
    Times(p / 100.0, (n - 1) as real)
  }

  function Times(a: real, b: real): real {
    a * b
  }

  lemma RankRange(p: real, n: nat)
    requires 0.0 <= p <= 100.0 && n > 0
    ensures 0.0 <= Times(p / 100.0, (n - 1) as real) <= (n - 1) as real
  {
    Scaled(p / 100.0, 1.0, (n - 1) as real);
    Scaled(0.0, p / 100.0, (n - 1) as real);
  }

  lemma RankRises(p: real, q: real, n: nat)
    requires 0.0 <= p <= q <= 100.0 && n > 0
    ensures Rank(p, n) <= Rank(q, n)
  {
    hide Times;
    TimesRises(p / 100.0, q / 100.0, (n - 1) as real);
  }

  lemma TimesRises(a: real, b: real, c: real)
    requires a <= b && 0.0 <= c
    ensures Times(a, c) <= Times(b, c)
  {
    Scaled(a, b, c);
  }

  lemma Scaled(a: real, b: real, c: real)
    requires a <= b && 0.0 <= c
    ensures a * c <= b * c
  {
  }

  function Percentile(s: seq<real>, p: real): real
    requires 0.0 <= p <= 100.0
  {
    if |s| == 0 then 0.0 else if |s| == 1 then s[0] else Interpolated(s, Rank(p, |s|))
  }

  /** Within one segment the line lies between its ends, and rises. */
  lemma SegmentRises(a: real, b: real, x: real, y: real)
    requires a <= b && 0.0 <= x <= y <= 1.0
    ensures a <= a * (1.0 - x) + b * x <= a * (1.0 - y) + b * y <= b
  {
    Scaled(x, y, b - a);
    Scaled(0.0, x, b - a);
    Scaled(y, 1.0, b - a);
    assert a * (1.0 - x) + b * x == a + x * (b - a);
    assert a * (1.0 - y) + b * y == a + y * (b - a);
  }

  /** A position lies in a segment, between the samples at its ends. */
  lemma InSegment(s: seq<real>, rank: real)
    requires Ascending(s) && 0.0 <= rank <= (|s| - 1) as real
    ensures s[rank.Floor] <= Interpolated(s, rank)
    ensures rank.Floor + 1 < |s| ==> Interpolated(s, rank) <= s[rank.Floor + 1]
    ensures rank.Floor + 1 == |s| ==> Interpolated(s, rank) == s[rank.Floor]
  {
    var lo := rank.Floor;
    if lo as real != rank {
      SegmentRises(s[lo], s[lo + 1], rank - lo as real, rank - lo as real);
    }
  }

  lemma InterpolatedRises(s: seq<real>, x: real, y: real)
    requires Ascending(s) && 0.0 <= x <= y <= (|s| - 1) as real
    ensures Interpolated(s, x) <= Interpolated(s, y)
  {
    InSegment(s, x);
    InSegment(s, y);
    var lo := x.Floor;
    if lo == y.Floor && lo as real != y {
      SegmentRises(s[lo], s[lo + 1], x - lo as real, y - lo as real);
    }
  }

  /** The percentile never falls as `p` grows, and stays between the least and the greatest sample. */
  lemma PercentileRises(s: seq<real>, p: real, q: real)
    requires s != [] && Ascending(s) && 0.0 <= p <= q <= 100.0
    ensures s[0] <= Percentile(s, p) <= Percentile(s, q) <= s[|s| - 1]
  {
    if |s| > 1 {
      var n := |s|;
      RankRises(p, q, n);
      InterpolatedRises(s, Rank(p, n), Rank(q, n));
      InterpolatedRises(s, 0.0, Rank(p, n));
      InterpolatedRises(s, Rank(q, n), (n - 1) as real);
    }
  }

  /** It passes through every sample: `i` of `n - 1` steps up is sample `i`. */
  lemma PercentileAtSample(s: seq<real>, i: nat)
    requires i < |s| && |s| > 1
    ensures var p := 100.0 * i as real / (|s| - 1) as real;
      0.0 <= p <= 100.0 && Percentile(s, p) == s[i]
  {
    var m := (|s| - 1) as real;
    var f := i as real / m;
    assert f * m == i as real;
    var p := 100.0 * i as real / m;
    assert p == 100.0 * f;
    assert 0.0 <= f <= 1.0;
    assert p / 100.0 == f;
    assert Rank(p, |s|) == i as real;
  }

  /***** The aggregate *****/

  function Durations(finds: seq<Event>): seq<real>
    requires forall f :: f in finds ==> f.Find?
  {
    seq(|finds|, i requires 0 <= i < |finds| => assert finds[i] in finds; finds[i].duration as real)
  }

  function TierCount(finds: seq<Event>, t: Tier): nat {
    if finds == [] then 0
    else TierCount(finds[..|finds| - 1], t) + (if finds[|finds| - 1].Find? && finds[|finds| - 1].tierUsed == t then 1 else 0)
  }

  function ZeroCount(finds: seq<Event>): nat {
    if finds == [] then 0
    else ZeroCount(finds[..|finds| - 1]) + (if finds[|finds| - 1].Find? && finds[|finds| - 1].resultCount == 0 then 1 else 0)
  }

  function Hashes(finds: seq<Event>): set<string> {
    set f | f in finds && f.Find? :: f.queryHash
  }

  function Tiers(finds: seq<Event>): map<Tier, nat> {
    map[Hybrid := TierCount(finds, Hybrid), Bm25Only := TierCount(finds, Bm25Only),
        CatalogGrep := TierCount(finds, CatalogGrep), FsGrep := TierCount(finds, FsGrep)]
  }

  lemma {:induction false} OnlyFinds(events: seq<Event>)
    ensures forall f :: f in Finds(events) ==> f.Find?
  {
    if events != [] { OnlyFinds(events[..|events| - 1]); }
  }

  function AggregateOf(events: seq<Event>): Aggregate {
    OnlyFinds(events);
    var finds := Finds(events);
    var sorted := Sorted(Durations(finds));
    Aggregate(|finds|, |AcceptedIds(events)|,
              if finds == [] then None else Some(Percentile(sorted, 50.0)),
              if finds == [] then None else Some(Percentile(sorted, 95.0)),
              Tiers(finds), ZeroCount(finds), |Hashes(finds)|)
  }

  lemma NothingYet()
    ensures Finds([]) == [] && FindIds([]) == {} && AcceptedIds([]) == {}
  {
  }

  method AggregateReport(events: seq<Event>) returns (r: Aggregate)
    ensures r == AggregateOf(events)
  {
    hide Finds, FindIds, AcceptedIds, Tiers, ZeroCount, Hashes, Sorted, Durations, Percentile;
    var finds, accepted := FirstEvents(events);
    OnlyFinds(events);
    var median, p95 := None, None;
    if |finds| > 0 {
      var sorted := Sorted(Durations(finds));
      median, p95 := Some(Percentile(sorted, 50.0)), Some(Percentile(sorted, 95.0));
    }
    var tiers, zero, hashes := CountFinds(finds);
    r := Aggregate(|finds|, |accepted|, median, p95, tiers, zero, |hashes|);
  }

  /** The first find of every request, and the accepted requests. */
  method FirstEvents(events: seq<Event>) returns (finds: seq<Event>, accepted: set<string>)
    ensures finds == Finds(events) && accepted == AcceptedIds(events)
  {
    var seen: set<string> := {};
    finds, accepted := [], {};
    assert events[..0] == [];
    NothingYet();
    hide Finds, FindIds, AcceptedIds;
    for i := 0 to |events|
      invariant finds == Finds(events[..i]) && seen == FindIds(events[..i]) && accepted == AcceptedIds(events[..i])
    {
      var e := events[i];
      EventRead(events, i);
      if e.Find? {
        if e.requestId !in seen {
          finds, seen := finds + [e], seen + {e.requestId};
        }
      } else if e.requestId !in accepted {
        accepted := accepted + {e.requestId};
      }
    }
    assert events[..|events|] == events;
  }

  lemma EventRead(events: seq<Event>, i: nat)
    requires i < |events|
    ensures var head, more, e := events[..i], events[..i + 1], events[i];
      && Finds(more) == (if e.Find? && e.requestId !in FindIds(head) then Finds(head) + [e] else Finds(head))
      && FindIds(more) == (if e.Find? then FindIds(head) + {e.requestId} else FindIds(head))
      && AcceptedIds(more) == (if e.Acceptance? then AcceptedIds(head) + {e.requestId} else AcceptedIds(head))
  {
    hide Finds, FindIds, AcceptedIds;
    assert events[..i + 1] == events[..i] + [events[i]];
    IdsSnoc(events[..i], events[i]);
    FindsSnoc(events[..i], events[i]);
  }

  /** The three counts over the kept finds. */
  method CountFinds(finds: seq<Event>) returns (tiers: map<Tier, nat>, zero: nat, hashes: set<string>)
    requires forall f :: f in finds ==> f.Find?
    ensures tiers == Tiers(finds) && zero == ZeroCount(finds) && hashes == Hashes(finds)
  {
    hide TierCount, Tiers, Hashes;
    NothingCounted();
    tiers, zero, hashes := map[Hybrid := 0, Bm25Only := 0, CatalogGrep := 0, FsGrep := 0], 0, {};
    for i := 0 to |finds|
      invariant tiers == Tiers(finds[..i]) && (forall t: Tier :: t in tiers)
      invariant zero == ZeroCount(finds[..i]) && hashes == Hashes(finds[..i])
    {
      var f := finds[i];
      assert f in finds;
      assert finds[..i + 1] == finds[..i] + [f] && finds[..i + 1][..i] == finds[..i];
      HashesSnoc(finds[..i], f);
      TiersSnoc(finds[..i], f);
      tiers := tiers[f.tierUsed := tiers[f.tierUsed] + 1];
      if f.resultCount == 0 { zero := zero + 1; }
      hashes := hashes + {f.queryHash};
    }
    assert finds[..|finds|] == finds;
  }

  lemma NothingCounted()
    ensures Tiers([]) == map[Hybrid := 0, Bm25Only := 0, CatalogGrep := 0, FsGrep := 0]
    ensures Hashes([]) == {}
    ensures forall t: Tier :: t in Tiers([])
  {
    forall t: Tier ensures t in Tiers([]) {
      match t case Hybrid => case Bm25Only => case CatalogGrep => case FsGrep =>
    }
  }

  lemma TiersSnoc(finds: seq<Event>, f: Event)
    requires f.Find? && forall t: Tier :: t in Tiers(finds)
    ensures Tiers(finds + [f]) == Tiers(finds)[f.tierUsed := Tiers(finds)[f.tierUsed] + 1]
  {
    assert (finds + [f])[..|finds|] == finds;
  }

  lemma HashesSnoc(finds: seq<Event>, f: Event)
    requires f.Find?
    ensures Hashes(finds + [f]) == Hashes(finds) + {f.queryHash}
  {
    assert forall x :: x in finds + [f] <==> x in finds || x == f;
  }

  /** The tier counts of any finds sum to their number, and the other counts do not exceed it. */
  lemma {:induction false} CountsSum(finds: seq<Event>)
    requires forall f :: f in finds ==> f.Find?
    ensures TierCount(finds, Hybrid) + TierCount(finds, Bm25Only) + TierCount(finds, CatalogGrep)
          + TierCount(finds, FsGrep) == |finds|
    ensures ZeroCount(finds) <= |finds|
    ensures |Hashes(finds)| <= |finds|
  {
    if finds == [] {
      assert Hashes(finds) == {};
    } else {
      var n := |finds| - 1;
      assert finds[n] in finds;
      CountsSum(finds[..n]);
      HashesSnoc(finds[..n], finds[n]);
      assert finds[..n] + [finds[n]] == finds;
    }
  }

  /** The places of the finds that come first of their request. */
  ghost function Firsts(events: seq<Event>): set<int> {
    set i | 0 <= i < |events| && FirstFind(events, i)
  }

  lemma FirstsAreFinds(events: seq<Event>)
    ensures forall i :: i in Firsts(events) ==> 0 <= i < |events| && events[i].Find?
  {
  }

  lemma FirstsSnoc(events: seq<Event>, e: Event)
    ensures Firsts(events + [e])
         == Firsts(events) + if e.Find? && e.requestId !in FindIds(events) then {|events|} else {}
    ensures forall i :: i in Firsts(events) ==> 0 <= i < |events| && (events + [e])[i] == events[i] && events[i].Find?
  {
    hide FindIds;
    FirstFindSnoc(events, e);
    assert forall i: nat :: i < |events| ==> (i in Firsts(events + [e]) <==> i in Firsts(events));
    hide FirstFind;
    assert |events| in Firsts(events + [e]) <==> FirstFind(events + [e], |events|);
  }

  ghost function ZeroFirsts(events: seq<Event>): set<int> {
    FirstsAreFinds(events);
    set i | i in Firsts(events) && events[i].resultCount == 0
  }

  ghost function TierFirsts(events: seq<Event>, t: Tier): set<int> {
    FirstsAreFinds(events);
    set i | i in Firsts(events) && events[i].tierUsed == t
  }

  /** What is counted over the kept finds is counted over the first find of every request. */
  lemma {:induction false} CountsAre(events: seq<Event>)
    ensures var a := AggregateOf(events);
      && a.queries == |Firsts(events)| && a.zeroResults == |ZeroFirsts(events)|
      && (forall t: Tier :: t in a.tiers && a.tiers[t] == |TierFirsts(events, t)|)
  {
    OnlyFinds(events);
    forall t: Tier ensures t in Tiers(Finds(events)) && Tiers(Finds(events))[t] == |TierFirsts(events, t)| {
      CountedAtFirsts(events, t);
      match t case Hybrid => case Bm25Only => case CatalogGrep => case FsGrep =>
    }
    CountedAtFirsts(events, Hybrid);
  }

  lemma {:induction false} CountedAtFirsts(events: seq<Event>, t: Tier)
    ensures |Finds(events)| == |Firsts(events)|
    ensures ZeroCount(Finds(events)) == |ZeroFirsts(events)|
    ensures TierCount(Finds(events), t) == |TierFirsts(events, t)|
  {
    if events == [] {
      assert Firsts(events) == {} && ZeroFirsts(events) == {} && TierFirsts(events, t) == {};
    } else {
      var n := |events| - 1;
      var head, e := events[..n], events[n];
      assert head + [e] == events;
      hide *;
      CountedAtFirsts(head, t);
      FindsSnoc(head, e);
      CountsSnoc(Finds(head), e, t);
      FirstsSnoc(head, e);
      FilteredSnoc(head, e, t);
      PlusOne(Firsts(head), n);
      PlusOne(ZeroFirsts(head), n);
      PlusOne(TierFirsts(head, t), n);
    }
  }

  lemma PlusOne(a: set<int>, n: int)
    requires n !in a
    ensures |a + {n}| == |a| + 1 && |a + {}| == |a|
  {
    assert a + {} == a;
  }

  lemma CountsSnoc(finds: seq<Event>, e: Event, t: Tier)
    ensures e.Find? ==> ZeroCount(finds + [e]) == ZeroCount(finds) + if e.resultCount == 0 then 1 else 0
    ensures e.Find? ==> TierCount(finds + [e], t) == TierCount(finds, t) + if e.tierUsed == t then 1 else 0
  {
    assert (finds + [e])[..|finds|] == finds;
  }

  lemma FilteredSnoc(head: seq<Event>, e: Event, t: Tier)
    ensures var more, n := head + [e], |head|; var kept := e.Find? && e.requestId !in FindIds(head);
      && n !in Firsts(head) && n !in ZeroFirsts(head) && n !in TierFirsts(head, t)
      && ZeroFirsts(more) == ZeroFirsts(head) + (if kept && e.resultCount == 0 then {n} else {})
      && TierFirsts(more, t) == TierFirsts(head, t) + (if kept && e.tierUsed == t then {n} else {})
  {
    FirstsSnoc(head, e);
    hide FirstFind, FindIds, Firsts;
  }

  /***** Verdict and schema *****/

  function ComputeVerdict(a: Aggregate): Verdict {
    var met := a.queries >= 5 && a.acceptances >= 1;
    Verdict(met, a.queries < 3, met)
  }

  /** The six refinements of the report schema, and its non-negative latencies. */
  predicate MeetsSchema(r: Report) {
    var a := r.aggregate;
    && AtMost(r.since, r.until)
    && a.zeroResults <= a.queries
    && a.distinctHashes <= a.queries
    && (r.verdict.pass <==> a.queries >= 5 && a.acceptances >= 1)
    && (r.verdict.killSignal <==> a.queries < 3)
    && (if a.queries > 0 then a.median.Some? && a.p95.Some? else a.median.None? && a.p95.None?)
    && (a.median.Some? ==> a.median.value >= 0.0)
    && (a.p95.Some? ==> a.p95.value >= 0.0)
    && a.tiers.Keys == {Hybrid, Bm25Only, CatalogGrep, FsGrep}
  }

  /** The schema rejects a report that has one of the latencies without queries, or queries without one of them. */
  lemma SchemaTiesLatencies(r: Report)
    requires MeetsSchema(r)
    ensures r.aggregate.median.Some? <==> r.aggregate.queries > 0
    ensures r.aggregate.p95.Some? <==> r.aggregate.queries > 0
    ensures !Less(r.until, r.since)
  {
    hide Less;
    Compared(r.since, r.until);
  }

  /** Any events and any ordered window give a report that meets the schema. */
  lemma EveryReportMeetsSchema(events: seq<Event>, since: string, until: string, bad: nat)
    ensures var a := AggregateOf(events);
      && (MeetsSchema(Report(since, until, a, ComputeVerdict(a), bad)) <==> AtMost(since, until))
      && a.tiers[Hybrid] + a.tiers[Bm25Only] + a.tiers[CatalogGrep] + a.tiers[FsGrep] == a.queries
      && a.queries == |FindIds(events)| && a.acceptances == |AcceptedIds(events)|
  {
    hide Sorted, Percentile, Durations, TierCount, ZeroCount, Hashes, Finds, AcceptedIds, FindIds, AtMost;
    OnlyFinds(events);
    FindsAreFirsts(events);
    CountsSum(Finds(events));
    LatenciesBounded(events);
  }

  /** Both latencies lie between the shortest and the longest kept find, the median not above the other. */
  lemma LatenciesBounded(events: seq<Event>)
    ensures var a := AggregateOf(events);
      Finds(events) != [] ==>
        && 0.0 <= a.median.value <= a.p95.value
        && (exists f :: f in Finds(events) && f.Find? && f.duration as real <= a.median.value)
        && (exists f :: f in Finds(events) && f.Find? && a.p95.value <= f.duration as real)
  {
    OnlyFinds(events);
    var finds := Finds(events);
    if finds != [] {
      var d := Durations(finds);
      var s := Sorted(d);
      SortedIs(d);
      PercentileRises(s, 50.0, 95.0);
      assert s[0] in multiset(s) && s[|s| - 1] in multiset(s);
      assert s[0] in d && s[|s| - 1] in d;
      var i :| 0 <= i < |d| && d[i] == s[0];
      var j :| 0 <= j < |d| && d[j] == s[|s| - 1];
      assert finds[i] in finds && finds[j] in finds;
    }
  }

  /** The middle one of ascending samples, or the mean of the two in the middle. */
  ghost predicate IsMedian(s: seq<real>, v: real)
    requires s != []
  {
    var n := |s|;
    if n % 2 == 1 then v == s[n / 2] else 2.0 * v == s[n / 2 - 1] + s[n / 2]
  }

  /**
   * The value with nineteen twentieths of the steps between ascending samples below it: a sample, or
   * between two neighbours in proportion to what is left over.
   */
  ghost predicate IsNinetyFifth(s: seq<real>, v: real)
    requires s != []
  {
    var lo, left := 19 * (|s| - 1) / 20, 19 * (|s| - 1) % 20;
    if left == 0 then v == s[lo] else 20.0 * v == (20 - left) as real * s[lo] + left as real * s[lo + 1]
  }

  /** The two latencies of a report, over the kept finds' durations in ascending order. */
  lemma LatenciesAre(events: seq<Event>) returns (s: seq<real>)
    requires Finds(events) != []
    ensures forall f :: f in Finds(events) ==> f.Find?
    ensures Ascending(s) && multiset(s) == multiset(Durations(Finds(events))) && |s| == |Finds(events)|
    ensures AggregateOf(events).median.Some? && IsMedian(s, AggregateOf(events).median.value)
    ensures AggregateOf(events).p95.Some? && IsNinetyFifth(s, AggregateOf(events).p95.value)
  {
    OnlyFinds(events);
    s := Sorted(Durations(Finds(events)));
    SortedIs(Durations(Finds(events)));
    MedianIs(s);
    NinetyFifthIs(s);
    hide IsMedian, IsNinetyFifth, Percentile, Sorted, Finds, Tiers, ZeroCount, Hashes;
  }

  lemma NinetyFifthIs(s: seq<real>)
    requires s != []
    ensures IsNinetyFifth(s, Percentile(s, 95.0))
  {
    PercentileInTwentieths(s, 19);
    assert 5.0 * 19 as real == 95.0;
    hide Percentile;
  }

  lemma MedianIs(s: seq<real>)
    requires s != []
    ensures IsMedian(s, Percentile(s, 50.0))
  {
    PercentileInTwentieths(s, 10);
    assert 5.0 * 10 as real == 50.0;
    Halves(|s|);
    hide Percentile;
  }

  lemma Halves(n: nat)
    requires n > 0
    ensures n % 2 == 1 ==> 10 * (n - 1) % 20 == 0 && 10 * (n - 1) / 20 == n / 2
    ensures n % 2 == 0 ==> 10 * (n - 1) % 20 == 10 && 10 * (n - 1) / 20 == n / 2 - 1
  {
  }

  /** Percentile 5q cuts the n - 1 steps between samples q to 20 - q. */
  lemma PercentileInTwentieths(s: seq<real>, q: nat)
    requires s != [] && 0 < q < 20
    ensures var n := |s|; var lo, left := q * (n - 1) / 20, q * (n - 1) % 20;
      && 0 <= lo < n && (left > 0 ==> lo + 1 < n)
      && (left == 0 ==> Percentile(s, 5.0 * q as real) == s[lo])
      && (left > 0 ==> 20.0 * Percentile(s, 5.0 * q as real) == (20 - left) as real * s[lo] + left as real * s[lo + 1])
  {
    var n := |s|;
    var steps := q * (n - 1);
    var lo, left := steps / 20, steps % 20;
    StepsWithin(q, n - 1);
    if n > 1 {
      RankInTwentieths(q, n);
      var rank := Rank(5.0 * q as real, n);
      assert rank == lo as real + left as real / 20.0;
      assert rank.Floor == lo;
      if left > 0 {
        InterpolatedBetween(s[lo], s[lo + 1], left);
      }
    }
  }

  lemma StepsWithin(q: nat, m: nat)
    requires 0 < q < 20
    ensures var steps := q * m; steps / 20 <= m && (steps % 20 > 0 ==> steps / 20 + 1 <= m)
  {
    assert q * m <= 19 * m;
  }

  lemma RankInTwentieths(q: nat, n: nat)
    requires n > 0 && 0 < q < 20
    ensures Rank(5.0 * q as real, n) == (q * (n - 1)) as real / 20.0
  {
    var p := 5.0 * q as real;
    assert p / 100.0 == q as real / 20.0;
    assert (q * (n - 1)) as real == q as real * (n - 1) as real;
  }

  lemma InterpolatedBetween(a: real, b: real, left: nat)
    requires left < 20
    ensures 20.0 * (a * (1.0 - left as real / 20.0) + b * (left as real / 20.0)) == (20 - left) as real * a + left as real * b
  {
  }

  /** An event that repeats a request already seen changes nothing. */
  lemma RepeatChangesNothing(events: seq<Event>, e: Event)
    requires if e.Find? then e.requestId in FindIds(events) else e.requestId in AcceptedIds(events)
    ensures AggregateOf(events + [e]) == AggregateOf(events)
  {
    IdsSnoc(events, e);
    assert (events + [e])[..|events|] == events;
    assert Finds(events + [e]) == Finds(events);
    assert AcceptedIds(events + [e]) == AcceptedIds(events);
  }

  /**
   * The report command: check the arguments, read the log, filter, aggregate, judge and validate. `log` is
   * None when reading it fails or is cut off by the timeout; a missing log has no lines.
   */
  method ReportCommand(log: Option<seq<LogLine>>, a: Arguments) returns (r: Result<Report, ReportError>)
    ensures r.Ok? <==> Accepted(a) && log.Some?
    ensures Accepted(a) && log.None? ==> r == Err(ScanFailed)
    ensures r != Err(SchemaViolation)
    ensures r.Ok? ==>
      var verdict, a := r.value.verdict, r.value.aggregate;
      && (verdict.thresholdMet <==> a.queries >= 5 && a.acceptances >= 1)
      && verdict.pass == verdict.thresholdMet && (verdict.killSignal <==> a.queries < 3)
    ensures r.Ok? ==>
      && MeetsSchema(r.value) && r.value.since == a.since && r.value.until == a.until
      && r.value.aggregate == AggregateOf(InWindow(log.value, a.since, a.until))
      && r.value.parseErrors == BadLines(log.value)
  {
    hide WellFormed, MeetsSchema, AggregateOf;
    var error := ParseArguments(a);
    if error.Some? { return Err(error.value); }
    if log.None? { return Err(ScanFailed); }
    var events, bad := ScanLog(log.value, a.since, a.until);
    var aggregate := AggregateReport(events);
    var report := Report(a.since, a.until, aggregate, ComputeVerdict(aggregate), bad);
    EveryReportMeetsSchema(events, a.since, a.until, bad);
    if !MeetsSchema(report) { return Err(SchemaViolation); }
    return Ok(report);
  }

  /** Reads the lines: the events of the window are kept, the bad lines counted. */
  method ScanLog(lines: seq<LogLine>, since: string, until: string) returns (events: seq<Event>, bad: nat)
    ensures events == InWindow(lines, since, until) && bad == BadLines(lines)
  {
    events, bad := [], 0;
    for i := 0 to |lines|
      invariant events == InWindow(lines[..i], since, until) && bad == BadLines(lines[..i])
    {
      assert lines[..i + 1][..i] == lines[..i];
      match lines[i]
      case Empty =>
      case Unrelated =>
      case NotJson => bad := bad + 1;
      case Rejected => bad := bad + 1;
      case Recorded(event) =>
        if AtMost(since, event.timestamp) && AtMost(event.timestamp, until) { events := events + [event]; }
    }
    assert lines[..|lines|] == lines;
  }
}
