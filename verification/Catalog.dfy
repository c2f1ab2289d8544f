/**
 * The flat-file catalog: one pipe-delimited line per document, printed on one side and parsed on the
 * other. Text is a sequence of UTF-16 code units.
 */
module Catalog {
  import opened Wrappers

  newtype Unit = u: int | 0 <= u < 0x10000

  type Text = seq<Unit>

  const SP: Unit := 32
  const PIPE: Unit := 124
  const PIPE_ESCAPE: Unit := 0x2016
  const LF: Unit := 10
  const CR: Unit := 13
  const SEPARATOR: Text := [SP, PIPE, SP]

  datatype Doc = Doc(id: Text, title: Text, domain: Text, ftype: Text, summary: Text)

  /***** Code points *****/

  predicate IsHigh(u: Unit) { 0xD800 <= u <= 0xDBFF }

  predicate IsLow(u: Unit) { 0xDC00 <= u <= 0xDFFF }

  /** The length of the code point a text starts with. */
  function PointLength(s: Text): (n: nat)
    requires s != []
    ensures 1 <= n <= |s|
  {
    if |s| > 1 && IsHigh(s[0]) && IsLow(s[1]) then 2 else 1
  }

  function CodePoints(s: Text): seq<Text>
    decreases |s|
  {
    if s == [] then [] else [s[..PointLength(s)]] + CodePoints(s[PointLength(s)..])
  }

  /** The first `max` code points. */
  function Truncated(s: Text, max: nat): Text
    decreases |s|
  {
    if s == [] || max == 0 then [] else s[..PointLength(s)] + Truncated(s[PointLength(s)..], max - 1)
  }

  /** Iterates over the code points of `s`. */
  method TruncateCodepoints(s: Text, max: nat) returns (out: Text)
    ensures out == Truncated(s, max)
  {
    var i, rest := 0, s;
    out := [];
    while rest != [] && i < max
      invariant i <= max
      invariant out + Truncated(rest, max - i) == Truncated(s, max)
      decreases |rest|
    {
      var n := PointLength(rest);
      out := out + rest[..n];
      rest := rest[n..];
      i := i + 1;
    }
  }

  /** The cut keeps a prefix of whole code points, at most `max` of them, and all of them if they fit. */
  lemma {:induction false} TruncatedIsPrefix(s: Text, max: nat)
    ensures Truncated(s, max) <= s
    ensures CodePoints(Truncated(s, max)) == if max <= |CodePoints(s)| then CodePoints(s)[..max] else CodePoints(s)
    ensures |CodePoints(s)| <= max ==> Truncated(s, max) == s
    decreases |s|
  {
    if s != [] && max > 0 {
      var n := PointLength(s);
      TruncatedIsPrefix(s[n..], max - 1);
      CutStartsAlike(s, Truncated(s[n..], max - 1));
    }
  }

  /** A prefix that keeps the first code point whole starts with the same code point. */
  lemma CutStartsAlike(s: Text, rest: Text)
    requires s != [] && rest <= s[PointLength(s)..]
    ensures var t := s[..PointLength(s)] + rest;
      t <= s && PointLength(t) == PointLength(s) && t[PointLength(t)..] == rest && t[..PointLength(t)] == s[..PointLength(s)]
    ensures rest == s[PointLength(s)..] ==> s[..PointLength(s)] + rest == s
  {
    var n := PointLength(s);
    var t := s[..n] + rest;
    assert forall i :: 0 <= i < |rest| ==> rest[i] == s[n..][i] == s[n + i];
    assert t == s[..|t|];
    assert |t| > 1 && n == 1 ==> t[0] == s[0] && t[1] == s[1];
  }

  /** The cut never separates a high surrogate from the low surrogate after it. */
  lemma {:induction false} CutKeepsPairs(s: Text, max: nat)
    ensures !SplitsPair(s, |Truncated(s, max)|)
    decreases |s|
  {
    if s != [] && max > 0 {
      var k := PointLength(s);
      CutKeepsPairs(s[k..], max - 1);
      TruncatedIsPrefix(s[k..], max - 1);
      hide CodePoints;
      var m := |Truncated(s[k..], max - 1)|;
      assert |Truncated(s, max)| == k + m;
      hide Truncated;
      if 0 < m < |s[k..]| {
        assert s[k..][m - 1] == s[k + m - 1] && s[k..][m] == s[k + m];
      }
    }
  }

  /** A cut at `n` has a high surrogate before it and a low surrogate after it. */
  ghost predicate SplitsPair(s: Text, n: nat) {
    0 < n < |s| && 0xD800 <= s[n - 1] <= 0xDBFF && 0xDC00 <= s[n] <= 0xDFFF
  }

  /** A surrogate pair is one code point, and every other unit is one of its own. */
  lemma PointsCounted(u: Unit, rest: Text)
    ensures 0xD800 <= u <= 0xDBFF && rest != [] && 0xDC00 <= rest[0] <= 0xDFFF ==>
      |CodePoints([u] + rest)| == 1 + |CodePoints(rest[1..])|
    ensures !(0xD800 <= u <= 0xDBFF && rest != [] && 0xDC00 <= rest[0] <= 0xDFFF) ==>
      |CodePoints([u] + rest)| == 1 + |CodePoints(rest)|
  {
    var s := [u] + rest;
    assert s[1..] == rest;
    if rest != [] {
      assert s[2..] == rest[1..] && s[1] == rest[0];
    }
  }

  /***** Fields *****/

  /** Every LF, and the CR right before it, becomes one space. */
  function NewlinesToSpaces(s: Text): Text
    decreases |s|
  {
    if s == [] then []
    else if |s| > 1 && s[0] == CR && s[1] == LF then [SP] + NewlinesToSpaces(s[2..])
    else if s[0] == LF then [SP] + NewlinesToSpaces(s[1..])
    else [s[0]] + NewlinesToSpaces(s[1..])
  }

  function Replace(s: Text, a: Unit, b: Unit): (r: Text)
    ensures |r| == |s| && forall i :: 0 <= i < |s| ==> r[i] == if s[i] == a then b else s[i]
  {
    seq(|s|, i requires 0 <= i < |s| => if s[i] == a then b else s[i])
  }

  function EscapeField(s: Text): Text {
    Replace(NewlinesToSpaces(s), PIPE, PIPE_ESCAPE)
  }

  function UnescapePipe(s: Text): Text {
    Replace(s, PIPE_ESCAPE, PIPE)
  }

  lemma {:induction false} NewlinesGone(s: Text)
    ensures LF !in NewlinesToSpaces(s)
    ensures LF !in s ==> NewlinesToSpaces(s) == s
    decreases |s|
  {
    if s == [] {
    } else if |s| > 1 && s[0] == CR && s[1] == LF {
      NewlinesGone(s[2..]);
    } else {
      NewlinesGone(s[1..]);
      assert LF !in s ==> LF !in s[1..];
    }
  }

  /** A line break, LF or CR LF, becomes exactly one space; what stands around it is converted for itself. */
  lemma {:induction false} LineBreakBecomesSpace(line: Text, rest: Text)
    requires 10 !in line
    ensures NewlinesToSpaces(line + [13, 10] + rest) == line + [32] + NewlinesToSpaces(rest)
    ensures (line == [] || line[|line| - 1] != 13) ==>
      NewlinesToSpaces(line + [10] + rest) == line + [32] + NewlinesToSpaces(rest)
  {
    var s, t := line + [13, 10] + rest, line + [10] + rest;
    if line == [] {
      assert s[2..] == rest && t[1..] == rest;
      assert t == [10] + rest;
    } else {
      assert s[1..] == line[1..] + [13, 10] + rest && t[1..] == line[1..] + [10] + rest;
      assert |line| > 1 ==> s[1] == line[1] && t[1] == line[1] && line[1] in line;
      LineBreakBecomesSpace(line[1..], rest);
      assert [line[0]] + line[1..] == line;
    }
  }

  /** Escaping touches bars alone, and those become the double bar U+2016. */
  lemma EscapedUnits(s: Text)
    ensures var lines := NewlinesToSpaces(s);
      && |EscapeField(s)| == |lines|
      && forall i :: 0 <= i < |lines| ==> EscapeField(s)[i] == if lines[i] == 124 then 0x2016 else lines[i]
    ensures 10 !in s ==> NewlinesToSpaces(s) == s
  {
    NewlinesGone(s);
  }

  lemma EscapedField(s: Text)
    ensures PIPE !in EscapeField(s) && LF !in EscapeField(s)
  {
    NewlinesGone(s);
    forall u | u in EscapeField(s) ensures u != PIPE && u != LF {
      var i :| 0 <= i < |EscapeField(s)| && EscapeField(s)[i] == u;
      assert NewlinesToSpaces(s)[i] in NewlinesToSpaces(s);
    }
  }

  /** The characters `trim` removes: white space and line terminators. */
  predicate IsSpace(u: Unit) {
    9 <= u <= 13 || u == 32 || u == 0xA0 || u == 0x1680 || 0x2000 <= u <= 0x200A
    || u == 0x2028 || u == 0x2029 || u == 0x202F || u == 0x205F || u == 0x3000 || u == 0xFEFF
  }

  /** The white space and line terminators of ECMA-262, sections 12.2 and 12.3. */
  lemma SpacesAre(u: Unit)
    ensures IsSpace(u) <==>
      || u in {9, 10, 11, 12, 13, 0x20, 0xA0, 0xFEFF, 0x1680, 0x202F, 0x205F, 0x3000, 0x2028, 0x2029}
      || u in {0x2000, 0x2001, 0x2002, 0x2003, 0x2004, 0x2005, 0x2006, 0x2007, 0x2008, 0x2009, 0x200A}
  {
  }

  function TrimStart(s: Text): Text {
    if s != [] && IsSpace(s[0]) then TrimStart(s[1..]) else s
  }

  function TrimEnd(s: Text): Text {
    if s != [] && IsSpace(s[|s| - 1]) then TrimEnd(s[..|s| - 1]) else s
  }

  function Trim(s: Text): Text {
    TrimEnd(TrimStart(s))
  }

  predicate Trimmed(s: Text) {
    s != [] ==> !IsSpace(s[0]) && !IsSpace(s[|s| - 1])
  }

  lemma {:induction false} TrimStartIs(s: Text)
    ensures TrimStart(s) != [] ==> !IsSpace(TrimStart(s)[0])
    ensures |TrimStart(s)| <= |s|
    ensures forall u :: u in TrimStart(s) ==> u in s
  {
    if s != [] && IsSpace(s[0]) { TrimStartIs(s[1..]); }
  }

  lemma {:induction false} TrimEndIs(s: Text)
    ensures TrimEnd(s) <= s
    ensures TrimEnd(s) != [] ==> !IsSpace(TrimEnd(s)[|TrimEnd(s)| - 1])
  {
    if s != [] && IsSpace(s[|s| - 1]) { TrimEndIs(s[..|s| - 1]); }
  }

  /** Trimming gives a trimmed text, and changes nothing exactly on trimmed texts. */
  lemma TrimIs(s: Text)
    ensures Trimmed(Trim(s))
    ensures Trim(s) == s <==> Trimmed(s)
  {
    TrimStartIs(s);
    TrimEndIs(TrimStart(s));
  }

  /** Trimming takes spaces from both ends and nothing else. */
  lemma TrimCuts(s: Text)
    ensures exists before, after ::
      s == before + Trim(s) + after && (forall u :: u in before ==> IsSpace(u)) && (forall u :: u in after ==> IsSpace(u))
  {
    var before := SpacesBefore(s);
    var after := SpacesAfter(TrimStart(s));
    assert s == before + Trim(s) + after;
  }

  lemma {:induction false} SpacesBefore(s: Text) returns (before: Text)
    ensures s == before + TrimStart(s) && forall u :: u in before ==> IsSpace(u)
  {
    before := [];
    if s != [] && IsSpace(s[0]) {
      var more := SpacesBefore(s[1..]);
      before := [s[0]] + more;
    }
  }

  lemma {:induction false} SpacesAfter(s: Text) returns (after: Text)
    ensures s == TrimEnd(s) + after && forall u :: u in after ==> IsSpace(u)
  {
    after := [];
    if s != [] && IsSpace(s[|s| - 1]) {
      var more := SpacesAfter(s[..|s| - 1]);
      after := more + [s[|s| - 1]];
    }
  }

  lemma {:induction false} TrimStartReplace(s: Text, a: Unit, b: Unit)
    requires !IsSpace(a) && !IsSpace(b)
    ensures TrimStart(Replace(s, a, b)) == Replace(TrimStart(s), a, b)
  {
    if s != [] && IsSpace(s[0]) {
      assert Replace(s, a, b)[1..] == Replace(s[1..], a, b);
      TrimStartReplace(s[1..], a, b);
    }
  }

  lemma {:induction false} TrimEndReplace(s: Text, a: Unit, b: Unit)
    requires !IsSpace(a) && !IsSpace(b)
    ensures TrimEnd(Replace(s, a, b)) == Replace(TrimEnd(s), a, b)
  {
    if s != [] && IsSpace(s[|s| - 1]) {
      assert Replace(s, a, b)[..|s| - 1] == Replace(s[..|s| - 1], a, b);
      TrimEndReplace(s[..|s| - 1], a, b);
    }
  }

  /** What a reader gets back for a field: newlines as spaces, the double bar as a bar, trimmed. */
  function Recovered(s: Text): Text {
    Trim(Replace(NewlinesToSpaces(s), PIPE_ESCAPE, PIPE))
  }

  lemma EscapeUnescape(s: Text)
    ensures UnescapePipe(Trim(EscapeField(s))) == Recovered(s)
  {
    var x := NewlinesToSpaces(s);
    TrimStartReplace(EscapeField(s), PIPE_ESCAPE, PIPE);
    TrimEndReplace(TrimStart(EscapeField(s)), PIPE_ESCAPE, PIPE);
    assert Replace(Replace(x, PIPE, PIPE_ESCAPE), PIPE_ESCAPE, PIPE) == Replace(x, PIPE_ESCAPE, PIPE);
  }

  /** A field comes back unchanged exactly when it has no newline, no double bar and no outer space. */
  lemma RecoveredExactIff(s: Text)
    ensures Recovered(s) == s <==> LF !in s && PIPE_ESCAPE !in s && Trimmed(s)
  {
    var x := NewlinesToSpaces(s);
    var z := Replace(x, PIPE_ESCAPE, PIPE);
    NewlinesGone(s);
    TrimIs(z);
    if LF !in s && PIPE_ESCAPE !in s && Trimmed(s) {
      assert z == s;
    }
    if Recovered(s) == s {
      TrimStartIs(z);
      TrimEndIs(TrimStart(z));
      forall u | u in s ensures u != LF && u != PIPE_ESCAPE {
        assert u in TrimStart(z) && u in z;
        var i :| 0 <= i < |z| && z[i] == u;
        assert x[i] in x;
      }
    }
  }

  /***** Lines *****/

  /** `split(' | ')`, left to right. */
  function SplitFields(s: Text): (r: seq<Text>)
    ensures |r| >= 1
    decreases |s|
  {
    if s == [] then [[]]
    else if SEPARATOR <= s then [[]] + SplitFields(s[3..])
    else
      var rest := SplitFields(s[1..]);
      [[s[0]] + rest[0]] + rest[1..]
  }

  lemma {:induction false} SplitLastField(f: Text)
    requires PIPE !in f
    ensures SplitFields(f) == [f]
  {
    if f != [] {
      assert |f| > 1 ==> f[1] in f;
      SplitLastField(f[1..]);
      assert [f[0]] + f[1..] == f;
    }
  }

  lemma {:induction false} SplitFirstField(f: Text, rest: Text)
    requires PIPE !in f
    ensures SplitFields(f + SEPARATOR + rest) == [f] + SplitFields(rest)
  {
    var s := f + SEPARATOR + rest;
    if f == [] {
      assert s[3..] == rest && s[..3] == SEPARATOR;
    } else {
      assert s[1..] == f[1..] + SEPARATOR + rest;
      SplitFirstField(f[1..], rest);
      assert |f| > 1 ==> s[1] == f[1] && f[1] in f;
      assert |f| == 1 ==> s[1] == SP;
      assert [f[0]] + f[1..] == f;
    }
  }

  predicate LowerHex(u: Unit) {
    48 <= u <= 57 || 97 <= u <= 102
  }

  /** `doc-` and eight lower-case hexadecimal digits. */
  predicate ValidId(id: Text) {
    |id| == 12 && id[..4] == [100, 111, 99, 45] && forall i :: 4 <= i < 12 ==> LowerHex(id[i])
  }

  /** A field that is printed as it is and comes back as it was. */
  predicate PlainWord(s: Text) {
    s != [] && PIPE !in s && LF !in s && Trimmed(s)
  }

  /** The facet types of the closed enumeration. */
  const FACET_TYPES: seq<Text> := [
    [101, 110, 116, 105, 116, 121],                        // entity
    [99, 111, 110, 99, 101, 112, 116],                     // concept
    [116, 117, 116, 111, 114, 105, 97, 108],               // tutorial
    [97, 110, 97, 108, 121, 115, 105, 115],                // analysis
    [114, 101, 102, 101, 114, 101, 110, 99, 101],          // reference
    [115, 121, 110, 116, 104, 101, 115, 105, 115],         // synthesis
    [99, 104, 101, 97, 116, 45, 115, 104, 101, 101, 116]]  // cheat-sheet

  lemma FacetTypesArePlainWords()
    ensures forall t :: t in FACET_TYPES ==> PlainWord(t)
  {
    forall t | t in FACET_TYPES ensures PlainWord(t) {
      var i :| 0 <= i < 7 && FACET_TYPES[i] == t;
    }
  }

  function JoinFields(parts: seq<Text>): Text {
    if parts == [] then []
    else if |parts| == 1 then parts[0]
    else parts[0] + SEPARATOR + JoinFields(parts[1..])
  }

  /** One line without its newline. */
  function LineOf(doc: Doc): Text {
    JoinFields([doc.id, EscapeField(doc.title), EscapeField(doc.domain), doc.ftype, EscapeField(Truncated(doc.summary, 200))])
  }

  function FormatCatalogLine(doc: Doc): Text {
    LineOf(doc) + [LF]
  }

  function ParseCatalogLine(line: Text): Option<Doc> {
    var parts := SplitFields(line);
    if |parts| < 5 || !ValidId(Trim(parts[0])) then None
    else
      var domain, ftype := UnescapePipe(Trim(parts[2])), Trim(parts[3]);
      if domain == [] || ftype == [] then None
      else Some(Doc(Trim(parts[0]), UnescapePipe(Trim(parts[1])), domain, ftype,
                    UnescapePipe(Trim(JoinFields(parts[4..])))))
  }

  function Recover(doc: Doc): Doc {
    Doc(doc.id, Recovered(doc.title), Recovered(doc.domain), doc.ftype, Recovered(Truncated(doc.summary, 200)))
  }

  /** A line: five fields, a bar between two spaces after each of the first four, and a line feed. */
  lemma LineLayout(doc: Doc)
    ensures FormatCatalogLine(doc)
         == doc.id + [32, 124, 32] + EscapeField(doc.title) + [32, 124, 32] + EscapeField(doc.domain) + [32, 124, 32]
            + doc.ftype + [32, 124, 32] + EscapeField(Truncated(doc.summary, 200)) + [10]
  {
    hide EscapeField, Truncated;
    var title, domain, summary := EscapeField(doc.title), EscapeField(doc.domain), EscapeField(Truncated(doc.summary, 200));
    assert [doc.ftype, summary][1..] == [summary];
    assert JoinFields([summary]) == summary;
    assert JoinFields([doc.ftype, summary]) == doc.ftype + SEPARATOR + summary;
    assert [domain, doc.ftype, summary][1..] == [doc.ftype, summary];
    assert [title, domain, doc.ftype, summary][1..] == [domain, doc.ftype, summary];
    assert [doc.id, title, domain, doc.ftype, summary][1..] == [title, domain, doc.ftype, summary];
    assert JoinFields([domain, doc.ftype, summary]) == domain + SEPARATOR + (doc.ftype + SEPARATOR + summary);
    assert JoinFields([title, domain, doc.ftype, summary])
        == title + SEPARATOR + (domain + SEPARATOR + (doc.ftype + SEPARATOR + summary));
  }

  lemma {:induction false} JoinSplit(s: Text)
    ensures JoinFields(SplitFields(s)) == s
    decreases |s|
  {
    if s != [] {
      if SEPARATOR <= s {
        JoinSplit(s[3..]);
        var rest := SplitFields(s[3..]);
        assert ([[]] + rest)[1..] == rest;
        assert s == SEPARATOR + s[3..];
      } else {
        JoinSplit(s[1..]);
        var rest := SplitFields(s[1..]);
        JoinWithFirst(rest, s[0]);
        assert s == [s[0]] + s[1..];
      }
    }
  }

  lemma JoinWithFirst(rest: seq<Text>, u: Unit)
    requires rest != []
    ensures JoinFields([[u] + rest[0]] + rest[1..]) == [u] + JoinFields(rest)
  {
    var parts := [[u] + rest[0]] + rest[1..];
    assert parts[1..] == rest[1..];
    if |rest| > 1 {
      assert [u] + rest[0] + SEPARATOR + JoinFields(rest[1..]) == [u] + (rest[0] + SEPARATOR + JoinFields(rest[1..]));
    }
  }

  /** The id pattern in characters. */
  lemma ValidIdIff(id: Text)
    ensures ValidId(id) <==>
      exists hex: Text :: id == [100, 111, 99, 45] + hex && |hex| == 8 && forall u :: u in hex ==> 48 <= u <= 57 || 97 <= u <= 102
  {
    if ValidId(id) {
      assert id == [100, 111, 99, 45] + id[4..];
      forall u | u in id[4..] ensures LowerHex(u) {
        var i :| 0 <= i < 8 && id[4..][i] == u;
        assert id[4 + i] == u;
      }
    }
    forall hex: Text | id == [100, 111, 99, 45] + hex && |hex| == 8 && forall u :: u in hex ==> 48 <= u <= 57 || 97 <= u <= 102
      ensures ValidId(id)
    {
      forall i | 4 <= i < 12 ensures LowerHex(id[i]) {
        assert id[i] == hex[i - 4] && hex[i - 4] in hex;
      }
    }
  }

  /**
   * A line of four fields without bars and any last field: it parses if and only if the first is an id and
   * neither the domain nor the type is blank. Separators in the last field belong to the summary.
   */
  lemma FieldsParse(id: Text, title: Text, domain: Text, ftype: Text, summary: Text)
    requires 124 !in id && 124 !in title && 124 !in domain && 124 !in ftype
    ensures var line :=
        id + [32, 124, 32] + (title + [32, 124, 32] + (domain + [32, 124, 32] + (ftype + [32, 124, 32] + summary)));
      ParseCatalogLine(line)
        == if ValidId(Trim(id)) && Trim(domain) != [] && Trim(ftype) != []
           then Some(Doc(Trim(id), UnescapePipe(Trim(title)), UnescapePipe(Trim(domain)), Trim(ftype), UnescapePipe(Trim(summary))))
           else None
  {
    hide Trim, UnescapePipe, ValidId, SplitFields, JoinFields;
    assert |UnescapePipe(Trim(domain))| == |Trim(domain)| by { UnescapedLength(Trim(domain)); }
    var rest1 := ftype + [32, 124, 32] + summary;
    var rest2 := domain + [32, 124, 32] + rest1;
    var rest3 := title + [32, 124, 32] + rest2;
    SplitFirstField(ftype, summary);
    SplitFirstField(domain, rest1);
    SplitFirstField(title, rest2);
    SplitFirstField(id, rest3);
    JoinSplit(summary);
    var parts := SplitFields(id + [32, 124, 32] + rest3);
    assert parts[4..] == SplitFields(summary);
  }

  lemma UnescapedLength(s: Text)
    ensures |UnescapePipe(s)| == |s|
  {
  }

  /** A line with fewer than four bars does not parse. */
  lemma FewBarsFail(line: Text)
    requires multiset(line)[124] < 4
    ensures ParseCatalogLine(line) == None
  {
    FieldsAndBars(line);
  }

  lemma {:induction false} FieldsAndBars(s: Text)
    ensures |SplitFields(s)| <= 1 + multiset(s)[124]
    decreases |s|
  {
    if s != [] {
      if SEPARATOR <= s {
        assert s == [s[0]] + [s[1]] + [s[2]] + s[3..];
        FieldsAndBars(s[3..]);
      } else {
        assert s == [s[0]] + s[1..];
        FieldsAndBars(s[1..]);
      }
    }
  }

  lemma PlainFields(doc: Doc)
    requires ValidId(doc.id) && PlainWord(doc.ftype)
    ensures PIPE !in doc.id && LF !in doc.id && Trimmed(doc.id)
    ensures PIPE !in doc.ftype && LF !in doc.ftype && Trimmed(doc.ftype)
  {
    forall u | u in doc.id ensures u != PIPE && u != LF && !IsSpace(u) {
      var i :| 0 <= i < 12 && doc.id[i] == u;
      if i < 4 { assert doc.id[i] == doc.id[..4][i]; }
    }
    assert doc.id[0] in doc.id && doc.id[11] in doc.id;
  }

  lemma LineFields(doc: Doc)
    requires ValidId(doc.id) && PlainWord(doc.ftype)
    ensures SplitFields(LineOf(doc))
         == [doc.id, EscapeField(doc.title), EscapeField(doc.domain), doc.ftype, EscapeField(Truncated(doc.summary, 200))]
    ensures LF !in LineOf(doc)
    ensures doc.id + [SP] <= LineOf(doc)
  {
    hide EscapeField, Truncated, ValidId, SplitFields, JoinFields;
    PlainFields(doc);
    EscapedField(doc.title);
    EscapedField(doc.domain);
    EscapedField(Truncated(doc.summary, 200));
    var parts := [doc.id, EscapeField(doc.title), EscapeField(doc.domain), doc.ftype,
                  EscapeField(Truncated(doc.summary, 200))];
    SplitJoined(parts);
    JoinStarts(parts);
  }

  lemma {:induction false} SplitJoined(parts: seq<Text>)
    requires parts != [] && forall f :: f in parts ==> PIPE !in f && LF !in f
    ensures SplitFields(JoinFields(parts)) == parts
    ensures LF !in JoinFields(parts)
  {
    assert parts[0] in parts;
    if |parts| == 1 {
      SplitLastField(parts[0]);
    } else {
      SplitJoined(parts[1..]);
      SplitFirstField(parts[0], JoinFields(parts[1..]));
    }
  }

  lemma JoinStarts(parts: seq<Text>)
    requires |parts| > 1
    ensures parts[0] + [SP] <= JoinFields(parts)
  {
    var rest := JoinFields(parts[1..]);
    assert JoinFields(parts) == parts[0] + SEPARATOR + rest;
    hide JoinFields;
    FieldThenSpace(parts[0], rest);
  }

  lemma FieldThenSpace(f: Text, rest: Text)
    ensures f + [SP] <= f + SEPARATOR + rest
  {
    assert f + SEPARATOR + rest == (f + [SP]) + ([PIPE, SP] + rest);
  }

  /** A printed line parses exactly when the domain is not blank, and then gives back the recovered record. */
  lemma LineRoundTrip(doc: Doc)
    requires ValidId(doc.id) && PlainWord(doc.ftype)
    ensures ParseCatalogLine(LineOf(doc)) == if Recovered(doc.domain) == [] then None else Some(Recover(doc))
  {
    LineFields(doc);
    PlainFields(doc);
    TrimIs(doc.id);
    TrimIs(doc.ftype);
    EscapeUnescape(doc.title);
    EscapeUnescape(doc.domain);
    EscapeUnescape(Truncated(doc.summary, 200));
    hide EscapeField, Trim, UnescapePipe, Truncated, ValidId, Recovered;
    var parts := SplitFields(LineOf(doc));
    assert JoinFields(parts[4..]) == parts[4];
  }

  /***** Files *****/

  /** `split('\n')`. */
  function SplitLines(s: Text): (r: seq<Text>)
    ensures |r| >= 1
  {
    if s == [] then [[]]
    else
      var rest := SplitLines(s[1..]);
      if s[0] == LF then [[]] + rest else [[s[0]] + rest[0]] + rest[1..]
  }

  lemma {:induction false} SplitLinesFirst(line: Text, rest: Text)
    requires LF !in line
    ensures SplitLines(line + [LF] + rest) == [line] + SplitLines(rest)
  {
    var s := line + [LF] + rest;
    if line == [] {
      assert s[1..] == rest;
    } else {
      assert s[1..] == line[1..] + [LF] + rest && line[0] in line;
      SplitLinesFirst(line[1..], rest);
      assert [line[0]] + line[1..] == line;
    }
  }

  /** The records of a file: empty and malformed lines are skipped. */
  function RecordsOf(lines: seq<Text>): seq<Doc> {
    if lines == [] then []
    else
      (if lines[0] == [] || ParseCatalogLine(lines[0]).None? then [] else [ParseCatalogLine(lines[0]).value])
      + RecordsOf(lines[1..])
  }

  function CatalogOf(docs: seq<Doc>): Text {
    if docs == [] then [] else FormatCatalogLine(docs[0]) + CatalogOf(docs[1..])
  }

  ghost predicate Printable(doc: Doc) {
    ValidId(doc.id) && PlainWord(doc.ftype) && Recovered(doc.domain) != []
  }

  function RecoverAll(docs: seq<Doc>): seq<Doc> {
    seq(|docs|, i requires 0 <= i < |docs| => Recover(docs[i]))
  }

  /** Reading a file of formatted lines gives the records, in order, each as its fields are recovered. */
  lemma {:induction false} FileRoundTrip(docs: seq<Doc>)
    requires forall d :: d in docs ==> Printable(d)
    ensures RecordsOf(SplitLines(CatalogOf(docs))) == RecoverAll(docs)
  {
    hide Recover, LineOf, ParseCatalogLine, Printable;
    if docs == [] {
      assert RecordsOf([[]][1..]) == [];
    } else {
      hide RecoverAll, RecordsOf, CatalogOf, SplitLines;
      FileRoundTrip(docs[1..]);
      CatalogSplit(docs);
      FirstRecord(LineOf(docs[0]), SplitLines(CatalogOf(docs[1..])));
      RecoverSplit(docs);
    }
  }

  lemma CatalogSplit(docs: seq<Doc>)
    requires docs != [] && forall d :: d in docs ==> Printable(d)
    ensures SplitLines(CatalogOf(docs)) == [LineOf(docs[0])] + SplitLines(CatalogOf(docs[1..]))
    ensures LineOf(docs[0]) != [] && ParseCatalogLine(LineOf(docs[0])) == Some(Recover(docs[0]))
  {
    assert docs[0] in docs;
    PrintableLine(docs[0]);
    hide Recover, LineOf, ParseCatalogLine, Printable, SplitLines, FormatCatalogLine;
    SplitLinesFirst(LineOf(docs[0]), CatalogOf(docs[1..]));
  }

  lemma RecoverSplit(docs: seq<Doc>)
    requires docs != []
    ensures RecoverAll(docs) == [Recover(docs[0])] + RecoverAll(docs[1..])
  {
    hide Recover;
  }

  lemma FirstRecord(line: Text, rest: seq<Text>)
    requires line != [] && ParseCatalogLine(line).Some?
    ensures RecordsOf([line] + rest) == [ParseCatalogLine(line).value] + RecordsOf(rest)
  {
    hide ParseCatalogLine;
    assert ([line] + rest)[1..] == rest;
  }

  lemma PrintableLine(doc: Doc)
    requires Printable(doc)
    ensures LF !in LineOf(doc) && LineOf(doc) != [] && ParseCatalogLine(LineOf(doc)) == Some(Recover(doc))
    ensures FormatCatalogLine(doc) == LineOf(doc) + [LF]
  {
    LineFields(doc);
    LineRoundTrip(doc);
  }

  /** Exact if and only if the fields are trimmed, without newline or double bar, and no summary is cut. */
  lemma FileRoundTripExact(docs: seq<Doc>)
    requires forall d :: d in docs ==> Printable(d)
    ensures RecordsOf(SplitLines(CatalogOf(docs))) == docs
      <==> forall d :: d in docs ==>
             Plain(d.title) && Plain(d.domain) && Plain(d.summary) && |CodePoints(d.summary)| <= 200
  {
    FileRoundTrip(docs);
    hide CodePoints, Plain, Recover;
    forall i | 0 <= i < |docs|
      ensures Recover(docs[i]) == docs[i]
        <==> Plain(docs[i].title) && Plain(docs[i].domain) && Plain(docs[i].summary) && |CodePoints(docs[i].summary)| <= 200
    {
      RecoverExactIff(docs[i]);
    }
    if RecoverAll(docs) == docs {
      forall d | d in docs
        ensures Plain(d.title) && Plain(d.domain) && Plain(d.summary) && |CodePoints(d.summary)| <= 200
      {
        var i :| 0 <= i < |docs| && docs[i] == d;
        assert RecoverAll(docs)[i] == d;
      }
    }
  }

  lemma RecoverExactIff(d: Doc)
    ensures Recover(d) == d
      <==> Plain(d.title) && Plain(d.domain) && Plain(d.summary) && |CodePoints(d.summary)| <= 200
  {
    RecoveredExactIff(d.title);
    RecoveredExactIff(d.domain);
    TruncatedIsPrefix(d.summary, 200);
    RecoveredShorter(Truncated(d.summary, 200));
    if |CodePoints(d.summary)| <= 200 {
      RecoveredExactIff(d.summary);
    } else {
      assert |CodePoints(Truncated(d.summary, 200))| == 200;
      var cut := Truncated(d.summary, 200);
      assert |cut| == |d.summary| ==> cut == d.summary;
    }
  }

  lemma RecoveredShorter(s: Text)
    ensures |Recovered(s)| <= |s|
  {
    NewlinesShorten(s);
    var z := Replace(NewlinesToSpaces(s), PIPE_ESCAPE, PIPE);
    TrimStartIs(z);
    TrimEndIs(TrimStart(z));
  }

  lemma {:induction false} NewlinesShorten(s: Text)
    ensures |NewlinesToSpaces(s)| <= |s|
    decreases |s|
  {
    if s == [] {
    } else if |s| > 1 && s[0] == CR && s[1] == LF {
      NewlinesShorten(s[2..]);
    } else {
      NewlinesShorten(s[1..]);
    }
  }

  predicate Plain(s: Text) {
    LF !in s && PIPE_ESCAPE !in s && Trimmed(s)
  }

  /***** Appending *****/

  predicate StartsWithId(line: Text, id: Text) {
    id + [SP] <= line
  }

  predicate HasLine(content: Text, id: Text) {
    exists line :: line in SplitLines(content) && StartsWithId(line, id)
  }

  /** `x` stands right after a line feed. */
  ghost predicate AfterLineFeed(content: Text, x: Text) {
    exists p :: 0 <= p < |content| && content[p] == 10 && x <= content[p + 1..]
  }

  lemma AfterLineFeedStep(u: Unit, rest: Text, x: Text)
    ensures AfterLineFeed([u] + rest, x) <==> (u == 10 && x <= rest) || AfterLineFeed(rest, x)
  {
    var content := [u] + rest;
    forall p | 0 <= p < |content| ensures content[p + 1..] == rest[p..] {}
    assert content[0] == u && content[1..] == rest;
    if u == 10 && x <= rest {
      assert content[0] == 10 && x <= content[0 + 1..];
    }
    if AfterLineFeed(rest, x) {
      var p :| 0 <= p < |rest| && rest[p] == 10 && x <= rest[p + 1..];
      assert content[p + 1..][1..] == content[p + 2..];
      assert content[p + 1] == 10 && x <= content[p + 2..];
    }
    if AfterLineFeed(content, x) {
      var p :| 0 <= p < |content| && content[p] == 10 && x <= content[p + 1..];
      assert p > 0 ==> rest[p - 1] == 10 && x <= rest[p..];
    }
  }

  ghost predicate LaterLineStarts(lines: seq<Text>, x: Text) {
    exists j :: 0 < j < |lines| && x <= lines[j]
  }

  lemma {:induction false} FirstLineStarts(content: Text, x: Text)
    requires 10 !in x
    ensures x <= SplitLines(content)[0] <==> x <= content
  {
    if content != [] && x != [] {
      assert x[0] in x;
      if content[0] != 10 && x[0] == content[0] {
        FirstLineStarts(content[1..], x[1..]);
        PrefixStep(x, SplitLines(content[1..])[0]);
        PrefixStep(x, content[1..]);
        assert [content[0]] + content[1..] == content;
      }
    }
  }

  lemma PrefixStep(x: Text, t: Text)
    requires x != []
    ensures x <= [x[0]] + t <==> x[1..] <= t
  {
    var y := [x[0]] + t;
    if x <= y {
      assert forall i :: 0 <= i < |x| - 1 ==> x[1..][i] == x[i + 1] == y[i + 1] == t[i];
    }
    if x[1..] <= t {
      assert forall i :: 0 < i < |x| ==> x[i] == x[1..][i - 1] == t[i - 1] == y[i];
    }
  }

  lemma {:induction false} LaterLineIff(content: Text, x: Text)
    requires 10 !in x && x != []
    ensures LaterLineStarts(SplitLines(content), x) <==> AfterLineFeed(content, x)
  {
    if content != [] {
      var rest := SplitLines(content[1..]);
      assert [content[0]] + content[1..] == content;
      AfterLineFeedStep(content[0], content[1..], x);
      LaterLineIff(content[1..], x);
      FirstLineStarts(content[1..], x);
      hide AfterLineFeed;
      if content[0] == 10 {
        LaterLineStep(rest, x);
      }
    }
  }

  lemma LaterLineStep(rest: seq<Text>, x: Text)
    requires rest != []
    ensures LaterLineStarts([[]] + rest, x) <==> x <= rest[0] || LaterLineStarts(rest, x)
  {
    var lines := [[]] + rest;
    if LaterLineStarts(rest, x) {
      var j :| 0 < j < |rest| && x <= rest[j];
      assert x <= lines[j + 1];
    }
    if x <= rest[0] {
      assert x <= lines[1];
    }
    if LaterLineStarts(lines, x) {
      var j :| 0 < j < |lines| && x <= lines[j];
      assert j > 1 ==> x <= rest[j - 1];
    }
  }

  /** A file has a line for an id if it starts with the id and a space, or has them after a line feed. */
  lemma HasLineIff(content: Text, id: Text)
    requires 10 !in id
    ensures HasLine(content, id) <==>
      (id + [32] <= content || exists p :: 0 <= p < |content| && content[p] == 10 && id + [32] <= content[p + 1..])
  {
    var lines, x := SplitLines(content), id + [32];
    FirstLineStarts(content, x);
    LaterLineIff(content, x);
    assert AfterLineFeed(content, x) <==> exists p :: 0 <= p < |content| && content[p] == 10 && x <= content[p + 1..];
    hide AfterLineFeed;
    if HasLine(content, id) {
      var line :| line in lines && StartsWithId(line, id);
      var j :| 0 <= j < |lines| && lines[j] == line;
      assert x <= lines[j];
    }
    if x <= lines[0] {
      assert lines[0] in lines && StartsWithId(lines[0], id);
    }
    if LaterLineStarts(lines, x) {
      var j :| 0 < j < |lines| && x <= lines[j];
      assert lines[j] in lines && StartsWithId(lines[j], id);
    }
  }

  /** What an append leaves in the file. */
  function Appended(content: Text, doc: Doc): Text {
    if HasLine(content, doc.id) then content else content + FormatCatalogLine(doc)
  }

  /** No id starts two lines, and the last line is complete. */
  ghost predicate OneLinePerId(content: Text) {
    && (content == [] || content[|content| - 1] == LF)
    && forall i, j, id :: 0 <= i < j < |SplitLines(content)| && ValidId(id)
         ==> !(StartsWithId(SplitLines(content)[i], id) && StartsWithId(SplitLines(content)[j], id))
  }

  class CatalogFile {
    const faulty: bool   // whether reading and writing the file can fail
    var content: Text

    constructor (faulty: bool)
      ensures content == [] && this.faulty == faulty
    {
      this.faulty, content := faulty, [];
    }

    /** Scans the lines for one that starts with the id and a space. */
    method ContainsDocId(id: Text) returns (found: bool)
      ensures found == HasLine(content, id)
    {
      var lines := SplitLines(content);
      for i := 0 to |lines|
        invariant forall line :: line in lines[..i] ==> !StartsWithId(line, id)
      {
        if id + [SP] <= lines[i] {
          assert lines[i] in lines && StartsWithId(lines[i], id);
          return true;
        }
        assert lines[..i + 1] == lines[..i] + [lines[i]];
      }
      assert lines[..|lines|] == lines;
      return false;
    }

    /** Appends the document's line unless there is one; `failed` when the write does not happen. */
    method AppendCatalogLine(doc: Doc) returns (failed: bool)
      modifies this
      ensures failed ==> faulty
      ensures content == if failed then old(content) else Appended(old(content), doc)
    {
      failed :| failed ==> faulty;
      if failed { return true; }
      var found := ContainsDocId(doc.id);
      if found { return false; }
      failed :| failed ==> faulty;
      if failed { return true; }
      content := content + FormatCatalogLine(doc);
      return false;
    }
  }

  /** `more` is `lines`, whose last line is empty, with `line` and a new empty line at the end. */
  predicate Extends(lines: seq<Text>, more: seq<Text>, line: Text) {
    lines != [] && lines[|lines| - 1] == [] && more == lines[..|lines| - 1] + [line, []]
  }

  lemma {:induction false} SplitLinesAppend(content: Text, line: Text)
    requires LF !in line && (content == [] || content[|content| - 1] == LF)
    ensures Extends(SplitLines(content), SplitLines(content + (line + [LF])), line)
  {
    var s := content + (line + [LF]);
    if content == [] {
      assert s == line + [LF] + [];
      SplitLinesFirst(line, []);
    } else {
      hide SplitLines, WithFirst, Extends;
      var rest := content[1..];
      assert s[1..] == rest + (line + [LF]);
      assert rest == [] || rest[|rest| - 1] == content[|content| - 1];
      SplitLinesAppend(rest, line);
      var lines, more := SplitLines(rest), SplitLines(s[1..]);
      if content[0] == LF {
        SplitAtLineFeed(content);
        SplitAtLineFeed(s);
        ExtendsPast(lines, more, line);
      } else {
        LinesAfterText(rest);
        SplitAtText(content);
        SplitAtText(s);
        ExtendsWith(lines, more, line, content[0]);
      }
    }
  }

  lemma ExtendsPast(lines: seq<Text>, more: seq<Text>, line: Text)
    requires Extends(lines, more, line)
    ensures Extends([[]] + lines, [[]] + more, line)
  {
  }

  lemma ExtendsWith(lines: seq<Text>, more: seq<Text>, line: Text, u: Unit)
    requires Extends(lines, more, line) && |lines| > 1
    ensures more != [] && Extends(WithFirst(lines, u), WithFirst(more, u), line)
  {
  }

  lemma SplitAtLineFeed(s: Text)
    requires s != [] && s[0] == LF
    ensures SplitLines(s) == [[]] + SplitLines(s[1..])
  {
  }

  lemma SplitAtText(s: Text)
    requires s != [] && s[0] != LF
    ensures SplitLines(s) == WithFirst(SplitLines(s[1..]), s[0])
  {
  }

  function WithFirst(lines: seq<Text>, u: Unit): seq<Text>
    requires lines != []
  {
    [[u] + lines[0]] + lines[1..]
  }

  lemma {:induction false} LinesAfterText(s: Text)
    requires s != [] && s[|s| - 1] == LF
    ensures |SplitLines(s)| > 1
  {
    if |s| > 1 {
      if s[0] != LF { LinesAfterText(s[1..]); }
    } else {
      assert s[1..] == [];
    }
  }

  /** Appends leave what was there untouched and never give an id a second line. */
  lemma AppendKeepsOneLinePerId(content: Text, doc: Doc)
    requires OneLinePerId(content) && ValidId(doc.id) && PlainWord(doc.ftype)
    ensures content <= Appended(content, doc)
    ensures OneLinePerId(Appended(content, doc))
    ensures HasLine(Appended(content, doc), doc.id)
  {
    if !HasLine(content, doc.id) {
      var line := LineOf(doc);
      LineFields(doc);
      SplitLinesAppend(content, line);
      var lines := SplitLines(content);
      var after := SplitLines(Appended(content, doc));
      var n := |lines| - 1;
      assert after[n] == line && after[n] in after && StartsWithId(line, doc.id);
      forall i, j, id | 0 <= i < j < |after| && ValidId(id)
        ensures !(StartsWithId(after[i], id) && StartsWithId(after[j], id))
      {
        if j < n {
          assert after[i] == lines[i] && after[j] == lines[j];
        } else if j == n {
          assert after[i] == lines[i] && lines[i] in lines;
          assert !StartsWithId(lines[i], doc.id);
          if StartsWithId(line, id) {
            assert line[..12] == id && line[..12] == doc.id;
          }
        }
      }
    }
  }

  /** A catalog built by any sequence of appends has at most one line per document. */
  function AppendAll(docs: seq<Doc>): Text {
    if docs == [] then [] else Appended(AppendAll(docs[..|docs| - 1]), docs[|docs| - 1])
  }

  lemma {:induction false} AppendsKeepOneLinePerId(docs: seq<Doc>)
    requires forall d :: d in docs ==> ValidId(d.id) && PlainWord(d.ftype)
    ensures OneLinePerId(AppendAll(docs))
    ensures forall d :: d in docs ==> HasLine(AppendAll(docs), d.id)
  {
    if docs != [] {
      var before, last := AppendAll(docs[..|docs| - 1]), docs[|docs| - 1];
      assert last in docs;
      AppendsKeepOneLinePerId(docs[..|docs| - 1]);
      AppendKeepsOneLinePerId(before, last);
      hide HasLine, OneLinePerId, Appended;
      forall d | d in docs ensures HasLine(Appended(before, last), d.id) {
        if d != last {
          assert d in docs[..|docs| - 1];
          PlainFields(d);
          LinesStay(before, Appended(before, last), d.id);
        }
      }
    }
  }

  /** A line stays when text is added at the end. */
  lemma LinesStay(content: Text, more: Text, id: Text)
    requires content <= more && 10 !in id && HasLine(content, id)
    ensures HasLine(more, id)
  {
    HasLineIff(content, id);
    HasLineIff(more, id);
    hide HasLine;
    if !(id + [32] <= content) {
      var p :| 0 <= p < |content| && content[p] == 10 && id + [32] <= content[p + 1..];
      assert content[p + 1..] <= more[p + 1..];
      assert more[p] == 10;
    }
  }
}
