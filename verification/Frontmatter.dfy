/** Markdown with a YAML frontmatter block: parser, printer, and the fast stripper of the prompt path. */
module Frontmatter {
  import opened Wrappers

  type Fm = map<string, string>

  /** What loading a YAML block gives. */
  datatype Loaded = Null | Object(fm: Fm) | NotAnObject | Malformed

  datatype Yaml = Yaml(dump: Fm -> string, load: string -> Loaded)

  datatype Doc = Doc(body: string, fm: Fm)

  datatype ParseError = Unterminated | BadYaml | BadShape

  const DELIMITER := "---"

  /***** Lines *****/

  /** `split('\n')`. */
  function Lines(s: string): (r: seq<string>)
    ensures |r| >= 1
  {
    if s == "" then [""]
    else
      var rest := Lines(s[1..]);
      if s[0] == '\n' then [""] + rest else [[s[0]] + rest[0]] + rest[1..]
  }

  /** `join('\n')`. */
  function Join(lines: seq<string>): string {
    if lines == [] then ""
    else if |lines| == 1 then lines[0]
    else lines[0] + "\n" + Join(lines[1..])
  }

  lemma {:induction false} JoinLines(s: string)
    ensures Join(Lines(s)) == s
  {
    if s != "" {
      JoinLines(s[1..]);
      var rest := Lines(s[1..]);
      if s[0] == '\n' {
        assert Lines(s)[1..] == rest;
      } else if |rest| > 1 {
        assert Lines(s)[1..] == rest[1..];
      }
    }
  }

  lemma {:induction false} LinesConcat(a: string, b: string)
    ensures Lines(a + "\n" + b) == Lines(a) + Lines(b)
  {
    var s := a + "\n" + b;
    if a == "" {
      assert s[1..] == b;
    } else {
      assert s[1..] == a[1..] + "\n" + b;
      LinesConcat(a[1..], b);
    }
  }

  lemma {:induction false} NoNewlineOneLine(s: string)
    requires '\n' !in s
    ensures Lines(s) == [s]
  {
    if s != "" {
      assert s[0] in s && forall c :: c in s[1..] ==> c in s;
      NoNewlineOneLine(s[1..]);
      assert [s[0]] + s[1..] == s;
    }
  }

  /** The text after the first line. */
  lemma {:induction false} FirstLine(s: string)
    ensures |Lines(s)| > 1 ==> s == Lines(s)[0] + "\n" + Join(Lines(s)[1..]) && Lines(Join(Lines(s)[1..])) == Lines(s)[1..]
    ensures |Lines(s)| == 1 ==> Lines(s)[0] == s
    ensures '\n' !in Lines(s)[0]
  {
    JoinLines(s);
    if s != "" {
      FirstLine(s[1..]);
      var rest := Lines(s[1..]);
      if s[0] == '\n' {
        JoinLines(s[1..]);
        assert Lines(s)[1..] == rest;
      } else {
        assert Lines(s)[1..] == rest[1..];
      }
    }
  }

  /***** Parser and printer *****/

  /** The first index from `i` on whose line is exactly the delimiter, or the number of lines. */
  function FindClosing(lines: seq<string>, i: nat): (c: nat)
    requires i <= |lines|
    ensures i <= c <= |lines|
    ensures c < |lines| ==> lines[c] == DELIMITER
    ensures forall j :: i <= j < c ==> lines[j] != DELIMITER
    decreases |lines| - i
  {
    if i == |lines| || lines[i] == DELIMITER then i else FindClosing(lines, i + 1)
  }

  function Parse(text: string, y: Yaml): Result<Doc, ParseError> {
    var lines := Lines(text);
    if lines[0] != DELIMITER then Ok(Doc(text, map[]))
    else
      var c := FindClosing(lines, 1);
      if c == |lines| then Err(Unterminated)
      else
        var body := Join(lines[c + 1..]);
        match y.load(Join(lines[1..c]))
        case Malformed => Err(BadYaml)
        case NotAnObject => Err(BadShape)
        case Null => Ok(Doc(body, map[]))
        case Object(fm) => Ok(Doc(body, fm))
  }

  function Print(doc: Doc, y: Yaml): string {
    DELIMITER + "\n" + y.dump(doc.fm) + DELIMITER + "\n" + doc.body
  }

  /** Scans for the closing delimiter line by line. */
  method ParseMarkdownWithFrontmatter(text: string, y: Yaml) returns (r: Result<Doc, ParseError>)
    ensures r == Parse(text, y)
  {
    var lines := Lines(text);
    if lines[0] != DELIMITER {
      return Ok(Doc(text, map[]));
    }
    var closing: int := -1;
    var i := 1;
    while i < |lines|
      invariant 1 <= i <= |lines| && closing == -1
      invariant FindClosing(lines, 1) == FindClosing(lines, i)
    {
      if lines[i] == DELIMITER {
        closing := i;
        break;
      }
      i := i + 1;
    }
    if closing == -1 {
      return Err(Unterminated);
    }
    var body := Join(lines[closing + 1..]);
    match y.load(Join(lines[1..closing]))
    case Malformed => return Err(BadYaml);
    case NotAnObject => return Err(BadShape);
    case Null => return Ok(Doc(body, map[]));
    case Object(fm) => return Ok(Doc(body, fm));
  }

  /** What is relied on of the YAML library for the shape of what it prints. */
  ghost predicate WellShaped(y: Yaml, fm: Fm) {
    var d := y.dump(fm);
    && d != "" && d[|d| - 1] == '\n'
    && (forall line :: line in Lines(d) ==> line != DELIMITER)
  }

  /** The YAML block without its final newline. */
  function Block(doc: Doc, y: Yaml): string
    requires WellShaped(y, doc.fm)
  {
    y.dump(doc.fm)[..|y.dump(doc.fm)| - 1]
  }

  lemma BlockLines(doc: Doc, y: Yaml)
    requires WellShaped(y, doc.fm)
    ensures y.dump(doc.fm) == Block(doc, y) + "\n"
    ensures forall line :: line in Lines(Block(doc, y)) ==> line != DELIMITER
  {
    var d := Block(doc, y);
    assert y.dump(doc.fm) == d + "\n" + "";
    LinesConcat(d, "");
    forall line | line in Lines(d) ensures line != DELIMITER {
      assert line in Lines(y.dump(doc.fm));
    }
  }

  /** The lines of a printed document: the block's lines between delimiters, then the body's. */
  lemma PrintedLines(doc: Doc, y: Yaml)
    requires WellShaped(y, doc.fm)
    ensures Lines(Print(doc, y)) == [DELIMITER] + Lines(Block(doc, y)) + [DELIMITER] + Lines(doc.body)
    ensures FindClosing(Lines(Print(doc, y)), 1) == 1 + |Lines(Block(doc, y))|
  {
    hide Lines, WellShaped, Block;
    var d := Block(doc, y);
    BlockLines(doc, y);
    NoNewlineOneLine(DELIMITER);
    var tail := DELIMITER + "\n" + doc.body;
    assert Print(doc, y) == DELIMITER + "\n" + (d + "\n" + tail);
    LinesConcat(DELIMITER, d + "\n" + tail);
    LinesConcat(d, tail);
    LinesConcat(DELIMITER, doc.body);
    assert Lines(Print(doc, y)) == [DELIMITER] + (Lines(d) + ([DELIMITER] + Lines(doc.body)));
    FirstClosing(Lines(d), Lines(doc.body));
  }

  lemma FirstClosing(block: seq<string>, rest: seq<string>)
    requires forall line :: line in block ==> line != DELIMITER
    ensures FindClosing([DELIMITER] + block + [DELIMITER] + rest, 1) == 1 + |block|
  {
    var lines := [DELIMITER] + block + [DELIMITER] + rest;
    assert lines[1 + |block|] == DELIMITER;
    forall j | 1 <= j < 1 + |block| ensures lines[j] != DELIMITER {
      assert lines[j] == block[j - 1] && block[j - 1] in block;
    }
  }

  /** What the parser makes of a block it has found, with the body after it. */
  function Interpreted(loaded: Loaded, body: string): Result<Doc, ParseError> {
    match loaded
    case Malformed => Err(BadYaml)
    case NotAnObject => Err(BadShape)
    case Null => Ok(Doc(body, map[]))
    case Object(fm) => Ok(Doc(body, fm))
  }

  /** The library reads back the block without its last newline as what was printed. */
  predicate ReadsBack(y: Yaml, fm: Fm) {
    var d := y.dump(fm);
    d != "" && (y.load(d[..|d| - 1]) == Object(fm) || (y.load(d[..|d| - 1]) == Null && fm == map[]))
  }

  /** A printed document is taken apart at the right lines: the body comes back, whatever it contains. */
  lemma PrintedParses(doc: Doc, y: Yaml)
    requires WellShaped(y, doc.fm)
    ensures Parse(Print(doc, y), y) == Interpreted(y.load(Block(doc, y)), doc.body)
  {
    PrintedLines(doc, y);
    var d := Block(doc, y);
    var lines := Lines(Print(doc, y));
    var c := 1 + |Lines(d)|;
    assert lines[1..c] == Lines(d) && lines[c + 1..] == Lines(doc.body);
    JoinLines(d);
    JoinLines(doc.body);
  }

  /**
   * Parsing what was printed gives back the body byte for byte, whatever it contains, and the frontmatter
   * exactly when the library reads its own output back.
   */
  lemma RoundTrip(doc: Doc, y: Yaml)
    requires WellShaped(y, doc.fm)
    ensures Parse(Print(doc, y), y).Ok? ==> Parse(Print(doc, y), y).value.body == doc.body
    ensures Parse(Print(doc, y), y) == Ok(doc) <==> ReadsBack(y, doc.fm)
  {
    PrintedParses(doc, y);
    hide Parse, Print;
  }

  /** The classifier's rewrite of a body file. */
  function Rewrite(text: string, merge: Fm -> Fm, y: Yaml): Result<string, ParseError> {
    match Parse(text, y)
    case Err(e) => Err(e)
    case Ok(doc) => Ok(Print(doc.(fm := merge(doc.fm)), y))
  }

  /** Rewriting changes the frontmatter by the merge and leaves the body as it was. */
  lemma RewriteKeepsBody(text: string, merge: Fm -> Fm, y: Yaml)
    requires forall fm :: WellShaped(y, fm)
    ensures Parse(text, y).Ok? <==> Rewrite(text, merge, y).Ok?
    ensures Parse(text, y).Ok? ==>
      var doc := Parse(text, y).value; var again := Parse(Rewrite(text, merge, y).value, y);
      && (again.Ok? ==> again.value.body == doc.body)
      && (again == Ok(Doc(doc.body, merge(doc.fm))) <==> ReadsBack(y, merge(doc.fm)))
  {
    if Parse(text, y).Ok? {
      var doc := Parse(text, y).value;
      RoundTrip(doc.(fm := merge(doc.fm)), y);
    }
  }

  /***** The fast stripper *****/

  predicate At(s: string, pattern: string, j: nat) {
    j + |pattern| <= |s| && s[j..j + |pattern|] == pattern
  }

  /** `indexOf(pattern, i)`. */
  function IndexOf(s: string, pattern: string, i: nat): (k: int)
    ensures k == -1 || (i <= k && At(s, pattern, k))
    ensures forall j: nat :: i <= j && (k == -1 || j < k) ==> !At(s, pattern, j)
    decreases |s| - i
  {
    if i + |pattern| > |s| then -1
    else if At(s, pattern, i) then i
    else if i == |s| then -1
    else IndexOf(s, pattern, i + 1)
  }

  const OPENING := "---\n"
  const CLOSING := "\n---\n"

  function StripLeadingFrontmatter(text: string): string {
    if !(OPENING <= text) then text
    else
      var close := IndexOf(text, CLOSING, 4);
      if close == -1 then text else text[close + 5..]
  }

  /** The first line after line `i` that is the delimiter and is itself followed by a line. */
  function FindInner(lines: seq<string>, i: nat): (m: nat)
    requires i <= |lines|
    ensures i <= m <= |lines|
    ensures m < |lines| ==> m + 1 < |lines| && lines[m] == DELIMITER
    ensures forall j :: i <= j < m && j + 1 < |lines| ==> lines[j] != DELIMITER
    decreases |lines| - i
  {
    if i == |lines| then i
    else if i + 1 < |lines| && lines[i] == DELIMITER then i
    else FindInner(lines, i + 1)
  }

  /** Searching a suffix is searching the whole from there. */
  lemma IndexOfSuffix(s: string, pattern: string, n: nat)
    requires n <= |s|
    ensures IndexOf(s, pattern, n) == if IndexOf(s[n..], pattern, 0) == -1 then -1 else IndexOf(s[n..], pattern, 0) + n
  {
    var k, k' := IndexOf(s, pattern, n), IndexOf(s[n..], pattern, 0);
    forall j: nat ensures At(s[n..], pattern, j) <==> At(s, pattern, j + n) {
      if j + n + |pattern| <= |s| {
        assert s[n..][j..j + |pattern|] == s[j + n..j + n + |pattern|];
      }
    }
    if k != -1 {
      assert At(s[n..], pattern, k - n);
    }
    if k' != -1 {
      assert At(s, pattern, k' + n);
    }
  }

  /**
   * In a text, the first newline-delimiter-newline is the first delimiter line after the first line that
   * another line follows; what comes after it is the rest of the lines.
   */
  lemma {:induction false} IndexOfIsLine(t: string)
    ensures var lines := Lines(t); var m, k := FindInner(lines, 1), IndexOf(t, CLOSING, 0);
      && (k == -1 <==> m == |lines|)
      && (k != -1 ==> t[k + 5..] == Join(lines[m + 1..]))
    decreases |t|
  {
    hide FindInner, Join, Lines, IndexOf;
    var lines := Lines(t);
    FirstLine(t);
    var n := |lines[0]|;
    if |lines| == 1 {
      forall j: nat ensures !At(t, CLOSING, j) {
        ClosingStartsAtNewline(t, j);
        assert j < |t| ==> t[j] in t;
      }
    } else {
      var rest := Join(lines[1..]);
      assert t == lines[0] + "\n" + rest && t[n + 1..] == rest && t[n] == '\n' && t[..n] == lines[0];
      SkipFirstLine(t, n);
      if lines[1] == DELIMITER && |lines| > 2 {
        FollowedDelimiter(t, n, rest, lines[1..]);
      } else {
        NotHere(t, n, rest);
        IndexOfSuffix(t, CLOSING, n + 1);
        IndexOfIsLine(rest);
        ShiftInner(lines);
        var k := IndexOf(rest, CLOSING, 0);
        if k != -1 { assert t[k + n + 1 + 5..] == rest[k + 5..]; }
      }
    }
  }

  lemma FollowedDelimiter(t: string, n: nat, rest: string, lines: seq<string>)
    requires n < |t| && t[n] == '\n' && t[n + 1..] == rest && Lines(rest) == lines
    requires |lines| > 1 && lines[0] == DELIMITER
    ensures IndexOf(t, CLOSING, n) == n && t[n + 5..] == Join(lines[1..])
  {
    FirstLine(rest);
    assert rest == DELIMITER + "\n" + Join(lines[1..]);
    assert t[n..] == ['\n'] + rest;
    assert t[n..n + 5] == t[n..][..5] == CLOSING;
    assert t[n + 5..] == rest[4..];
  }

  /** An occurrence starts at a newline. */
  lemma ClosingStartsAtNewline(t: string, j: nat)
    ensures At(t, CLOSING, j) ==> t[j] == '\n'
  {
    if j + 5 <= |t| {
      assert t[j..j + 5][0] == t[j];
    }
  }

  lemma SkipFirstLine(t: string, n: nat)
    requires n < |t| && t[n] == '\n' && '\n' !in t[..n]
    ensures IndexOf(t, CLOSING, 0) == IndexOf(t, CLOSING, n)
  {
    forall j: nat | j < n ensures !At(t, CLOSING, j) {
      ClosingStartsAtNewline(t, j);
      assert t[j] in t[..n];
    }
  }

  /** The newline at `n` does not start an occurrence when the next line is not a followed delimiter. */
  lemma NotHere(t: string, n: nat, rest: string)
    requires n < |t| && t[n] == '\n' && t[n + 1..] == rest
    requires !(Lines(rest)[0] == DELIMITER && |Lines(rest)| > 1)
    ensures IndexOf(t, CLOSING, n) == IndexOf(t, CLOSING, n + 1)
  {
    OpeningLines(rest);
    if n + 5 <= |t| {
      assert t[n..n + 5][1..] == rest[..4] && CLOSING[1..] == OPENING;
    }
  }

  lemma OpeningLines(s: string)
    ensures OPENING <= s ==> Lines(s)[0] == DELIMITER && |Lines(s)| > 1
  {
    if OPENING <= s {
      assert s == DELIMITER + "\n" + s[4..];
      LinesConcat(DELIMITER, s[4..]);
      NoNewlineOneLine(DELIMITER);
    }
  }

  lemma ShiftInner(lines: seq<string>)
    requires |lines| > 1 && !(lines[1] == DELIMITER && |lines| > 2)
    ensures FindInner(lines, 1) == 1 + FindInner(lines[1..], 1)
    ensures FindInner(lines, 1) < |lines| ==> lines[FindInner(lines, 1) + 1..] == lines[1..][FindInner(lines[1..], 1) + 1..]
  {
    var m, m' := FindInner(lines, 1), FindInner(lines[1..], 1);
    if m < |lines| {
      assert m >= 2 && lines[1..][m - 1] == DELIMITER;
    }
    if m' < |lines| - 1 {
      assert lines[m' + 1] == DELIMITER;
    }
  }

  /** Whether a text has an opening delimiter line. */
  predicate HasOpening(text: string) {
    Lines(text)[0] == DELIMITER
  }

  /** A block that the stripper handles: not empty, and closed by a line that another line follows. */
  predicate RegularBlock(text: string) {
    var lines := Lines(text);
    var c := FindClosing(lines, 1);
    1 < c && c + 1 < |lines|
  }

  /** The body as the parser sees it, when the frontmatter block is terminated. */
  function BodyOf(text: string): Option<string> {
    var lines := Lines(text);
    if lines[0] != DELIMITER then Some(text)
    else
      var c := FindClosing(lines, 1);
      if c == |lines| then None else Some(Join(lines[c + 1..]))
  }

  lemma ParsedBody(text: string, y: Yaml)
    ensures Parse(text, y).Ok? ==> BodyOf(text) == Some(Parse(text, y).value.body)
    ensures BodyOf(text).None? <==> Parse(text, y) == Err(Unterminated)
  {
  }

  lemma StripByLines(text: string)
    requires HasOpening(text)
    ensures var lines := Lines(text);
      StripLeadingFrontmatter(text)
      == if |lines| == 1 || FindInner(lines, 2) == |lines| then text else Join(lines[FindInner(lines, 2) + 1..])
  {
    hide FindInner, IndexOf, StripLeadingFrontmatter, Lines, Join;
    var lines := Lines(text);
    FirstLine(text);
    if |lines| > 1 {
      var t := Join(lines[1..]);
      assert text == DELIMITER + "\n" + t == OPENING + t;
      StripOpened(t);
      IndexOfIsLine(t);
      InnerAfterFirst(lines);
    } else {
      assert text == DELIMITER;
      StripDelimiter();
    }
  }

  lemma StripOpened(t: string)
    ensures var k := IndexOf(t, CLOSING, 0);
      StripLeadingFrontmatter(OPENING + t) == if k == -1 then OPENING + t else t[k + 5..]
  {
    var text := OPENING + t;
    assert text[4..] == t;
    hide IndexOf;
    IndexOfSuffix(text, CLOSING, 4);
    var k := IndexOf(t, CLOSING, 0);
    if k != -1 {
      assert At(t, CLOSING, k);
      assert text[k + 4 + 5..] == t[k + 5..];
    }
  }

  lemma StripDelimiter()
    ensures StripLeadingFrontmatter(DELIMITER) == DELIMITER
  {
  }

  lemma InnerAfterFirst(lines: seq<string>)
    requires |lines| > 1
    ensures FindInner(lines, 2) == 1 + FindInner(lines[1..], 1)
    ensures FindInner(lines, 2) < |lines| ==> lines[1..][FindInner(lines[1..], 1) + 1..] == lines[FindInner(lines, 2) + 1..]
  {
    var m, m' := FindInner(lines, 2), FindInner(lines[1..], 1);
    if m < |lines| { assert lines[1..][m - 1] == DELIMITER; }
    if m' < |lines| - 1 { assert lines[m' + 1] == DELIMITER; }
  }

  /**
   * The stripper agrees with the parser exactly on texts without an opening delimiter and on regular
   * blocks; it differs on an empty block, on a closing delimiter in the last line, and on an
   * unterminated block.
   */
  lemma StripAgreesIff(text: string)
    ensures Some(StripLeadingFrontmatter(text)) == BodyOf(text) <==> !HasOpening(text) || RegularBlock(text)
  {
    var lines := Lines(text);
    if !HasOpening(text) {
      OpeningLines(text);
    } else {
      StripByLines(text);
      var c := FindClosing(lines, 1);
      if RegularBlock(text) {
        assert FindInner(lines, 2) == c;
      } else if c < |lines| {
        JoinLines(text);
        var m := if |lines| == 1 then 1 else FindInner(lines, 2);
        if m < |lines| {
          JoinDrop(lines, c + 1, m + 1);
        } else {
          JoinDrop(lines, 0, c + 1);
        }
      }
    }
  }

  /** An empty block: the parser finds the body, the stripper leaves the whole text. */
  lemma EmptyBlockDiffers(body: string)
    requires '\n' !in body
    ensures var text := DELIMITER + "\n" + DELIMITER + "\n" + body;
      BodyOf(text) == Some(body) && StripLeadingFrontmatter(text) == text
  {
    hide Lines, StripLeadingFrontmatter;
    ThreeLines(DELIMITER, DELIMITER, body);
    StripByLines(DELIMITER + "\n" + DELIMITER + "\n" + body);
    assert [DELIMITER, DELIMITER, body][2..] == [body];
  }

  /** A closing delimiter in the last line: the parser finds an empty body, the stripper leaves the text. */
  lemma LastLineDiffers(block: string)
    requires '\n' !in block && block != DELIMITER
    ensures var text := DELIMITER + "\n" + block + "\n" + DELIMITER;
      BodyOf(text) == Some("") && StripLeadingFrontmatter(text) == text
  {
    hide Lines, StripLeadingFrontmatter;
    ThreeLines(DELIMITER, block, DELIMITER);
    StripByLines(DELIMITER + "\n" + block + "\n" + DELIMITER);
    var lines := [DELIMITER, block, DELIMITER];
    assert lines[2] == DELIMITER && lines[3..] == [];
  }

  /** No closing delimiter: the parser fails, the stripper leaves the text. */
  lemma UnterminatedDiffers(block: string)
    requires '\n' !in block && block != DELIMITER
    ensures var text := DELIMITER + "\n" + block; BodyOf(text).None? && StripLeadingFrontmatter(text) == text
  {
    hide Lines, StripLeadingFrontmatter;
    TwoLines(DELIMITER, block);
    StripByLines(DELIMITER + "\n" + block);
  }

  lemma TwoLines(a: string, b: string)
    requires '\n' !in a && '\n' !in b
    ensures Lines(a + "\n" + b) == [a, b]
  {
    LinesConcat(a, b);
    NoNewlineOneLine(a);
    NoNewlineOneLine(b);
  }

  lemma ThreeLines(a: string, b: string, c: string)
    requires '\n' !in a && '\n' !in b && '\n' !in c
    ensures Lines(a + "\n" + b + "\n" + c) == [a, b, c]
  {
    assert a + "\n" + b + "\n" + c == a + "\n" + (b + "\n" + c);
    LinesConcat(a, b + "\n" + c);
    NoNewlineOneLine(a);
    TwoLines(b, c);
  }

  /** Dropping more lines from a non-empty rest leaves a strictly shorter text. */
  lemma {:induction false} JoinDrop(lines: seq<string>, i: nat, j: nat)
    requires i < j <= |lines|
    ensures |Join(lines[j..])| <= |Join(lines[i..])|
    ensures i + 1 < |lines| || lines[i] != "" ==> |Join(lines[j..])| < |Join(lines[i..])|
    decreases j - i
  {
    assert lines[i..][1..] == lines[i + 1..];
    if i + 1 < j {
      JoinDrop(lines, i + 1, j);
    }
  }

  /** On everything the printer writes, the stripper returns the body. */
  lemma StripPrinted(doc: Doc, y: Yaml)
    requires WellShaped(y, doc.fm)
    ensures StripLeadingFrontmatter(Print(doc, y)) == doc.body
  {
    var text := Print(doc, y);
    PrintedLines(doc, y);
    PrintedBody(doc, y);
    StripAgreesIff(text);
  }

  lemma PrintedBody(doc: Doc, y: Yaml)
    requires WellShaped(y, doc.fm)
    ensures BodyOf(Print(doc, y)) == Some(doc.body)
    ensures HasOpening(Print(doc, y)) && RegularBlock(Print(doc, y))
  {
    PrintedLines(doc, y);
    hide Print, WellShaped, Block;
    var d := Block(doc, y);
    var lines := Lines(Print(doc, y));
    assert lines[|Lines(d)| + 2..] == Lines(doc.body);
    JoinLines(doc.body);
  }
}
