/** The whole way of a text: normalized, joined, split into lines again and cut into sections. */
module DocumentSplitting {
  import opened Outcomes
  import PyText
  import opened Documents
  import opened SetextHeadings
  import opened FencedBlocks
  import opened MarkdownFences

  // ---- joined lines are split again into the same lines ----

  predicate Terminated(line: string) {
    PyText.LineBody(line) < |line|
  }

  /** A line as `splitlines` gives it: text without breaks, then at most one terminator. */
  predicate WholeLine(line: string) {
    line != "" && PyText.LineLength(line) == |line|
  }

  /** A line that ends in a carriage return is not followed by one that starts with a line feed. */
  predicate Splits(line: string, next: string) {
    line != "" && next != "" && !(line[|line| - 1] == '\r' && next[0] == '\n')
  }

  predicate SplitLines(lines: seq<string>) {
    && (forall i | 0 <= i < |lines| :: WholeLine(lines[i]))
    && (forall i | 0 <= i < |lines| - 1 :: Terminated(lines[i]) && Splits(lines[i], lines[i + 1]))
  }

  lemma FirstLineIsWhole(s: string)
    requires s != ""
    ensures var n := PyText.LineLength(s);
            && WholeLine(s[..n])
            && (n < |s| ==> Terminated(s[..n]) && Splits(s[..n], s[n..]))
  {
    var n, b := PyText.LineLength(s), PyText.LineBody(s);
  }

  lemma SplitCons(line: string, rest: seq<string>)
    requires WholeLine(line) && SplitLines(rest)
    requires rest != [] ==> Terminated(line) && Splits(line, rest[0])
    ensures SplitLines([line] + rest)
  {
  }

  lemma {:induction false} KeepLinesSplit(s: string)
    ensures SplitLines(PyText.KeepLines(s))
    decreases |s|
  {
    if s != "" {
      var n := PyText.LineLength(s);
      var rest := PyText.KeepLines(s[n..]);
      FirstLineIsWhole(s);
      KeepLinesSplit(s[n..]);
      if n < |s| {
        assert rest[0][0] == s[n..][0];
      }
      SplitCons(s[..n], rest);
    }
  }

  lemma FirstLineOfJoined(line: string, rest: string)
    requires WholeLine(line) && (rest != "" ==> Terminated(line) && Splits(line, rest))
    ensures PyText.LineLength(line + rest) == |line|
  {
    var s, b := line + rest, PyText.LineBody(line);
    assert forall i | 0 <= i < |line| :: s[i] == line[i];
    if b == |line| {
      assert s == line;
    }
  }

  lemma {:induction false} SplitAgain(lines: seq<string>)
    requires SplitLines(lines)
    ensures PyText.KeepLines(PyText.Concat(lines)) == lines
    ensures lines != [] ==> PyText.Concat(lines) != "" && PyText.Concat(lines)[0] == lines[0][0]
  {
    if lines != [] {
      var line, rest := lines[0], PyText.Concat(lines[1..]);
      SplitAgain(lines[1..]);
      if rest != "" {
        assert lines[1..] != [] && lines[1..][0] == lines[1];
        assert Splits(lines[0], lines[1]);
      }
      FirstLineOfJoined(line, rest);
      assert (line + rest)[..|line|] == line && (line + rest)[|line|..] == rest;
    }
  }

  // ---- normalized lines are lines ----

  lemma {:induction false} StripRightDrops(s: string, t: string)
    requires forall c | c in t :: PyText.IsSpace(c)
    ensures PyText.StripRight(s + t) == PyText.StripRight(s)
    decreases |t|
  {
    if t == "" {
      assert s + t == s;
    } else {
      var last := |t| - 1;
      assert t[last] in t;
      assert (s + t)[..|s + t| - 1] == s + t[..last];
      StripRightDrops(s, t[..last]);
    }
  }

  lemma {:induction false} StripRightKeeps(s: string)
    ensures PyText.StripRight(s) <= s
  {
    if s != "" && PyText.IsSpace(s[|s| - 1]) {
      StripRightKeeps(s[..|s| - 1]);
    }
  }

  lemma TerminatorIsSpace(line: string)
    requires WholeLine(line)
    ensures forall c | c in line[PyText.LineBody(line)..] :: PyText.IsSpace(c)
  {
    var b := PyText.LineBody(line);
    var end := line[b..];
    forall c | c in end
      ensures PyText.IsSpace(c)
    {
      var i :| 0 <= i < |end| && end[i] == c;
      assert PyText.IsBreak(line[b + i]);
    }
  }

  lemma StripWithinBody(body: string, end: string)
    requires (forall c | c in end :: PyText.IsSpace(c)) && PyText.StripLeft(body) != ""
    ensures forall c | c in PyText.Strip(body + end) :: c in body
  {
    StripLeftOfPrefix(body, end);
    var t := PyText.StripLeft(body);
    StripRightDrops(t, end);
    StripRightKeeps(t);
    PyText.StripLeftSuffix(body);
  }

  lemma InkInBody(body: string, end: string)
    requires (forall c | c in end :: PyText.IsSpace(c)) && !PyText.IsBlank(body + end)
    ensures PyText.StripLeft(body) != ""
  {
    PyText.BlankMeansSpaces(body + end);
    PyText.StripLeftBlank(body);
    var c :| c in body + end && !PyText.IsSpace(c);
    assert c in body;
  }

  lemma StrippedHasNoBreaks(line: string)
    requires WholeLine(line) && !PyText.IsBlank(line)
    ensures forall c | c in PyText.Strip(line) :: !PyText.IsBreak(c)
  {
    var b := PyText.LineBody(line);
    var body, end := line[..b], line[b..];
    assert line == body + end;
    TerminatorIsSpace(line);
    InkInBody(body, end);
    StripWithinBody(body, end);
  }

  lemma EndedLine(p: string, end: string)
    requires forall c | c in p :: !PyText.IsBreak(c)
    requires end == "\n" || end == "\r\n"
    ensures WholeLine(p + end) && Terminated(p + end) && (p + end)[|p + end| - 1] == '\n'
  {
    var s := p + end;
    assert forall i | 0 <= i < |p| :: s[i] == p[i] && p[i] in p;
    assert s[|p|] == end[0];
  }

  lemma {:induction false} RepeatedChars(c: char, n: nat)
    ensures forall d | d in PyText.Repeat(c, n) :: d == c
  {
    if n > 0 {
      RepeatedChars(c, n - 1);
    }
  }

  lemma HeadingIsALine(line: string, level: nat)
    requires WholeLine(line) && !PyText.IsBlank(line)
    ensures var h := AsHeading(line, level);
            WholeLine(h) && Terminated(h) && h[|h| - 1] == '\n' && (h[0] == '#' || h[0] == ' ')
  {
    StrippedHasNoBreaks(line);
    RepeatedChars('#', level);
    var p := PyText.Repeat('#', level) + " " + PyText.Strip(line);
    assert forall c | c in p :: !PyText.IsBreak(c);
    EndedLine(p, if EndsWith(line, "\r\n") then "\r\n" else "\n");
  }

  lemma {:induction false} NormalizedAreLines(sx: Syntax, open: Option<Marker>, lines: seq<string>)
    requires SplitLines(lines)
    ensures var n := Normalized(sx, open, lines);
            SplitLines(n) && (n != [] ==> lines != [] && n[0] != "" && (n[0][0] == lines[0][0] || n[0][0] != '\n'))
    decreases |lines|
  {
    if lines != [] {
      var after := After(sx, open, lines[0]);
      if StartsUnderlined(sx, after, lines) {
        NormalizedAreLines(sx, after, lines[2..]);
        HeadingIsALine(lines[0], sx.underline(PyText.Chomp(lines[1])).value);
        SplitCons(HeadingFor(sx, lines[0], lines[1]), Normalized(sx, after, lines[2..]));
      } else {
        NormalizedAreLines(sx, after, lines[1..]);
        assert |lines| > 1 ==> Splits(lines[0], lines[1]) && lines[1..][0] == lines[1];
        SplitCons(lines[0], Normalized(sx, after, lines[1..]));
      }
    }
  }

  /** `_split_sections`: the sections are those of the normalized lines. */
  method SplitSections(sx: Syntax, text: string, fallback: string, initial: seq<string>)
    returns (sections: seq<Section>, path: seq<string>)
    ensures var chapters := ChaptersOfText(sx, text, if initial == [] then [fallback] else initial);
            sections == Kept(chapters) && path == chapters[|chapters| - 1].path
  {
    var normalized := Normalize(sx, text);
    KeepLinesSplit(text);
    NormalizedAreLines(sx, None, PyText.KeepLines(text));
    SplitAgain(Normalized(sx, None, PyText.KeepLines(text)));
    sections, path := CutSections(sx, PyText.KeepLines(normalized), fallback, initial);
  }

  ghost function ChaptersOfText(sx: Syntax, text: string, start: seq<string>): (chapters: seq<Chapter>)
    ensures chapters != []
  {
    ChaptersOf(sx, start, Normalized(sx, None, PyText.KeepLines(text)))
  }
}
