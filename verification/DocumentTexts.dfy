/** Which texts the splitter takes for fences, underlines and headings, and what it makes of them. */
module DocumentTexts {
  import opened Outcomes
  import PyText
  import opened Documents
  import opened SetextHeadings
  import opened MarkdownFences
  import opened CommandBlocks
  import opened FencedSegments

  ghost predicate Spaces(s: string) {
    forall c | c in s :: PyText.IsSpace(c)
  }

  // ---- fences ----

  /** White space, then a run of so many marks, then something else or nothing. */
  ghost predicate IsFence(line: string, m: Marker, indent: string, rest: string) {
    && line == indent + PyText.Repeat(m.mark, m.length) + rest && Spaces(indent)
    && (m.mark == '`' || m.mark == '~') && m.length >= 3 && (rest == "" || rest[0] != m.mark)
  }

  lemma {:induction false} LeftSplit(s: string, t: string)
    requires t == PyText.StripLeft(s)
    ensures var k := |s| - |t|; 0 <= k && s[k..] == t && forall i | 0 <= i < k :: PyText.IsSpace(s[i])
  {
    if s != "" && PyText.IsSpace(s[0]) {
      LeftSplit(s[1..], t);
    }
  }

  lemma {:induction false} LeftStripped(indent: string, rest: string)
    requires Spaces(indent) && (rest == "" || !PyText.IsSpace(rest[0]))
    ensures PyText.StripLeft(indent + rest) == rest
  {
    if indent == "" {
      assert indent + rest == rest;
    } else {
      assert (indent + rest)[1..] == indent[1..] + rest;
      LeftStripped(indent[1..], rest);
    }
  }

  lemma {:induction false} RunOf(mark: char, n: nat, rest: string)
    requires rest == "" || rest[0] != mark
    ensures RunLength(PyText.Repeat(mark, n) + rest, mark) == n
  {
    var s := PyText.Repeat(mark, n) + rest;
    if n > 0 {
      assert s[1..] == PyText.Repeat(mark, n - 1) + rest;
      RunOf(mark, n - 1, rest);
    }
  }

  lemma RunSplits(t: string, mark: char)
    ensures var n := RunLength(t, mark); t[..n] == PyText.Repeat(mark, n) && (t[n..] == "" || t[n..][0] != mark)
  {
  }

  lemma FenceSplits(line: string, m: Marker)
    requires FenceOf(line) == Some(m)
    ensures exists indent, rest :: IsFence(line, m, indent, rest)
  {
    var t := PyText.StripLeft(line);
    LeftSplit(line, t);
    RunSplits(t, m.mark);
    FencePieces(line, |line| - |t|, m);
  }

  lemma FencePieces(line: string, k: nat, m: Marker)
    requires k <= |line| && m.length <= |line| - k && m.length >= 3 && (m.mark == '`' || m.mark == '~')
    requires (forall i | 0 <= i < k :: PyText.IsSpace(line[i])) && line[k..][..m.length] == PyText.Repeat(m.mark, m.length)
    requires line[k..][m.length..] == "" || line[k..][m.length..][0] != m.mark
    ensures exists indent, rest :: IsFence(line, m, indent, rest)
  {
    SplitAt(line, k, m.length);
    assert Spaces(line[..k]);
    assert IsFence(line, m, line[..k], line[k..][m.length..]);
  }

  lemma FenceFound(line: string, m: Marker, indent: string, rest: string)
    requires IsFence(line, m, indent, rest)
    ensures FenceOf(line) == Some(m)
  {
    var t := PyText.Repeat(m.mark, m.length) + rest;
    assert t[0] == m.mark && line == indent + t;
    LeftStripped(indent, t);
    RunOf(m.mark, m.length, rest);
  }

  /** A line is a fence exactly when, after white space, it starts with three or more back quotes or tildes; its marker
      is that character and how many of them there are. */
  lemma FenceExactly(line: string, m: Marker)
    ensures FenceOf(line) == Some(m) <==> exists indent, rest :: IsFence(line, m, indent, rest)
  {
    if FenceOf(line) == Some(m) {
      FenceSplits(line, m);
    }
    if indent, rest :| IsFence(line, m, indent, rest) {
      FenceFound(line, m, indent, rest);
    }
  }

  /** The line is a fence that ends a block opened by `m`: the same mark, at least as often. */
  predicate Ends(sx: Syntax, m: Marker, line: string) {
    sx.fence(line).Some? && sx.fence(line).value.mark == m.mark && sx.fence(line).value.length >= m.length
  }

  lemma {:induction false} OpenMeans(sx: Syntax, m: Marker, lines: seq<string>, n: nat)
    requires 0 < n <= |lines| && sx.fence(lines[0]) == Some(m)
    ensures (forall j | 0 < j <= n :: Scan(sx, None, lines[..j]) == Some(m)) <==> forall j | 0 < j < n :: !Ends(sx, m, lines[j])
  {
    if n == 1 {
      assert lines[..1] == [] + [lines[0]];
      ScanAppend(sx, None, [], lines[0]);
    } else {
      OpenMeans(sx, m, lines, n - 1);
      assert lines[..n] == lines[..n - 1] + [lines[n - 1]];
      ScanAppend(sx, None, lines[..n - 1], lines[n - 1]);
    }
  }

  /** A block stays open up to its last line exactly when it starts with its fence and no line between its first and its
      last ends it. */
  lemma BlockLines(sx: Syntax, m: Marker, lines: seq<string>)
    ensures StaysOpen(sx, m, lines) <==>
            lines != [] && sx.fence(lines[0]) == Some(m) && forall j | 0 < j < |lines| - 1 :: !Ends(sx, m, lines[j])
  {
    if lines != [] && sx.fence(lines[0]) == Some(m) && |lines| > 1 {
      OpenMeans(sx, m, lines, |lines| - 1);
    }
  }

  /** Such a block of several lines is closed exactly when its last line ends it, and one of a single line never is. */
  lemma BlockIsClosed(sx: Syntax, m: Marker, lines: seq<string>)
    requires StaysOpen(sx, m, lines)
    ensures Scan(sx, None, lines).None? <==> |lines| > 1 && Ends(sx, m, lines[|lines| - 1])
  {
    var n := |lines| - 1;
    assert lines == lines[..n] + [lines[n]];
    ScanAppend(sx, None, lines[..n], lines[n]);
    if n == 0 {
      assert lines[..0] == [];
    }
  }

  // ---- underlines ----

  ghost predicate IsLineOf(line: string, mark: char, n: nat, left: string, right: string) {
    line == left + PyText.Repeat(mark, n) + right && Spaces(left) && Spaces(right) && n > 0
  }

  lemma {:induction false} RightSplit(s: string, t: string)
    requires t == PyText.StripRight(s)
    ensures t <= s && forall i | |t| <= i < |s| :: PyText.IsSpace(s[i])
  {
    if s != "" && PyText.IsSpace(s[|s| - 1]) {
      RightSplit(s[..|s| - 1], t);
    }
  }

  lemma {:induction false} RightStripped(s: string, right: string)
    requires Spaces(right) && (s == "" || !PyText.IsSpace(s[|s| - 1]))
    ensures PyText.StripRight(s + right) == s
  {
    if right == "" {
      assert s + right == s;
    } else {
      var n := |right| - 1;
      assert (s + right)[..|s + right| - 1] == s + right[..n];
      RightStripped(s, right[..n]);
    }
  }

  lemma StripSplit(line: string)
    ensures exists left, right :: Surrounded(line, left, PyText.Strip(line), right)
  {
    var t := PyText.StripLeft(line);
    LeftSplit(line, t);
    RightSplit(t, PyText.Strip(line));
    StripPieces(line, |line| - |t|, PyText.Strip(line));
  }

  lemma StripPieces(line: string, k: nat, text: string)
    requires k <= |line| && text <= line[k..]
    requires (forall i | 0 <= i < k :: PyText.IsSpace(line[i])) && forall i | |text| <= i < |line| - k :: PyText.IsSpace(line[k..][i])
    ensures exists left, right :: Surrounded(line, left, text, right)
  {
    SplitAt(line, k, |text|);
    assert Spaces(line[..k]) && Spaces(line[k..][|text|..]);
    assert Surrounded(line, line[..k], text, line[k..][|text|..]);
  }

  lemma SplitAt(s: string, k: nat, n: nat)
    requires k <= |s| && n <= |s| - k
    ensures s == s[..k] + s[k..][..n] + s[k..][n..]
  {
  }

  ghost predicate Surrounded(line: string, left: string, text: string, right: string) {
    line == left + text + right && Spaces(left) && Spaces(right)
  }

  lemma StripBack(line: string, left: string, text: string, right: string)
    requires Surrounded(line, left, text, right) && text != "" && !PyText.IsSpace(text[0]) && !PyText.IsSpace(text[|text| - 1])
    ensures PyText.Strip(line) == text
  {
    assert line == left + (text + right) && (text + right)[0] == text[0];
    LeftStripped(left, text + right);
    RightStripped(text, right);
  }

  lemma StripExactly(line: string, mark: char, n: nat)
    requires !PyText.IsSpace(mark) && n > 0
    ensures PyText.Strip(line) == PyText.Repeat(mark, n) <==> exists left, right :: IsLineOf(line, mark, n, left, right)
  {
    var text := PyText.Repeat(mark, n);
    assert text[0] == mark && text[n - 1] == mark;
    StripSplit(line);
    if PyText.Strip(line) == text {
      var left, right :| Surrounded(line, left, text, right);
      assert IsLineOf(line, mark, n, left, right);
    }
    if left, right :| IsLineOf(line, mark, n, left, right) {
      StripBack(line, left, text, right);
    }
  }

  lemma AllMarks(t: string, mark: char)
    ensures RunLength(t, mark) == |t| <==> t == PyText.Repeat(mark, |t|)
  {
    if t == PyText.Repeat(mark, |t|) {
      RunOf(mark, |t|, "");
      assert t + "" == t;
    }
  }

  ghost predicate IsUnderline(line: string, level: nat, n: nat, left: string, right: string) {
    (level == 1 && IsLineOf(line, '=', n, left, right)) || (level == 2 && IsLineOf(line, '-', n, left, right))
  }

  /** A line underlines a heading of level one exactly when it is nothing but equals signs between white space, and one of
      level two exactly when it is nothing but hyphens. */
  lemma UnderlineExactly(line: string, level: nat)
    ensures UnderlineOf(line) == Some(level) <==> exists n, left, right :: IsUnderline(line, level, n, left, right)
  {
    var t := PyText.Strip(line);
    AllMarks(t, '=');
    AllMarks(t, '-');
    assert t != "" ==> PyText.Repeat('=', |t|)[0] == '=' && PyText.Repeat('-', |t|)[0] == '-';
    if UnderlineOf(line) == Some(level) {
      var mark := if level == 1 then '=' else '-';
      StripExactly(line, mark, |t|);
      var left, right :| IsLineOf(line, mark, |t|, left, right);
      assert IsUnderline(line, level, |t|, left, right);
    }
    if n: nat, left, right :| IsUnderline(line, level, n, left, right) {
      StripExactly(line, if level == 1 then '=' else '-', n);
    }
  }

  lemma StripEnding(title: string, ending: string)
    requires title != "" && !PyText.IsSpace(title[0]) && !PyText.IsSpace(title[|title| - 1]) && ending in {"\n", "\r\n"}
    ensures PyText.Strip(title + ending) == title && !PyText.IsBlank(title + ending)
    ensures EndsWith(title + ending, "\r\n") <==> ending == "\r\n"
  {
    assert (title + ending)[0] == title[0];
    RightStripped(title, ending);
    assert title[|title| - 1] != '\r';
  }

  /** A heading and its underline become one hash heading with the same line ending: of level one for equals signs, of
      level two for hyphens. */
  lemma UnderlinedPair(heading: string -> Option<Heading>, command: string -> bool, title: string, ending: string, mark: char, n: nat)
    requires title != "" && !PyText.IsSpace(title[0]) && !PyText.IsSpace(title[|title| - 1]) && ending in {"\n", "\r\n"}
    requires FenceOf(title + ending).None? && mark in {'=', '-'} && n > 0
    ensures Normalized(Markdown(heading, command), None, [title + ending, PyText.Repeat(mark, n)]) ==
            [(if mark == '=' then "#" else "##") + " " + title + ending]
  {
    StripEnding(title, ending);
    MarkedHeading(heading, command, title + ending, mark, n);
    HashHeading(title, ending, if mark == '=' then 1 else 2);
  }

  lemma HashHeading(title: string, ending: string, level: nat)
    requires level in {1, 2} && PyText.Strip(title + ending) == title && ending in {"\n", "\r\n"}
    requires EndsWith(title + ending, "\r\n") <==> ending == "\r\n"
    ensures AsHeading(title + ending, level) == (if level == 1 then "#" else "##") + " " + title + ending
  {
    assert PyText.Repeat('#', 1) == "#" && PyText.Repeat('#', 2) == "##";
  }

  lemma MarkedHeading(heading: string -> Option<Heading>, command: string -> bool, text: string, mark: char, n: nat)
    requires !PyText.IsBlank(text) && FenceOf(text).None? && mark in {'=', '-'} && n > 0
    ensures Normalized(Markdown(heading, command), None, [text, PyText.Repeat(mark, n)]) == [AsHeading(text, if mark == '=' then 1 else 2)]
  {
    var sx, line := Markdown(heading, command), PyText.Repeat(mark, n);
    assert line[n - 1] == mark && PyText.Chomp(line) == line;
    assert IsUnderline(line, if mark == '=' then 1 else 2, n, "", "");
    UnderlineExactly(line, if mark == '=' then 1 else 2);
    assert [text, line] == [text, line] + [];
    NormalizedPair(sx, None, text, line, []);
  }

  // ---- title paths ----

  /** A heading of level n keeps the n - 1 titles above it, or as many as there are, and puts its own behind them. */
  lemma TitlePath(path: seq<string>, h: Heading)
    requires h.level > 0
    ensures var longer := Retitled(path, h);
            && |longer| == (if h.level - 1 <= |path| then h.level else |path| + 1)
            && longer[|longer| - 1] == h.title && longer[..|longer| - 1] == path[..|longer| - 1]
  {
  }

  /** The sections are the chapters whose body is not white space, in order. */
  lemma KeptInOrder(chapters: seq<Chapter>, c: Chapter)
    ensures Kept([]) == []
    ensures Kept(chapters + [c]) ==
            if forall x | x in PyText.Concat(c.body) :: PyText.IsSpace(x) then Kept(chapters)
            else Kept(chapters) + [Section(c.path, PyText.Concat(c.body))]
  {
    assert (chapters + [c])[..|chapters|] == chapters;
    PyText.BlankMeansSpaces(PyText.Concat(c.body));
  }

  // ---- segments ----

  /** A segment is one of commands exactly when its block starts with a fence or a command, and its text is the lines of
      the block. */
  lemma SegmentKinds(sx: Syntax, lines: seq<string>, i: nat)
    requires i < |BlocksOf(sx, lines)|
    ensures var b, segments := BlocksOf(sx, lines)[i], RenderedAll(BlocksOf(sx, lines));
            && |segments| == |BlocksOf(sx, lines)| && b.lines != [] && segments[i].1 == PyText.Concat(b.lines)
            && (segments[i].0 == CliSegment <==> sx.fence(b.lines[0]).Some? || sx.command(b.lines[0]))
  {
    RenderedAt(BlocksOf(sx, lines), i);
    BlocksAreCut(sx, lines);
    var b := BlocksOf(sx, lines)[i];
    assert Uniform(sx, b);
    assert b.lines[0] in b.lines;
    match b case Prose(_) => case Commands(_) => case Fenced(_, _) =>
  }
}
