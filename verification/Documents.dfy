/** Splitting a document: set-ext headings are normalized, the lines are cut at headings into sections, and each
    section is cut into prose and command blocks, both without cutting a fenced block. */
module Documents {
  import opened Outcomes
  import PyText

  datatype Marker = Marker(mark: char, length: nat)

  datatype Heading = Heading(level: nat, title: string)

  /** How a line is read: as a fence, a heading, an underline of the line before, or a command. */
  datatype Syntax = Syntax(
    fence: string -> Option<Marker>,
    heading: string -> Option<Heading>,
    underline: string -> Option<nat>,
    command: string -> bool)

  // ---- fences ----

  ghost predicate Visible(sx: Syntax) {
    forall line :: sx.fence(line).Some? ==> !PyText.IsBlank(line)
  }

  /** A fence opens a block, or closes the open one if its mark is the same and it is at least as long. */
  function After(sx: Syntax, open: Option<Marker>, line: string): Option<Marker> {
    var m := sx.fence(line);
    if m.None? then open
    else if open.None? then m
    else if m.value.mark == open.value.mark && m.value.length >= open.value.length then None
    else open
  }

  /** The block that is open after some lines. */
  function Scan(sx: Syntax, open: Option<Marker>, lines: seq<string>): Option<Marker>
    decreases |lines|
  {
    if lines == [] then open else Scan(sx, After(sx, open, lines[0]), lines[1..])
  }

  lemma {:induction false} ScanAppend(sx: Syntax, open: Option<Marker>, lines: seq<string>, line: string)
    ensures Scan(sx, open, lines + [line]) == After(sx, Scan(sx, open, lines), line)
    decreases |lines|
  {
    if lines == [] {
      assert (lines + [line])[1..] == [];
    } else {
      assert (lines + [line])[1..] == lines[1..] + [line];
      ScanAppend(sx, After(sx, open, lines[0]), lines[1..], line);
    }
  }

  // ---- sections ----

  /** The lines under one heading: the heading line itself, unless the text starts here, the titles that lead to
      it, and the body. */
  datatype Chapter = Chapter(heading: Option<string>, path: seq<string>, body: seq<string>)

  datatype Section = Section(path: seq<string>, text: string)

  function HeadingOf(sx: Syntax, open: Option<Marker>, line: string): Option<Heading> {
    if sx.fence(line).None? && open.None? then sx.heading(PyText.Chomp(line)) else None
  }

  /** `title_path[level - 1:] = [title]` */
  function Retitled(path: seq<string>, h: Heading): seq<string> {
    var keep := if h.level == 0 then 0 else h.level - 1;
    (if keep <= |path| then path[..keep] else path) + [h.title]
  }

  /** No line is a heading outside the fenced blocks. */
  predicate Quiet(sx: Syntax, open: Option<Marker>, lines: seq<string>)
    decreases |lines|
  {
    lines == [] || (HeadingOf(sx, open, lines[0]).None? && Quiet(sx, After(sx, open, lines[0]), lines[1..]))
  }

  lemma {:induction false} QuietAppend(sx: Syntax, open: Option<Marker>, lines: seq<string>, line: string)
    requires Quiet(sx, open, lines) && HeadingOf(sx, Scan(sx, open, lines), line).None?
    ensures Quiet(sx, open, lines + [line])
    decreases |lines|
  {
    if lines != [] {
      assert (lines + [line])[1..] == lines[1..] + [line];
      QuietAppend(sx, After(sx, open, lines[0]), lines[1..], line);
    }
  }

  function ChapterLines(c: Chapter): seq<string> {
    (if c.heading.Some? then [c.heading.value] else []) + c.body
  }

  function Flatten(chapters: seq<Chapter>): seq<string> {
    if chapters == [] then [] else Flatten(chapters[..|chapters| - 1]) + ChapterLines(chapters[|chapters| - 1])
  }

  /** A body becomes a section unless it is white space. */
  function Flushed(sections: seq<Section>, path: seq<string>, body: seq<string>): seq<Section> {
    if PyText.IsBlank(PyText.Concat(body)) then sections else sections + [Section(path, PyText.Concat(body))]
  }

  /** The chapters that become sections. */
  function Kept(chapters: seq<Chapter>): seq<Section> {
    if chapters == [] then []
    else Flushed(Kept(chapters[..|chapters| - 1]), chapters[|chapters| - 1].path, chapters[|chapters| - 1].body)
  }

  /** A later chapter starts with a heading line that is not a fence, and takes its path from it. */
  predicate Follows(sx: Syntax, previous: Chapter, next: Chapter) {
    && Scan(sx, None, previous.body).None?
    && next.heading.Some?
    && var h := HeadingOf(sx, None, next.heading.value);
       h.Some? && next.path == Retitled(previous.path, h.value)
  }

  /** Chapters cut at every heading outside fenced blocks and nowhere else; no block spans two of them. */
  predicate CutAtHeadings(sx: Syntax, chapters: seq<Chapter>, path: seq<string>) {
    && chapters != [] && chapters[0].heading.None? && chapters[0].path == path
    && (forall i | 0 <= i < |chapters| :: Quiet(sx, None, chapters[i].body))
    && (forall i | 0 < i < |chapters| :: Follows(sx, chapters[i - 1], chapters[i]))
  }

  /** The chapters with one line more: a new chapter at a heading, otherwise a longer body. */
  ghost function AddLine(sx: Syntax, chapters: seq<Chapter>, line: string): seq<Chapter>
    requires chapters != []
  {
    var last := chapters[|chapters| - 1];
    var h := HeadingOf(sx, Scan(sx, None, last.body), line);
    if h.Some? then chapters + [Chapter(Some(line), Retitled(last.path, h.value), [])]
    else chapters[..|chapters| - 1] + [last.(body := last.body + [line])]
  }

  /** The chapters of some lines. */
  ghost function ChaptersOf(sx: Syntax, start: seq<string>, lines: seq<string>): (chapters: seq<Chapter>)
    ensures chapters != []
  {
    if lines == [] then [Chapter(None, start, [])]
    else AddLine(sx, ChaptersOf(sx, start, lines[..|lines| - 1]), lines[|lines| - 1])
  }

  lemma GrowLast(sx: Syntax, chapters: seq<Chapter>, path: seq<string>, line: string)
    requires CutAtHeadings(sx, chapters, path)
    requires HeadingOf(sx, Scan(sx, None, chapters[|chapters| - 1].body), line).None?
    ensures var longer := AddLine(sx, chapters, line);
            CutAtHeadings(sx, longer, path) && Flatten(longer) == Flatten(chapters) + [line]
            && longer[..|longer| - 1] == chapters[..|chapters| - 1]
  {
    var last := chapters[|chapters| - 1];
    QuietAppend(sx, None, last.body, line);
  }

  lemma AddLineKeeps(sx: Syntax, chapters: seq<Chapter>, path: seq<string>, line: string)
    requires CutAtHeadings(sx, chapters, path)
    ensures CutAtHeadings(sx, AddLine(sx, chapters, line), path)
    ensures Flatten(AddLine(sx, chapters, line)) == Flatten(chapters) + [line]
  {
    if HeadingOf(sx, Scan(sx, None, chapters[|chapters| - 1].body), line).None? {
      GrowLast(sx, chapters, path, line);
    }
  }

  /** The chapters, flattened, are the lines, and they are cut at every heading outside fenced blocks and nowhere
      else. */
  lemma {:induction false} ChaptersAreCut(sx: Syntax, start: seq<string>, lines: seq<string>)
    ensures CutAtHeadings(sx, ChaptersOf(sx, start, lines), start) && Flatten(ChaptersOf(sx, start, lines)) == lines
  {
    if lines != [] {
      var n := |lines| - 1;
      ChaptersAreCut(sx, start, lines[..n]);
      AddLineKeeps(sx, ChaptersOf(sx, start, lines[..n]), start, lines[n]);
      assert lines[..n] + [lines[n]] == lines;
    }
  }

  // ---- there is only one way to cut ----

  lemma {:induction false} QuietPrefix(sx: Syntax, open: Option<Marker>, lines: seq<string>, line: string)
    requires Quiet(sx, open, lines + [line])
    ensures Quiet(sx, open, lines) && HeadingOf(sx, Scan(sx, open, lines), line).None?
    decreases |lines|
  {
    if lines != [] {
      assert (lines + [line])[0] == lines[0] && (lines + [line])[1..] == lines[1..] + [line];
      QuietPrefix(sx, After(sx, open, lines[0]), lines[1..], line);
    }
  }

  lemma FlattenSnoc(chapters: seq<Chapter>, c: Chapter)
    ensures Flatten(chapters + [c]) == Flatten(chapters) + ChapterLines(c)
  {
    assert (chapters + [c])[..|chapters|] == chapters;
  }

  /** Taking the last line off a body undoes adding it. */
  lemma BodyShrinks(sx: Syntax, first: seq<Chapter>, c: Chapter, line: string, start: seq<string>)
    requires CutAtHeadings(sx, first + [c.(body := c.body + [line])], start)
    ensures exists fewer :: CutAtHeadings(sx, fewer, start) && AddLine(sx, fewer, line) == first + [c.(body := c.body + [line])]
  {
    var longer, less := first + [c.(body := c.body + [line])], first + [c];
    assert longer[|first|] == c.(body := c.body + [line]);
    QuietPrefix(sx, None, c.body, line);
    assert forall i | 0 <= i < |first| :: less[i] == longer[i];
    assert less[..|first|] == first;
    assert CutAtHeadings(sx, less, start) && AddLine(sx, less, line) == longer;
  }

  /** A chapter without a body was started by its heading. */
  lemma HeadingStarts(sx: Syntax, first: seq<Chapter>, c: Chapter, start: seq<string>)
    requires CutAtHeadings(sx, first + [c], start) && first != [] && c.body == []
    ensures exists line :: c.heading == Some(line) && CutAtHeadings(sx, first, start) && AddLine(sx, first, line) == first + [c]
  {
    var n := |first|;
    var all := first + [c];
    assert all[n] == c && all[n - 1] == first[n - 1];
    assert Follows(sx, all[n - 1], all[n]);
    assert forall i | 0 <= i < n :: first[i] == all[i];
    assert AddLine(sx, first, c.heading.value) == first + [c];
  }

  /** Chapters with lines are chapters of one line less, with that line added. */
  lemma LastLine(sx: Syntax, start: seq<string>, chapters: seq<Chapter>)
    requires CutAtHeadings(sx, chapters, start) && chapters != [Chapter(None, start, [])]
    ensures exists fewer, line :: CutAtHeadings(sx, fewer, start) && AddLine(sx, fewer, line) == chapters
  {
    var n := |chapters| - 1;
    var first, c := chapters[..n], chapters[n];
    assert chapters == first + [c];
    if c.body != [] {
      var m := |c.body| - 1;
      var less := c.(body := c.body[..m]);
      assert c.body == less.body + [c.body[m]];
      BodyShrinks(sx, first, less, c.body[m], start);
    } else {
      HeadingStarts(sx, first, c, start);
    }
  }

  /** Any chapters cut like that are the chapters of their lines. */
  lemma {:induction false} OneWayToCut(sx: Syntax, start: seq<string>, chapters: seq<Chapter>)
    requires CutAtHeadings(sx, chapters, start)
    ensures chapters == ChaptersOf(sx, start, Flatten(chapters))
    decreases |Flatten(chapters)|
  {
    if chapters == [Chapter(None, start, [])] {
      FlattenSnoc([], Chapter(None, start, []));
    } else {
      LastLine(sx, start, chapters);
      var fewer, line :| CutAtHeadings(sx, fewer, start) && AddLine(sx, fewer, line) == chapters;
      AddLineKeeps(sx, fewer, start, line);
      OneWayToCut(sx, start, fewer);
      var lines := Flatten(chapters);
      assert lines[..|lines| - 1] == Flatten(fewer);
    }
  }

  // ---- the splitter ----

  /** What the splitter has collected: finished sections, and the path, body and open fence of the current one. */
  datatype Outline = Outline(sections: seq<Section>, path: seq<string>, body: seq<string>, open: Option<Marker>)

  predicate Outlines(sx: Syntax, o: Outline, chapters: seq<Chapter>) {
    && chapters != []
    && var last := chapters[|chapters| - 1];
       && last.body == o.body && last.path == o.path && o.open == Scan(sx, None, o.body)
       && o.sections == Kept(chapters[..|chapters| - 1])
  }

  /** What one line does. */
  function OutlineLine(sx: Syntax, o: Outline, line: string): Outline {
    var h := HeadingOf(sx, o.open, line);
    if h.Some? then Outline(Flushed(o.sections, o.path, o.body), Retitled(o.path, h.value), [], o.open)
    else Outline(o.sections, o.path, o.body + [line], After(sx, o.open, line))
  }

  lemma TakeLine(sx: Syntax, o: Outline, chapters: seq<Chapter>, line: string)
    requires Outlines(sx, o, chapters)
    ensures Outlines(sx, OutlineLine(sx, o, line), AddLine(sx, chapters, line))
  {
    var longer := AddLine(sx, chapters, line);
    if HeadingOf(sx, o.open, line).Some? {
      assert longer[..|longer| - 1] == chapters;
    } else {
      assert longer[..|longer| - 1] == chapters[..|chapters| - 1];
      ScanAppend(sx, None, o.body, line);
    }
  }

  method CutSections(sx: Syntax, lines: seq<string>, fallback: string, initial: seq<string>)
    returns (sections: seq<Section>, path: seq<string>)
    ensures var chapters := ChaptersOf(sx, if initial == [] then [fallback] else initial, lines);
            sections == Kept(chapters) && path == chapters[|chapters| - 1].path
  {
    sections, path := [], if initial == [] then [fallback] else initial;
    ghost var start := path;
    var body: seq<string> := [];
    var open: Option<Marker> := None;
    for i := 0 to |lines|
      invariant Outlines(sx, Outline(sections, path, body, open), ChaptersOf(sx, start, lines[..i]))
    {
      var line := lines[i];
      assert lines[..i + 1][..i] == lines[..i];
      TakeLine(sx, Outline(sections, path, body, open), ChaptersOf(sx, start, lines[..i]), line);
      var heading := HeadingOf(sx, open, line);
      if heading.Some? {
        sections := Flushed(sections, path, body);
        body, path := [], Retitled(path, heading.value);
      } else {
        open, body := After(sx, open, line), body + [line];
      }
    }
    sections := Flushed(sections, path, body);
    assert lines[..|lines|] == lines;
  }
}
