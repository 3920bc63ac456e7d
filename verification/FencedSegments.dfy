/** What becomes of the fenced blocks of a text: each is one command segment of one section, unless an underline
    follows the fence that closes it. */
module FencedSegments {
  import opened Outcomes
  import PyText
  import opened Documents
  import opened CommandBlocks
  import opened FencedBlocks
  import opened SetextHeadings
  import opened MarkdownFences
  import opened DocumentSplitting

  // ---- bodies are lines of the text ----

  lemma {:induction false} FlattenConcat(a: seq<Chapter>, b: seq<Chapter>)
    ensures Flatten(a + b) == Flatten(a) + Flatten(b)
    decreases |b|
  {
    if b == [] {
      assert a + b == a;
    } else {
      var n := |b| - 1;
      FlattenConcat(a, b[..n]);
      FlattenSnoc(b[..n], b[n]);
      FlattenSnoc(a + b[..n], b[n]);
      assert b == b[..n] + [b[n]];
      Assoc(a, b[..n], [b[n]]);
      Assoc(Flatten(a), Flatten(b[..n]), ChapterLines(b[n]));
    }
  }

  lemma BodyIsSlice(chapters: seq<Chapter>, k: nat) returns (from: nat)
    requires k < |chapters|
    ensures from + |chapters[k].body| <= |Flatten(chapters)|
    ensures Flatten(chapters)[from..from + |chapters[k].body|] == chapters[k].body
  {
    var c := chapters[k];
    var before := Flatten(chapters[..k]);
    assert chapters == chapters[..k] + [c] + chapters[k + 1..];
    FlattenConcat(chapters[..k] + [c], chapters[k + 1..]);
    FlattenSnoc(chapters[..k], c);
    from := |before| + |ChapterLines(c)| - |c.body|;
  }

  /** A section's text is split into the lines of its chapter's body. */
  lemma BodySplitsAgain(chapters: seq<Chapter>, k: nat)
    requires k < |chapters| && SplitLines(Flatten(chapters))
    ensures PyText.KeepLines(PyText.Concat(chapters[k].body)) == chapters[k].body
  {
    var from := BodyIsSlice(chapters, k);
    SplitAgain(chapters[k].body);
  }

  lemma {:induction false} ConcatChars(parts: seq<string>, i: nat)
    requires i < |parts|
    ensures forall c | c in parts[i] :: c in PyText.Concat(parts)
    decreases i
  {
    if i > 0 {
      assert parts[1..][i - 1] == parts[i];
      ConcatChars(parts[1..], i - 1);
    }
  }

  lemma FenceShows(sx: Syntax, body: seq<string>, i: nat)
    requires Visible(sx) && i < |body| && sx.fence(body[i]).Some?
    ensures !PyText.IsBlank(PyText.Concat(body))
  {
    PyText.BlankMeansSpaces(body[i]);
    ConcatChars(body, i);
    PyText.BlankMeansSpaces(PyText.Concat(body));
  }

  /** The section that a chapter becomes. */
  predicate Becomes(c: Chapter, s: Section) {
    s == Section(c.path, PyText.Concat(c.body)) && !PyText.IsBlank(s.text)
  }

  lemma KeptStep(chapters: seq<Chapter>, m: nat, s: Section)
    requires m < |chapters| && (s in Kept(chapters[..m]) || Becomes(chapters[m], s))
    ensures s in Kept(chapters[..m + 1])
  {
    assert chapters[..m + 1][..m] == chapters[..m];
  }

  ghost predicate IsKept(chapters: seq<Chapter>, m: nat, s: Section)
    requires m <= |chapters|
  {
    s in Kept(chapters[..m])
  }

  lemma {:induction false} KeptHas(chapters: seq<Chapter>, k: nat, m: nat, s: Section)
    requires k < m <= |chapters| && Becomes(chapters[k], s)
    ensures IsKept(chapters, m, s)
    decreases m
  {
    if k < m - 1 {
      KeptHas(chapters, k, m - 1, s);
    }
    KeptStep(chapters, m - 1, s);
  }

  lemma {:induction false} RenderedAt(blocks: seq<Block>, j: nat)
    requires j < |blocks|
    ensures |RenderedAll(blocks)| == |blocks| && RenderedAll(blocks)[j] == Rendered(blocks[j])
    decreases |blocks|
  {
    var n := |blocks| - 1;
    if j < n {
      RenderedAt(blocks[..n], j);
    } else if n > 0 {
      RenderedAt(blocks[..n], 0);
    }
  }

  // ---- one block, one segment ----

  /** A section whose text holds a fenced block as its segment `j`. */
  ghost predicate HasSegment(sx: Syntax, section: Section, j: nat, m: Marker, block: seq<string>) {
    var blocks := BlocksOf(sx, PyText.KeepLines(section.text));
    && j < |blocks| && blocks[j] == Fenced(m, block)
    && |RenderedAll(blocks)| == |blocks| && RenderedAll(blocks)[j] == (CliSegment, PyText.Concat(block))
  }

  lemma BodyHasSegment(sx: Syntax, c: Chapter, at: nat, m: Marker, block: seq<string>) returns (j: nat)
    requires Holds(sx, c, at, m, block)
    ensures PyText.KeepLines(PyText.Concat(c.body)) == c.body ==>
              HasSegment(sx, Section(c.path, PyText.Concat(c.body)), j, m, block)
  {
    var blocks := BlocksOf(sx, c.body);
    BlocksAreCut(sx, c.body);
    assert c.body == c.body[..at] + block + c.body[at + |block|..];
    j := NoBlockIsCut(sx, blocks, c.body[..at], m, block, c.body[at + |block|..]);
    RenderedAt(blocks, j);
  }

  lemma ChaptersHaveSegment(sx: Syntax, chapters: seq<Chapter>, pre: seq<string>, m: Marker, block: seq<string>, post: seq<string>)
    returns (section: Section, j: nat)
    requires Visible(sx) && Separate(sx, chapters) && SplitLines(Flatten(chapters))
    requires Flatten(chapters) == pre + block + post && FencedBetween(sx, pre, m, block, post)
    ensures section in Kept(chapters) && HasSegment(sx, section, j, m, block)
  {
    NoBlockSpansSections(sx, chapters, pre, m, block, post);
    var k: nat, at: nat :| LiesIn(sx, chapters, k, at, |pre|, m, block);
    var c := chapters[k];
    BodySplitsAgain(chapters, k);
    assert c.body[at..at + |block|][0] == c.body[at];
    FenceShows(sx, c.body, at);
    section := Section(c.path, PyText.Concat(c.body));
    KeptHas(chapters, k, |chapters|, section);
    assert chapters[..|chapters|] == chapters;
    j := BodyHasSegment(sx, c, at, m, block);
  }

  /** Wherever a fenced block lies in the normalized lines of a text, it is one command segment of one section. */
  lemma BlockBecomesSegment(sx: Syntax, text: string, start: seq<string>,
                            pre: seq<string>, m: Marker, block: seq<string>, post: seq<string>)
    returns (section: Section, j: nat)
    requires Visible(sx) && FencedBetween(sx, pre, m, block, post)
    ensures Normalized(sx, None, PyText.KeepLines(text)) == pre + block + post ==>
              section in Kept(ChaptersOfText(sx, text, start)) && HasSegment(sx, section, j, m, block)
  {
    if Normalized(sx, None, PyText.KeepLines(text)) != pre + block + post {
      return Section([], ""), 0;
    }
    var chapters := ChaptersOfText(sx, text, start);
    ChaptersAreCut(sx, start, Normalized(sx, None, PyText.KeepLines(text)));
    CutChaptersAreSeparate(sx, chapters, start);
    KeepLinesSplit(text);
    NormalizedAreLines(sx, None, PyText.KeepLines(text));
    section, j := ChaptersHaveSegment(sx, chapters, pre, m, block, post);
  }

  // ---- the blocks of the text itself ----

  /** The fence lines before a block leave none open, without the closing fences that underlines turn into headings. */
  predicate Settled(sx: Syntax, pre: seq<string>) {
    Scan(sx, None, Survivors(sx, None, pre)).None?
  }

  /** The block is closed, and an underline follows. */
  predicate EndsUnderlined(sx: Syntax, block: seq<string>, post: seq<string>) {
    Scan(sx, None, block).None? && post != [] && sx.underline(PyText.Chomp(post[0])).Some?
  }

  /** Lines before a fenced block are normalized on their own. */
  lemma NormalizedBefore(sx: Syntax, pre: seq<string>, m: Marker, block: seq<string>, post: seq<string>)
    requires Plain(sx) && FencedBetween(sx, pre, m, block, post)
    ensures Normalized(sx, None, pre + block + post) == Normalized(sx, None, pre) + Normalized(sx, None, block + post)
  {
    Assoc(pre, block, post);
    assert (block + post)[0] == block[0];
    NormalizedConcat(sx, None, pre, block + post);
  }

  /** A block of the text is a block of the normalized lines, between what its surroundings become. */
  ghost predicate StaysBlock(sx: Syntax, pre: seq<string>, m: Marker, block: seq<string>, post: seq<string>) {
    var before, rest := Normalized(sx, None, pre), Normalized(sx, Scan(sx, None, block), post);
    Normalized(sx, None, pre + block + post) == before + block + rest && FencedBetween(sx, before, m, block, rest)
  }

  /** A block of the text whose closing fence is not followed by an underline is a block of the normalized lines,
      when the fences that survive before it leave nothing open. */
  lemma BlockSurvives(sx: Syntax, pre: seq<string>, m: Marker, block: seq<string>, post: seq<string>)
    requires Plain(sx) && FencedBetween(sx, pre, m, block, post)
    requires Settled(sx, pre) && !EndsUnderlined(sx, block, post)
    ensures StaysBlock(sx, pre, m, block, post)
  {
    NormalizedBefore(sx, pre, m, block, post);
    KeptWhileOpen(sx, None, block, post);
    SurvivorsDecide(sx, pre);
    Assoc(Normalized(sx, None, pre), block, Normalized(sx, Scan(sx, None, block), post));
  }

  /** A closing fence that an underline follows becomes a heading; a block before which the surviving fences
      leave nothing open is still open after it. */
  lemma BlockNeverEnds(sx: Syntax, pre: seq<string>, m: Marker, block: seq<string>, post: seq<string>)
    requires Plain(sx) && Visible(sx) && FencedBetween(sx, pre, m, block, post) && EndsUnderlined(sx, block, post)
    ensures var n := |block| - 1;
            var kept := Normalized(sx, None, pre) + (block[..n] + [HeadingFor(sx, block[n], post[0])]);
            && Normalized(sx, None, pre + block + post) == kept + Normalized(sx, None, post[1..])
            && (Settled(sx, pre) ==> Scan(sx, None, kept) == Some(m))
  {
    var n := |block| - 1;
    var h, rest := HeadingFor(sx, block[n], post[0]), Normalized(sx, None, post[1..]);
    NormalizedBefore(sx, pre, m, block, post);
    ClosingLine(sx, m, block);
    ClosingLost(sx, m, block, post);
    StillOpen(sx, pre, m, block[..n], h);
    Assoc(Normalized(sx, None, pre), block[..n] + [h], rest);
  }

  /** A fenced block of a text is a block of its normalized lines if and only if the fences that survive before it
      leave nothing open and no underline follows its closing fence. */
  lemma BlockStaysExactly(sx: Syntax, pre: seq<string>, m: Marker, block: seq<string>, post: seq<string>)
    requires Plain(sx) && Visible(sx) && FencedBetween(sx, pre, m, block, post)
    ensures StaysBlock(sx, pre, m, block, post) <==> Settled(sx, pre) && !EndsUnderlined(sx, block, post)
  {
    SurvivorsDecide(sx, pre);
    if EndsUnderlined(sx, block, post) {
      var n := |block| - 1;
      var h, before := HeadingFor(sx, block[n], post[0]), Normalized(sx, None, pre);
      BlockNeverEnds(sx, pre, m, block, post);
      ClosingLine(sx, m, block);
      LineDiffers(before, block[..n], h, Normalized(sx, None, post[1..]), block, Normalized(sx, None, post));
    } else if Settled(sx, pre) {
      BlockSurvives(sx, pre, m, block, post);
    }
  }

  lemma LineDiffers<T>(before: seq<T>, inner: seq<T>, h: T, rest: seq<T>, block: seq<T>, rest': seq<T>)
    requires |block| == |inner| + 1 && block[|inner|] != h
    ensures before + (inner + [h]) + rest != before + block + rest'
  {
    var k := |before| + |inner|;
    assert (before + (inner + [h]) + rest)[k] == h && (before + block + rest')[k] == block[|inner|];
  }

  lemma CutBeforeLast<T>(a: seq<T>, b: seq<T>)
    requires a != [] && b != []
    ensures a + b == a[..|a| - 1] + ([a[|a| - 1], b[0]] + b[1..])
  {
  }

  lemma ClosingLost(sx: Syntax, m: Marker, block: seq<string>, post: seq<string>)
    requires Visible(sx) && StaysOpen(sx, m, block) && |block| > 1
    requires var n := |block| - 1;
             Scan(sx, None, block[..n]) == Some(m) && After(sx, Some(m), block[n]).None? && sx.fence(block[n]).Some?
    requires post != [] && sx.underline(PyText.Chomp(post[0])).Some?
    ensures var n := |block| - 1;
            Normalized(sx, None, block + post) ==
            block[..n] + [HeadingFor(sx, block[n], post[0])] + Normalized(sx, None, post[1..])
  {
    var n := |block| - 1;
    var inner, line, rest := block[..n], block[n], post[1..];
    var tail := [line, post[0]] + rest;
    CutBeforeLast(block, post);
    forall j | 0 < j < n
      ensures Scan(sx, None, inner[..j]).Some?
    {
      assert inner[..j] == block[..j];
    }
    KeptWhileOpen(sx, None, inner, tail);
    NormalizedPair(sx, Some(m), line, post[0], rest);
    Assoc(inner, [HeadingFor(sx, line, post[0])], Normalized(sx, None, rest));
  }

  /** A closed block has more than one line, and its last one closes it. */
  lemma ClosingLine(sx: Syntax, m: Marker, block: seq<string>)
    requires StaysOpen(sx, m, block) && Scan(sx, None, block).None?
    ensures var n := |block| - 1;
            n > 0 && Scan(sx, None, block[..n]) == Some(m) && After(sx, Some(m), block[n]).None? && sx.fence(block[n]).Some?
  {
    var n := |block| - 1;
    assert block == block[..n] + [block[n]];
    ScanAppend(sx, None, block[..n], block[n]);
  }

  lemma StillOpen(sx: Syntax, pre: seq<string>, m: Marker, inner: seq<string>, h: string)
    requires Plain(sx) && Scan(sx, None, inner) == Some(m) && sx.fence(h).None?
    ensures Settled(sx, pre) ==> Scan(sx, None, Normalized(sx, None, pre) + (inner + [h])) == Some(m)
  {
    SurvivorsDecide(sx, pre);
    ScanConcat(sx, None, Normalized(sx, None, pre), inner + [h]);
    ScanAppend(sx, None, inner, h);
  }

  /** Wherever a fenced block lies in a text, it is one command segment of one of the text's sections, when no
      underline follows its closing fence and the fences that survive before it leave no block open. */
  lemma FencedBlockIsOneSegment(heading: string -> Option<Heading>, command: string -> bool, text: string, start: seq<string>,
                                pre: seq<string>, m: Marker, block: seq<string>, post: seq<string>)
    returns (section: Section, j: nat)
    requires var sx := Markdown(heading, command);
             && PyText.KeepLines(text) == pre + block + post && FencedBetween(sx, pre, m, block, post)
             && Settled(sx, pre) && !EndsUnderlined(sx, block, post)
    ensures var sx := Markdown(heading, command);
            section in Kept(ChaptersOfText(sx, text, start)) && HasSegment(sx, section, j, m, block)
  {
    var sx := Markdown(heading, command);
    MarkdownIsPlain(heading, command);
    MarkdownIsVisible(heading, command);
    BlockSurvives(sx, pre, m, block, post);
    section, j := BlockBecomesSegment(sx, text, start, Normalized(sx, None, pre), m, block, Normalized(sx, Scan(sx, None, block), post));
  }

  // ---- all fences ----

  function SectionLines(sections: seq<Section>): seq<string> {
    if sections == [] then []
    else SectionLines(sections[..|sections| - 1]) + PyText.KeepLines(sections[|sections| - 1].text)
  }

  lemma {:induction false} FenceLinesConcat(sx: Syntax, a: seq<string>, b: seq<string>)
    ensures FenceLines(sx, a + b) == FenceLines(sx, a) + FenceLines(sx, b)
    decreases |a|
  {
    if a == [] {
      assert a + b == b;
    } else {
      assert (a + b)[0] == a[0] && (a + b)[1..] == a[1..] + b;
      FenceLinesConcat(sx, a[1..], b);
    }
  }

  lemma {:induction false} NoFenceLines(sx: Syntax, lines: seq<string>)
    requires forall i | 0 <= i < |lines| :: sx.fence(lines[i]).None?
    ensures FenceLines(sx, lines) == []
    decreases |lines|
  {
    if lines != [] {
      NoFenceLines(sx, lines[1..]);
    }
  }

  lemma BlankBodyHasNoFences(sx: Syntax, body: seq<string>)
    requires Visible(sx) && PyText.IsBlank(PyText.Concat(body))
    ensures FenceLines(sx, body) == []
  {
    forall i | 0 <= i < |body|
      ensures sx.fence(body[i]).None?
    {
      if sx.fence(body[i]).Some? {
        FenceShows(sx, body, i);
      }
    }
    NoFenceLines(sx, body);
  }

  lemma ChapterFences(sx: Syntax, c: Chapter)
    requires c.heading.Some? ==> OutsideFence(sx, c.heading.value)
    ensures FenceLines(sx, ChapterLines(c)) == FenceLines(sx, c.body)
  {
    if c.heading.Some? {
      assert ChapterLines(c)[1..] == c.body;
    } else {
      assert ChapterLines(c) == c.body;
    }
  }

  lemma LastSection(sections: seq<Section>, path: seq<string>, body: seq<string>)
    requires PyText.KeepLines(PyText.Concat(body)) == body
    ensures SectionLines(Flushed(sections, path, body)) ==
            if PyText.IsBlank(PyText.Concat(body)) then SectionLines(sections) else SectionLines(sections) + body
  {
    var s := Section(path, PyText.Concat(body));
    assert (sections + [s])[..|sections|] == sections;
  }

  lemma LastFences(sx: Syntax, sections: seq<Section>, before: seq<string>, c: Chapter)
    requires Visible(sx) && PyText.KeepLines(PyText.Concat(c.body)) == c.body
    requires c.heading.Some? ==> OutsideFence(sx, c.heading.value)
    requires FenceLines(sx, SectionLines(sections)) == FenceLines(sx, before)
    ensures FenceLines(sx, SectionLines(Flushed(sections, c.path, c.body))) == FenceLines(sx, before + ChapterLines(c))
  {
    ChapterFences(sx, c);
    FenceLinesConcat(sx, before, ChapterLines(c));
    LastSection(sections, c.path, c.body);
    if PyText.IsBlank(PyText.Concat(c.body)) {
      BlankBodyHasNoFences(sx, c.body);
    } else {
      FenceLinesConcat(sx, SectionLines(sections), c.body);
    }
  }

  ghost predicate PlainHeadings(sx: Syntax, chapters: seq<Chapter>) {
    forall i | 0 <= i < |chapters| :: chapters[i].heading.Some? ==> OutsideFence(sx, chapters[i].heading.value)
  }

  lemma FirstLinesSplit(chapters: seq<Chapter>, n: nat)
    requires |chapters| == n + 1 && SplitLines(Flatten(chapters))
    ensures SplitLines(Flatten(chapters[..n]))
  {
    var before := Flatten(chapters[..n]);
    assert Flatten(chapters)[0..|before|] == before;
  }

  /** The sections of a text hold all fence lines of its chapters. */
  lemma {:induction false} KeptFences(sx: Syntax, chapters: seq<Chapter>)
    requires Visible(sx) && SplitLines(Flatten(chapters)) && PlainHeadings(sx, chapters)
    ensures FenceLines(sx, SectionLines(Kept(chapters))) == FenceLines(sx, Flatten(chapters))
    decreases |chapters|
  {
    if chapters != [] {
      var n := |chapters| - 1;
      var before := Flatten(chapters[..n]);
      FirstLinesSplit(chapters, n);
      KeptFences(sx, chapters[..n]);
      BodySplitsAgain(chapters, n);
      LastFences(sx, Kept(chapters[..n]), before, chapters[n]);
    }
  }

  /** The sections of a text hold its own fence lines, all of them in order, exactly when no closing fence of the
      text is directly followed by an underline. */
  lemma SectionsKeepFences(heading: string -> Option<Heading>, command: string -> bool, text: string, start: seq<string>)
    ensures var sx, lines := Markdown(heading, command), PyText.KeepLines(text);
            FenceLines(sx, SectionLines(Kept(ChaptersOfText(sx, text, start)))) == FenceLines(sx, lines) <==>
            !ClosesAboveUnderline(sx, None, lines)
  {
    var sx, lines := Markdown(heading, command), PyText.KeepLines(text);
    MarkdownIsPlain(heading, command);
    MarkdownIsVisible(heading, command);
    var chapters := ChaptersOfText(sx, text, start);
    ChaptersAreCut(sx, start, Normalized(sx, None, lines));
    CutChaptersAreSeparate(sx, chapters, start);
    KeepLinesSplit(text);
    NormalizedAreLines(sx, None, lines);
    KeptFences(sx, chapters);
    FencesSurvive(sx, None, lines);
  }
}
