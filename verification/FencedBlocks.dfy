/** What the two cuts mean for a whole document: nothing is lost, and no fenced block is cut. */
module FencedBlocks {
  import opened Outcomes
  import PyText
  import opened Documents
  import opened CommandBlocks

  /** A fenced block between other lines: it opens where nothing is open, stays open to its last line, and is
      closed there unless the text ends. */
  ghost predicate FencedBetween(sx: Syntax, pre: seq<string>, m: Marker, block: seq<string>, post: seq<string>) {
    && Scan(sx, None, pre).None? && StaysOpen(sx, m, block)
    && (post == [] || Scan(sx, None, block).None?)
  }

  lemma {:induction false} ScanConcat(sx: Syntax, open: Option<Marker>, a: seq<string>, b: seq<string>)
    ensures Scan(sx, open, a + b) == Scan(sx, Scan(sx, open, a), b)
    decreases |a|
  {
    if a == [] {
      assert a + b == b;
    } else {
      assert (a + b)[1..] == a[1..] + b;
      ScanConcat(sx, After(sx, open, a[0]), a[1..], b);
    }
  }

  /** Two ways of cutting the same sequence. */
  lemma Overlap<T>(a: seq<T>, b: seq<T>, c: seq<T>, d: seq<T>)
    requires a + b == c + d
    ensures |a| <= |c| ==> c[..|a|] == a && b == c[|a|..] + d
    ensures |a| < |c| ==> b != [] && c[|a|] == b[0] && c[|a|] in c
  {
    var all := a + b;
    assert a == all[..|a|] && b == all[|a|..];
    if |a| <= |c| {
      assert c[..|a|] == all[..|a|];
      assert c[|a|..] + d == (c + d)[|a|..];
    }
  }

  /** A first piece of a text either ends before a block in it starts, or reaches into the block. */
  lemma PieceAndBlock<T>(piece: seq<T>, rest: seq<T>, pre: seq<T>, block: seq<T>, post: seq<T>)
    requires piece + rest == pre + block + post && block != []
    ensures |piece| <= |pre| ==>
              && pre[..|piece|] == piece && pre == piece + pre[|piece|..]
              && rest == pre[|piece|..] + block + post && rest != []
    ensures |pre| < |piece| ==>
              && piece[..|pre|] == pre && piece == pre + piece[|pre|..] && piece[|pre|] == block[0] && piece[|pre|] in piece
              && (|piece| - |pre| < |block| ==> block[..|piece| - |pre|] == piece[|pre|..] && rest != [])
              && (|block| <= |piece| - |pre| ==> piece[|pre|..|pre| + |block|] == block)
  {
    assert pre + block + post == pre + (block + post);
    Overlap(piece, rest, pre, block + post);
    Overlap(pre, block + post, piece, rest);
    if |piece| <= |pre| {
      assert pre[|piece|..] + (block + post) == pre[|piece|..] + block + post;
    } else {
      var tail := piece[|pre|..];
      assert piece[|pre|] == (block + post)[0];
      Overlap(tail, rest, block, post);
      Overlap(block, post, tail, rest);
      assert |block| <= |tail| ==> piece[|pre|..|pre| + |block|] == tail[..|block|];
    }
  }

  // ---- segments ----

  lemma {:induction false} LinesOfFirst(blocks: seq<Block>)
    requires blocks != []
    ensures LinesOf(blocks) == blocks[0].lines + LinesOf(blocks[1..])
  {
    var last := |blocks| - 1;
    if last > 0 {
      LinesOfFirst(blocks[..last]);
      assert blocks[..last][1..] == blocks[1..][..last - 1];
    } else {
      assert blocks[..last] == [] && blocks[1..] == [];
    }
  }

  lemma {:induction false} NoFenceNoChange(sx: Syntax, lines: seq<string>)
    requires forall line | line in lines :: OutsideFence(sx, line)
    ensures Scan(sx, None, lines).None?
    decreases |lines|
  {
    if lines != [] {
      assert lines[0] in lines;
      NoFenceNoChange(sx, lines[1..]);
    }
  }

  lemma ClosedBlockScans(sx: Syntax, b: Block)
    requires Uniform(sx, b) && Closed(sx, b)
    ensures Scan(sx, None, b.lines).None?
  {
    if !b.Fenced? {
      NoFenceNoChange(sx, b.lines);
    }
  }

  lemma FirstBlockMatches(sx: Syntax, blocks: seq<Block>, m: Marker, block: seq<string>, post: seq<string>)
    requires blocks != [] && CutAtFences(sx, blocks) && LinesOf(blocks) == block + post
    requires FencedBetween(sx, [], m, block, post)
    ensures blocks[0] == Fenced(m, block)
  {
    LinesOfFirst(blocks);
    var b, rest := blocks[0], LinesOf(blocks[1..]);
    Overlap(b.lines, rest, block, post);
    Overlap(block, post, b.lines, rest);
    assert b.lines[0] == block[0] && b.lines[0] in b.lines;
    var k := if |block| < |b.lines| then |block| else |b.lines|;
    assert block[..k] == b.lines[..k] && block[..|block|] == block && b.lines[..|b.lines|] == b.lines;
    assert |blocks| == 1 ==> rest == [];
    assert |b.lines| == |block|;
  }

  lemma SkipFirstBlock(sx: Syntax, blocks: seq<Block>, pre: seq<string>, m: Marker, block: seq<string>, post: seq<string>)
    requires blocks != [] && CutAtFences(sx, blocks) && LinesOf(blocks) == pre + block + post && pre != []
    requires FencedBetween(sx, pre, m, block, post)
    ensures |blocks[0].lines| <= |pre| && pre[..|blocks[0].lines|] == blocks[0].lines
    ensures CutAtFences(sx, blocks[1..]) && LinesOf(blocks[1..]) == pre[|blocks[0].lines|..] + block + post
    ensures FencedBetween(sx, pre[|blocks[0].lines|..], m, block, post)
  {
    LinesOfFirst(blocks);
    var b := blocks[0];
    PieceAndBlock(b.lines, LinesOf(blocks[1..]), pre, block, post);
    assert blocks[1..] != [];
    PrecedingBlock(sx, b, pre, m, block, post);
  }

  lemma PrecedingBlock(sx: Syntax, b: Block, pre: seq<string>, m: Marker, block: seq<string>, post: seq<string>)
    requires Uniform(sx, b) && Closed(sx, b) && FencedBetween(sx, pre, m, block, post)
    requires |b.lines| <= |pre| && pre == b.lines + pre[|b.lines|..]
    ensures FencedBetween(sx, pre[|b.lines|..], m, block, post)
  {
    ClosedBlockScans(sx, b);
    ScanConcat(sx, None, b.lines, pre[|b.lines|..]);
  }

  /** However a fenced block lies in a text, it is one segment of its own. */
  lemma {:induction false} NoBlockIsCut(sx: Syntax, blocks: seq<Block>, pre: seq<string>, m: Marker, block: seq<string>, post: seq<string>)
    returns (k: nat)
    requires CutAtFences(sx, blocks) && LinesOf(blocks) == pre + block + post
    requires FencedBetween(sx, pre, m, block, post)
    ensures k < |blocks| && LinesOf(blocks[..k]) == pre && blocks[k] == Fenced(m, block)
    decreases |blocks|
  {
    if pre == [] {
      assert pre + block + post == block + post;
      FirstBlockMatches(sx, blocks, m, block, post);
      k := 0;
    } else {
      SkipFirstBlock(sx, blocks, pre, m, block, post);
      var n := |blocks[0].lines|;
      var j := NoBlockIsCut(sx, blocks[1..], pre[n..], m, block, post);
      k := j + 1;
      LinesOfFirst(blocks[..k]);
      assert blocks[..k][1..] == blocks[1..][..j];
    }
  }

  function TextOf(segments: seq<Segment>): string {
    if segments == [] then "" else TextOf(segments[..|segments| - 1]) + segments[|segments| - 1].1
  }

  /** The segments of a text, joined, are the text. */
  lemma {:induction false} SegmentsLossless(blocks: seq<Block>)
    ensures TextOf(RenderedAll(blocks)) == PyText.Concat(LinesOf(blocks))
  {
    if blocks != [] {
      var rest := blocks[..|blocks| - 1];
      SegmentsLossless(rest);
      PyText.ConcatAppend(LinesOf(rest), blocks[|blocks| - 1].lines);
    }
  }

  /** `_split_cli_blocks` on a text. */
  method SplitCliBlocks(sx: Syntax, text: string) returns (segments: seq<Segment>)
    ensures segments == RenderedAll(BlocksOf(sx, PyText.KeepLines(text)))
    ensures TextOf(segments) == text
  {
    segments := CutBlocks(sx, PyText.KeepLines(text));
    SegmentsLossless(BlocksOf(sx, PyText.KeepLines(text)));
    BlocksAreCut(sx, PyText.KeepLines(text));
    PyText.KeepLinesLossless(text);
  }

  // ---- sections ----

  lemma {:induction false} FlattenFirst(chapters: seq<Chapter>)
    requires chapters != []
    ensures Flatten(chapters) == ChapterLines(chapters[0]) + Flatten(chapters[1..])
  {
    var last := |chapters| - 1;
    if last > 0 {
      FlattenFirst(chapters[..last]);
      assert chapters[..last][1..] == chapters[1..][..last - 1];
    } else {
      assert chapters[..last] == [] && chapters[1..] == [];
    }
  }

  /** Chapters whose bodies leave no block open, except perhaps the last, and whose headings are not fences. */
  predicate Separate(sx: Syntax, chapters: seq<Chapter>) {
    && (forall i | 0 <= i < |chapters| - 1 :: Scan(sx, None, chapters[i].body).None?)
    && (forall i | 0 <= i < |chapters| :: chapters[i].heading.Some? ==> OutsideFence(sx, chapters[i].heading.value))
  }

  lemma CutChaptersAreSeparate(sx: Syntax, chapters: seq<Chapter>, path: seq<string>)
    requires CutAtHeadings(sx, chapters, path)
    ensures Separate(sx, chapters)
  {
    forall i | 0 <= i < |chapters| - 1
      ensures Scan(sx, None, chapters[i].body).None?
    {
      assert Follows(sx, chapters[i], chapters[i + 1]);
    }
    forall i | 0 <= i < |chapters|
      ensures chapters[i].heading.Some? ==> OutsideFence(sx, chapters[i].heading.value)
    {
      if i > 0 {
        assert Follows(sx, chapters[i - 1], chapters[i]);
      }
    }
  }

  lemma ChapterScan(sx: Syntax, c: Chapter)
    requires c.heading.Some? ==> OutsideFence(sx, c.heading.value)
    ensures Scan(sx, None, ChapterLines(c)) == Scan(sx, None, c.body)
  {
    if c.heading.Some? {
      assert ChapterLines(c)[1..] == c.body;
    } else {
      assert ChapterLines(c) == c.body;
    }
  }

  /** A chapter that ends before the block starts leaves the block in the lines behind it. */
  lemma ChapterPrecedes(sx: Syntax, c: Chapter, rest: seq<string>, pre: seq<string>, m: Marker, block: seq<string>, post: seq<string>)
    requires c.heading.Some? ==> OutsideFence(sx, c.heading.value)
    requires rest == [] || Scan(sx, None, c.body).None?
    requires ChapterLines(c) + rest == pre + block + post && FencedBetween(sx, pre, m, block, post)
    requires |ChapterLines(c)| <= |pre|
    ensures var n := |ChapterLines(c)|;
            rest == pre[n..] + block + post && FencedBetween(sx, pre[n..], m, block, post)
  {
    var mine := ChapterLines(c);
    PieceAndBlock(mine, rest, pre, block, post);
    ChapterScan(sx, c);
    ScanConcat(sx, None, mine, pre[|mine|..]);
  }

  /** Any other chapter that starts before the block holds the whole block in its body. */
  lemma ChapterHolds(sx: Syntax, c: Chapter, rest: seq<string>, pre: seq<string>, m: Marker, block: seq<string>, post: seq<string>)
    requires c.heading.Some? ==> OutsideFence(sx, c.heading.value)
    requires rest == [] || Scan(sx, None, c.body).None?
    requires ChapterLines(c) + rest == pre + block + post && FencedBetween(sx, pre, m, block, post)
    requires |ChapterLines(c)| > |pre|
    ensures var at := |pre| - (|ChapterLines(c)| - |c.body|);
            0 <= at && at + |block| <= |c.body| && c.body[at..at + |block|] == block
  {
    var mine := ChapterLines(c);
    PieceAndBlock(mine, rest, pre, block, post);
    ChapterScan(sx, c);
    ScanConcat(sx, None, pre, mine[|pre|..]);
    BlockInBody(sx, c, pre, m, block);
  }

  lemma BlockInBody(sx: Syntax, c: Chapter, pre: seq<string>, m: Marker, block: seq<string>)
    requires c.heading.Some? ==> OutsideFence(sx, c.heading.value)
    requires StaysOpen(sx, m, block)
    requires var mine := ChapterLines(c); |pre| + |block| <= |mine| && mine[|pre|..|pre| + |block|] == block
    ensures var at := |pre| - (|ChapterLines(c)| - |c.body|);
            0 <= at && at + |block| <= |c.body| && c.body[at..at + |block|] == block
  {
    var mine := ChapterLines(c);
    var skip := |mine| - |c.body|;
    assert block[0] == mine[|pre|];
    assert c.body == mine[skip..];
  }

  /** The block lies in a chapter's body at `at`, where nothing is open. */
  ghost predicate Holds(sx: Syntax, c: Chapter, at: nat, m: Marker, block: seq<string>) {
    && at + |block| <= |c.body| && c.body[at..at + |block|] == block
    && FencedBetween(sx, c.body[..at], m, block, c.body[at + |block|..])
  }

  lemma HeldInBody(sx: Syntax, c: Chapter, rest: seq<string>, pre: seq<string>, m: Marker, block: seq<string>, post: seq<string>, at: nat)
    requires c.heading.Some? ==> OutsideFence(sx, c.heading.value)
    requires ChapterLines(c) + rest == pre + block + post && FencedBetween(sx, pre, m, block, post)
    requires at == |pre| - (|ChapterLines(c)| - |c.body|) && at + |block| <= |c.body| && c.body[at..at + |block|] == block
    ensures Holds(sx, c, at, m, block)
  {
    var mine := ChapterLines(c);
    var before := c.(body := c.body[..at]);
    PieceAndBlock(mine, rest, pre, block, post);
    assert ChapterLines(before) == mine[..|pre|] == pre;
    ChapterScan(sx, before);
    assert |mine| + |rest| == |pre| + |block| + |post|;
  }

  /** The lines from `from` on, as many as the block has, are the block, in the body of chapter `k`. */
  ghost predicate LiesIn(sx: Syntax, chapters: seq<Chapter>, k: nat, at: nat, from: nat, m: Marker, block: seq<string>) {
    && k < |chapters| && Holds(sx, chapters[k], at, m, block)
    && from == |Flatten(chapters[..k])| + |ChapterLines(chapters[k])| - |chapters[k].body| + at
  }

  ghost predicate LiesSomewhere(sx: Syntax, chapters: seq<Chapter>, from: nat, m: Marker, block: seq<string>) {
    exists k, at :: LiesIn(sx, chapters, k, at, from, m, block)
  }

  lemma LiesInFirst(sx: Syntax, chapters: seq<Chapter>, at: nat, from: nat, m: Marker, block: seq<string>)
    requires chapters != [] && from == |ChapterLines(chapters[0])| - |chapters[0].body| + at
    requires Holds(sx, chapters[0], at, m, block)
    ensures LiesSomewhere(sx, chapters, from, m, block)
  {
    assert Flatten(chapters[..0]) == [];
    assert LiesIn(sx, chapters, 0, at, from, m, block);
  }

  lemma LiesInLater(sx: Syntax, chapters: seq<Chapter>, from: nat, m: Marker, block: seq<string>)
    requires chapters != [] && LiesSomewhere(sx, chapters[1..], from, m, block)
    ensures LiesSomewhere(sx, chapters, from + |ChapterLines(chapters[0])|, m, block)
  {
    var j: nat, at: nat :| LiesIn(sx, chapters[1..], j, at, from, m, block);
    FlattenFirst(chapters[..j + 1]);
    assert chapters[..j + 1][1..] == chapters[1..][..j];
    assert LiesIn(sx, chapters, j + 1, at, from + |ChapterLines(chapters[0])|, m, block);
  }

  lemma FirstSeparate(sx: Syntax, chapters: seq<Chapter>)
    requires Separate(sx, chapters) && Flatten(chapters) != []
    ensures chapters != [] && Separate(sx, chapters[1..]) && Flatten(chapters) == ChapterLines(chapters[0]) + Flatten(chapters[1..])
    ensures chapters[0].heading.Some? ==> OutsideFence(sx, chapters[0].heading.value)
    ensures Flatten(chapters[1..]) == [] || Scan(sx, None, chapters[0].body).None?
  {
    FlattenFirst(chapters);
  }

  lemma LiesHere(sx: Syntax, chapters: seq<Chapter>, pre: seq<string>, m: Marker, block: seq<string>, post: seq<string>)
    requires chapters != [] && Separate(sx, chapters) && Flatten(chapters) == pre + block + post
    requires FencedBetween(sx, pre, m, block, post) && |ChapterLines(chapters[0])| > |pre|
    ensures LiesSomewhere(sx, chapters, |pre|, m, block)
  {
    FirstSeparate(sx, chapters);
    var c, rest := chapters[0], Flatten(chapters[1..]);
    var at := |pre| - (|ChapterLines(c)| - |c.body|);
    ChapterHolds(sx, c, rest, pre, m, block, post);
    HeldInBody(sx, c, rest, pre, m, block, post, at);
    LiesInFirst(sx, chapters, at, |pre|, m, block);
  }

  lemma LiesBehind(sx: Syntax, chapters: seq<Chapter>, pre: seq<string>, m: Marker, block: seq<string>, post: seq<string>)
    requires chapters != [] && Separate(sx, chapters) && Flatten(chapters) == pre + block + post
    requires FencedBetween(sx, pre, m, block, post) && |ChapterLines(chapters[0])| <= |pre|
    ensures var later := pre[|ChapterLines(chapters[0])|..];
            && Separate(sx, chapters[1..]) && Flatten(chapters[1..]) == later + block + post
            && FencedBetween(sx, later, m, block, post)
  {
    FirstSeparate(sx, chapters);
    ChapterPrecedes(sx, chapters[0], Flatten(chapters[1..]), pre, m, block, post);
  }

  /** However a fenced block lies in a text, it lies in the body of one section. */
  lemma {:induction false} NoBlockSpansSections(sx: Syntax, chapters: seq<Chapter>, pre: seq<string>, m: Marker, block: seq<string>, post: seq<string>)
    requires Separate(sx, chapters) && Flatten(chapters) == pre + block + post
    requires FencedBetween(sx, pre, m, block, post)
    ensures LiesSomewhere(sx, chapters, |pre|, m, block)
    decreases |chapters|
  {
    assert (pre + block + post)[|pre|] == block[0];
    assert chapters != [];
    var n := |ChapterLines(chapters[0])|;
    if n <= |pre| {
      LiesBehind(sx, chapters, pre, m, block, post);
      NoBlockSpansSections(sx, chapters[1..], pre[n..], m, block, post);
      LiesInLater(sx, chapters, |pre| - n, m, block);
    } else {
      LiesHere(sx, chapters, pre, m, block, post);
    }
  }
}
