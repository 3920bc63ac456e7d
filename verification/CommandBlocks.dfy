/** Cutting a section body into prose, plain commands and fenced blocks. */
module CommandBlocks {
  import opened Outcomes
  import PyText
  import opened Documents

  /** A maximal run of lines of one kind. */
  datatype Block = Prose(lines: seq<string>) | Commands(lines: seq<string>) | Fenced(marker: Marker, lines: seq<string>)

  datatype Kind = TextSegment | CliSegment

  type Segment = (Kind, string)

  function Rendered(b: Block): Segment {
    (if b.Prose? then TextSegment else CliSegment, PyText.Concat(b.lines))
  }

  function RenderedAll(blocks: seq<Block>): seq<Segment> {
    if blocks == [] then [] else RenderedAll(blocks[..|blocks| - 1]) + [Rendered(blocks[|blocks| - 1])]
  }

  function LinesOf(blocks: seq<Block>): seq<string> {
    if blocks == [] then [] else LinesOf(blocks[..|blocks| - 1]) + blocks[|blocks| - 1].lines
  }

  predicate OutsideFence(sx: Syntax, line: string) {
    sx.fence(line).None?
  }

  /** From its opening fence on, a block stays open up to its last line. */
  ghost predicate StaysOpen(sx: Syntax, m: Marker, lines: seq<string>) {
    && lines != [] && sx.fence(lines[0]) == Some(m)
    && forall j | 0 < j < |lines| :: Scan(sx, None, lines[..j]) == Some(m)
  }

  ghost predicate Uniform(sx: Syntax, b: Block) {
    && b.lines != []
    && match b
       case Prose(lines) => forall line | line in lines :: OutsideFence(sx, line) && !sx.command(line)
       case Commands(lines) => forall line | line in lines :: OutsideFence(sx, line) && sx.command(line)
       case Fenced(m, lines) => StaysOpen(sx, m, lines)
  }

  /** A fenced block that is not the last one ends with the fence that closes it. */
  predicate Closed(sx: Syntax, b: Block) {
    b.Fenced? ==> Scan(sx, None, b.lines).None?
  }

  predicate Apart(a: Block, b: Block) {
    !(a.Prose? && b.Prose?) && !(a.Commands? && b.Commands?)
  }

  /** A block may follow the ones before it. */
  predicate MayFollow(sx: Syntax, blocks: seq<Block>, b: Block) {
    blocks != [] ==> Closed(sx, blocks[|blocks| - 1]) && Apart(blocks[|blocks| - 1], b)
  }

  /** Every fenced block is one block, and every run of prose or of commands between them is one block. */
  ghost predicate CutAtFences(sx: Syntax, blocks: seq<Block>) {
    && (forall i | 0 <= i < |blocks| :: Uniform(sx, blocks[i]))
    && (forall i | 0 <= i < |blocks| - 1 :: Closed(sx, blocks[i]) && Apart(blocks[i], blocks[i + 1]))
  }

  /** What the last block may be extended with. */
  predicate Extends(sx: Syntax, b: Block, line: string) {
    match b
    case Prose(_) => OutsideFence(sx, line) && !sx.command(line)
    case Commands(_) => OutsideFence(sx, line) && sx.command(line)
    case Fenced(m, lines) => Scan(sx, None, lines) == Some(m)
  }

  function Extended(b: Block, line: string): Block {
    match b
    case Prose(lines) => Prose(lines + [line])
    case Commands(lines) => Commands(lines + [line])
    case Fenced(m, lines) => Fenced(m, lines + [line])
  }

  lemma LinesOfLonger(blocks: seq<Block>, b: Block)
    ensures LinesOf(blocks + [b]) == LinesOf(blocks) + b.lines
  {
    assert (blocks + [b])[..|blocks|] == blocks;
  }

  lemma CutLonger(sx: Syntax, blocks: seq<Block>, b: Block)
    ensures CutAtFences(sx, blocks + [b]) <==> CutAtFences(sx, blocks) && Uniform(sx, b) && MayFollow(sx, blocks, b)
  {
    var longer := blocks + [b];
    if CutAtFences(sx, longer) {
      assert longer[|blocks|] == b;
      assert forall i | 0 <= i < |blocks| :: blocks[i] == longer[i];
    } else if CutAtFences(sx, blocks) && Uniform(sx, b) {
      assert forall i | 0 <= i < |longer| :: longer[i] == if i < |blocks| then blocks[i] else b;
    }
  }

  lemma GrowBlock(sx: Syntax, b: Block, line: string)
    requires Uniform(sx, b) && Extends(sx, b, line)
    ensures Uniform(sx, Extended(b, line))
  {
    if b.Fenced? {
      var longer := b.lines + [line];
      forall j | 0 < j < |longer|
        ensures Scan(sx, None, longer[..j]) == Some(b.marker)
      {
        assert longer[..j] == if j == |b.lines| then b.lines else b.lines[..j];
      }
    }
  }

  /** The block that a line starts outside every open fence. */
  function Started(sx: Syntax, line: string): Block {
    if sx.fence(line).Some? then Fenced(sx.fence(line).value, [line])
    else if sx.command(line) then Commands([line])
    else Prose([line])
  }

  lemma StartedUniform(sx: Syntax, line: string)
    ensures Uniform(sx, Started(sx, line)) && Started(sx, line).lines == [line]
  {
  }

  /** The blocks with one line more: it extends the last block if it can, and otherwise starts one. */
  ghost function AddLine(sx: Syntax, blocks: seq<Block>, line: string): seq<Block> {
    if blocks != [] && Extends(sx, blocks[|blocks| - 1], line)
    then blocks[..|blocks| - 1] + [Extended(blocks[|blocks| - 1], line)]
    else blocks + [Started(sx, line)]
  }

  /** The blocks of some lines. */
  ghost function BlocksOf(sx: Syntax, lines: seq<string>): seq<Block> {
    if lines == [] then [] else AddLine(sx, BlocksOf(sx, lines[..|lines| - 1]), lines[|lines| - 1])
  }

  /** At its end a fenced block is still open, or its last line closes it. */
  lemma {:induction false} OpenOrClosed(sx: Syntax, m: Marker, lines: seq<string>)
    requires StaysOpen(sx, m, lines)
    ensures Scan(sx, None, lines) in {None, Some(m)}
  {
    var n := |lines| - 1;
    assert lines == lines[..n] + [lines[n]];
    ScanAppend(sx, None, lines[..n], lines[n]);
    if n == 0 {
      assert lines[..0] == [];
    }
  }

  ghost predicate Cuts(sx: Syntax, blocks: seq<Block>, lines: seq<string>) {
    CutAtFences(sx, blocks) && LinesOf(blocks) == lines
  }

  lemma AddLineKeeps(sx: Syntax, blocks: seq<Block>, line: string)
    requires CutAtFences(sx, blocks)
    ensures CutAtFences(sx, AddLine(sx, blocks, line))
  {
    if blocks != [] {
      var first, b := blocks[..|blocks| - 1], blocks[|blocks| - 1];
      assert blocks == first + [b];
      if b.Fenced? {
        OpenOrClosed(sx, b.marker, b.lines);
      }
      if Extends(sx, b, line) {
        CutLonger(sx, first, b);
        GrowBlock(sx, b, line);
        CutLonger(sx, first, Extended(b, line));
        return;
      }
    }
    StartedUniform(sx, line);
    CutLonger(sx, blocks, Started(sx, line));
  }

  lemma AddLineLines(sx: Syntax, blocks: seq<Block>, line: string)
    ensures LinesOf(AddLine(sx, blocks, line)) == LinesOf(blocks) + [line]
  {
    if blocks != [] && Extends(sx, blocks[|blocks| - 1], line) {
      LinesOfLonger(blocks[..|blocks| - 1], Extended(blocks[|blocks| - 1], line));
    } else {
      StartedUniform(sx, line);
      LinesOfLonger(blocks, Started(sx, line));
    }
  }

  lemma BlocksOfLonger(sx: Syntax, lines: seq<string>, line: string)
    ensures BlocksOf(sx, lines + [line]) == AddLine(sx, BlocksOf(sx, lines), line)
  {
    assert (lines + [line])[..|lines|] == lines;
  }

  /** The blocks hold the lines in order; every fenced block is one block, and every run of prose or commands
      between fenced blocks is one block. */
  lemma {:induction false} BlocksAreCut(sx: Syntax, lines: seq<string>)
    ensures Cuts(sx, BlocksOf(sx, lines), lines)
  {
    if lines != [] {
      var n := |lines| - 1;
      BlocksAreCut(sx, lines[..n]);
      assert lines[..n] + [lines[n]] == lines;
      BlocksOfLonger(sx, lines[..n], lines[n]);
      AddLineKeeps(sx, BlocksOf(sx, lines[..n]), lines[n]);
      AddLineLines(sx, BlocksOf(sx, lines[..n]), lines[n]);
    }
  }

  // ---- there is only one way to cut ----

  /** A block of several lines without its last one. */
  function Shortened(b: Block): Block
    requires b.lines != []
  {
    b.(lines := b.lines[..|b.lines| - 1])
  }

  lemma ShorterBlock(sx: Syntax, b: Block)
    requires Uniform(sx, b) && |b.lines| > 1
    ensures var line := b.lines[|b.lines| - 1];
            && Uniform(sx, Shortened(b)) && Extends(sx, Shortened(b), line) && Extended(Shortened(b), line) == b
  {
    var n := |b.lines| - 1;
    assert b.lines == b.lines[..n] + [b.lines[n]];
    assert forall j | 0 <= j <= n :: b.lines[..n][..j] == b.lines[..j];
  }

  lemma SingleLine(sx: Syntax, b: Block)
    requires Uniform(sx, b) && |b.lines| == 1
    ensures Started(sx, b.lines[0]) == b
  {
    assert b.lines == [b.lines[0]] && b.lines[0] in b.lines;
  }

  lemma ShortenLast(sx: Syntax, first: seq<Block>, b: Block)
    requires CutAtFences(sx, first + [b]) && |b.lines| > 1
    ensures exists fewer, line :: CutAtFences(sx, fewer) && AddLine(sx, fewer, line) == first + [b]
  {
    var less, line := first + [Shortened(b)], b.lines[|b.lines| - 1];
    CutLonger(sx, first, b);
    ShorterBlock(sx, b);
    CutLonger(sx, first, Shortened(b));
    assert less[..|first|] == first;
    assert CutAtFences(sx, less) && AddLine(sx, less, line) == first + [b];
  }

  lemma DropLast(sx: Syntax, first: seq<Block>, b: Block)
    requires CutAtFences(sx, first + [b]) && |b.lines| == 1
    ensures exists fewer, line :: CutAtFences(sx, fewer) && AddLine(sx, fewer, line) == first + [b]
  {
    CutLonger(sx, first, b);
    SingleLine(sx, b);
    assert CutAtFences(sx, first) && AddLine(sx, first, b.lines[0]) == first + [b];
  }

  lemma LastLine(sx: Syntax, blocks: seq<Block>)
    requires CutAtFences(sx, blocks) && blocks != []
    ensures exists fewer, line :: CutAtFences(sx, fewer) && AddLine(sx, fewer, line) == blocks
  {
    var n := |blocks| - 1;
    var first, b := blocks[..n], blocks[n];
    assert blocks == first + [b];
    if |b.lines| > 1 {
      ShortenLast(sx, first, b);
    } else {
      DropLast(sx, first, b);
    }
  }

  /** Any blocks cut like that are the blocks of their lines. */
  lemma {:induction false} OneWayToCut(sx: Syntax, blocks: seq<Block>)
    requires CutAtFences(sx, blocks)
    ensures blocks == BlocksOf(sx, LinesOf(blocks))
    decreases |LinesOf(blocks)|
  {
    if blocks != [] {
      LastLine(sx, blocks);
      var fewer, line :| CutAtFences(sx, fewer) && AddLine(sx, fewer, line) == blocks;
      AddLineLines(sx, fewer, line);
      OneWayToCut(sx, fewer);
      var lines := LinesOf(blocks);
      assert lines[..|lines| - 1] == LinesOf(fewer);
    }
  }

  // ---- the splitter ----

  /** What the splitter has collected: finished segments, the lines of the segment it is building, and its mode. */
  datatype Cutter = Cutter(segments: seq<Segment>, prose: seq<string>, cli: seq<string>, open: Option<Marker>, plain: bool)

  /** The last block is being collected, unless it is a fenced block that was closed; the others are segments. */
  function Collecting(sx: Syntax, blocks: seq<Block>): Cutter {
    if blocks == [] then Cutter([], [], [], None, false)
    else
      var done := RenderedAll(blocks[..|blocks| - 1]);
      match blocks[|blocks| - 1]
      case Prose(lines) => Cutter(done, lines, [], None, false)
      case Commands(lines) => Cutter(done, [], lines, None, true)
      case Fenced(m, lines) =>
        if Scan(sx, None, lines).None? then Cutter(RenderedAll(blocks), [], [], None, false)
        else Cutter(done, [], lines, Some(m), false)
  }

  function FlushCli(segments: seq<Segment>, cli: seq<string>): seq<Segment> {
    if cli == [] then segments else segments + [(CliSegment, PyText.Concat(cli))]
  }

  function FlushProse(segments: seq<Segment>, prose: seq<string>): seq<Segment> {
    if prose == [] then segments else segments + [(TextSegment, PyText.Concat(prose))]
  }

  /** What one line does. */
  function CutLine(sx: Syntax, c: Cutter, line: string): Cutter {
    var fence := sx.fence(line);
    if c.open.None? && fence.Some?
    then Cutter(FlushProse(FlushCli(c.segments, c.cli), c.prose), [], [line], fence, false)
    else if c.open.Some? then
      if fence.Some? && fence.value.mark == c.open.value.mark && fence.value.length >= c.open.value.length
      then Cutter(FlushCli(c.segments, c.cli + [line]), c.prose, [], None, c.plain)
      else c.(cli := c.cli + [line])
    else if sx.command(line)
    then Cutter(FlushProse(c.segments, c.prose), [], c.cli + [line], c.open, true)
    else if c.plain then Cutter(FlushCli(c.segments, c.cli), c.prose + [line], [], c.open, false)
    else c.(prose := c.prose + [line])
  }

  /** What the splitter has collected after some lines. */
  function Collected(sx: Syntax, lines: seq<string>): Cutter {
    if lines == [] then Cutter([], [], [], None, false)
    else CutLine(sx, Collected(sx, lines[..|lines| - 1]), lines[|lines| - 1])
  }

  method CutBlocks(sx: Syntax, lines: seq<string>) returns (segments: seq<Segment>)
    ensures segments == RenderedAll(BlocksOf(sx, lines))
  {
    segments := [];
    var prose: seq<string>, cli: seq<string> := [], [];
    var open: Option<Marker> := None;
    var plain := false;
    for i := 0 to |lines|
      invariant Cutter(segments, prose, cli, open, plain) == Collected(sx, lines[..i])
    {
      var line := lines[i];
      assert lines[..i + 1][..i] == lines[..i];
      var fence := sx.fence(line);
      if open.None? && fence.Some? {
        segments, plain, open := FlushProse(FlushCli(segments, cli), prose), false, fence;
        prose, cli := [], [line];
      } else if open.Some? {
        cli := cli + [line];
        if fence.Some? && fence.value.mark == open.value.mark && fence.value.length >= open.value.length {
          segments, cli, open := FlushCli(segments, cli), [], None;
        }
      } else if sx.command(line) {
        segments, prose := FlushProse(segments, prose), [];
        plain, cli := true, cli + [line];
      } else {
        if plain {
          segments, cli, plain := FlushCli(segments, cli), [], false;
        }
        prose := prose + [line];
      }
    }
    assert lines[..|lines|] == lines;
    AllCollected(sx, lines);
    segments := FlushProse(FlushCli(segments, cli), prose);
  }

  /** What is collected becomes the last segment. */
  lemma AllSegments(sx: Syntax, blocks: seq<Block>)
    requires blocks != [] ==> blocks[|blocks| - 1].lines != []
    ensures var c := Collecting(sx, blocks); FlushProse(FlushCli(c.segments, c.cli), c.prose) == RenderedAll(blocks)
  {
  }

  lemma ContinueFenced(sx: Syntax, first: seq<Block>, b: Block, line: string)
    requires b.Fenced? && Extends(sx, b, line)
    ensures CutLine(sx, Collecting(sx, first + [b]), line) == Collecting(sx, first + [Extended(b, line)])
  {
    ScanAppend(sx, None, b.lines, line);
    assert (first + [b])[..|first|] == first == (first + [Extended(b, line)])[..|first|];
  }

  lemma ContinueRun(sx: Syntax, first: seq<Block>, b: Block, line: string)
    requires !b.Fenced? && Extends(sx, b, line)
    ensures CutLine(sx, Collecting(sx, first + [b]), line) == Collecting(sx, first + [Extended(b, line)])
  {
    assert (first + [b])[..|first|] == first == (first + [Extended(b, line)])[..|first|];
  }

  lemma BeginBlock(sx: Syntax, blocks: seq<Block>, line: string)
    requires blocks != [] ==>
               var b := blocks[|blocks| - 1]; b.lines != [] && Closed(sx, b) && !Extends(sx, b, line)
    ensures CutLine(sx, Collecting(sx, blocks), line) == Collecting(sx, blocks + [Started(sx, line)])
  {
    AllSegments(sx, blocks);
    assert (blocks + [Started(sx, line)])[..|blocks|] == blocks;
    if sx.fence(line).Some? {
      assert [line] == [] + [line];
      ScanAppend(sx, None, [], line);
    }
  }

  lemma TakeLine(sx: Syntax, blocks: seq<Block>, line: string)
    requires CutAtFences(sx, blocks)
    ensures CutLine(sx, Collecting(sx, blocks), line) == Collecting(sx, AddLine(sx, blocks, line))
  {
    if blocks != [] {
      var first, b := blocks[..|blocks| - 1], blocks[|blocks| - 1];
      assert blocks == first + [b];
      if b.Fenced? {
        OpenOrClosed(sx, b.marker, b.lines);
      }
      if Extends(sx, b, line) {
        if b.Fenced? {
          ContinueFenced(sx, first, b, line);
        } else {
          ContinueRun(sx, first, b, line);
        }
        return;
      }
    }
    BeginBlock(sx, blocks, line);
  }

  lemma {:induction false} CollectedAre(sx: Syntax, lines: seq<string>)
    ensures Collected(sx, lines) == Collecting(sx, BlocksOf(sx, lines))
  {
    if lines != [] {
      var n := |lines| - 1;
      CollectedAre(sx, lines[..n]);
      BlocksAreCut(sx, lines[..n]);
      TakeLine(sx, BlocksOf(sx, lines[..n]), lines[n]);
    }
  }

  /** With the last segment added, the segments are the rendered blocks. */
  lemma AllCollected(sx: Syntax, lines: seq<string>)
    ensures var c := Collected(sx, lines);
            FlushProse(FlushCli(c.segments, c.cli), c.prose) == RenderedAll(BlocksOf(sx, lines))
  {
    CollectedAre(sx, lines);
    BlocksAreCut(sx, lines);
    AllSegments(sx, BlocksOf(sx, lines));
  }
}
