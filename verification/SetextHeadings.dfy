/** Rewriting underlined headings as hash headings before a document is cut into sections. */
module SetextHeadings {
  import opened Outcomes
  import PyText
  import opened Documents

  predicate EndsWith(s: string, suffix: string) {
    |suffix| <= |s| && s[|s| - |suffix|..] == suffix
  }

  /** The hash heading for an underlined line; it keeps a carriage return and line feed at its end. */
  function AsHeading(line: string, level: nat): string {
    PyText.Repeat('#', level) + " " + PyText.Strip(line) + if EndsWith(line, "\r\n") then "\r\n" else "\n"
  }

  /** Whether the first of two lines is a heading underlined by the second; `open` is the fence open after the first. */
  predicate IsUnderlined(sx: Syntax, open: Option<Marker>, line: string, next: string) {
    open.None? && !PyText.IsBlank(line) && sx.underline(PyText.Chomp(next)).Some?
  }

  function HeadingFor(sx: Syntax, line: string, next: string): string
    requires sx.underline(PyText.Chomp(next)).Some?
  {
    AsHeading(line, sx.underline(PyText.Chomp(next)).value)
  }

  predicate StartsUnderlined(sx: Syntax, open: Option<Marker>, lines: seq<string>) {
    |lines| > 1 && IsUnderlined(sx, open, lines[0], lines[1])
  }

  function Normalized(sx: Syntax, open: Option<Marker>, lines: seq<string>): seq<string>
    decreases |lines|
  {
    if lines == [] then []
    else
      var after := After(sx, open, lines[0]);
      if StartsUnderlined(sx, after, lines) then [HeadingFor(sx, lines[0], lines[1])] + Normalized(sx, after, lines[2..])
      else [lines[0]] + Normalized(sx, after, lines[1..])
  }

  lemma NormalizedFrom(sx: Syntax, open: Option<Marker>, lines: seq<string>, i: nat)
    requires i < |lines|
    ensures var after := After(sx, open, lines[i]);
            Normalized(sx, open, lines[i..]) ==
            if i + 1 < |lines| && IsUnderlined(sx, after, lines[i], lines[i + 1])
            then [HeadingFor(sx, lines[i], lines[i + 1])] + Normalized(sx, after, lines[i + 2..])
            else [lines[i]] + Normalized(sx, after, lines[i + 1..])
  {
    var rest := lines[i..];
    assert rest[0] == lines[i] && rest[1..] == lines[i + 1..];
    assert i + 1 < |lines| ==> rest[1] == lines[i + 1] && rest[2..] == lines[i + 2..];
  }

  lemma Assoc<T>(a: seq<T>, b: seq<T>, c: seq<T>)
    ensures a + b + c == a + (b + c)
  {
  }

  method NormalizeLines(sx: Syntax, lines: seq<string>) returns (normalized: seq<string>)
    ensures normalized == Normalized(sx, None, lines)
  {
    normalized := [];
    var open: Option<Marker> := None;
    var index := 0;
    while index < |lines|
      invariant 0 <= index <= |lines|
      invariant Normalized(sx, None, lines) == normalized + Normalized(sx, open, lines[index..])
    {
      NormalizedFrom(sx, open, lines, index);
      var line := lines[index];
      open := After(sx, open, line);
      ghost var before := normalized;
      if index + 1 < |lines| && IsUnderlined(sx, open, line, lines[index + 1]) {
        normalized := normalized + [HeadingFor(sx, line, lines[index + 1])];
        index := index + 2;
      } else {
        normalized := normalized + [line];
        index := index + 1;
      }
      Assoc(before, normalized[|before|..], Normalized(sx, open, lines[index..]));
    }
  }

  /** `_normalize_setext_headings` */
  method Normalize(sx: Syntax, text: string) returns (out: string)
    ensures out == PyText.Concat(Normalized(sx, None, PyText.KeepLines(text)))
  {
    var lines := NormalizeLines(sx, PyText.KeepLines(text));
    out := PyText.Concat(lines);
  }

  // ---- which fences survive ----

  /** Underlines and rewritten headings are not fences. */
  ghost predicate Plain(sx: Syntax) {
    && (forall line :: sx.underline(PyText.Chomp(line)).Some? ==> sx.fence(line).None?)
    && (forall line, level :: level > 0 ==> sx.fence(AsHeading(line, level)).None?)
    && (forall line :: sx.underline(line).Some? ==> sx.underline(line).value > 0)
  }

  function FenceLines(sx: Syntax, lines: seq<string>): seq<string> {
    if lines == [] then []
    else (if sx.fence(lines[0]).Some? then [lines[0]] else []) + FenceLines(sx, lines[1..])
  }

  /** Some line closes a fenced block and is directly followed by an underline. */
  predicate ClosesAboveUnderline(sx: Syntax, open: Option<Marker>, lines: seq<string>)
    decreases |lines|
  {
    && lines != []
    && var after := After(sx, open, lines[0]);
       || (sx.fence(lines[0]).Some? && StartsUnderlined(sx, after, lines))
       || ClosesAboveUnderline(sx, after, lines[1..])
  }

  /** The fence lines that no underline takes for a heading. */
  function Survivors(sx: Syntax, open: Option<Marker>, lines: seq<string>): seq<string>
    decreases |lines|
  {
    if lines == [] then []
    else
      var after := After(sx, open, lines[0]);
      (if sx.fence(lines[0]).Some? && !StartsUnderlined(sx, after, lines) then [lines[0]] else []) + Survivors(sx, after, lines[1..])
  }

  /** An underline is no fence, and neither is the heading that replaces it. */
  lemma SkipUnderline(sx: Syntax, open: Option<Marker>, lines: seq<string>)
    requires Plain(sx) && StartsUnderlined(sx, open, lines)
    ensures Survivors(sx, open, lines[1..]) == Survivors(sx, open, lines[2..])
    ensures sx.fence(HeadingFor(sx, lines[0], lines[1])).None?
  {
    assert lines[1..][0] == lines[1] && lines[1..][1..] == lines[2..];
  }

  /** Normalizing keeps exactly the fence lines that are not closing fences directly followed by an underline. */
  lemma {:induction false} SurvivorsAre(sx: Syntax, open: Option<Marker>, lines: seq<string>)
    requires Plain(sx)
    ensures FenceLines(sx, Normalized(sx, open, lines)) == Survivors(sx, open, lines)
    decreases |lines|
  {
    if lines != [] {
      var after := After(sx, open, lines[0]);
      if StartsUnderlined(sx, after, lines) {
        SkipUnderline(sx, after, lines);
        SurvivorsAre(sx, after, lines[2..]);
      } else {
        SurvivorsAre(sx, after, lines[1..]);
      }
    }
  }

  lemma CancelPrefix<T>(pre: seq<T>, a: seq<T>, b: seq<T>)
    ensures pre + a == pre + b <==> a == b
  {
    assert (pre + a)[|pre|..] == a && (pre + b)[|pre|..] == b;
  }

  lemma {:induction false} AllSurvive(sx: Syntax, open: Option<Marker>, lines: seq<string>)
    ensures |Survivors(sx, open, lines)| <= |FenceLines(sx, lines)|
    ensures Survivors(sx, open, lines) == FenceLines(sx, lines) <==> !ClosesAboveUnderline(sx, open, lines)
    decreases |lines|
  {
    if lines != [] {
      var after := After(sx, open, lines[0]);
      AllSurvive(sx, after, lines[1..]);
      CancelPrefix(if sx.fence(lines[0]).Some? then [lines[0]] else [], Survivors(sx, after, lines[1..]), FenceLines(sx, lines[1..]));
    }
  }

  /** Normalizing keeps every fence, in order, exactly when no closing fence is directly followed by an underline:
      there the closing fence itself is taken for a heading, and its block never ends. */
  lemma FencesSurvive(sx: Syntax, open: Option<Marker>, lines: seq<string>)
    requires Plain(sx)
    ensures FenceLines(sx, Normalized(sx, open, lines)) == FenceLines(sx, lines) <==> !ClosesAboveUnderline(sx, open, lines)
  {
    SurvivorsAre(sx, open, lines);
    AllSurvive(sx, open, lines);
  }

  lemma PlainScans(sx: Syntax, open: Option<Marker>, line: string, rest: seq<string>)
    ensures Scan(sx, open, [line] + rest) == Scan(sx, After(sx, open, line), rest)
  {
    assert ([line] + rest)[1..] == rest;
  }

  /** Which block is open at the end is decided by the fence lines alone. */
  lemma {:induction false} FencesDecide(sx: Syntax, open: Option<Marker>, lines: seq<string>)
    ensures Scan(sx, open, lines) == Scan(sx, open, FenceLines(sx, lines))
    decreases |lines|
  {
    if lines != [] {
      var line, rest := lines[0], FenceLines(sx, lines[1..]);
      FencesDecide(sx, After(sx, open, line), lines[1..]);
      if sx.fence(line).Some? {
        PlainScans(sx, open, line, rest);
      } else {
        assert FenceLines(sx, lines) == rest;
      }
    }
  }

  /** The block that is open where normalized lines end is the one that the surviving fence lines leave open. */
  lemma SurvivorsDecide(sx: Syntax, lines: seq<string>)
    requires Plain(sx)
    ensures Scan(sx, None, Normalized(sx, None, lines)) == Scan(sx, None, Survivors(sx, None, lines))
  {
    FencesDecide(sx, None, Normalized(sx, None, lines));
    SurvivorsAre(sx, None, lines);
  }

  /** Where every fence is kept, so is the block that is open at the end. */
  lemma SameBlocks(sx: Syntax, open: Option<Marker>, lines: seq<string>)
    requires Plain(sx) && !ClosesAboveUnderline(sx, open, lines)
    ensures Scan(sx, open, Normalized(sx, open, lines)) == Scan(sx, open, lines)
  {
    FencesDecide(sx, open, Normalized(sx, open, lines));
    FencesDecide(sx, open, lines);
    FencesSurvive(sx, open, lines);
  }

  lemma NormalizedPlain(sx: Syntax, open: Option<Marker>, line: string, rest: seq<string>)
    requires rest != [] ==> !IsUnderlined(sx, After(sx, open, line), line, rest[0])
    ensures Normalized(sx, open, [line] + rest) == [line] + Normalized(sx, After(sx, open, line), rest)
  {
    var lines := [line] + rest;
    assert lines[1..] == rest && (rest != [] ==> lines[1] == rest[0]);
  }

  lemma NormalizedPair(sx: Syntax, open: Option<Marker>, line: string, next: string, rest: seq<string>)
    requires IsUnderlined(sx, After(sx, open, line), line, next)
    ensures Normalized(sx, open, [line, next] + rest) ==
            [HeadingFor(sx, line, next)] + Normalized(sx, After(sx, open, line), rest)
  {
    var lines := [line, next] + rest;
    assert lines[0] == line && lines[1] == next && lines[2..] == rest;
  }

  lemma UnderlineScans(sx: Syntax, open: Option<Marker>, line: string, next: string, rest: seq<string>)
    requires Plain(sx) && IsUnderlined(sx, After(sx, open, line), line, next)
    ensures Scan(sx, open, [line, next] + rest) == Scan(sx, After(sx, open, line), rest)
  {
    var lines := [line, next] + rest;
    assert lines[1..] == [next] + rest && ([next] + rest)[1..] == rest;
    assert After(sx, After(sx, open, line), next) == After(sx, open, line);
  }

  /** Lines before one that is no underline are normalized on their own. */
  lemma {:induction false} NormalizedConcat(sx: Syntax, open: Option<Marker>, a: seq<string>, b: seq<string>)
    requires Plain(sx) && (b != [] ==> sx.underline(PyText.Chomp(b[0])).None?)
    ensures Normalized(sx, open, a + b) == Normalized(sx, open, a) + Normalized(sx, Scan(sx, open, a), b)
    decreases |a|
  {
    if a == [] {
      assert a + b == b;
    } else {
      var line, after := a[0], After(sx, open, a[0]);
      if StartsUnderlined(sx, after, a) {
        var rest := a[2..];
        assert a == [line, a[1]] + rest;
        NormalizedConcat(sx, after, rest, b);
        PairBefore(sx, open, line, a[1], rest, b);
      } else {
        var rest := a[1..];
        assert a == [line] + rest;
        NormalizedConcat(sx, after, rest, b);
        LineBefore(sx, open, line, rest, b);
      }
    }
  }

  lemma PairBefore(sx: Syntax, open: Option<Marker>, line: string, next: string, rest: seq<string>, b: seq<string>)
    requires Plain(sx) && IsUnderlined(sx, After(sx, open, line), line, next)
    ensures var after, a := After(sx, open, line), [line, next] + rest;
            Normalized(sx, after, rest + b) == Normalized(sx, after, rest) + Normalized(sx, Scan(sx, after, rest), b) ==>
              Normalized(sx, open, a + b) == Normalized(sx, open, a) + Normalized(sx, Scan(sx, open, a), b)
  {
    NormalizedPair(sx, open, line, next, rest);
    NormalizedPair(sx, open, line, next, rest + b);
    UnderlineScans(sx, open, line, next, rest);
    Assoc([line, next], rest, b);
    var after := After(sx, open, line);
    Assoc([HeadingFor(sx, line, next)], Normalized(sx, after, rest), Normalized(sx, Scan(sx, after, rest), b));
  }

  lemma LineBefore(sx: Syntax, open: Option<Marker>, line: string, rest: seq<string>, b: seq<string>)
    requires rest != [] ==> !IsUnderlined(sx, After(sx, open, line), line, rest[0])
    requires b != [] ==> sx.underline(PyText.Chomp(b[0])).None?
    ensures var after, a := After(sx, open, line), [line] + rest;
            Normalized(sx, after, rest + b) == Normalized(sx, after, rest) + Normalized(sx, Scan(sx, after, rest), b) ==>
              Normalized(sx, open, a + b) == Normalized(sx, open, a) + Normalized(sx, Scan(sx, open, a), b)
  {
    NormalizedPlain(sx, open, line, rest);
    assert rest + b != [] ==> (rest + b)[0] == if rest != [] then rest[0] else b[0];
    NormalizedPlain(sx, open, line, rest + b);
    PlainScans(sx, open, line, rest);
    Assoc([line], rest, b);
    var after := After(sx, open, line);
    Assoc([line], Normalized(sx, after, rest), Normalized(sx, Scan(sx, after, rest), b));
  }

  /** Some block is open after every proper prefix. */
  ghost predicate OpenInside(sx: Syntax, open: Option<Marker>, lines: seq<string>) {
    forall j | 0 < j < |lines| :: Scan(sx, open, lines[..j]).Some?
  }

  lemma OpenInsideRest(sx: Syntax, open: Option<Marker>, lines: seq<string>)
    requires lines != [] && OpenInside(sx, open, lines)
    ensures OpenInside(sx, After(sx, open, lines[0]), lines[1..])
    ensures |lines| > 1 ==> After(sx, open, lines[0]).Some?
  {
    var after := After(sx, open, lines[0]);
    forall j | 0 < j < |lines| - 1
      ensures Scan(sx, after, lines[1..][..j]).Some?
    {
      assert lines[..j + 1][0] == lines[0] && lines[..j + 1][1..] == lines[1..][..j];
    }
    if |lines| > 1 {
      assert lines[..1] == [lines[0]] && lines[..1][1..] == [];
      assert Scan(sx, open, lines[..1]) == after;
    }
  }

  /** Lines inside a block are kept as they are, and so is the line that closes it unless an underline follows. */
  lemma {:induction false} KeptWhileOpen(sx: Syntax, open: Option<Marker>, lines: seq<string>, post: seq<string>)
    requires lines != [] && OpenInside(sx, open, lines)
    requires Scan(sx, open, lines).Some? || post == [] || sx.underline(PyText.Chomp(post[0])).None?
    ensures Normalized(sx, open, lines + post) == lines + Normalized(sx, Scan(sx, open, lines), post)
    decreases |lines|
  {
    var line, rest := lines[0], lines[1..];
    assert lines == [line] + rest;
    OpenInsideRest(sx, open, lines);
    PlainScans(sx, open, line, rest);
    Assoc([line], rest, post);
    if rest == [] {
      assert rest + post == post;
      NormalizedPlain(sx, open, line, post);
    } else {
      KeptWhileOpen(sx, After(sx, open, line), rest, post);
      NormalizedPlain(sx, open, line, rest + post);
      Assoc([line], rest, Normalized(sx, Scan(sx, open, lines), post));
    }
  }
}
