/** The parts of Python's `str` that the modelled code relies on. */
module PyText {
  // ---- white space ----

  predicate IsSpace(c: char) {
    || c in " \t\n\r\U{0b}\U{0c}\U{1c}\U{1d}\U{1e}\U{1f}\U{85}\U{a0}\U{1680}\U{2028}\U{2029}\U{202f}\U{205f}\U{3000}"
    || '\U{2000}' <= c <= '\U{200a}'
  }

  function StripLeft(s: string): string {
    if s != "" && IsSpace(s[0]) then StripLeft(s[1..]) else s
  }

  function StripRight(s: string): string {
    if s != "" && IsSpace(s[|s| - 1]) then StripRight(s[..|s| - 1]) else s
  }

  function Strip(s: string): string {
    StripRight(StripLeft(s))
  }

  /** `not s.strip()` */
  predicate IsBlank(s: string) {
    Strip(s) == ""
  }

  /** White space by code point: the controls 9 to 13 and 28 to 31, the blank, and the separators of Unicode. */
  lemma SpaceCodes(c: char)
    ensures IsSpace(c) <==>
            || 9 <= c as int <= 13 || 28 <= c as int <= 32 || c as int in {133, 160, 5760}
            || 8192 <= c as int <= 8202 || c as int in {8232, 8233, 8239, 8287, 12288}
  {
  }

  lemma {:induction false} StripLeftBlank(s: string)
    ensures StripLeft(s) == "" <==> forall c | c in s :: IsSpace(c)
  {
    if s != "" {
      assert s == [s[0]] + s[1..];
      if IsSpace(s[0]) {
        StripLeftBlank(s[1..]);
      }
    }
  }

  lemma {:induction false} StripRightBlank(s: string)
    ensures StripRight(s) == "" <==> forall c | c in s :: IsSpace(c)
  {
    if s != "" {
      assert s == s[..|s| - 1] + [s[|s| - 1]];
      if IsSpace(s[|s| - 1]) {
        StripRightBlank(s[..|s| - 1]);
      }
    }
  }

  lemma {:induction false} StripLeftSuffix(s: string)
    ensures StripLeft(s) == "" || !IsSpace(StripLeft(s)[0])
    ensures forall c | c in StripLeft(s) :: c in s
  {
    if s != "" && IsSpace(s[0]) {
      StripLeftSuffix(s[1..]);
    }
  }

  /** A text strips to nothing exactly when all its characters are white space. */
  lemma BlankMeansSpaces(s: string)
    ensures IsBlank(s) <==> forall c | c in s :: IsSpace(c)
  {
    StripLeftBlank(s);
    StripLeftSuffix(s);
    StripRightBlank(StripLeft(s));
  }

  // ---- searching and counting ----

  /** `pattern in s` */
  predicate Contains(s: string, pattern: string) {
    exists i | 0 <= i <= |s| :: OccursAt(s, pattern, i)
  }

  predicate OccursAt(s: string, pattern: string, i: nat) {
    i + |pattern| <= |s| && s[i..i + |pattern|] == pattern
  }

  /** `s.count(c)` */
  function Count(s: string, c: char): nat {
    if s == "" then 0 else (if s[0] == c then 1 else 0) + Count(s[1..], c)
  }

  function Repeat(c: char, n: nat): string {
    seq(n, _ => c)
  }

  lemma {:induction false} CountConcat(a: string, b: string, c: char)
    ensures Count(a + b, c) == Count(a, c) + Count(b, c)
  {
    if a == "" {
      assert a + b == b;
    } else {
      assert (a + b)[1..] == a[1..] + b;
      CountConcat(a[1..], b, c);
    }
  }

  lemma {:induction false} CountRepeat(d: char, n: nat, c: char)
    ensures Count(Repeat(d, n), c) == if c == d then n else 0
  {
    if n > 0 {
      assert Repeat(d, n)[1..] == Repeat(d, n - 1);
      CountRepeat(d, n - 1, c);
    }
  }

  lemma {:induction false} CountPositive(s: string, c: char)
    ensures Count(s, c) > 0 <==> c in s
  {
    if s != "" {
      assert s == [s[0]] + s[1..];
      CountPositive(s[1..], c);
    }
  }

  lemma OccursInSlice(s: string, pattern: string, i: nat, lo: nat, hi: nat)
    requires lo <= i && i + |pattern| <= hi <= |s|
    ensures OccursAt(s[lo..hi], pattern, i - lo) <==> OccursAt(s, pattern, i)
  {
    var t, u := s[lo..hi][i - lo..i - lo + |pattern|], s[i..i + |pattern|];
    assert forall k | 0 <= k < |pattern| :: t[k] == u[k];
    assert t == u;
  }

  lemma OccurrenceChars(s: string, pattern: string, i: nat)
    requires OccursAt(s, pattern, i)
    ensures forall k | i <= k < i + |pattern| :: s[k] == pattern[k - i]
  {
    var t := s[i..i + |pattern|];
    forall k | i <= k < i + |pattern|
      ensures s[k] == pattern[k - i]
    {
      assert t[k - i] == s[k];
    }
  }

  lemma ContainsWider(a: string, s: string, b: string, pattern: string)
    requires Contains(s, pattern)
    ensures Contains(a + s + b, pattern)
  {
    var i :| 0 <= i <= |s| && OccursAt(s, pattern, i);
    assert (a + s + b)[|a|..|a| + |s|] == s;
    OccursInSlice(a + s + b, pattern, |a| + i, |a|, |a| + |s|);
  }

  lemma ContainsInside(a: string, pattern: string, b: string)
    ensures Contains(a + pattern + b, pattern)
  {
    assert OccursAt(pattern, pattern, 0);
    ContainsWider(a, pattern, b, pattern);
  }

  lemma PresentChar(s: string, pattern: string, i: nat)
    requires i < |pattern|
    ensures Contains(s, pattern) ==> pattern[i] in s
  {
    if Contains(s, pattern) {
      var k :| 0 <= k <= |s| && OccursAt(s, pattern, k);
      OccurrenceChars(s, pattern, k);
      assert s[k + i] == pattern[i];
    }
  }

  /** An occurrence of a pattern that does not use `c` lies on one side of any `c`. */
  lemma ContainsBeside(a: string, c: char, b: string, pattern: string)
    requires c !in pattern
    ensures Contains(a + [c] + b, pattern) <==> Contains(a, pattern) || Contains(b, pattern)
  {
    var s := a + [c] + b;
    assert s[0..|a|] == a && s[|a| + 1..|s|] == b && s[|a|] == c;
    if Contains(s, pattern) {
      var i :| 0 <= i <= |s| && OccursAt(s, pattern, i);
      OccurrenceChars(s, pattern, i);
      if i + |pattern| <= |a| {
        OccursInSlice(s, pattern, i, 0, |a|);
      } else {
        OccursInSlice(s, pattern, i, |a| + 1, |s|);
      }
    }
    if Contains(a, pattern) {
      ContainsWider("", a, [c] + b, pattern);
      assert "" + a + ([c] + b) == s;
    }
    if Contains(b, pattern) {
      ContainsWider(a + [c], b, "", pattern);
      assert a + [c] + b + "" == s;
    }
  }

  lemma {:induction false} ContainsBeforeRepeat(a: string, c: char, n: nat, pattern: string)
    requires c !in pattern && pattern != ""
    ensures Contains(a + Repeat(c, n), pattern) <==> Contains(a, pattern)
  {
    if n == 0 {
      assert a + Repeat(c, n) == a;
    } else {
      ContainsBeforeRepeat(a, c, n - 1, pattern);
      assert a + Repeat(c, n) == a + Repeat(c, n - 1) + [c] + "";
      ContainsBeside(a + Repeat(c, n - 1), c, "", pattern);
    }
  }

  // ---- order ----

  /** Code-point order, as `sorted` uses it. */
  predicate Before(a: string, b: string) {
    if b == "" then false
    else if a == "" then true
    else a[0] < b[0] || (a[0] == b[0] && Before(a[1..], b[1..]))
  }

  /** The first difference decides, and a prefix comes first. */
  ghost predicate DiffersAt(a: string, b: string, k: nat) {
    && k <= |a| && k < |b| && (forall i | 0 <= i < k :: a[i] == b[i]) && (k == |a| || a[k] < b[k])
  }

  lemma {:induction false} BeforeMeans(a: string, b: string)
    ensures Before(a, b) <==> exists k :: DiffersAt(a, b, k)
  {
    if a == "" || b == "" || a[0] != b[0] {
      assert Before(a, b) ==> DiffersAt(a, b, 0);
    } else {
      BeforeMeans(a[1..], b[1..]);
      forall k: nat
        ensures DiffersAt(a[1..], b[1..], k) <==> DiffersAt(a, b, k + 1)
      {
        assert forall i | 0 <= i < k && k < |b| - 1 && k <= |a| - 1 :: a[i + 1] == a[1..][i] && b[i + 1] == b[1..][i];
        assert forall i | 0 < i < k + 1 && k < |b| - 1 && k <= |a| - 1 :: a[i] == a[1..][i - 1] && b[i] == b[1..][i - 1];
      }
      if k: nat :| DiffersAt(a, b, k) {
        assert k > 0 && k == (k - 1) + 1;
        assert DiffersAt(a[1..], b[1..], k - 1);
      }
    }
  }

  lemma {:induction false} BeforeTotal(a: string, b: string)
    ensures a == b || Before(a, b) || Before(b, a)
    ensures !(Before(a, b) && Before(b, a))
    ensures a == b ==> !Before(a, b)
  {
    if a != "" && b != "" && a[0] == b[0] {
      BeforeTotal(a[1..], b[1..]);
      assert a == [a[0]] + a[1..] && b == [b[0]] + b[1..];
    }
  }

  lemma {:induction false} BeforeTransitive(a: string, b: string, c: string)
    requires Before(a, b) && Before(b, c)
    ensures Before(a, c)
  {
    if a != "" && a[0] == b[0] == c[0] {
      BeforeTransitive(a[1..], b[1..], c[1..]);
    }
  }

  // ---- numbers ----

  function Digit(n: nat): char
    requires n < 10
  {
    '0' + n as char
  }

  /** `str(n)` */
  function Decimal(n: nat): string {
    if n < 10 then [Digit(n)] else Decimal(n / 10) + [Digit(n % 10)]
  }

  /** The number that digits stand for. */
  function ValueOf(digits: string): int {
    if digits == "" then 0 else 10 * ValueOf(digits[..|digits| - 1]) + (digits[|digits| - 1] as int - '0' as int)
  }

  /** A decimal numeral is made of digits, without leading zeros, and stands for its number. */
  lemma {:induction false} DecimalReads(n: nat)
    ensures ValueOf(Decimal(n)) == n && Decimal(n) != "" && (forall c | c in Decimal(n) :: '0' <= c <= '9')
    ensures n > 0 ==> Decimal(n)[0] != '0'
  {
    if n >= 10 {
      DecimalReads(n / 10);
    }
  }

  lemma {:induction false} DecimalInjective(m: nat, n: nat)
    requires Decimal(m) == Decimal(n)
    ensures m == n
    decreases m
  {
    var a, b := Decimal(m), Decimal(n);
    if m >= 10 && n >= 10 {
      assert a[..|a| - 1] == Decimal(m / 10) && b[..|b| - 1] == Decimal(n / 10);
      assert a[|a| - 1] == Digit(m % 10) && b[|b| - 1] == Digit(n % 10);
      DecimalInjective(m / 10, n / 10);
    }
  }

  // ---- lines ----

  predicate IsBreak(c: char) {
    c in "\n\r\U{0b}\U{0c}\U{1c}\U{1d}\U{1e}\U{85}\U{2028}\U{2029}"
  }

  /** Line boundaries by code point. */
  lemma BreakCodes(c: char)
    ensures IsBreak(c) <==> 10 <= c as int <= 13 || 28 <= c as int <= 30 || c as int in {133, 8232, 8233}
  {
  }

  /** The length of the first line without its terminator. */
  function LineBody(s: string): (n: nat)
    ensures n <= |s| && (forall i | 0 <= i < n :: !IsBreak(s[i])) && (n < |s| ==> IsBreak(s[n]))
  {
    if s == "" || IsBreak(s[0]) then 0 else 1 + LineBody(s[1..])
  }

  /** The length of the first line with its terminator; a carriage return and a following line feed are one. */
  function LineLength(s: string): (n: nat)
    requires s != ""
    ensures LineBody(s) <= n <= |s| && 0 < n && (n == |s| || LineBody(s) < n)
    ensures forall i | LineBody(s) <= i < n :: IsBreak(s[i])
  {
    var n := LineBody(s);
    if n == |s| then n
    else if s[n] == '\r' && n + 1 < |s| && s[n + 1] == '\n' then n + 2
    else n + 1
  }

  /** `line.rstrip("\r\n")` */
  function Chomp(line: string): string {
    if line != "" && (line[|line| - 1] == '\n' || line[|line| - 1] == '\r') then Chomp(line[..|line| - 1]) else line
  }

  /** `s.splitlines(keepends=True)` */
  function KeepLines(s: string): seq<string> {
    if s == "" then [] else [s[..LineLength(s)]] + KeepLines(s[LineLength(s)..])
  }

  /** `s.splitlines()` */
  function Lines(s: string): seq<string> {
    if s == "" then [] else [s[..LineBody(s)]] + Lines(s[LineLength(s)..])
  }

  /** `"".join(parts)` */
  function Concat(parts: seq<string>): string {
    if parts == [] then "" else parts[0] + Concat(parts[1..])
  }

  /** `"\n".join(lines)` */
  function JoinLines(lines: seq<string>): string {
    if lines == [] then "" else if |lines| == 1 then lines[0] else lines[0] + "\n" + JoinLines(lines[1..])
  }

  lemma {:induction false} ConcatAppend(parts: seq<string>, more: seq<string>)
    ensures Concat(parts + more) == Concat(parts) + Concat(more)
  {
    if parts == [] {
      assert parts + more == more;
    } else {
      assert (parts + more)[1..] == parts[1..] + more;
      ConcatAppend(parts[1..], more);
    }
  }

  /** Splitting with the terminators kept loses nothing. */
  lemma {:induction false} KeepLinesLossless(s: string)
    ensures Concat(KeepLines(s)) == s
    decreases |s|
  {
    if s != "" {
      KeepLinesLossless(s[LineLength(s)..]);
      assert s == s[..LineLength(s)] + s[LineLength(s)..];
    }
  }

  /** A terminator: a line boundary, or a carriage return with the line feed behind it. */
  predicate Terminates(end: string, rest: string) {
    end == "\r\n" || (|end| == 1 && IsBreak(end[0]) && !(end == "\r" && rest != "" && rest[0] == '\n'))
  }

  lemma {:induction false} LineBodyOf(s: string, n: nat)
    requires n <= |s| && (forall i | 0 <= i < n :: !IsBreak(s[i])) && (n < |s| ==> IsBreak(s[n]))
    ensures LineBody(s) == n
  {
  }

  /** A text is cut behind the terminator of its first line, and the rest as it would be alone. */
  lemma FirstLine(line: string, end: string, rest: string)
    requires (forall c | c in line :: !IsBreak(c)) && Terminates(end, rest)
    ensures KeepLines(line + end + rest) == [line + end] + KeepLines(rest)
    ensures Lines(line + end + rest) == [line] + Lines(rest)
  {
    var s := line + end + rest;
    assert forall i | 0 <= i < |line| :: s[i] == line[i] && line[i] in line;
    assert s[|line|] == end[0] && IsBreak(end[0]);
    LineBodyOf(s, |line|);
    assert LineLength(s) == |line + end|;
    assert s[..|line|] == line && s[..|line + end|] == line + end && s[|line + end|..] == rest;
  }

  lemma LinesCons(line: string, rest: string)
    requires forall c | c in line :: !IsBreak(c)
    ensures Lines(line + "\n" + rest) == [line] + Lines(rest)
    ensures KeepLines(line + "\n" + rest) == [line + "\n"] + KeepLines(rest)
  {
    var s := line + "\n" + rest;
    assert s[|line|] == '\n';
    assert forall i | 0 <= i < |line| :: s[i] == line[i];
    assert LineBody(s) == |line| && LineLength(s) == |line| + 1;
    assert s[..|line|] == line && s[..|line| + 1] == line + "\n" && s[|line| + 1..] == rest;
  }

  /** A pattern without line breaks occurs in a text exactly when it occurs in one of its lines. */
  lemma {:induction false} ContainsInLine(s: string, pattern: string)
    requires pattern != "" && forall c | c in pattern :: !IsBreak(c)
    ensures Contains(s, pattern) <==> exists line :: line in Lines(s) && Contains(line, pattern)
    decreases |s|
  {
    if s == "" {
      assert !Contains(s, pattern);
    } else {
      var n, line := LineLength(s), s[..LineBody(s)];
      ContainsInLine(s[n..], pattern);
      assert Lines(s) == [line] + Lines(s[n..]);
      ContainsFirstOrRest(s, line, n, pattern);
    }
  }

  lemma NotAcrossBreaks(s: string, pattern: string, i: nat, lo: nat, hi: nat)
    requires pattern != "" && OccursAt(s, pattern, i) && lo <= hi <= |s| && (lo < hi || hi == |s|)
    requires forall k | lo <= k < hi :: IsBreak(s[k])
    requires forall c | c in pattern :: !IsBreak(c)
    ensures i + |pattern| <= lo || i >= hi
  {
    OccurrenceChars(s, pattern, i);
    var m := if i < lo then lo else i;
    if m < i + |pattern| {
      assert s[m] == pattern[m - i];
    }
  }

  lemma OccursFirstOrRest(s: string, line: string, n: nat, pattern: string)
    requires |line| <= n <= |s| && (n == |s| || |line| < n) && line == s[..|line|] && pattern != ""
    requires forall i | |line| <= i < n :: IsBreak(s[i])
    requires forall c | c in pattern :: !IsBreak(c)
    requires Contains(s, pattern)
    ensures Contains(line, pattern) || Contains(s[n..], pattern)
  {
    var i :| 0 <= i <= |s| && OccursAt(s, pattern, i);
    NotAcrossBreaks(s, pattern, i, |line|, n);
    if i + |pattern| <= |line| {
      assert s[0..|line|] == line;
      OccursInSlice(s, pattern, i, 0, |line|);
    } else {
      assert s[n..|s|] == s[n..];
      OccursInSlice(s, pattern, i, n, |s|);
    }
  }

  lemma ContainsFirstOrRest(s: string, line: string, n: nat, pattern: string)
    requires |line| <= n <= |s| && (n == |s| || |line| < n) && line == s[..|line|] && pattern != ""
    requires forall i | |line| <= i < n :: IsBreak(s[i])
    requires forall c | c in pattern :: !IsBreak(c)
    ensures Contains(s, pattern) <==> Contains(line, pattern) || Contains(s[n..], pattern)
  {
    if Contains(s, pattern) {
      OccursFirstOrRest(s, line, n, pattern);
    }
    if Contains(line, pattern) {
      ContainsWider("", line, s[|line|..], pattern);
      assert "" + line + s[|line|..] == s;
    }
    if Contains(s[n..], pattern) {
      ContainsWider(s[..n], s[n..], "", pattern);
      assert s[..n] + s[n..] + "" == s;
    }
  }

  lemma {:induction false} JoinContains(lines: seq<string>, pattern: string)
    requires pattern != "" && '\n' !in pattern
    ensures Contains(JoinLines(lines), pattern) <==> exists line :: line in lines && Contains(line, pattern)
  {
    if |lines| == 1 {
      assert lines == [lines[0]];
    } else if lines != [] {
      JoinContains(lines[1..], pattern);
      ContainsBeside(lines[0], '\n', JoinLines(lines[1..]), pattern);
      assert lines == [lines[0]] + lines[1..];
    }
  }
}
