/** The two line patterns that decide which lines are fences and underlines. */
module MarkdownFences {
  import opened Outcomes
  import PyText
  import opened Documents
  import opened SetextHeadings

  /** How many copies of a character a text starts with. */
  function RunLength(s: string, mark: char): (n: nat)
    ensures n <= |s| && (forall i | 0 <= i < n :: s[i] == mark) && (n < |s| ==> s[n] != mark)
  {
    if s == "" || s[0] != mark then 0 else 1 + RunLength(s[1..], mark)
  }

  /** After optional white space, three or more back quotes or tildes. */
  function FenceOf(line: string): Option<Marker> {
    var t := PyText.StripLeft(line);
    if t == "" || (t[0] != '`' && t[0] != '~') || RunLength(t, t[0]) < 3 then None
    else Some(Marker(t[0], RunLength(t, t[0])))
  }

  /** Nothing but equals signs, or nothing but hyphens, between white space: a heading of level one or two. */
  function UnderlineOf(line: string): Option<nat> {
    var t := PyText.Strip(line);
    if t == "" then None
    else if RunLength(t, '=') == |t| then Some(1)
    else if RunLength(t, '-') == |t| then Some(2)
    else None
  }

  /** Documents as the splitter reads them; which lines are headings and commands is left open. */
  function Markdown(heading: string -> Option<Heading>, command: string -> bool): Syntax {
    Syntax(FenceOf, heading, UnderlineOf, command)
  }

  lemma {:induction false} StripLeftOfPrefix(s: string, t: string)
    requires PyText.StripLeft(s) != ""
    ensures PyText.StripLeft(s + t) == PyText.StripLeft(s) + t
  {
    assert (s + t)[0] == s[0];
    if PyText.IsSpace(s[0]) {
      assert (s + t)[1..] == s[1..] + t;
      StripLeftOfPrefix(s[1..], t);
    }
  }

  lemma {:induction false} StripRightPrefix(s: string)
    ensures PyText.StripRight(s) != "" ==> s != "" && PyText.StripRight(s)[0] == s[0]
  {
    if s != "" && PyText.IsSpace(s[|s| - 1]) {
      StripRightPrefix(s[..|s| - 1]);
    }
  }

  lemma {:induction false} ChompPrefix(line: string)
    ensures PyText.Chomp(line) <= line
  {
    if line != "" && (line[|line| - 1] == '\n' || line[|line| - 1] == '\r') {
      ChompPrefix(line[..|line| - 1]);
    }
  }

  lemma UnderlineIsNoFence(line: string)
    requires UnderlineOf(PyText.Chomp(line)).Some?
    ensures FenceOf(line).None?
  {
    var s := PyText.Chomp(line);
    ChompPrefix(line);
    assert line == s + line[|s|..];
    var t := PyText.StripLeft(s);
    StripRightPrefix(t);
    StripLeftOfPrefix(s, line[|s|..]);
    assert PyText.Strip(s)[0] == '=' || PyText.Strip(s)[0] == '-';
  }

  lemma HeadingIsNoFence(line: string, level: nat)
    requires level > 0
    ensures FenceOf(AsHeading(line, level)).None?
  {
    assert PyText.Repeat('#', level)[0] == '#';
    assert AsHeading(line, level)[0] == '#';
    assert PyText.StripLeft(AsHeading(line, level)) == AsHeading(line, level);
  }

  lemma MarkdownIsPlain(heading: string -> Option<Heading>, command: string -> bool)
    ensures Plain(Markdown(heading, command))
  {
    forall line | UnderlineOf(PyText.Chomp(line)).Some?
      ensures FenceOf(line).None?
    {
      UnderlineIsNoFence(line);
    }
    forall line, level: nat | level > 0
      ensures FenceOf(AsHeading(line, level)).None?
    {
      HeadingIsNoFence(line, level);
    }
  }

  /** Fences are not white space. */
  lemma MarkdownIsVisible(heading: string -> Option<Heading>, command: string -> bool)
    ensures Visible(Markdown(heading, command))
  {
    forall line | FenceOf(line).Some?
      ensures !PyText.IsBlank(line)
    {
      PyText.StripLeftBlank(line);
      PyText.BlankMeansSpaces(line);
    }
  }
}
