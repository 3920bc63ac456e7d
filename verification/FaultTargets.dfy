/** The text form of a link, and the device names for which it can be read back. */
module FaultTargets {
  import opened Outcomes
  import PyText

  datatype TargetError = BadLinkFormat | BadDevices

  predicate DashesAt(t: string, i: nat) {
    i + 1 < |t| && t[i] == '-' && t[i + 1] == '-'
  }

  /** `t.count("--")`: occurrences that do not overlap, from the left. */
  function Pairs(t: string): nat {
    if |t| < 2 then 0 else if DashesAt(t, 0) then 1 + Pairs(t[2..]) else Pairs(t[1..])
  }

  /** `"---" in t` */
  predicate HasTriple(t: string) {
    exists i | 0 <= i < |t| :: DashesAt(t, i) && DashesAt(t, i + 1)
  }

  /** Where `t.split("--", 1)` cuts. */
  function FirstPair(t: string): (n: nat)
    requires Pairs(t) > 0
    ensures DashesAt(t, n) && forall i | 0 <= i < n :: !DashesAt(t, i)
  {
    if DashesAt(t, 0) then 0
    else
      var n := FirstPair(t[1..]);
      assert forall i | 0 < i < n + 1 :: DashesAt(t, i) <==> DashesAt(t[1..], i - 1);
      n + 1
  }

  function ParseLink(t: string): Result<(string, string), TargetError> {
    if Pairs(t) != 1 || ':' in t || HasTriple(t) then Err(BadLinkFormat)
    else
      var n := FirstPair(t);
      var source, destination := t[..n], t[n + 2..];
      if source == "" || destination == "" || source != PyText.Strip(source) || destination != PyText.Strip(destination)
         || source == destination
      then Err(BadDevices)
      else Ok((source, destination))
  }

  function LinkText(source: string, destination: string): string {
    source + "--" + destination
  }

  // ---- one pair of dashes ----

  ghost predicate NoDashes(t: string) {
    forall i: nat :: !DashesAt(t, i)
  }

  ghost predicate OnlyDashes(t: string, n: nat) {
    forall i: nat :: DashesAt(t, i) <==> i == n
  }

  lemma {:induction false} NoPairs(t: string)
    ensures Pairs(t) == 0 <==> NoDashes(t)
  {
    if |t| >= 2 {
      if !DashesAt(t, 0) {
        NoPairs(t[1..]);
        assert forall i: nat | i > 0 :: DashesAt(t, i) <==> DashesAt(t[1..], i - 1);
        assert forall i: nat :: DashesAt(t[1..], i) <==> DashesAt(t, i + 1);
      }
    }
  }

  /** The format check accepts exactly the texts with one pair of dashes, overlapping pairs included. */
  lemma {:induction false} OnePair(t: string, n: nat)
    requires DashesAt(t, n) && forall i | 0 <= i < n :: !DashesAt(t, i)
    ensures Pairs(t) == 1 && !HasTriple(t) <==> OnlyDashes(t, n)
  {
    PairsFrom(t, n);
    var rest := t[n + 2..];
    NoPairs(rest);
    assert forall i: nat :: DashesAt(rest, i) <==> DashesAt(t, n + 2 + i);
    if OnlyDashes(t, n) {
      assert NoDashes(rest);
    } else if Pairs(t) == 1 {
      assert forall i: nat | i >= n + 2 :: DashesAt(t, i) <==> DashesAt(rest, i - n - 2);
      assert DashesAt(t, n + 1);
    }
  }

  lemma {:induction false} PairsFrom(t: string, n: nat)
    requires DashesAt(t, n) && forall i | 0 <= i < n :: !DashesAt(t, i)
    ensures Pairs(t) == 1 + Pairs(t[n + 2..])
  {
    if n > 0 {
      assert forall i | 0 <= i < n - 1 :: DashesAt(t[1..], i) <==> DashesAt(t, i + 1);
      PairsFrom(t[1..], n - 1);
      assert t[1..][n - 1 + 2..] == t[n + 2..];
    }
  }

  // ---- which links can be read back ----

  /** Names that keep to themselves on either side of the dashes. */
  ghost predicate Separable(source: string, destination: string) {
    && NoDashes(source) && NoDashes(destination)
    && (source != "" ==> source[|source| - 1] != '-') && (destination != "" ==> destination[0] != '-')
  }

  ghost predicate Readable(source: string, destination: string) {
    && source != "" && destination != "" && source != destination
    && source == PyText.Strip(source) && destination == PyText.Strip(destination)
    && ':' !in source && ':' !in destination
    && Separable(source, destination)
  }

  lemma DashesOfText(source: string, destination: string, i: nat)
    ensures var t, n := LinkText(source, destination), |source|;
            && DashesAt(t, n)
            && (i + 1 < n ==> (DashesAt(t, i) <==> DashesAt(source, i)))
            && (i + 1 == n ==> (DashesAt(t, i) <==> source[i] == '-'))
            && (i == n + 1 ==> (DashesAt(t, i) <==> destination != "" && destination[0] == '-'))
            && (i >= n + 2 ==> (DashesAt(t, i) <==> DashesAt(destination, i - n - 2)))
  {
    var t, n := LinkText(source, destination), |source|;
    assert t[n] == '-' && t[n + 1] == '-';
    assert forall k | 0 <= k < n :: t[k] == source[k];
    assert forall k | 0 <= k < |destination| :: t[n + 2 + k] == destination[k];
  }

  lemma SeparableMeansOnly(source: string, destination: string)
    ensures Separable(source, destination) <==> OnlyDashes(LinkText(source, destination), |source|)
  {
    var t, n := LinkText(source, destination), |source|;
    forall i: nat
      ensures DashesAt(t, n)
      ensures i + 1 < n ==> (DashesAt(t, i) <==> DashesAt(source, i))
      ensures i + 1 == n ==> (DashesAt(t, i) <==> source[i] == '-')
      ensures i == n + 1 ==> (DashesAt(t, i) <==> destination != "" && destination[0] == '-')
      ensures i >= n + 2 ==> (DashesAt(t, i) <==> DashesAt(destination, i - n - 2))
    {
      DashesOfText(source, destination, i);
    }
    if OnlyDashes(t, n) {
      forall i: nat
        ensures !DashesAt(source, i) && !DashesAt(destination, i)
      {
        DashesOfText(source, destination, i);
        DashesOfText(source, destination, n + 2 + i);
      }
      DashesOfText(source, destination, n + 1);
      if n > 0 {
        DashesOfText(source, destination, n - 1);
      }
    }
  }

  /** A link text is read back as the same two names exactly when both are non-empty, stripped, different, free of
      colons, and no other pair of dashes arises in or beside them. */
  lemma LinkTextReadsBack(source: string, destination: string)
    ensures ParseLink(LinkText(source, destination)) == Ok((source, destination)) <==> Readable(source, destination)
  {
    var t, n := LinkText(source, destination), |source|;
    DashesOfText(source, destination, 0);
    SeparableMeansOnly(source, destination);
    NoPairs(t);
    assert ':' in t <==> ':' in source || ':' in destination;
    var first := FirstPair(t);
    OnePair(t, first);
    assert t[..n] == source && t[n + 2..] == destination;
    assert Pairs(t) == 1 && !HasTriple(t) ==> first == n;
    assert Separable(source, destination) ==> first == n;
  }

  /** A link text is read back as the names it was made of, or not at all. */
  lemma ReadsAsItself(source: string, destination: string)
    ensures ParseLink(LinkText(source, destination)).Ok? ==>
              ParseLink(LinkText(source, destination)).value == (source, destination)
  {
    var t, n := LinkText(source, destination), |source|;
    DashesOfText(source, destination, 0);
    NoPairs(t);
    var first := FirstPair(t);
    OnePair(t, first);
    assert t[..n] == source && t[n + 2..] == destination;
    assert Pairs(t) == 1 && !HasTriple(t) ==> first == n;
  }

  /** Which texts are links: a text without colon and with one pair of dashes, overlapping pairs included, is cut there,
      and the two names must be non-empty, stripped and different. */
  lemma ParsesExactly(t: string, n: nat)
    ensures ParseLink(t) == Err(BadLinkFormat) <==> ':' in t || !exists k :: OnlyDashes(t, k)
    ensures ':' !in t && OnlyDashes(t, n) ==>
              n + 2 <= |t|
              && var a, b := t[..n], t[n + 2..];
                 ParseLink(t) == if a == "" || b == "" || a == b || PyText.Strip(a) != a || PyText.Strip(b) != b then Err(BadDevices)
                                 else Ok((a, b))
  {
    NoPairs(t);
    if Pairs(t) > 0 {
      var first := FirstPair(t);
      OnePair(t, first);
      assert forall k: nat :: OnlyDashes(t, k) ==> DashesAt(t, k) && DashesAt(t, first);
    } else {
      assert forall k: nat :: OnlyDashes(t, k) ==> DashesAt(t, k);
    }
    assert OnlyDashes(t, n) ==> DashesAt(t, n);
  }

  // ---- canonical references ----

  /** `"--".join(sorted((a, b)))` */
  function CanonicalText(a: string, b: string): string {
    if PyText.Before(b, a) then LinkText(b, a) else LinkText(a, b)
  }

  /** The name that comes first in the order of texts is written first. */
  lemma CanonicalOrder(a: string, b: string)
    requires PyText.Before(a, b)
    ensures CanonicalText(a, b) == a + "--" + b && CanonicalText(b, a) == a + "--" + b
  {
    PyText.BeforeTotal(a, b);
  }

  lemma CanonicalReads(a: string, b: string)
    requires Readable(a, b) && Readable(b, a)
    ensures ParseLink(CanonicalText(a, b)) == Ok((a, b)) || ParseLink(CanonicalText(a, b)) == Ok((b, a))
  {
    LinkTextReadsBack(a, b);
    LinkTextReadsBack(b, a);
  }

  lemma CanonicalUnordered(a: string, b: string)
    ensures CanonicalText(a, b) == CanonicalText(b, a)
  {
    PyText.BeforeTotal(a, b);
  }

  lemma SamePair<T>(a: T, b: T, c: T, d: T)
    requires {a, b} == {c, d}
    ensures (a == c && b == d) || (a == d && b == c)
  {
    assert a in {c, d} && b in {c, d} && c in {a, b} && d in {a, b};
  }

  /** For readable names the canonical text stands for the unordered pair: it does not depend on the order, and
      different pairs have different texts. */
  lemma CanonicalTextIsPair(a: string, b: string, c: string, d: string)
    requires Readable(a, b) && Readable(b, a) && Readable(c, d) && Readable(d, c)
    ensures CanonicalText(a, b) == CanonicalText(c, d) <==> {a, b} == {c, d}
  {
    CanonicalReads(a, b);
    CanonicalReads(c, d);
    CanonicalUnordered(a, b);
    if {a, b} == {c, d} {
      SamePair(a, b, c, d);
    }
  }

  /** Other names can share a text: two different links, one canonical reference. */
  lemma SharedText()
    ensures CanonicalText("a--b", "c") == CanonicalText("a", "b--c") && {"a--b", "c"} != {"a", "b--c"}
  {
    assert PyText.Before("a--b", "c") && PyText.Before("a", "b--c");
    PyText.BeforeTotal("a--b", "c");
    PyText.BeforeTotal("a", "b--c");
    assert "a--b" + "--" + "c" == "a" + "--" + "b--c";
    assert |"c"| == 1 && |"a"| == 1 && "c" != "a" && |"b--c"| == 4;
    assert "c" in {"a--b", "c"} && "c" !in {"a", "b--c"};
  }
}
