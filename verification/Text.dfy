/** Strings as the services see them. */
module Text {
  // A string is a sequence of Unicode scalar values. Decimal numerals are written most significant digit
  // first and read back to the same number. Prefixes are compared character by character. Trimming takes
  // white space off both ends.

  function Digit(n: nat): char
    requires n < 10
  {
    '0' + n as char
  }

  function Decimal(n: nat): (s: string)
    ensures s != [] && forall c <- s :: IsDigit(c)
  {
    if n < 10 then [Digit(n)] else Decimal(n / 10) + [Digit(n % 10)]
  }

  predicate IsDigit(c: char) {
    '0' <= c <= '9'
  }

  /** The value of a numeral. */
  function Value(s: string): nat
    requires forall c <- s :: IsDigit(c)
  {
    if s == [] then 0
    else
      assert IsDigit(s[|s| - 1]);
      10 * Value(s[..|s| - 1]) + (s[|s| - 1] as nat - '0' as nat)
  }

  lemma {:induction false} ValueOfDecimal(n: nat)
    ensures Value(Decimal(n)) == n
  {
    if n >= 10 {
      ValueOfDecimal(n / 10);
      assert Decimal(n)[..|Decimal(n)| - 1] == Decimal(n / 10);
    } else {
      assert Decimal(n)[..0] == [];
    }
  }

  predicate HasPrefix(s: string, p: string) {
    |p| <= |s| && s[..|p|] == p
  }

  predicate IsSpace(c: char) {
    var n := c as int;
    || 0x09 <= n <= 0x0D || n == 0x20 || n == 0x85 || n == 0xA0 || n == 0x1680 || 0x2000 <= n <= 0x200A
    || n == 0x2028 || n == 0x2029 || n == 0x202F || n == 0x205F || n == 0x3000
  }

  function TrimLeft(s: string): string {
    if s != [] && IsSpace(s[0]) then TrimLeft(s[1..]) else s
  }

  function TrimRight(s: string): string {
    if s != [] && IsSpace(s[|s| - 1]) then TrimRight(s[..|s| - 1]) else s
  }

  function Trim(s: string): string {
    TrimRight(TrimLeft(s))
  }

  /** Trimming leaves nothing exactly when the text is blank. */
  lemma TrimIsEmpty(s: string)
    ensures Trim(s) == "" <==> forall c <- s :: IsSpace(c)
  {
    TrimLeftIsEmpty(s);
    TrimLeftEnds(s);
    TrimRightIsEmpty(TrimLeft(s));
  }

  lemma {:induction false} TrimLeftIsEmpty(s: string)
    ensures TrimLeft(s) == "" <==> forall c <- s :: IsSpace(c)
  {
    if s != [] && IsSpace(s[0]) {
      TrimLeftIsEmpty(s[1..]);
      assert s == [s[0]] + s[1..];
    } else if s != [] {
      assert s[0] in s;
    }
  }

  lemma {:induction false} TrimLeftEnds(s: string)
    ensures TrimLeft(s) != "" ==> !IsSpace(TrimLeft(s)[0])
  {
    if s != [] && IsSpace(s[0]) {
      TrimLeftEnds(s[1..]);
    }
  }

  lemma {:induction false} TrimRightIsEmpty(s: string)
    requires s != "" ==> !IsSpace(s[0])
    ensures TrimRight(s) == "" <==> s == ""
  {
    if s != [] && IsSpace(s[|s| - 1]) {
      TrimRightIsEmpty(s[..|s| - 1]);
    }
  }

  // ---- what trimming is ----

  predicate AllSpace(s: string) {
    forall c <- s :: IsSpace(c)
  }

  /** Nothing to trim at either end. */
  predicate Trimmed(s: string) {
    s == "" || (!IsSpace(s[0]) && !IsSpace(s[|s| - 1]))
  }

  lemma {:induction false} TrimLeftSplits(s: string) returns (p: string)
    ensures s == p + TrimLeft(s) && AllSpace(p)
  {
    if s != [] && IsSpace(s[0]) {
      var q := TrimLeftSplits(s[1..]);
      p := [s[0]] + q;
      assert s == [s[0]] + s[1..];
    } else {
      p := "";
    }
  }

  lemma {:induction false} TrimRightSplits(s: string) returns (q: string)
    ensures s == TrimRight(s) + q && AllSpace(q)
    ensures TrimRight(s) != "" ==> !IsSpace(TrimRight(s)[|TrimRight(s)| - 1]) && TrimRight(s)[0] == s[0]
  {
    if s != [] && IsSpace(s[|s| - 1]) {
      var p := TrimRightSplits(s[..|s| - 1]);
      q := p + [s[|s| - 1]];
      assert s == s[..|s| - 1] + [s[|s| - 1]];
    } else {
      q := "";
    }
  }

  /** Trimming takes white space off both ends, all of it, and nothing else. */
  lemma TrimTakesTheEnds(s: string) returns (p: string, q: string)
    ensures s == p + Trim(s) + q && AllSpace(p) && AllSpace(q) && Trimmed(Trim(s))
  {
    p := TrimLeftSplits(s);
    q := TrimRightSplits(TrimLeft(s));
    TrimLeftEnds(s);
    assert p + (Trim(s) + q) == p + Trim(s) + q;
  }

  lemma {:induction false} SpaceBefore(p: string, m: string)
    requires AllSpace(p) && (m == "" || !IsSpace(m[0]))
    ensures TrimLeft(p + m) == m
  {
    if p == "" {
      assert p + m == m;
    } else {
      assert p[0] in p && (p + m)[1..] == p[1..] + m;
      SpaceBefore(p[1..], m);
    }
  }

  lemma {:induction false} SpaceAfter(m: string, q: string)
    requires AllSpace(q) && (m == "" || !IsSpace(m[|m| - 1]))
    ensures TrimRight(m + q) == m
  {
    if q == "" {
      assert m + q == m;
    } else {
      assert q[|q| - 1] in q && (m + q)[..|m + q| - 1] == m + q[..|q| - 1];
      SpaceAfter(m, q[..|q| - 1]);
    }
  }

  /** There is only one way to do that: whatever stands between white space, with none at its ends, is the trimmed text. */
  lemma TrimIsTheMiddle(p: string, m: string, q: string)
    requires AllSpace(p) && AllSpace(q) && Trimmed(m)
    ensures Trim(p + m + q) == m
  {
    if m == "" {
      assert forall c <- p + m + q :: c in p || c in q;
      TrimIsEmpty(p + m + q);
    } else {
      assert p + m + q == p + (m + q);
      SpaceBefore(p, m + q);
      SpaceAfter(m, q);
    }
  }

  const WHITE_SPACE: seq<int> := [
    0x9, 0xA, 0xB, 0xC, 0xD, 0x20, 0x85, 0xA0, 0x1680, 0x2000, 0x2001, 0x2002, 0x2003, 0x2004, 0x2005, 0x2006, 0x2007,
    0x2008, 0x2009, 0x200A, 0x2028, 0x2029, 0x202F, 0x205F, 0x3000]

  lemma ListedIsSpace(i: nat)
    requires i < |WHITE_SPACE|
    ensures 0 <= WHITE_SPACE[i] < 0xD800 && IsSpace(WHITE_SPACE[i] as char)
  {}

  lemma SpaceIsListed(c: char) returns (i: nat)
    requires IsSpace(c)
    ensures i < |WHITE_SPACE| && WHITE_SPACE[i] == c as int
  {
    var n := c as int;
    i := if n <= 0xD then n - 0x9
      else if 0x2000 <= n <= 0x200A then 9 + n - 0x2000
      else match n case 0x20 => 5 case 0x85 => 6 case 0xA0 => 7 case 0x1680 => 8
                   case 0x2028 => 20 case 0x2029 => 21 case 0x202F => 22 case 0x205F => 23 case _ => 24;
  }

  /** White space is the 25 code points that Unicode lists as such. */
  lemma SpacesAreListed(c: char)
    ensures IsSpace(c) <==> exists i :: 0 <= i < |WHITE_SPACE| && WHITE_SPACE[i] == c as int
    ensures |WHITE_SPACE| == 25
  {
    if IsSpace(c) {
      var i := SpaceIsListed(c);
      assert WHITE_SPACE[i] == c as int;
    }
    if i :| 0 <= i < |WHITE_SPACE| && WHITE_SPACE[i] == c as int {
      ListedIsSpace(i);
    }
  }

  /** A text has those prefixes that something can be put behind to make it. */
  lemma PrefixIs(s: string, p: string, rest: string)
    ensures s == p + rest ==> HasPrefix(s, p)
    ensures HasPrefix(s, p) ==> s == p + s[|p|..]
  {}
}
