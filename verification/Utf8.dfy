/**
 UTF-8 as sections 3 and 4 of RFC 3629 define it.

 An octet is a number below 256, a character a scalar value: surrogates are none. Encoding a
 character gives one to four octets. Decoding reads the first character of some octets, or finds
 that they do not begin with one: a missing or stray continuation octet, an overlong form, a
 surrogate and a value past the last plane are all no characters.
 */
module Utf8 {
  import opened Options

  type Byte = x: int | 0 <= x < 256
  type Bytes = seq<Byte>
  type Rune = x: int | (0 <= x < 0xD800) || (0xE000 <= x <= 0x10FFFF)

  const RUNE_ERROR: Rune := 0xFFFD

  function RuneLen(r: Rune): nat {
    if r < 0x80 then 1 else if r < 0x800 then 2 else if r < 0x10000 then 3 else 4
  }

  /** Six bits of the value in each continuation octet, the rest in the first. */
  function EncodeRune(r: Rune): (s: Bytes)
    ensures |s| == RuneLen(r)
  {
    if r < 0x80 then [r]
    else if r < 0x800 then [0xC0 + r / 64, 0x80 + r % 64]
    else if r < 0x10000 then [0xE0 + r / 64 / 64, 0x80 + r / 64 % 64, 0x80 + r % 64]
    else [0xF0 + r / 64 / 64 / 64, 0x80 + r / 64 / 64 % 64, 0x80 + r / 64 % 64, 0x80 + r % 64]
  }

  function Join(high: int, low: int): int {
    high * 64 + low
  }

  predicate IsTail(b: Byte) {
    0x80 <= b <= 0xBF
  }

  /** An octet that can begin an encoding, valid or not. */
  predicate RuneStart(b: Byte) {
    !IsTail(b)
  }

  /** How many octets an encoding beginning with `b` has; 0 when none begins so. */
  function Need(b: Byte): nat {
    if b < 0x80 then 1 else if 0xC2 <= b <= 0xDF then 2 else if 0xE0 <= b <= 0xEF then 3
    else if 0xF0 <= b <= 0xF4 then 4 else 0
  }

  /** The second octet is restricted where it would make an overlong form, a surrogate or too large a value. */
  predicate SecondFits(first: Byte, second: Byte) {
    && (if first == 0xE0 then 0xA0 else if first == 0xF0 then 0x90 else 0x80) <= second
    && second <= (if first == 0xED then 0x9F else if first == 0xF4 then 0x8F else 0xBF)
  }

  datatype Decoded = Char(rune: Rune, size: nat) | Invalid

  /** Reads the first character, or finds that the octets do not begin with one. */
  function Decode(s: Bytes): Decoded {
    if s == [] || Need(s[0]) == 0 || |s| < Need(s[0]) then Invalid
    else if Need(s[0]) == 1 then Char(s[0], 1)
    else if !SecondFits(s[0], s[1]) then Invalid
    else if Need(s[0]) == 2 then Char(Join(Bits(s[0], 0xC0), Bits(s[1], 0x80)), 2)
    else if !IsTail(s[2]) then Invalid
    else if Need(s[0]) == 3 then Char(Join(Join(Bits(s[0], 0xE0), Bits(s[1], 0x80)), Bits(s[2], 0x80)), 3)
    else if !IsTail(s[3]) then Invalid
    else Char(Join(Join(Join(Bits(s[0], 0xF0), Bits(s[1], 0x80)), Bits(s[2], 0x80)), Bits(s[3], 0x80)), 4)
  }

  function Bits(b: Byte, mark: int): int {
    b as int - mark
  }

  lemma Split(high: int, low: int)
    requires 0 <= high && 0 <= low < 64
    ensures Join(high, low) / 64 == high && Join(high, low) % 64 == low
  {}

  lemma Joined(r: int)
    requires 0 <= r
    ensures Join(r / 64, r % 64) == r
  {}

  lemma FirstOctets(r: Rune)
    ensures Need(EncodeRune(r)[0]) == RuneLen(r)
    ensures RuneLen(r) > 1 ==> SecondFits(EncodeRune(r)[0], EncodeRune(r)[1])
  {}

  lemma DecodeMatching(s: Bytes, r: Rune)
    requires RuneLen(r) <= |s| && forall i :: 0 <= i < RuneLen(r) ==> s[i] == EncodeRune(r)[i]
    ensures Decode(s) == Char(r, RuneLen(r))
  {
    FirstOctets(r);
    assert s[0] == EncodeRune(r)[0];
    Joined(r);
    if RuneLen(r) >= 2 { assert s[1] == EncodeRune(r)[1]; }
    if RuneLen(r) >= 3 { assert s[2] == EncodeRune(r)[2]; Joined(r / 64); }
    if RuneLen(r) >= 4 { assert s[3] == EncodeRune(r)[3]; Joined(r / 64 / 64); }
  }

  /** Whatever follows, an encoded character is read back. */
  lemma DecodeEncoded(r: Rune, t: Bytes)
    ensures Decode(EncodeRune(r) + t) == Char(r, RuneLen(r))
  {
    DecodeMatching(EncodeRune(r) + t, r);
  }

  /** What is read as a character is exactly its encoding: no overlong forms, no surrogates. */
  lemma EncodeDecoded(s: Bytes)
    requires Decode(s).Char?
    ensures Decode(s).size == RuneLen(Decode(s).rune) <= |s|
    ensures s[..Decode(s).size] == EncodeRune(Decode(s).rune)
  {
    match Need(s[0])
    case 2 => Reencodes2(s);
    case 3 => Reencodes3(s);
    case 4 => Reencodes4(s);
    case _ =>
  }

  lemma Reencodes2(s: Bytes)
    requires Decode(s).Char? && Need(s[0]) == 2
    ensures RuneLen(Decode(s).rune) == 2 && s[..2] == EncodeRune(Decode(s).rune)
  {
    Split(Bits(s[0], 0xC0), Bits(s[1], 0x80));
  }

  lemma Reencodes3(s: Bytes)
    requires Decode(s).Char? && Need(s[0]) == 3
    ensures RuneLen(Decode(s).rune) == 3 && s[..3] == EncodeRune(Decode(s).rune)
  {
    var high := Join(Bits(s[0], 0xE0), Bits(s[1], 0x80));
    Split(Bits(s[0], 0xE0), Bits(s[1], 0x80));
    Split(high, Bits(s[2], 0x80));
  }

  lemma Split4(a: int, b: int, c: int, d: int)
    requires 0 <= a && 0 <= b < 64 && 0 <= c < 64 && 0 <= d < 64
    ensures
      var r := Join(Join(Join(a, b), c), d);
      r / 64 / 64 / 64 == a && r / 64 / 64 % 64 == b && r / 64 % 64 == c && r % 64 == d
  {
    Split(a, b);
    Split(Join(a, b), c);
    Split(Join(Join(a, b), c), d);
  }

  lemma Reencodes4(s: Bytes)
    requires Decode(s).Char? && Need(s[0]) == 4
    ensures RuneLen(Decode(s).rune) == 4 && s[..4] == EncodeRune(Decode(s).rune)
  {
    Split4(Bits(s[0], 0xF0), Bits(s[1], 0x80), Bits(s[2], 0x80), Bits(s[3], 0x80));
    assert s[..4] == [s[0], s[1], s[2], s[3]];
  }

  // ---- whole texts ----

  function Encode(runes: seq<Rune>): Bytes {
    if runes == [] then [] else EncodeRune(runes[0]) + Encode(runes[1..])
  }

  lemma {:induction false} EncodeAppend(a: seq<Rune>, b: seq<Rune>)
    ensures Encode(a + b) == Encode(a) + Encode(b)
  {
    if a == [] {
      assert a + b == b;
    } else {
      assert (a + b)[1..] == a[1..] + b;
      EncodeAppend(a[1..], b);
    }
  }

  lemma EncodeOne(r: Rune)
    ensures Encode([r]) == EncodeRune(r)
  {
    assert [r][1..] == [];
    assert EncodeRune(r) + Encode([]) == EncodeRune(r);
  }

  function ValidString(s: Bytes): bool {
    s == [] || (Decode(s).Char? && Decode(s).size <= |s| && Decode(s).size > 0 && ValidString(s[Decode(s).size..]))
  }

  /** The octets are valid exactly when they are some sequence of characters, encoded. */
  lemma ValidIffEncoded(s: Bytes)
    ensures ValidString(s) <==> exists runes :: Encode(runes) == s
  {
    if ValidString(s) {
      var runes := DecodesTo(s);
    }
    if exists runes :: Encode(runes) == s {
      var runes :| Encode(runes) == s;
      EncodedIsValid(runes);
    }
  }

  lemma {:induction false} DecodesTo(s: Bytes) returns (runes: seq<Rune>)
    requires ValidString(s)
    ensures Encode(runes) == s
  {
    if s == [] {
      runes := [];
    } else {
      EncodeDecoded(s);
      var rest := DecodesTo(s[Decode(s).size..]);
      runes := [Decode(s).rune] + rest;
      assert s == s[..Decode(s).size] + s[Decode(s).size..];
    }
  }

  lemma {:induction false} EncodedIsValid(runes: seq<Rune>)
    ensures ValidString(Encode(runes))
  {
    if runes != [] {
      DecodeEncoded(runes[0], Encode(runes[1..]));
      assert Encode(runes)[RuneLen(runes[0])..] == Encode(runes[1..]);
      EncodedIsValid(runes[1..]);
    }
  }

  // ---- character boundaries ----

  function ByteLen(runes: seq<Rune>): nat {
    |Encode(runes)|
  }

  /** How many leading characters fit into `room` octets. */
  function FitCount(runes: seq<Rune>, room: int): (k: nat)
    ensures k <= |runes|
  {
    if runes == [] || RuneLen(runes[0]) > room then 0 else 1 + FitCount(runes[1..], room - RuneLen(runes[0]))
  }

  /** It is the longest prefix that fits. */
  lemma {:induction false} FitCountIsLongest(runes: seq<Rune>, room: nat)
    ensures ByteLen(runes[..FitCount(runes, room)]) <= room
    ensures forall k :: FitCount(runes, room) < k <= |runes| ==> ByteLen(runes[..k]) > room
  {
    if runes != [] {
      var r := runes[0];
      forall k | 0 < k <= |runes|
        ensures ByteLen(runes[..k]) == RuneLen(r) + ByteLen(runes[1..][..k - 1])
      {
        assert runes[..k][1..] == runes[1..][..k - 1];
      }
      if RuneLen(r) <= room {
        FitCountIsLongest(runes[1..], room - RuneLen(r));
      }
    }
  }

  /** Inside a character no octet looks like the start of one; at its first octet it does. */
  lemma StartOfRune(r: Rune, i: nat)
    requires i < RuneLen(r)
    ensures RuneStart(EncodeRune(r)[i]) <==> i == 0
  {}

  lemma EncodeThree(a: seq<Rune>, r: Rune, b: seq<Rune>)
    ensures Encode(a + [r]) == Encode(a) + EncodeRune(r)
    ensures Encode(a + [r] + b) == Encode(a) + EncodeRune(r) + Encode(b)
  {
    EncodeOne(r);
    EncodeAppend(a, [r]);
    EncodeAppend(a + [r], b);
  }

  lemma SplitAt(runes: seq<Rune>, k: nat)
    requires k < |runes|
    ensures runes == runes[..k] + [runes[k]] + runes[k + 1..] && runes[..k + 1] == runes[..k] + [runes[k]]
  {}

  lemma Around(runes: seq<Rune>, k: nat)
    requires k < |runes|
    ensures Encode(runes) == Encode(runes[..k]) + EncodeRune(runes[k]) + Encode(runes[k + 1..])
    ensures ByteLen(runes[..k + 1]) == ByteLen(runes[..k]) + RuneLen(runes[k])
  {
    SplitAt(runes, k);
    EncodeThree(runes[..k], runes[k], runes[k + 1..]);
  }

  lemma ByteInside(runes: seq<Rune>, k: nat, i: nat)
    requires k < |runes| && ByteLen(runes[..k]) <= i < ByteLen(runes[..k + 1])
    ensures i < ByteLen(runes)
    ensures RuneStart(Encode(runes)[i]) <==> i == ByteLen(runes[..k])
  {
    Around(runes, k);
    var before := Encode(runes[..k]);
    StartOfRune(runes[k], i - |before|);
    MiddleOctet(before, EncodeRune(runes[k]), Encode(runes[k + 1..]), i);
  }

  lemma MiddleOctet(a: Bytes, b: Bytes, c: Bytes, i: nat)
    requires |a| <= i < |a| + |b|
    ensures i < |a + b + c| && (a + b + c)[i] == b[i - |a|]
  {}

  // ---- literal text ----

  function Chars(s: string): seq<Rune> {
    seq(|s|, i requires 0 <= i < |s| => s[i] as int)
  }

  function Utf8Of(s: string): Bytes {
    Encode(Chars(s))
  }

  lemma Utf8OfAppend(a: string, b: string)
    ensures Utf8Of(a + b) == Utf8Of(a) + Utf8Of(b)
  {
    assert Chars(a + b) == Chars(a) + Chars(b);
    EncodeAppend(Chars(a), Chars(b));
  }

  /** ASCII characters are their own octets. */
  lemma {:induction false} AsciiEncodes(runes: seq<Rune>)
    requires forall i :: 0 <= i < |runes| ==> runes[i] < 0x80
    ensures Encode(runes) == runes
  {
    if runes != [] {
      AsciiEncodes(runes[1..]);
    }
  }
}
