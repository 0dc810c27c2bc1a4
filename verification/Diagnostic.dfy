/**
 The boundary for untrusted diagnostics: valid UTF-8, one line, at most so many bytes.

 Text that is too long is cut at a character and marked. The program reads octets and builds its
 result octet by octet; the specification reads characters, with one replacement character for each
 run of octets that are not valid.
 */
module Diagnostic {
  import opened Options
  import opened Utf8

  const MAX_BYTES: nat := 4096
  const MARKER_RUNES: seq<Rune> := Chars("\U{2026}[truncated]")
  const MARKER: Bytes := Encode(MARKER_RUNES)

  function LimitOf(maxBytes: int): (limit: nat)
    ensures 1 <= limit <= MAX_BYTES
  {
    if maxBytes <= 0 || maxBytes > MAX_BYTES then MAX_BYTES else maxBytes
  }

  predicate IsBreak(r: int) {
    r == 0x0D || r == 0x0A || r == 0x09
  }

  function Blanked(r: Rune): Rune {
    if IsBreak(r) then 0x20 else r
  }

  /** How many octets pass before a character can be read again. */
  function InvalidRun(s: Bytes): (n: nat)
    ensures n <= |s|
  {
    if s == [] || Decode(s).Char? then 0 else 1 + InvalidRun(s[1..])
  }

  /** The next character of the sanitised text and how much input it stands for. */
  function Next(s: Bytes): (n: (Rune, nat))
    requires s != []
    ensures 0 < n.1 <= |s|
  {
    if Decode(s).Char? then EncodeDecoded(s); (Blanked(Decode(s).rune), Decode(s).size)
    else (RUNE_ERROR, InvalidRun(s))
  }

  /** Each run of invalid octets becomes one replacement character, each line break or tab a space. */
  function Sanitised(s: Bytes): seq<Rune> {
    if s == [] then [] else [Next(s).0] + Sanitised(s[Next(s).1..])
  }

  /** The whole text if it fits; otherwise as many characters as leave room for the marker. */
  function Bounded(s: Bytes, limit: nat): Bytes {
    Cut(Sanitised(s), limit, MARKER_RUNES)
  }

  function Cut(runes: seq<Rune>, limit: nat, marker: seq<Rune>): Bytes {
    if ByteLen(runes) <= limit then Encode(runes)
    else if limit <= ByteLen(marker) then Encode(marker[..FitCount(marker, limit)])
    else Encode(runes[..FitCount(runes, limit - ByteLen(marker))]) + Encode(marker)
  }

  predicate SingleLine(s: Bytes) {
    forall b <- s :: !IsBreak(b)
  }

  /** Valid single-line text is its own sanitised form, so returning it early changes nothing. */
  lemma {:induction false} FastPath(s: Bytes)
    requires ValidString(s) && SingleLine(s)
    ensures Encode(Sanitised(s)) == s
  {
    if s != [] {
      ReadsFirst(s);
      var (r, n) := Next(s);
      FastPath(s[n..]);
    }
  }

  lemma ReadsFirst(s: Bytes)
    requires s != [] && ValidString(s) && SingleLine(s)
    ensures
      var (r, n) := Next(s);
      s == EncodeRune(r) + s[n..] && ValidString(s[n..]) && SingleLine(s[n..])
  {
    EncodeDecoded(s);
    NoBreakFirst(s);
    var n := Decode(s).size;
    assert s == s[..n] + s[n..];
    SuffixIsSingleLine(s, n);
  }

  /** A break is a single octet, so the first character of a single line is none and is read as it is. */
  lemma NoBreakFirst(s: Bytes)
    requires s != [] && SingleLine(s) && Decode(s).Char?
    ensures Next(s) == (Decode(s).rune, Decode(s).size)
  {
    assert s[0] in s;
  }

  lemma SuffixIsSingleLine(s: Bytes, n: nat)
    requires SingleLine(s) && n <= |s|
    ensures SingleLine(s[n..])
  {
    forall b <- s[n..]
      ensures !IsBreak(b)
    {
      assert b in s;
    }
  }

  lemma Overflows(done: seq<Rune>, r: Rune, rest: seq<Rune>, limit: nat)
    requires ByteLen(done) + RuneLen(r) > limit
    ensures ByteLen(done + [r] + rest) > limit
  {
    EncodeThree(done, r, rest);
  }

  /** How much of a text fits is decided by any beginning of it that does not. */
  lemma {:induction false} FitsAlready(done: seq<Rune>, more: seq<Rune>, room: int)
    requires ByteLen(done) > room
    ensures FitCount(done + more, room) == FitCount(done, room)
    ensures (done + more)[..FitCount(done, room)] == done[..FitCount(done, room)]
  {
    if done != [] && RuneLen(done[0]) <= room {
      assert (done + more)[1..] == done[1..] + more;
      FitsAlready(done[1..], more, room - RuneLen(done[0]));
    }
  }

  // ---- the program ----

  method MarkerPrefix(maxBytes: nat) returns (r: Bytes)
    ensures r == Encode(MARKER_RUNES[..FitCount(MARKER_RUNES, maxBytes)])
  {
    var end := maxBytes;
    if end > |MARKER| {
      end := |MARKER|;
    }
    end := BackOff(MARKER, end, MARKER_RUNES, maxBytes);
    return MARKER[..end];
  }

  /** Steps back from `start` to the beginning of a character. */
  method BackOff(s: Bytes, start: nat, ghost runes: seq<Rune>, ghost room: nat) returns (end: nat)
    requires s == Encode(runes) && start == if room < |s| then room else |s|
    ensures end == ByteLen(runes[..FitCount(runes, room)]) && end <= start
    ensures s[..end] == Encode(runes[..FitCount(runes, room)])
  {
    end := start;
    ghost var k := FitCount(runes, room);
    FitCountIsLongest(runes, room);
    PrefixBytes(runes, k);
    if k == |runes| { assert runes[..k] == runes; }
    while end > 0 && end < |s| && !RuneStart(s[end])
      invariant ByteLen(runes[..k]) <= end <= start
    {
      if end == ByteLen(runes[..k]) {
        ByteInside(runes, k, end);
        assert false;
      }
      end := end - 1;
    }
    if end > ByteLen(runes[..k]) {
      if k < |runes| {
        ByteInside(runes, k, end);
      }
      assert false;
    }
  }

  lemma PrefixBytes(runes: seq<Rune>, k: nat)
    requires k <= |runes|
    ensures ByteLen(runes[..k]) <= ByteLen(runes) && Encode(runes)[..ByteLen(runes[..k])] == Encode(runes[..k])
  {
    PrefixOfSum(runes[..k], runes[k..]);
    RunesSplit(runes, k);
  }

  lemma RunesSplit(runes: seq<Rune>, k: nat)
    requires k <= |runes|
    ensures runes == runes[..k] + runes[k..]
  {}

  lemma PrefixOfSum(a: seq<Rune>, b: seq<Rune>)
    ensures ByteLen(a) <= ByteLen(a + b) && Encode(a + b)[..ByteLen(a)] == Encode(a)
  {
    EncodeAppend(a, b);
  }

  /** Counts the octets of an invalid run the way the program does, from its first octet on. */
  method SkipInvalid(value: Bytes) returns (size: nat)
    requires value != [] && Decode(value).Invalid?
    ensures size == InvalidRun(value)
  {
    size := 1;
    while size < |value|
      invariant 1 <= size <= |value|
      invariant InvalidRun(value) == size + InvalidRun(value[size..])
    {
      if Decode(value[size..]).Char? {
        return;
      }
      assert value[size..][1..] == value[size + 1..];
      size := size + 1;
    }
  }

  /** The first character that does not fit already decides the cut. */
  lemma CutOnOverflow(done: seq<Rune>, next: Rune, rest: seq<Rune>, limit: nat, marker: seq<Rune>)
    requires ByteLen(done) <= limit < ByteLen(done) + RuneLen(next) && ByteLen(marker) >= 4
    ensures Cut(done + [next] + rest, limit, marker)
         == if limit <= ByteLen(marker) then Encode(marker[..FitCount(marker, limit)])
            else Encode(done[..FitCount(done, limit - ByteLen(marker))]) + Encode(marker)
  {
    Overflows(done, next, rest, limit);
    FitsAlready(done, [next] + rest, limit - ByteLen(marker));
    assert done + [next] + rest == done + ([next] + rest);
  }

  /** The character `next` no longer fits: makes room for the marker. */
  method Truncate(output: Bytes, limit: nat, ghost done: seq<Rune>, ghost next: Rune, ghost rest: seq<Rune>)
      returns (r: Bytes)
    requires output == Encode(done) && |output| <= limit < |output| + RuneLen(next)
    ensures r == Cut(done + [next] + rest, limit, MARKER_RUNES)
  {
    MarkerIsLong();
    CutOnOverflow(done, next, rest, limit, MARKER_RUNES);
    if |MARKER| >= limit {
      r := MarkerPrefix(limit);
      return;
    }
    var end := limit - |MARKER|;
    if end > |output| {
      end := |output|;
    }
    end := BackOff(output, end, done, limit - |MARKER|);
    return output[..end] + MARKER;
  }

  lemma MarkerIsLong()
    ensures |MARKER| == |MARKER_RUNES| + 2 == 14
  {
    MarkerPrefixLength(|MARKER_RUNES|);
    assert MARKER_RUNES[..|MARKER_RUNES|] == MARKER_RUNES;
  }

  lemma MarkerIsPlain(i: nat)
    requires 1 <= i < |MARKER_RUNES|
    ensures MARKER_RUNES[i] < 0x80
  {
    var text := "\U{2026}[truncated]";
    assert MARKER_RUNES[i] == text[i] as int;
  }

  lemma MarkerPrefixLength(j: nat)
    requires 1 <= j <= |MARKER_RUNES|
    ensures ByteLen(MARKER_RUNES[..j]) == j + 2
  {
    var head, tail := [MARKER_RUNES[0]], MARKER_RUNES[1..j];
    assert MARKER_RUNES[..j] == head + tail;
    EncodeAppend(head, tail);
    EncodeOne(MARKER_RUNES[0]);
    forall i | 0 <= i < |tail|
      ensures tail[i] < 0x80
    {
      MarkerIsPlain(i + 1);
    }
    AsciiEncodes(tail);
  }

  method NextRune(value: Bytes) returns (rune: Rune, size: nat)
    requires value != []
    ensures (rune, size) == Next(value)
  {
    if Decode(value).Char? {
      EncodeDecoded(value);
      rune, size := Decode(value).rune, Decode(value).size;
    } else {
      size := SkipInvalid(value);
      rune := RUNE_ERROR;
    }
    if IsBreak(rune) {
      rune := 0x20;
    }
  }

  lemma TakeOne(input: Bytes, done: seq<Rune>, value: Bytes)
    requires value != [] && Sanitised(input) == done + Sanitised(value)
    ensures Sanitised(input) == done + [Next(value).0] + Sanitised(value[Next(value).1..])
  {}

  /** `done` is what has been sanitised of the input, and it fits; `value` is the rest. */
  ghost predicate Progress(input: Bytes, limit: nat, done: seq<Rune>, value: Bytes) {
    Sanitised(input) == done + Sanitised(value) && ByteLen(done) <= limit
  }

  method BoundByScanning(input: Bytes, limit: nat) returns (r: Bytes)
    ensures r == Bounded(input, limit)
  {
    var value, output: Bytes := input, [];
    ghost var done: seq<Rune> := [];
    while |value| > 0
      invariant output == Encode(done)
      invariant Progress(input, limit, done, value)
      decreases |value|
    {
      var rune, size := NextRune(value);
      TakeOne(input, done, value);
      if |output| + RuneLen(rune) > limit {
        r := Truncate(output, limit, done, rune, Sanitised(value[size..]));
        return;
      }
      EncodeThree(done, rune, []);
      output, done, value := output + EncodeRune(rune), done + [rune], value[size..];
    }
    assert done + Sanitised([]) == done;
    return output;
  }

  method BoundTo(value: Bytes, maxBytes: int) returns (r: Bytes)
    ensures r == Bounded(value, LimitOf(maxBytes))
  {
    var limit := LimitOf(maxBytes);
    if value == [] {
      return value;
    }
    if |value| <= limit && ValidString(value) && SingleLine(value) {
      FastPath(value);
      return value;
    }
    r := BoundByScanning(value, limit);
  }

  // ---- what the bound achieves ----

  predicate CleanRunes(runes: seq<Rune>) {
    forall r <- runes :: !IsBreak(r)
  }

  lemma {:induction false} SanitisedIsClean(s: Bytes)
    ensures CleanRunes(Sanitised(s))
  {
    if s != [] {
      SanitisedIsClean(s[Next(s).1..]);
    }
  }

  lemma {:induction false} CleanRunesAreOneLine(runes: seq<Rune>)
    requires CleanRunes(runes)
    ensures SingleLine(Encode(runes))
  {
    if runes != [] {
      assert runes[0] in runes;
      forall b <- EncodeRune(runes[0])
        ensures !IsBreak(b)
      {
        var i :| 0 <= i < RuneLen(runes[0]) && EncodeRune(runes[0])[i] == b;
      }
      CleanRunesAreOneLine(runes[1..]);
    }
  }

  /** Sanitising clean text gives the same characters. */
  lemma {:induction false} SanitisedOfClean(runes: seq<Rune>)
    requires CleanRunes(runes)
    ensures Sanitised(Encode(runes)) == runes
  {
    if runes != [] {
      var s := Encode(runes);
      assert runes[0] in runes;
      DecodeEncoded(runes[0], Encode(runes[1..]));
      assert s[RuneLen(runes[0])..] == Encode(runes[1..]);
      SanitisedOfClean(runes[1..]);
      assert Sanitised(s) == [runes[0]] + runes[1..];
    }
  }

  /** The characters that remain. */
  function CutRunes(runes: seq<Rune>, limit: nat, marker: seq<Rune>): seq<Rune> {
    if ByteLen(runes) <= limit then runes
    else if limit <= ByteLen(marker) then marker[..FitCount(marker, limit)]
    else runes[..FitCount(runes, limit - ByteLen(marker))] + marker
  }

  lemma CutIsEncoded(runes: seq<Rune>, limit: nat, marker: seq<Rune>)
    ensures Cut(runes, limit, marker) == Encode(CutRunes(runes, limit, marker))
    ensures |Cut(runes, limit, marker)| <= limit
  {
    if ByteLen(runes) > limit {
      if limit <= ByteLen(marker) {
        FitCountIsLongest(marker, limit);
      } else {
        FitCountIsLongest(runes, limit - ByteLen(marker));
        EncodeAppend(runes[..FitCount(runes, limit - ByteLen(marker))], marker);
      }
    }
  }

  lemma CutIsClean(runes: seq<Rune>, limit: nat, marker: seq<Rune>)
    requires CleanRunes(runes) && CleanRunes(marker)
    ensures CleanRunes(CutRunes(runes, limit, marker))
  {}

  /** Always valid UTF-8, on one line, within the limit; and bounding again changes nothing. */
  lemma BoundedIsSafeAndStable(s: Bytes, limit: nat)
    ensures ValidString(Bounded(s, limit)) && SingleLine(Bounded(s, limit)) && |Bounded(s, limit)| <= limit
    ensures Bounded(Bounded(s, limit), limit) == Bounded(s, limit)
  {
    SanitisedIsClean(s);
    CutIsClean(Sanitised(s), limit, MARKER_RUNES);
    CutIsEncoded(Sanitised(s), limit, MARKER_RUNES);
    EncodedIsSafeAndStable(CutRunes(Sanitised(s), limit, MARKER_RUNES), limit);
  }

  lemma EncodedIsSafeAndStable(runes: seq<Rune>, limit: nat)
    requires CleanRunes(runes) && ByteLen(runes) <= limit
    ensures ValidString(Encode(runes)) && SingleLine(Encode(runes))
    ensures Bounded(Encode(runes), limit) == Encode(runes)
  {
    EncodedIsValid(runes);
    CleanRunesAreOneLine(runes);
    SanitisedOfClean(runes);
  }

  /** A text too long keeps the longest beginning, in whole characters, that leaves room for the marker. */
  lemma TruncatedIsLongest(s: Bytes, limit: nat)
    requires ByteLen(Sanitised(s)) > limit > |MARKER|
    ensures
      exists k ::
        && 0 <= k <= |Sanitised(s)| && Bounded(s, limit) == Encode(Sanitised(s)[..k]) + MARKER
        && ByteLen(Sanitised(s)[..k]) + |MARKER| <= limit
        && forall j :: k < j <= |Sanitised(s)| ==> ByteLen(Sanitised(s)[..j]) + |MARKER| > limit
  {
    FitCountIsLongest(Sanitised(s), limit - |MARKER|);
  }

  /** For tiny limits only whole characters of the marker are kept: nothing of it below three octets. */
  lemma TinyLimits(s: Bytes, limit: nat)
    requires ByteLen(Sanitised(s)) > limit && limit <= |MARKER|
    ensures Bounded(s, limit) == MARKER[..if limit < 3 then 0 else limit]
  {
    var k := FitCount(MARKER_RUNES, limit);
    MarkerIsLong();
    PrefixBytes(MARKER_RUNES, k);
    MarkerFits(limit);
    if k > 0 { MarkerPrefixLength(k); }
  }

  lemma MarkerFits(limit: nat)
    requires limit <= |MARKER|
    ensures FitCount(MARKER_RUNES, limit) == if limit < 3 then 0 else limit - 2
  {
    var k := FitCount(MARKER_RUNES, limit);
    MarkerIsLong();
    FitCountIsLongest(MARKER_RUNES, limit);
    if k > 0 { MarkerPrefixLength(k); }
    if k < |MARKER_RUNES| { MarkerPrefixLength(k + 1); }
  }

  /** The result is never longer than asked for, when that is at most 4096 octets, and never longer than that. */
  lemma BoundIsHonoured(s: Bytes, maxBytes: int)
    ensures |Bounded(s, LimitOf(maxBytes))| <= if 0 < maxBytes <= 4096 then maxBytes else 4096
    ensures ByteLen(Sanitised(s)) <= (if 0 < maxBytes <= 4096 then maxBytes else 4096) ==>
        Bounded(s, LimitOf(maxBytes)) == Encode(Sanitised(s))
  {
    BoundedIsSafeAndStable(s, LimitOf(maxBytes));
  }

  lemma MarkerText()
    ensures MARKER == [0xE2, 0x80, 0xA6] + Utf8Of("[truncated]")
  {
    var text := "[truncated]";
    assert "\U{2026}[truncated]" == ['\U{2026}'] + text;
    EllipsisThen(text);
  }

  lemma EllipsisThen(text: string)
    ensures Utf8Of(['\U{2026}'] + text) == [0xE2, 0x80, 0xA6] + Utf8Of(text)
  {
    Utf8OfAppend(['\U{2026}'], text);
    assert Chars(['\U{2026}']) == [0x2026];
    EncodeOne(0x2026);
  }

  /** What a character becomes: a line break or a tab a space, and any other itself. */
  function OnOneLine(r: Rune): Rune {
    if r in {0x09, 0x0A, 0x0D} then 0x20 else r
  }

  /** Valid text keeps its characters, one for one. */
  lemma {:induction false} ValidTextIsKept(runes: seq<Rune>)
    ensures |Sanitised(Encode(runes))| == |runes|
    ensures forall i :: 0 <= i < |runes| ==> Sanitised(Encode(runes))[i] == OnOneLine(runes[i])
  {
    if runes != [] {
      var s := Encode(runes);
      DecodeEncoded(runes[0], Encode(runes[1..]));
      assert s[RuneLen(runes[0])..] == Encode(runes[1..]);
      ValidTextIsKept(runes[1..]);
      assert Sanitised(s) == [OnOneLine(runes[0])] + Sanitised(Encode(runes[1..]));
    }
  }

  /** What cannot be read becomes one replacement character, up to where something can be read again. */
  lemma InvalidBecomesOneMark(s: Bytes)
    requires s != [] && Decode(s).Invalid?
    ensures
      var n := InvalidRun(s);
      && 0 < n <= |s| && Sanitised(s) == [0xFFFD] + Sanitised(s[n..])
      && (forall k :: 0 <= k < n ==> Decode(s[k..]).Invalid?) && (n < |s| ==> Decode(s[n..]).Char?)
  {
    InvalidRunIsMaximal(s);
  }

  lemma {:induction false} InvalidRunIsMaximal(s: Bytes)
    ensures forall k :: 0 <= k < InvalidRun(s) ==> !Decode(s[k..]).Char?
    ensures InvalidRun(s) < |s| ==> Decode(s[InvalidRun(s)..]).Char?
  {
    if s != [] && !Decode(s).Char? {
      InvalidRunIsMaximal(s[1..]);
      forall k | 0 <= k < InvalidRun(s)
        ensures !Decode(s[k..]).Char?
      {
        if k > 0 { assert s[1..][k - 1..] == s[k..]; } else { assert s[0..] == s; }
      }
      assert s[1..][InvalidRun(s) - 1..] == s[InvalidRun(s)..];
    } else {
      assert s[0..] == s;
    }
  }

  // ---- appending ----

  lemma {:induction false} InvalidRunBeforeStart(a: Bytes, b: Bytes)
    requires b == [] || (RuneStart(b[0]) && Decode(b).Char?)
    ensures InvalidRun(a + b) == InvalidRun(a)
  {
    if a == [] {
      assert a + b == b;
    } else {
      assert (a + b)[1..] == a[1..] + b;
      InvalidRunBeforeStart(a[1..], b);
    }
  }

  lemma NextBeforeStart(a: Bytes, b: Bytes)
    requires a != [] && (b == [] || (RuneStart(b[0]) && Decode(b).Char?))
    ensures Next(a + b) == Next(a)
  {
    InvalidRunBeforeStart(a, b);
  }

  /** Sanitising goes part by part when the second part begins with a character. */
  lemma {:induction false} SanitisedAppend(a: Bytes, b: Bytes)
    requires b == [] || (RuneStart(b[0]) && Decode(b).Char?)
    ensures Sanitised(a + b) == Sanitised(a) + Sanitised(b)
    decreases |a|
  {
    if a == [] {
      assert a + b == b;
    } else {
      NextBeforeStart(a, b);
      SanitisedAppend(a[Next(a).1..], b);
      DropInFirst(a, b, Next(a).1);
    }
  }

  lemma DropInFirst(a: Bytes, b: Bytes, n: nat)
    requires n <= |a|
    ensures (a + b)[n..] == a[n..] + b
  {}

}
