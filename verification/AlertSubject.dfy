/** The two mailer messages that name a user by id, and the parser that finds the id in them
 again. The user name is printed as it is, so it may hold anything, the parser's own marks
 included. */
module AlertSubject {
  import opened Options
  import opened Text
  import opened Utf8
  import opened Diagnostic

  datatype AlertType = UserAutoBanned | DebugAbuse | OtherAlert

  const MARK: Bytes := Utf8Of("（ID：")
  const MAX_ID: nat := 0x7FFF_FFFF_FFFF_FFFF

  function SeparatorText(t: AlertType): string {
    if t.DebugAbuse? then "）在 " else "）因 "
  }

  function Separator(t: AlertType): Bytes {
    Utf8Of(SeparatorText(t))
  }

  // ---- printing ----

  function Number(n: int): string {
    if n < 0 then "-" + Decimal(-n) else Decimal(n)
  }

  function TwoDigits(n: nat): string
    requires n < 100
  {
    [Digit(n / 10), Digit(n % 10)]
  }

  /** Hours, minutes and seconds of a day. */
  function Clock(second: nat): string
    requires second < 86400
  {
    TwoDigits(second / 3600) + ":" + TwoDigits(second / 60 % 60) + ":" + TwoDigits(second % 60)
  }

  function AutoBannedRest(violations: int, banHours: int, second: nat): string
    requires second < 86400
  {
    Number(violations) + " 次超限被自动封禁 " + Number(banHours) + " 小时，至 " + Clock(second)
  }

  function DebugAbuseRest(windowMinutes: int, sessions: int): string {
    Number(windowMinutes) + " 分钟内开启了 " + Number(sessions) + " 次 Debug session"
  }

  /** The message about user `id`, whatever the event prints after its separator. */
  function Message(t: AlertType, username: Bytes, id: int, rest: string): Bytes {
    username + (MARK + Utf8Of(Number(id)) + (Separator(t) + Utf8Of(rest)))
  }

  function UserAutoBannedMessage(username: Bytes, id: int, violations: int, banHours: int, second: nat): Bytes
    requires second < 86400
  {
    Message(UserAutoBanned, username, id, AutoBannedRest(violations, banHours, second))
  }

  function DebugAbuseMessage(username: Bytes, id: int, sessions: int, windowMinutes: int): Bytes {
    Message(DebugAbuse, username, id, DebugAbuseRest(windowMinutes, sessions))
  }

  // ---- parsing ----

  predicate IsAt(s: Bytes, p: Bytes, i: nat) {
    i + |p| <= |s| && s[i..i + |p|] == p
  }

  /** The last place at or below `i` where `p` occurs in `s`. */
  function LastAt(s: Bytes, p: Bytes, i: nat): (r: Option<nat>)
    ensures r.Some? ==> IsAt(s, p, r.value)
  {
    if IsAt(s, p, i) then Some(i) else if i == 0 then None else LastAt(s, p, i - 1)
  }

  function LastIndex(s: Bytes, p: Bytes): (r: Option<nat>)
    ensures r.Some? ==> IsAt(s, p, r.value)
  {
    LastAt(s, p, |s|)
  }

  predicate AllDigits(s: Bytes) {
    forall i :: 0 <= i < |s| ==> '0' as int <= s[i] <= '9' as int
  }

  function Numeral(s: Bytes): nat
    requires AllDigits(s)
  {
    if s == [] then 0 else 10 * Numeral(s[..|s| - 1]) + (s[|s| - 1] as int - '0' as int)
  }

  /** A positive decimal number of 63 bits, and nothing else. */
  function ParseToken(token: Bytes): Option<nat> {
    if token == [] || !AllDigits(token) then None
    else if Numeral(token) > MAX_ID || Numeral(token) == 0 then None
    else Some(Numeral(token))
  }

  /** What stands between the last mark before the last separator, and that separator. */
  function TokenBetween(message: Bytes, mark: Bytes, separator: Bytes): Option<Bytes> {
    match LastIndex(message, separator)
    case None => None
    case Some(at) =>
      var prefix := message[..at];
      match LastIndex(prefix, mark)
      case None => None
      case Some(markAt) => Some(prefix[markAt + |mark|..])
  }

  function LegacyAlertSubjectID(t: AlertType, message: Bytes): Option<nat> {
    if t.OtherAlert? then None
    else
      match TokenBetween(message, MARK, Separator(t))
      case None => None
      case Some(token) => ParseToken(token)
  }

  // ---- finding the printed marks ----

  lemma {:induction false} LastAtIs(s: Bytes, p: Bytes, at: nat, i: nat)
    requires at <= i && IsAt(s, p, at) && forall j :: at < j <= i ==> !IsAt(s, p, j)
    ensures LastAt(s, p, i) == Some(at)
  {
    if i > at { LastAtIs(s, p, at, i - 1); }
  }

  /** A mark is the last one when its third octet does not occur after that octet. */
  lemma FoundLast(before: Bytes, p: Bytes, after: Bytes)
    requires |p| >= 3 && p[2] !in p[3..] && p[2] !in after
    ensures LastIndex(before + p + after, p) == Some(|before|)
  {
    var s, at := before + p + after, |before|;
    assert s[at..at + |p|] == p;
    forall k | at + 2 < k < |s|
      ensures s[k] != p[2]
    {
      assert s[k] == if k < at + |p| then p[3..][k - at - 3] else after[k - at - |p|];
    }
    forall j | at < j <= |s|
      ensures !IsAt(s, p, j)
    {
      if IsAt(s, p, j) {
        assert false;
      }
    }
    LastAtIs(s, p, at, |s|);
  }

  // ---- the octets of what is printed ----

  lemma {:induction false} Utf8OfAvoids(s: string, b: Byte)
    requires forall c <- s :: b !in EncodeRune(c as int)
    ensures b !in Utf8Of(s)
  {
    if s != "" {
      assert s[0] in s && forall c <- s[1..] :: c in s;
      assert Chars(s)[1..] == Chars(s[1..]);
      Utf8OfAvoids(s[1..], b);
    }
  }

  predicate Ascii(s: string) {
    forall i :: 0 <= i < |s| ==> (s[i] as int) < 0x80
  }

  lemma AsciiAvoids(s: string, b: Byte)
    requires Ascii(s) && b >= 0x80
    ensures b !in Utf8Of(s) && Utf8Of(s) == Chars(s)
  {
    AsciiEncodes(Chars(s));
  }

  lemma DecimalIsAscii(n: nat)
    ensures Ascii(Decimal(n))
  {
    forall i | 0 <= i < |Decimal(n)|
      ensures (Decimal(n)[i] as int) < 0x80
    {
      assert Decimal(n)[i] in Decimal(n);
    }
  }

  lemma NumberIsAscii(n: int)
    ensures Ascii(Number(n))
  {
    DecimalIsAscii(if n < 0 then -n else n);
  }

  lemma {:induction false} NumeralOfDecimal(n: nat, s: Bytes)
    requires |s| == |Decimal(n)| && forall i :: 0 <= i < |s| ==> s[i] == Decimal(n)[i] as int
    ensures AllDigits(s) && Numeral(s) == n
  {
    if n >= 10 {
      var init := s[..|s| - 1];
      assert forall i :: 0 <= i < |init| ==> init[i] == s[i];
      NumeralOfDecimal(n / 10, init);
    } else {
      assert s[..0] == [];
    }
  }

  lemma Opens(first: char, more: string)
    ensures Utf8Of([first] + more) == EncodeRune(first as int) + Utf8Of(more)
  {
    Utf8OfAppend([first], more);
    EncodeOne(first as int);
    assert Chars([first]) == [first as int];
  }

  lemma OpensWith(s: string, first: char, more: string, b: Byte)
    requires s == [first] + more && RuneLen(first as int) == 3 && EncodeRune(first as int)[2] == b
    requires forall c <- more :: b !in EncodeRune(c as int)
    ensures |Utf8Of(s)| >= 3 && Utf8Of(s)[2] == b && b !in Utf8Of(s)[3..]
  {
    Opens(first, more);
    Utf8OfAvoids(more, b);
    assert Utf8Of(s)[3..] == Utf8Of(more);
  }

  lemma MarkOpens()
    ensures |MARK| >= 3 && MARK[2] == 0x88 && 0x88 !in MARK[3..]
  {
    var more := ['I', 'D', '：'];
    assert "（ID：" == ['（'] + more;
    OpensWith("（ID：", '（', more, 0x88);
  }

  lemma SeparatorOpens(t: AlertType)
    ensures |Separator(t)| >= 3 && Separator(t)[2] == 0x89 && 0x89 !in Separator(t)[3..]
  {
    var more := [if t.DebugAbuse? then '在' else '因', ' '];
    assert SeparatorText(t) == ['）'] + more;
    OpensWith(SeparatorText(t), '）', more, 0x89);
  }

  // ---- the round trip ----

  predicate ThirdIsLast(p: Bytes, after: Bytes) {
    |p| >= 3 && p[2] !in p[3..] && p[2] !in after
  }

  lemma FindsTheToken(before: Bytes, mark: Bytes, token: Bytes, sep: Bytes, rest: Bytes)
    requires ThirdIsLast(mark, token) && ThirdIsLast(sep, rest)
    ensures TokenBetween(before + (mark + token + (sep + rest)), mark, sep) == Some(token)
  {
    var prefix := before + mark + token;
    var message := before + (mark + token + (sep + rest));
    assert message == prefix + sep + rest;
    FoundLast(prefix, sep, rest);
    assert message[..|prefix|] == prefix;
    FoundLast(before, mark, token);
    assert prefix[|before| + |mark|..] == token;
  }

  lemma ParsesTheToken(t: AlertType, username: Bytes, token: Bytes, rest: Bytes)
    requires !t.OtherAlert? && 0x88 !in token && 0x89 !in rest
    ensures LegacyAlertSubjectID(t, username + (MARK + token + (Separator(t) + rest))) == ParseToken(token)
  {
    SeparatorIsBetween(t, username, token, rest);
  }

  lemma SeparatorIsBetween(t: AlertType, username: Bytes, token: Bytes, rest: Bytes)
    requires 0x88 !in token && 0x89 !in rest
    ensures TokenBetween(username + (MARK + token + (Separator(t) + rest)), MARK, Separator(t)) == Some(token)
  {
    SeparatorOpens(t);
    MarkOpens();
    FindsTheToken(username, MARK, token, Separator(t), rest);
  }

  lemma TokenOf(id: int)
    requires id <= MAX_ID
    ensures 0x88 !in Utf8Of(Number(id))
    ensures ParseToken(Utf8Of(Number(id))) == if id > 0 then Some(id) else None
  {
    NumberIsAscii(id);
    AsciiAvoids(Number(id), 0x88);
    if id >= 0 {
      NumeralOfDecimal(id, Utf8Of(Number(id)));
    } else {
      assert Utf8Of(Number(id))[0] == '-' as int;
    }
  }

  /** Neither a line break nor the octet that ends the separator's bracket. */
  predicate Quiet(s: Bytes) {
    0x89 !in s && SingleLine(s)
  }

  /**
   Whatever the user name holds, and whatever is printed quietly after the separator, the parser
   returns exactly the printed id, when it is one.
   */
  lemma FindsThePrintedID(t: AlertType, username: Bytes, id: int, rest: string)
    requires !t.OtherAlert? && Quiet(Utf8Of(rest)) && id <= MAX_ID
    ensures LegacyAlertSubjectID(t, Message(t, username, id, rest)) == if id > 0 then Some(id) else None
  {
    TokenOf(id);
    ParsesTheToken(t, username, Utf8Of(Number(id)), Utf8Of(rest));
  }

  // ---- the bounded message ----

  function Printed(t: AlertType, id: int, rest: string): string {
    "（ID：" + Number(id) + (SeparatorText(t) + rest)
  }

  lemma PrintedBytes(t: AlertType, id: int, rest: string)
    ensures Utf8Of(Printed(t, id, rest)) == MARK + Utf8Of(Number(id)) + (Separator(t) + Utf8Of(rest))
  {
    Utf8OfAppend("（ID：", Number(id));
    Utf8OfAppend(SeparatorText(t), rest);
    Utf8OfAppend("（ID：" + Number(id), SeparatorText(t) + rest);
  }

  lemma MarksAreOneLine(t: AlertType)
    ensures SingleLine(MARK) && SingleLine(Separator(t))
  {
    var mark, sep := "（ID：", SeparatorText(t);
    assert mark[0] == '（' && mark[1] == 'I' && mark[2] == 'D' && mark[3] == '：' && |mark| == 4;
    CleanRunesAreOneLine(Chars(mark));
    assert sep[0] == '）' && sep[2] == ' ' && |sep| == 3;
    CleanRunesAreOneLine(Chars(sep));
  }

  lemma PrintedIsOneLine(t: AlertType, id: int, rest: string)
    requires Quiet(Utf8Of(rest))
    ensures SingleLine(Utf8Of(Printed(t, id, rest)))
  {
    PrintedBytes(t, id, rest);
    MarksAreOneLine(t);
    NumberIsQuiet(id);
  }

  /** Bounding without truncation only sanitises the user name. */
  lemma BoundedSanitisesTheName(t: AlertType, username: Bytes, id: int, rest: string, limit: nat)
    requires Quiet(Utf8Of(rest)) && ByteLen(Sanitised(Message(t, username, id, rest))) <= limit
    ensures Bounded(Message(t, username, id, rest), limit) == Message(t, Encode(Sanitised(username)), id, rest)
  {
    var text := Printed(t, id, rest);
    var printed := Utf8Of(text);
    PrintedBytes(t, id, rest);
    PrintedIsOneLine(t, id, rest);
    EncodedIsValid(Chars(text));
    FastPath(printed);
    assert text[0] == "（ID："[0] == '（';
    SanitisedAppend(username, printed);
    EncodeAppend(Sanitised(username), Sanitised(printed));
  }

  // ---- what the two events print ----

  /** Printable ASCII, or a wide character none of whose continuation octets carries the bits 001001. */
  predicate QuietChar(c: char) {
    var n := c as int;
    0x20 <= n < 0x7F || (0x800 <= n < 0x10000 && n % 64 != 9 && n / 64 % 64 != 9)
  }

  lemma {:induction false} QuietWords(s: string)
    requires forall i :: 0 <= i < |s| ==> QuietChar(s[i])
    ensures Quiet(Utf8Of(s))
  {
    if s != "" {
      assert Chars(s)[1..] == Chars(s[1..]);
      QuietWords(s[1..]);
    }
  }

  lemma QuietAppend(a: string, b: string)
    requires Quiet(Utf8Of(a)) && Quiet(Utf8Of(b))
    ensures Quiet(Utf8Of(a + b))
  {
    Utf8OfAppend(a, b);
  }

  lemma NumberIsQuiet(n: int)
    ensures Quiet(Utf8Of(Number(n)))
  {
    var digits := Decimal(if n < 0 then -n else n);
    forall i | 0 <= i < |Number(n)|
      ensures QuietChar(Number(n)[i])
    {
      assert forall j :: 0 <= j < |digits| ==> digits[j] in digits;
    }
    QuietWords(Number(n));
  }

  lemma ClockIsQuiet(second: nat)
    requires second < 86400
    ensures Quiet(Utf8Of(Clock(second)))
  {
    QuietWords(Clock(second));
  }

  lemma BanWords()
    ensures Quiet(Utf8Of(" 次超限被自动封禁 ")) && Quiet(Utf8Of(" 小时，至 "))
  {
    QuietWords(" 次超限被自动封禁 ");
    QuietWords(" 小时，至 ");
  }

  lemma DebugWords()
    ensures Quiet(Utf8Of(" 分钟内开启了 ")) && Quiet(Utf8Of(" 次 Debug session"))
  {
    QuietWords(" 分钟内开启了 ");
    QuietWords(" 次 Debug session");
  }

  lemma AutoBannedRestIsQuiet(violations: int, banHours: int, second: nat)
    requires second < 86400
    ensures Quiet(Utf8Of(AutoBannedRest(violations, banHours, second)))
  {
    NumberIsQuiet(violations);
    NumberIsQuiet(banHours);
    BanWords();
    ClockIsQuiet(second);
    var a := Number(violations) + " 次超限被自动封禁 ";
    QuietAppend(Number(violations), " 次超限被自动封禁 ");
    QuietAppend(a, Number(banHours));
    QuietAppend(a + Number(banHours), " 小时，至 ");
    QuietAppend(a + Number(banHours) + " 小时，至 ", Clock(second));
  }

  lemma DebugAbuseRestIsQuiet(windowMinutes: int, sessions: int)
    ensures Quiet(Utf8Of(DebugAbuseRest(windowMinutes, sessions)))
  {
    NumberIsQuiet(windowMinutes);
    NumberIsQuiet(sessions);
    DebugWords();
    var a := Number(windowMinutes) + " 分钟内开启了 ";
    QuietAppend(Number(windowMinutes), " 分钟内开启了 ");
    QuietAppend(a, Number(sessions));
    QuietAppend(a + Number(sessions), " 次 Debug session");
  }

  /** The auto-ban message, as stored after bounding, still names the banned user and nobody else. */
  lemma AutoBanNamesItsUser(username: Bytes, id: int, violations: int, banHours: int, second: nat)
    requires second < 86400 && id <= MAX_ID
    ensures
      var message := UserAutoBannedMessage(username, id, violations, banHours, second);
      && LegacyAlertSubjectID(UserAutoBanned, message) == (if id > 0 then Some(id) else None)
      && (ByteLen(Sanitised(message)) <= MAX_BYTES ==>
            LegacyAlertSubjectID(UserAutoBanned, Bounded(message, MAX_BYTES)) == if id > 0 then Some(id) else None)
  {
    var message := UserAutoBannedMessage(username, id, violations, banHours, second);
    var rest := AutoBannedRest(violations, banHours, second);
    AutoBannedRestIsQuiet(violations, banHours, second);
    FindsThePrintedID(UserAutoBanned, username, id, rest);
    if ByteLen(Sanitised(message)) <= MAX_BYTES {
      BoundedSanitisesTheName(UserAutoBanned, username, id, rest, MAX_BYTES);
      FindsThePrintedID(UserAutoBanned, Encode(Sanitised(username)), id, rest);
    }
  }

  lemma DebugAbuseNamesItsUser(username: Bytes, id: int, sessions: int, windowMinutes: int)
    requires id <= MAX_ID
    ensures
      var message := DebugAbuseMessage(username, id, sessions, windowMinutes);
      && LegacyAlertSubjectID(DebugAbuse, message) == (if id > 0 then Some(id) else None)
      && (ByteLen(Sanitised(message)) <= MAX_BYTES ==>
            LegacyAlertSubjectID(DebugAbuse, Bounded(message, MAX_BYTES)) == if id > 0 then Some(id) else None)
  {
    var message := DebugAbuseMessage(username, id, sessions, windowMinutes);
    var rest := DebugAbuseRest(windowMinutes, sessions);
    DebugAbuseRestIsQuiet(windowMinutes, sessions);
    FindsThePrintedID(DebugAbuse, username, id, rest);
    if ByteLen(Sanitised(message)) <= MAX_BYTES {
      BoundedSanitisesTheName(DebugAbuse, username, id, rest, MAX_BYTES);
      FindsThePrintedID(DebugAbuse, Encode(Sanitised(username)), id, rest);
    }
  }
}
