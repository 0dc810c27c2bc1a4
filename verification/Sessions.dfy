/** Sessions, with an idle lifetime that slides with use under a fixed cap. */
module Sessions {
  // A use moves the expiry forward only if that moves it by more than a day, so that there are few
  // writes. The expiry is written by compare and set: two uses at once write once. Times are in seconds.

  import opened Options

  const DAY := 86400
  const IDLE := 7 * DAY
  const ABSOLUTE := 30 * DAY
  const THRESHOLD := DAY

  datatype Row = Row(createdAt: int, expiresAt: int)

  function Create(now: int): Row {
    Row(now, now + IDLE)
  }

  function Cap(r: Row): int {
    r.createdAt + ABSOLUTE
  }

  predicate Live(r: Row, now: int) {
    now < r.expiresAt && now < Cap(r)
  }

  function Min(a: int, b: int): int {
    if a < b then a else b
  }

  function Renewed(r: Row, now: int): int {
    Min(now + IDLE, Cap(r))
  }

  predicate Renews(r: Row, now: int) {
    Renewed(r, now) - r.expiresAt > THRESHOLD
  }

  // ---- accesses whose read and write nothing comes between ----

  /** The row after an access, and whether the session was good. */
  function Access(row: Option<Row>, now: int): (Option<Row>, bool) {
    match row
    case None => (None, false)
    case Some(r) =>
      if !Live(r, now) then (None, false)
      else (Some(if Renews(r, now) then r.(expiresAt := Renewed(r, now)) else r), true)
  }

  function Purge(row: Option<Row>, now: int): Option<Row> {
    if row.Some? && (row.value.expiresAt <= now || row.value.createdAt <= now - ABSOLUTE) then None else row
  }

  /** A good access at `now` leaves at least the slid lifetime, less the threshold. */
  lemma AccessLeavesEnough(r: Row, now: int)
    requires Live(r, now)
    ensures
      var (after, ok) := Access(Some(r), now);
      && ok && after.Some? && after.value.createdAt == r.createdAt
      && after.value.expiresAt >= Min(now + IDLE, Cap(r)) - THRESHOLD
      && r.expiresAt <= after.value.expiresAt
  {}

  function Answers(row: Option<Row>, times: seq<int>): seq<bool>
    decreases |times|
  {
    if times == [] then []
    else
      var (after, ok) := Access(row, times[0]);
      [ok] + Answers(after, times[1..])
  }

  /** Every gap between uses is under `gap`, and no use falls within `end` of the cap. */
  predicate UsedWithin(r: Row, last: int, times: seq<int>, gap: int, end: int)
    decreases |times|
  {
    times == [] || (last <= times[0] < last + gap && times[0] < Cap(r) - end && UsedWithin(r, times[0], times[1..], gap, end))
  }

  /** No gap between uses reaches six days, and no use falls on the last day before the cap. */
  predicate UsedOften(r: Row, last: int, times: seq<int>) {
    UsedWithin(r, last, times, IDLE - THRESHOLD, THRESHOLD)
  }

  ghost predicate AllGood(answers: seq<bool>) {
    forall i :: 0 <= i < |answers| ==> answers[i]
  }

  /** A session used often enough stays good until the last day before its cap. */
  lemma {:induction false} UseKeepsAlive(r: Row, last: int, times: seq<int>)
    requires Min(last + IDLE, Cap(r)) - THRESHOLD <= r.expiresAt && UsedOften(r, last, times)
    ensures AllGood(Answers(Some(r), times))
    decreases |times|
  {
    if times != [] {
      AccessLeavesEnough(r, times[0]);
      var after := Access(Some(r), times[0]).0.value;
      assert UsedOften(after, times[0], times[1..]) by { SameUse(r, after, times[0], times[1..]); }
      UseKeepsAlive(after, times[0], times[1..]);
    }
  }

  lemma {:induction false} SameUse(r: Row, s: Row, last: int, times: seq<int>)
    requires r.createdAt == s.createdAt && UsedOften(r, last, times)
    ensures UsedOften(s, last, times)
    decreases |times|
  {
    if times != [] { SameUse(r, s, times[0], times[1..]); }
  }

  lemma NewSessionKeepsAlive(now: int, times: seq<int>)
    requires UsedOften(Create(now), now, times)
    ensures AllGood(Answers(Some(Create(now)), times))
  {
    UseKeepsAlive(Create(now), now, times);
  }

  /** Six days are the limit: after an access too early to be written, a gap of exactly six days is too long. */
  lemma SixDaysCanBeTooLong(now: int)
    ensures Answers(Some(Create(now)), [now + DAY, now + 7 * DAY]) == [true, false]
  {
    AnswersFirst(Create(now), now + DAY, [now + 7 * DAY]);
    AnswersFirst(Create(now), now + 7 * DAY, []);
  }

  /** Every use of a new session with gaps under `gap` that keeps `end` from the cap is good. */
  ghost predicate KeepsAlive(gap: int, end: int) {
    forall now: int, times :: UsedWithin(Create(now), now, times, gap, end) ==> AllGood(Answers(Some(Create(now)), times))
  }

  lemma {:induction false} LooserUse(r: Row, last: int, times: seq<int>, gap: int, end: int)
    requires UsedWithin(r, last, times, gap, end) && gap <= IDLE - THRESHOLD && end >= THRESHOLD
    ensures UsedOften(r, last, times)
    decreases |times|
  {
    if times != [] { LooserUse(r, times[0], times[1..], gap, end); }
  }

  lemma ShortGapsKeepAlive(gap: int, end: int)
    requires gap <= IDLE - THRESHOLD && end >= THRESHOLD
    ensures KeepsAlive(gap, end)
  {
    forall now: int, times | UsedWithin(Create(now), now, times, gap, end)
      ensures AllGood(Answers(Some(Create(now)), times))
    {
      LooserUse(Create(now), now, times, gap, end);
      NewSessionKeepsAlive(now, times);
    }
  }

  /** Up to the last day, gaps keep a session alive exactly when they stay under six days. */
  lemma GapBoundIsExact(gap: int)
    ensures KeepsAlive(gap, 86400) <==> gap <= 6 * 86400
  {
    if gap <= IDLE - THRESHOLD {
      ShortGapsKeepAlive(gap, THRESHOLD);
    } else {
      var times := [DAY, 7 * DAY];
      assert times[1..] == [7 * DAY];
      assert UsedWithin(Create(0), 0, times, gap, THRESHOLD);
      SixDaysCanBeTooLong(0);
      assert !Answers(Some(Create(0)), times)[1];
    }
  }

  /** With gaps under six days, a session is kept alive exactly as far as a day before its cap. */
  lemma EndBoundIsExact(end: int)
    ensures KeepsAlive(6 * 86400, end) <==> end >= 86400
  {
    if end >= THRESHOLD {
      ShortGapsKeepAlive(IDLE - THRESHOLD, end);
    } else {
      LastDayIsNotCovered(0);
      assert !Answers(Some(Create(0)), ToTheLastDay(0))[7];
      LastDayUses(0, end);
    }
  }

  /** Uses never more than five days apart, the last of them a day before the cap. */
  function ToTheLastDay(now: int): seq<int> {
    [now + 5 * DAY, now + 10 * DAY, now + 15 * DAY, now + 20 * DAY] + FromDayTwentyTwo(now)
  }

  function FromDayTwentyTwo(now: int): seq<int> {
    [now + 22 * DAY, now + 25 * DAY, now + 28 * DAY, now + 29 * DAY]
  }

  /** On the last day it can end although it is used: the renewal to the cap would be too small to be written. */
  lemma LastDayIsNotCovered(now: int)
    ensures Answers(Some(Create(now)), ToTheLastDay(now)) == [true, true, true, true, true, true, true, false]
    ensures now + 29 * DAY < Cap(Create(now))
  {
    var last := FromDayTwentyTwo(now);
    EndsOnDayTwentyNine(now);
    AnswersFirst(Row(now, now + 22 * DAY), now + 20 * DAY, last);
    AnswersFirst(Row(now, now + 17 * DAY), now + 15 * DAY, [now + 20 * DAY] + last);
    AnswersFirst(Row(now, now + 12 * DAY), now + 10 * DAY, [now + 15 * DAY] + ([now + 20 * DAY] + last));
    AnswersFirst(Create(now), now + 5 * DAY, [now + 10 * DAY] + ([now + 15 * DAY] + ([now + 20 * DAY] + last)));
    assert [now + 5 * DAY] + ([now + 10 * DAY] + ([now + 15 * DAY] + ([now + 20 * DAY] + last))) == ToTheLastDay(now);
  }

  lemma EndsOnDayTwentyNine(now: int)
    ensures Answers(Some(Row(now, now + 27 * DAY)), FromDayTwentyTwo(now)) == [true, true, true, false]
  {
    AnswersFirst(Row(now, now + 29 * DAY), now + 29 * DAY, []);
    AnswersFirst(Row(now, now + 29 * DAY), now + 28 * DAY, [now + 29 * DAY]);
    AnswersFirst(Row(now, now + 29 * DAY), now + 25 * DAY, [now + 28 * DAY, now + 29 * DAY]);
    AnswersFirst(Row(now, now + 27 * DAY), now + 22 * DAY, [now + 25 * DAY, now + 28 * DAY, now + 29 * DAY]);
  }

  lemma LastUses(now: int, end: int)
    requires end < THRESHOLD
    ensures UsedWithin(Create(now), now + 20 * DAY, FromDayTwentyTwo(now), IDLE - THRESHOLD, end)
  {
    var r, gap := Create(now), IDLE - THRESHOLD;
    UsedFirst(r, now + 28 * DAY, now + 29 * DAY, [], gap, end);
    UsedFirst(r, now + 25 * DAY, now + 28 * DAY, [now + 29 * DAY] + [], gap, end);
    UsedFirst(r, now + 22 * DAY, now + 25 * DAY, [now + 28 * DAY] + ([now + 29 * DAY] + []), gap, end);
    UsedFirst(r, now + 20 * DAY, now + 22 * DAY, [now + 25 * DAY] + ([now + 28 * DAY] + ([now + 29 * DAY] + [])), gap, end);
    assert [now + 22 * DAY] + ([now + 25 * DAY] + ([now + 28 * DAY] + ([now + 29 * DAY] + []))) == FromDayTwentyTwo(now);
  }

  lemma LastDayUses(now: int, end: int)
    requires end < THRESHOLD
    ensures UsedWithin(Create(now), now, ToTheLastDay(now), IDLE - THRESHOLD, end)
  {
    var r, gap, last := Create(now), IDLE - THRESHOLD, FromDayTwentyTwo(now);
    LastUses(now, end);
    UsedFirst(r, now + 15 * DAY, now + 20 * DAY, last, gap, end);
    UsedFirst(r, now + 10 * DAY, now + 15 * DAY, [now + 20 * DAY] + last, gap, end);
    UsedFirst(r, now + 5 * DAY, now + 10 * DAY, [now + 15 * DAY] + ([now + 20 * DAY] + last), gap, end);
    UsedFirst(r, now, now + 5 * DAY, [now + 10 * DAY] + ([now + 15 * DAY] + ([now + 20 * DAY] + last)), gap, end);
    assert [now + 5 * DAY] + ([now + 10 * DAY] + ([now + 15 * DAY] + ([now + 20 * DAY] + last))) == ToTheLastDay(now);
  }

  lemma UsedFirst(r: Row, last: int, now: int, times: seq<int>, gap: int, end: int)
    requires last <= now < last + gap && now < Cap(r) - end && UsedWithin(r, now, times, gap, end)
    ensures UsedWithin(r, last, [now] + times, gap, end)
  {
    var all := [now] + times;
    assert all[0] == now && all[1..] == times;
  }

  /**
   Once the stored expiry is within a day of the cap no use moves it any more: however the session
   is used from then on, it is good exactly until the stored expiry.
   */
  lemma {:induction false} LateExpiryIsFinal(r: Row, times: seq<int>)
    requires r.expiresAt <= Cap(r) && Cap(r) - r.expiresAt <= THRESHOLD
    ensures AllGood(Answers(Some(r), times)) <==> forall i :: 0 <= i < |times| ==> times[i] < r.expiresAt
    decreases |times|
  {
    if times != [] {
      var (after, ok) := Access(Some(r), times[0]);
      var answers := Answers(Some(r), times);
      assert answers == [ok] + Answers(after, times[1..]);
      if times[0] < r.expiresAt {
        assert after == Some(r) && ok;
        LateExpiryIsFinal(r, times[1..]);
        assert AllGood(answers) <==> AllGood(answers[1..]);
        assert (forall i :: 0 <= i < |times| ==> times[i] < r.expiresAt) <==>
          (forall i :: 0 <= i < |times[1..]| ==> times[1..][i] < r.expiresAt);
      } else {
        assert !answers[0];
      }
    }
  }

  lemma AnswersFirst(r: Row, now: int, times: seq<int>)
    ensures Answers(Some(r), [now] + times) == [Access(Some(r), now).1] + Answers(Access(Some(r), now).0, times)
  {
    var all := [now] + times;
    assert all[0] == now && all[1..] == times;
  }

  /** A purge takes exactly the sessions that no access would find good. */
  lemma PurgeTakesTheDead(r: Row, now: int)
    ensures Purge(Some(r), now) == if Live(r, now) then Some(r) else None
  {}

  // ---- purges ----

  datatype Event = Use(now: int) | PurgeAt(now: int)

  predicate Ordered(events: seq<Event>, from: int)
    decreases |events|
  {
    events == [] || (from <= events[0].now && Ordered(events[1..], events[0].now))
  }

  function RunAnswers(row: Option<Row>, events: seq<Event>, purging: bool): seq<bool>
    decreases |events|
  {
    if events == [] then []
    else
      match events[0]
      case Use(now) =>
        var (after, ok) := Access(row, now);
        [ok] + RunAnswers(after, events[1..], purging)
      case PurgeAt(now) => RunAnswers(if purging then Purge(row, now) else row, events[1..], purging)
  }

  /** The purged table lacks at most a row that no later access would accept. */
  ghost predicate Agree(purged: Option<Row>, plain: Option<Row>, now: int) {
    purged == plain || (purged.None? && plain.Some? && !Live(plain.value, now))
  }

  /** Purging never changes the answer to a later access. */
  lemma {:induction false} PurgesChangeNothing(purged: Option<Row>, plain: Option<Row>, events: seq<Event>, from: int)
    requires Agree(purged, plain, from) && Ordered(events, from)
    ensures RunAnswers(purged, events, true) == RunAnswers(plain, events, false)
    decreases |events|
  {
    if events != [] {
      match events[0]
      case Use(now) => PurgesChangeNothing(Access(purged, now).0, Access(plain, now).0, events[1..], now);
      case PurgeAt(now) => PurgesChangeNothing(Purge(purged, now), plain, events[1..], now);
    }
  }

  // ---- accesses interleaved between their read and their write ----

  /** A write decided on by a read: a renewal that compares the expiry it saw, or a delete. */
  datatype Write = Renewal(seen: int, value: int) | Delete

  datatype State = State(row: Option<Row>, pending: seq<Write>, renewals: nat)

  datatype Step = ReadAt(now: int) | WriteOut(i: nat) | PurgeStep(now: int)

  function Next(s: State, e: Step): State {
    match e
    case ReadAt(now) =>
      if s.row.None? then s
      else
        var r := s.row.value;
        if !Live(r, now) then s.(pending := s.pending + [Delete])
        else if Renews(r, now) then s.(pending := s.pending + [Renewal(r.expiresAt, Renewed(r, now))])
        else s
    case WriteOut(i) =>
      if i >= |s.pending| then s
      else
        var rest := s.pending[..i] + s.pending[i + 1..];
        if s.pending[i].Delete? then s.(row := None, pending := rest)
        else if s.row.Some? && s.row.value.expiresAt == s.pending[i].seen
        then State(Some(s.row.value.(expiresAt := s.pending[i].value)), rest, s.renewals + 1)
        else s.(pending := rest)
    case PurgeStep(now) => s.(row := Purge(s.row, now))
  }

  function Run(s: State, steps: seq<Step>): State
    decreases |steps|
  {
    if steps == [] then s else Run(Next(s, steps[0]), steps[1..])
  }

  predicate WriteOk(w: Write, cap: int) {
    w.Renewal? ==> w.value > w.seen + THRESHOLD && w.value <= cap
  }

  /** The expiry has moved by more than a day for each renewal written, and never past the cap. */
  ghost predicate Valid(s: State, created: int) {
    && (forall i :: 0 <= i < |s.pending| ==> WriteOk(s.pending[i], created + ABSOLUTE))
    && (s.row.Some? ==>
          && s.row.value.createdAt == created
          && created + IDLE + s.renewals * (THRESHOLD + 1) <= s.row.value.expiresAt <= created + ABSOLUTE)
    && s.renewals <= 22
  }

  lemma StepKeepsValid(s: State, e: Step, created: int)
    requires Valid(s, created)
    ensures Valid(Next(s, e), created)
    ensures s.row.Some? && Next(s, e).row.Some? ==> s.row.value.expiresAt <= Next(s, e).row.value.expiresAt
    ensures s.row.None? ==> Next(s, e).row.None?
  {
    if e.WriteOut? && e.i < |s.pending| {
      assert WriteOk(s.pending[e.i], created + ABSOLUTE);
    }
  }

  /**
   However reads and writes interleave: the expiry only grows, never passes thirty days after
   creation, and at most 22 renewals are ever written.
   */
  lemma {:induction false} RunStaysBounded(s: State, steps: seq<Step>, created: int)
    requires Valid(s, created)
    ensures Valid(Run(s, steps), created) && Run(s, steps).renewals <= 22
    ensures Run(s, steps).row.Some? ==>
        s.row.Some? && s.row.value.expiresAt <= Run(s, steps).row.value.expiresAt <= created + ABSOLUTE
    decreases |steps|
  {
    if steps != [] {
      StepKeepsValid(s, steps[0], created);
      RunStaysBounded(Next(s, steps[0]), steps[1..], created);
    }
  }

  lemma NewSessionIsValid(now: int)
    ensures Valid(State(Some(Create(now)), [], 0), now)
  {}

  /** The bound is met: used a little more than a day apart, a session is renewed 22 times. */
  lemma EachOfTwentyTwoIsWritten(now: int, n: nat)
    requires 1 <= n <= 22
    ensures
      var before := Row(now, now + IDLE + (n - 1) * (DAY + 1));
      var t := now + n * (DAY + 1);
      && Renews(before, t) && (n == 1 ==> before == Create(now))
      && Access(Some(before), t) == (Some(Row(now, now + IDLE + n * (DAY + 1))), true)
  {}

  /** An access that nothing comes between is its read and then what it decided to write. */
  lemma AccessIsReadAndWrite(s: State, now: int)
    requires s.pending == []
    ensures
      var read := Next(s, ReadAt(now));
      var written := if read.pending == [] then read else Next(read, WriteOut(0));
      written.row == Access(s.row, now).0 && written.pending == []
  {}

  /** A write that comes too late, after another, changes nothing; a delete always deletes. */
  lemma LateWriteIsLost(s: State, i: nat)
    requires i < |s.pending|
    ensures
      var after := Next(s, WriteOut(i));
      && after.pending == s.pending[..i] + s.pending[i + 1..]
      && match s.pending[i]
         case Delete => after.row.None? && after.renewals == s.renewals
         case Renewal(seen, value) =>
           if s.row.Some? && s.row.value.expiresAt == seen
           then after.row == Some(s.row.value.(expiresAt := value)) && after.renewals == s.renewals + 1
           else after.row == s.row && after.renewals == s.renewals
  {}

  // ---- the session table as an object ----

  class SessionTable {
    var rows: map<string, Row>

    constructor ()
      ensures rows == map[]
    {
      rows := map[];
    }

    function RowOf(token: string): Option<Row>
      reads this
    {
      if token in rows then Some(rows[token]) else None
    }

    /** The token is fresh. */
    method CreateSession(token: string, now: int)
      requires token !in rows
      modifies this
      ensures rows == old(rows)[token := Create(now)]
    {
      rows := rows[token := Row(now, now + IDLE)];
    }

    method GetSession(token: string, now: int) returns (ok: bool)
      modifies this
      ensures (RowOf(token), ok) == Access(old(RowOf(token)), now)
      ensures rows - {token} == old(rows) - {token}
    {
      if token !in rows {
        return false;
      }
      var r := rows[token];
      var absoluteExpiry := r.createdAt + ABSOLUTE;
      if now >= r.expiresAt || !(now < absoluteExpiry) {
        rows := rows - {token};
        return false;
      }
      var renewedExpiry := now + IDLE;
      if renewedExpiry > absoluteExpiry {
        renewedExpiry := absoluteExpiry;
      }
      if renewedExpiry - r.expiresAt > THRESHOLD {
        rows := rows[token := r.(expiresAt := renewedExpiry)];
      }
      return true;
    }

    method PurgeExpired(now: int)
      modifies this
      ensures forall token :: RowOf(token) == Purge(old(RowOf(token)), now)
    {
      rows := map token | token in rows && !(rows[token].expiresAt <= now) :: rows[token];
      rows := map token | token in rows && !(rows[token].createdAt <= now - ABSOLUTE) :: rows[token];
    }
  }
}
