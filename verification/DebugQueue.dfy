/** The bounded event queue of a debug session. */
module DebugQueue {
  // The request path pushes under the session's lock; the stream reader receives events at any moment,
  // and gives no bytes back when it does.

  const CAPACITY: nat := 10
  const BYTE_CAP: int := 4 * 1024 * 1024

  /** An event with its size on the wire, or the notice that events were dropped. */
  datatype Event = Event(id: nat, bytes: nat) | Notice

  /** What a notice takes on the wire. */
  type NoticeBytes = nat

  function Size(e: Event, n: NoticeBytes): nat {
    if e.Notice? then n else e.bytes
  }

  /**
   A channel: everything ever sent on it, and how much of that has been received, by the reader
   or by eviction. What lies between is queued.
   */
  datatype Chan = Chan(sent: seq<Event>, received: nat, total: int)

  ghost predicate WellFormed(c: Chan) {
    c.received <= |c.sent| <= c.received + CAPACITY
  }

  function Len(c: Chan): int {
    |c.sent| - c.received
  }

  function Queue(c: Chan): seq<Event>
    requires c.received <= |c.sent|
  {
    c.sent[c.received..]
  }

  /** The bytes of what was sent from position `from` on. */
  function BytesFrom(sent: seq<Event>, from: nat, n: NoticeBytes): nat
    decreases |sent| - from
  {
    if from >= |sent| then 0 else Size(sent[from], n) + BytesFrom(sent, from + 1, n)
  }

  function QueuedBytes(c: Chan, n: NoticeBytes): nat {
    BytesFrom(c.sent, c.received, n)
  }

  /** How many events the reader is about to receive before operation `k` on the channel. */
  function Takes(reader: seq<nat>, k: nat): nat {
    if k < |reader| then reader[k] else 0
  }

  /** The reader receives nothing while the push runs. */
  ghost predicate Quiet(reader: seq<nat>) {
    forall k :: 0 <= k < |reader| ==> reader[k] == 0
  }

  // ---- one push, operation by operation ----

  function Read(c: Chan, k: nat): Chan
    requires c.received <= |c.sent|
  {
    c.(received := if k < Len(c) then c.received + k else |c.sent|)
  }

  function Evict(c: Chan, n: NoticeBytes): Chan
    requires c.received < |c.sent|
  {
    c.(received := c.received + 1, total := c.total - Size(c.sent[c.received], n))
  }

  function Send(c: Chan, e: Event, n: NoticeBytes): Chan {
    c.(sent := c.sent + [e], total := c.total + Size(e, n))
  }

  datatype Scan = Scan(c: Chan, dropped: bool, waits: bool, next: nat)

  /**
   Evicts the oldest events until `need` more bytes fit. The channel is looked at and then
   received from in two operations, and the reader may receive events before each of them.
   */
  function EvictForBytes(c: Chan, need: int, n: NoticeBytes, reader: seq<nat>, k: nat, dropped: bool): (s: Scan)
    requires c.received <= |c.sent|
    ensures s.c.sent == c.sent && c.received <= s.c.received <= |c.sent|
    ensures s.waits ==> Len(s.c) == 0
    ensures s.dropped ==> dropped || c.received < s.c.received
    decreases Len(c)
  {
    if !(c.total + need > BYTE_CAP && Len(c) > 0) then Scan(c, dropped, false, k)
    else
      var seen := Read(c, Takes(reader, k));
      if Len(seen) == 0 then Scan(seen, dropped, true, k)
      else EvictForBytes(Read(Evict(seen, n), Takes(reader, k + 1)), need, n, reader, k + 2, true)
  }

  /** Sends; when the channel is full, the oldest event is taken out first. */
  function SendMakingRoom(c: Chan, e: Event, n: NoticeBytes, reader: seq<nat>, k: nat): (r: (Chan, bool))
    requires WellFormed(c)
    ensures WellFormed(r.0) && r.0.sent == c.sent + [e] && c.received <= r.0.received <= |c.sent|
    ensures r.1 ==> c.received < r.0.received
  {
    var c1 := Read(c, Takes(reader, k));
    var c2 := if Len(c1) < CAPACITY then c1 else Read(c1, Takes(reader, k + 1));
    var evicts := Len(c1) >= CAPACITY && Len(c2) > 0;
    var c3 := if evicts then Evict(c2, n) else c2;
    (Send(Read(c3, Takes(reader, k + 2)), e, n), evicts)
  }

  function MakeBytes(c: Chan, evt: Event, n: NoticeBytes, reader: seq<nat>): (s: Scan)
    requires c.received <= |c.sent|
    ensures s.c.sent == c.sent && c.received <= s.c.received <= |c.sent|
    ensures s.waits ==> Len(s.c) == 0
    ensures s.dropped ==> c.received < s.c.received
  {
    var reset := if Len(c) == 0 then c.(total := 0) else c;
    EvictForBytes(Read(reset, Takes(reader, 0)), Size(evt, n) + n, n, reader, 1, false)
  }

  /** The event, and the notice after it when anything was or had to be evicted. */
  function Deliver(c: Chan, evicted: bool, evt: Event, n: NoticeBytes, reader: seq<nat>, k: nat): (r: (Chan, bool))
    requires WellFormed(c)
    ensures WellFormed(r.0) && c.received <= r.0.received
    ensures r.0.sent == c.sent + [evt] + if r.1 then [Notice] else []
    ensures r.1 ==> evicted || c.received < r.0.received
  {
    var (sent, evicts) := SendMakingRoom(c, evt, n, reader, k);
    if evicted || evicts then (SendMakingRoom(sent, Notice, n, reader, k + 3).0, true)
    else
      assert sent.sent + [] == sent.sent;
      (sent, false)
  }

  /** Waiting: the push found the channel empty where it had seen an event, and waits with the lock held. */
  datatype Outcome = Pushed(dropped: bool) | Waiting

  /**
   However the reader interferes: the event is sent, and the notice after it exactly when the
   result says that events were dropped; events are lost only from the front.
   */
  function PushStep(c: Chan, evt: Event, n: NoticeBytes, reader: seq<nat>): (r: (Chan, Outcome))
    requires WellFormed(c)
    ensures WellFormed(r.0) && c.received <= r.0.received
    ensures r.1.Waiting? ==> Len(r.0) == 0 && r.0.sent == c.sent
    ensures r.1.Pushed? ==> r.0.sent == c.sent + [evt] + if r.1.dropped then [Notice] else []
    ensures r.1.Pushed? && r.1.dropped ==> c.received < r.0.received
  {
    var scan := MakeBytes(c, evt, n, reader);
    if scan.waits then (scan.c, Waiting)
    else
      var (after, dropped) := Deliver(scan.c, scan.dropped, evt, n, reader, scan.next);
      (after, Pushed(dropped))
  }

  /** In terms of the queue: what is left of the old one, then the event, then the notice. */
  lemma PushKeepsTheEnd(c: Chan, evt: Event, n: NoticeBytes, reader: seq<nat>)
    requires WellFormed(c) && PushStep(c, evt, n, reader).1.Pushed?
    ensures
      var (after, outcome) := PushStep(c, evt, n, reader);
      var line := Queue(c) + [evt] + if outcome.dropped then [Notice] else [];
      && WellFormed(after) && |Queue(after)| <= |line|
      && Queue(after) == line[|line| - |Queue(after)|..]
  {
    var (after, outcome) := PushStep(c, evt, n, reader);
    var notice := if outcome.dropped then [Notice] else [];
    Regroup(c.sent, [evt], notice);
    Regroup(Queue(c), [evt], notice);
    SuffixOfSum(c.sent, [evt] + notice, c.received, after.received);
  }

  lemma Regroup(s: seq<Event>, t: seq<Event>, u: seq<Event>)
    ensures s + t + u == s + (t + u)
  {}

  lemma SuffixOfSum(s: seq<Event>, t: seq<Event>, i: nat, j: nat)
    requires i <= |s| && i <= j <= |s| + |t|
    ensures (s + t)[j..] == (s[i..] + t)[j - i..]
    ensures |(s + t)[j..]| == |s| + |t| - j && |s[i..] + t| == |s| - i + |t|
  {}

  // ---- the bytes ----

  /** The accounted bytes never fall below what is queued. */
  ghost predicate Accounted(c: Chan, n: NoticeBytes) {
    QueuedBytes(c, n) <= c.total
  }

  lemma {:induction false} BytesShrink(sent: seq<Event>, i: nat, j: nat, n: NoticeBytes)
    requires i <= j
    ensures BytesFrom(sent, j, n) <= BytesFrom(sent, i, n)
    decreases j - i
  {
    if i < j {
      BytesShrink(sent, i + 1, j, n);
    }
  }

  lemma {:induction false} BytesGrow(sent: seq<Event>, e: Event, from: nat, n: NoticeBytes)
    requires from <= |sent|
    ensures BytesFrom(sent + [e], from, n) == BytesFrom(sent, from, n) + Size(e, n)
    decreases |sent| - from
  {
    if from < |sent| {
      BytesGrow(sent, e, from + 1, n);
    } else {
      assert BytesFrom(sent + [e], from + 1, n) == 0;
    }
  }

  lemma ReadAccounts(c: Chan, k: nat, n: NoticeBytes)
    requires c.received <= |c.sent|
    ensures QueuedBytes(Read(c, k), n) <= QueuedBytes(c, n)
  {
    BytesShrink(c.sent, c.received, Read(c, k).received, n);
  }

  lemma {:induction false} EvictingAccounts(c: Chan, need: int, n: NoticeBytes, reader: seq<nat>, k: nat, dropped: bool)
    requires c.received <= |c.sent| && Accounted(c, n)
    ensures
      var s := EvictForBytes(c, need, n, reader, k, dropped);
      Accounted(s.c, n) && (s.waits || Len(s.c) == 0 || s.c.total + need <= BYTE_CAP)
    decreases Len(c)
  {
    if c.total + need > BYTE_CAP && Len(c) > 0 {
      var seen := Read(c, Takes(reader, k));
      ReadAccounts(c, Takes(reader, k), n);
      if Len(seen) > 0 {
        ReadAccounts(Evict(seen, n), Takes(reader, k + 1), n);
        EvictingAccounts(Read(Evict(seen, n), Takes(reader, k + 1)), need, n, reader, k + 2, true);
      }
    }
  }

  lemma MakingBytesAccounts(c: Chan, evt: Event, n: NoticeBytes, reader: seq<nat>)
    requires c.received <= |c.sent| && Accounted(c, n)
    ensures
      var s := MakeBytes(c, evt, n, reader);
      Accounted(s.c, n) && (s.waits || QueuedBytes(s.c, n) + Size(evt, n) + n <= Max(BYTE_CAP, Size(evt, n) + n))
  {
    var reset := if Len(c) == 0 then c.(total := 0) else c;
    ReadAccounts(reset, Takes(reader, 0), n);
    EvictingAccounts(Read(reset, Takes(reader, 0)), Size(evt, n) + n, n, reader, 1, false);
  }

  lemma SendingAccounts(c: Chan, e: Event, n: NoticeBytes, reader: seq<nat>, k: nat)
    requires WellFormed(c) && Accounted(c, n)
    ensures
      var after := SendMakingRoom(c, e, n, reader, k).0;
      Accounted(after, n) && QueuedBytes(after, n) <= QueuedBytes(c, n) + Size(e, n)
  {
    var c1 := Read(c, Takes(reader, k));
    ReadAccounts(c, Takes(reader, k), n);
    var c2 := if Len(c1) < CAPACITY then c1 else Read(c1, Takes(reader, k + 1));
    ReadAccounts(c1, Takes(reader, k + 1), n);
    var c3 := if Len(c1) >= CAPACITY && Len(c2) > 0 then Evict(c2, n) else c2;
    ReadAccounts(c3, Takes(reader, k + 2), n);
    var c4 := Read(c3, Takes(reader, k + 2));
    BytesGrow(c4.sent, e, c4.received, n);
  }

  function Max(a: int, b: int): int {
    if a < b then b else a
  }

  /**
   After any push the accounts still cover the queue, and the queued bytes are within the cap,
   or else within this one event and its notice.
   */
  lemma PushAccounts(c: Chan, evt: Event, n: NoticeBytes, reader: seq<nat>)
    requires WellFormed(c) && Accounted(c, n)
    ensures
      var (after, outcome) := PushStep(c, evt, n, reader);
      Accounted(after, n) && (outcome.Pushed? ==> QueuedBytes(after, n) <= Max(BYTE_CAP, Size(evt, n) + n))
  {
    var scan := MakeBytes(c, evt, n, reader);
    MakingBytesAccounts(c, evt, n, reader);
    SendingAccounts(scan.c, evt, n, reader, scan.next);
    SendingAccounts(SendMakingRoom(scan.c, evt, n, reader, scan.next).0, Notice, n, reader, scan.next + 3);
  }

  // ---- a push the reader does not disturb ----

  /** How many of the oldest events go before `need` more bytes fit under the cap. */
  function OverCap(c: Chan, need: int, n: NoticeBytes): (k: nat)
    requires c.received <= |c.sent|
    ensures k <= Len(c)
    decreases Len(c)
  {
    if Len(c) == 0 || c.total + need <= BYTE_CAP then 0 else 1 + OverCap(Evict(c, n), need, n)
  }

  /** How many more go from a queue of `len` for the event, and for its notice when there is one. */
  function ForRoom(len: int, evicted: bool): nat {
    if len >= CAPACITY then 2 else if evicted && len + 1 >= CAPACITY then 1 else 0
  }

  lemma {:induction false} QuietEviction(c: Chan, need: int, n: NoticeBytes, reader: seq<nat>, k: nat, dropped: bool)
    requires c.received <= |c.sent| && Quiet(reader)
    ensures
      var s := EvictForBytes(c, need, n, reader, k, dropped);
      && !s.waits && s.c.received == c.received + OverCap(c, need, n)
      && s.dropped == (dropped || OverCap(c, need, n) > 0)
    decreases Len(c)
  {
    if c.total + need > BYTE_CAP && Len(c) > 0 {
      assert Takes(reader, k) == 0 && Takes(reader, k + 1) == 0;
      QuietEviction(Evict(c, n), need, n, reader, k + 2, true);
    }
  }

  lemma QuietSend(c: Chan, e: Event, n: NoticeBytes, reader: seq<nat>, k: nat)
    requires WellFormed(c) && Quiet(reader)
    ensures
      var (after, evicts) := SendMakingRoom(c, e, n, reader, k);
      evicts == (Len(c) == CAPACITY) && after.received == c.received + if evicts then 1 else 0
  {
    assert Takes(reader, k) == 0 && Takes(reader, k + 1) == 0 && Takes(reader, k + 2) == 0;
  }

  lemma QuietDeliver(c: Chan, evicted: bool, evt: Event, n: NoticeBytes, reader: seq<nat>, k: nat)
    requires WellFormed(c) && Quiet(reader)
    ensures
      var (after, dropped) := Deliver(c, evicted, evt, n, reader, k);
      && dropped == (evicted || Len(c) == CAPACITY)
      && after.received == c.received + ForRoom(Len(c), evicted)
  {
    QuietSend(c, evt, n, reader, k);
    QuietSend(SendMakingRoom(c, evt, n, reader, k).0, Notice, n, reader, k + 3);
  }

  /** How many events an undisturbed push evicts because of their bytes. */
  function ForBytes(c: Chan, evt: Event, n: NoticeBytes): (k: nat)
    requires c.received <= |c.sent|
    ensures k <= Len(c)
    ensures k > 0 <==> EvictsForBytes(c, evt, n)
  {
    OverCap(c, Size(evt, n) + n, n)
  }

  lemma QuietMakeBytes(c: Chan, evt: Event, n: NoticeBytes, reader: seq<nat>)
    requires c.received <= |c.sent| && Quiet(reader)
    ensures
      var s := MakeBytes(c, evt, n, reader);
      !s.waits && s.c.received == c.received + ForBytes(c, evt, n) && s.dropped == (ForBytes(c, evt, n) > 0)
  {
    var reset := if Len(c) == 0 then c.(total := 0) else c;
    assert Takes(reader, 0) == 0;
    QuietEviction(reset, Size(evt, n) + n, n, reader, 1, false);
  }

  /**
   Undisturbed, a push never waits, loses exactly the events it must, and reports a loss exactly
   when the queue was full or, not being empty, over the byte cap.
   */
  lemma QuietPush(c: Chan, evt: Event, n: NoticeBytes, reader: seq<nat>)
    requires WellFormed(c) && Quiet(reader)
    ensures
      var (after, outcome) := PushStep(c, evt, n, reader);
      var over := ForBytes(c, evt, n);
      && outcome.Pushed?
      && after.received == c.received + over + ForRoom(Len(c) - over, over > 0) <= |c.sent|
      && outcome.dropped == (Len(c) == 10 || EvictsForBytes(c, evt, n))
      && outcome.dropped == (after.received > c.received)
  {
    QuietMakeBytes(c, evt, n, reader);
    var scan := MakeBytes(c, evt, n, reader);
    QuietDeliver(scan.c, scan.dropped, evt, n, reader, scan.next);
  }

  /** The accounts are exact: what is accounted is what is queued. */
  ghost predicate Exact(c: Chan, n: NoticeBytes) {
    c.total == QueuedBytes(c, n)
  }

  lemma {:induction false} EvictingIsExact(c: Chan, need: int, n: NoticeBytes, reader: seq<nat>, k: nat, dropped: bool)
    requires c.received <= |c.sent| && Exact(c, n) && Quiet(reader)
    ensures Exact(EvictForBytes(c, need, n, reader, k, dropped).c, n)
    decreases Len(c)
  {
    if c.total + need > BYTE_CAP && Len(c) > 0 {
      assert Takes(reader, k) == 0 && Takes(reader, k + 1) == 0;
      EvictingIsExact(Evict(c, n), need, n, reader, k + 2, true);
    }
  }

  lemma SendingIsExact(c: Chan, e: Event, n: NoticeBytes, reader: seq<nat>, k: nat)
    requires WellFormed(c) && Exact(c, n) && Quiet(reader)
    ensures Exact(SendMakingRoom(c, e, n, reader, k).0, n)
  {
    assert Takes(reader, k) == 0 && Takes(reader, k + 1) == 0 && Takes(reader, k + 2) == 0;
    var room := if Len(c) == CAPACITY then Evict(c, n) else c;
    BytesGrow(room.sent, e, room.received, n);
  }

  /** As long as the reader receives nothing, evictions and sends keep the accounts exact. */
  lemma QuietPushIsExact(c: Chan, evt: Event, n: NoticeBytes, reader: seq<nat>)
    requires WellFormed(c) && Exact(c, n) && Quiet(reader)
    ensures Exact(PushStep(c, evt, n, reader).0, n)
  {
    var reset := if Len(c) == 0 then c.(total := 0) else c;
    assert Takes(reader, 0) == 0;
    EvictingIsExact(reset, Size(evt, n) + n, n, reader, 1, false);
    QuietMakeBytes(c, evt, n, reader);
    var scan := MakeBytes(c, evt, n, reader);
    SendingIsExact(scan.c, evt, n, reader, scan.next);
    SendingIsExact(SendMakingRoom(scan.c, evt, n, reader, scan.next).0, Notice, n, reader, scan.next + 3);
  }

  // ---- a push that waits ----

  /**
   A push can wait exactly when it comes to evict for the bytes: when something is queued and the
   accounted bytes leave no room for the event and a notice. All the reader has to do is to
   receive what is queued between the push's look at the channel and its receive.
   */
  lemma WaitsIffEvictsForBytes(c: Chan, evt: Event, n: NoticeBytes)
    requires WellFormed(c)
    ensures (exists reader :: PushStep(c, evt, n, reader).1.Waiting?) <==> EvictsForBytes(c, evt, n)
  {
    forall reader | PushStep(c, evt, n, reader).1.Waiting?
      ensures EvictsForBytes(c, evt, n)
    {
      WaitingEvicts(c, evt, n, reader);
    }
    if EvictsForBytes(c, evt, n) {
      ReaderCanTakeAll(c, evt, n);
      assert PushStep(c, evt, n, [0, Len(c)]).1.Waiting?;
    }
  }

  predicate EvictsForBytes(c: Chan, evt: Event, n: NoticeBytes) {
    Len(c) > 0 && c.total + Size(evt, n) + n > BYTE_CAP
  }

  lemma WaitingEvicts(c: Chan, evt: Event, n: NoticeBytes, reader: seq<nat>)
    requires WellFormed(c) && PushStep(c, evt, n, reader).1.Waiting?
    ensures EvictsForBytes(c, evt, n)
  {}

  /** Undisturbed it never waits. */
  lemma WaitingNeedsTheReader(c: Chan, evt: Event, n: NoticeBytes, reader: seq<nat>)
    requires WellFormed(c) && PushStep(c, evt, n, reader).1.Waiting?
    ensures !Quiet(reader)
  {
    if Quiet(reader) {
      QuietPush(c, evt, n, reader);
      assert false;
    }
  }

  lemma ReaderCanTakeAll(c: Chan, evt: Event, n: NoticeBytes)
    requires WellFormed(c) && EvictsForBytes(c, evt, n)
    ensures PushStep(c, evt, n, [0, Len(c)]).1.Waiting?
  {
    var reader := [0, Len(c)];
    assert Takes(reader, 0) == 0 && Takes(reader, 1) == Len(c);
    assert EvictForBytes(c, Size(evt, n) + n, n, reader, 1, false).waits;
  }

  // ---- runs ----

  datatype Op = PushOp(evt: Event, reader: seq<nat>) | ReadOp(k: nat)

  function Step(c: Chan, op: Op, n: NoticeBytes): (r: Chan)
    requires WellFormed(c)
    ensures WellFormed(r)
  {
    match op
    case PushOp(evt, reader) => PushStep(c, evt, n, reader).0
    case ReadOp(k) => Read(c, k)
  }

  function Run(c: Chan, ops: seq<Op>, n: NoticeBytes): (r: Chan)
    requires WellFormed(c)
    ensures WellFormed(r)
    decreases |ops|
  {
    if ops == [] then c else Run(Step(c, ops[0], n), ops[1..], n)
  }

  /** Over any run the queue holds at most the cap, or the largest event and one notice. */
  lemma {:induction false} RunStaysBounded(c: Chan, ops: seq<Op>, n: NoticeBytes, largest: nat)
    requires WellFormed(c) && Accounted(c, n) && QueuedBytes(c, n) <= Max(BYTE_CAP, largest + n)
    requires forall i :: 0 <= i < |ops| && ops[i].PushOp? ==> Size(ops[i].evt, n) <= largest
    ensures
      var after := Run(c, ops, n);
      Len(after) <= 10 && Accounted(after, n) && QueuedBytes(after, n) <= Max(BYTE_CAP, largest + n)
    decreases |ops|
  {
    if ops != [] {
      match ops[0] {
        case PushOp(evt, reader) =>
          PushAccounts(c, evt, n, reader);
          if PushStep(c, evt, n, reader).1.Waiting? {
            assert QueuedBytes(PushStep(c, evt, n, reader).0, n) == 0;
          }
        case ReadOp(k) => ReadAccounts(c, k, n);
      }
      RunStaysBounded(Step(c, ops[0], n), ops[1..], n, largest);
    }
  }

  // ---- events of any size lead to a push that can wait ----

  predicate SlowOp(op: Op, bytes: nat) {
    op == ReadOp(1) || (op.PushOp? && op.reader == [] && op.evt.Event? && op.evt.bytes == bytes)
  }

  /** Events of one size, each received by a slow reader only after the next one is queued. */
  function SlowlyRead(bytes: nat, k: nat): (ops: seq<Op>)
    ensures forall op <- ops :: SlowOp(op, bytes)
  {
    if k == 0 then [] else [PushOp(Event(k, bytes), []), ReadOp(1)] + SlowlyRead(bytes, k - 1)
  }

  /** No bytes come back from what is received, and the channel is never seen empty. */
  lemma {:induction false} SlowReadingFills(c: Chan, bytes: nat, k: nat, n: NoticeBytes)
    requires WellFormed(c) && Len(c) == 1 && c.total + k * bytes + n <= BYTE_CAP
    ensures Len(Run(c, SlowlyRead(bytes, k), n)) == 1
    ensures Run(c, SlowlyRead(bytes, k), n).total == c.total + k * bytes
    decreases k
  {
    if k > 0 {
      OneLess(k, bytes);
      var push := PushOp(Event(k, bytes), []);
      var pushed := SlowPush(c, push.evt, n);
      TwoSteps(c, push, ReadOp(1), SlowlyRead(bytes, k - 1), n);
      SlowReadingFills(Read(pushed, 1), bytes, k - 1, n);
    }
  }

  lemma OneLess(k: nat, bytes: nat)
    requires k > 0
    ensures k * bytes == bytes + (k - 1) * bytes && (k - 1) * bytes >= 0
  {}

  lemma SlowPush(c: Chan, evt: Event, n: NoticeBytes) returns (pushed: Chan)
    requires WellFormed(c) && Len(c) == 1 && !EvictsForBytes(c, evt, n)
    ensures pushed == PushStep(c, evt, n, []).0 && Len(pushed) == 2 && pushed.total == c.total + Size(evt, n)
  {
    pushed := PushStep(c, evt, n, []).0;
    assert Read(c, 0) == c;
    assert EvictForBytes(c, Size(evt, n) + n, n, [], 1, false) == Scan(c, false, false, 1);
    assert SendMakingRoom(c, evt, n, [], 1) == (Send(c, evt, n), false);
  }

  lemma TwoSteps(c: Chan, first: Op, second: Op, rest: seq<Op>, n: NoticeBytes)
    requires WellFormed(c)
    ensures Run(c, [first, second] + rest, n) == Run(Step(Step(c, first, n), second, n), rest, n)
  {
    var ops := [first, second] + rest;
    assert ops[1..] == [second] + rest && ops[1..][1..] == rest;
  }

  /** How many events of a size can follow the first and still fit in the accounts beside a notice. */
  function MoreThanFirst(bytes: nat, n: NoticeBytes): (k: nat)
    requires bytes > 0
    ensures k == 0 || bytes + k * bytes + n <= BYTE_CAP
    ensures bytes + k * bytes + bytes + n > BYTE_CAP
  {
    if bytes + n > BYTE_CAP then 0
    else
      var k := (BYTE_CAP - bytes - n) / bytes;
      assert k * bytes + bytes == (k + 1) * bytes;
      k
  }

  lemma FirstPush(evt: Event, n: NoticeBytes)
    ensures var c := PushStep(Chan([], 0, 0), evt, n, []).0;
      WellFormed(c) && Len(c) == 1 && c.total == Size(evt, n)
  {
    var c := Chan([], 0, 0);
    assert Read(c, 0) == c;
    assert EvictForBytes(c, Size(evt, n) + n, n, [], 1, false) == Scan(c, false, false, 1);
    assert SendMakingRoom(c, evt, n, [], 1) == (Send(c, evt, n), false);
  }

  /** One event, and then as many as fit, each pushed with the one before still queued. */
  function SlowRun(bytes: nat, n: NoticeBytes): (ops: seq<Op>)
    requires bytes > 0
    ensures forall op <- ops :: SlowOp(op, bytes)
  {
    var k := MoreThanFirst(bytes, n);
    [PushOp(Event(k + 1, bytes), [])] + SlowlyRead(bytes, k)
  }

  lemma SlowRunFills(bytes: nat, n: NoticeBytes)
    requires bytes > 0
    ensures EvictsForBytes(Run(Chan([], 0, 0), SlowRun(bytes, n), n), Event(0, bytes), n)
  {
    var k := MoreThanFirst(bytes, n);
    var first := PushOp(Event(k + 1, bytes), []);
    FirstPush(first.evt, n);
    var c := Step(Chan([], 0, 0), first, n);
    assert SlowRun(bytes, n)[1..] == SlowlyRead(bytes, k);
    if k > 0 {
      SlowReadingFills(c, bytes, k, n);
    } else {
      assert SlowlyRead(bytes, k) == [];
    }
  }

  /**
   Events of any size can come to it: pushes from an empty channel, which the reader does not disturb
   but follows one event behind, and then one more push of that size can wait.
   */
  lemma SlowReaderMakesAPushWait(bytes: nat, n: NoticeBytes)
    requires bytes > 0
    ensures forall op <- SlowRun(bytes, n) :: SlowOp(op, bytes)
    ensures exists reader :: PushStep(Run(Chan([], 0, 0), SlowRun(bytes, n), n), Event(0, bytes), n, reader).1.Waiting?
  {
    SlowRunFills(bytes, n);
    WaitsIffEvictsForBytes(Run(Chan([], 0, 0), SlowRun(bytes, n), n), Event(0, bytes), n);
  }

  /** With bodies cut at 64, 64 and 256 KiB an event is about 400 KiB: after ten pushes the eleventh can wait. */
  lemma APushCanWait(bytes: nat, n: NoticeBytes)
    requires bytes == 400 * 1024 && n <= 1024
    ensures SlowRun(bytes, n) == [PushOp(Event(10, bytes), [])] + SlowlyRead(bytes, 9)
    ensures exists reader :: PushStep(Run(Chan([], 0, 0), SlowRun(bytes, n), n), Event(0, bytes), n, reader).1.Waiting?
  {
    SlowReaderMakesAPushWait(bytes, n);
    NineMore(bytes, n);
  }

  lemma NineMore(bytes: nat, n: NoticeBytes)
    requires bytes == 400 * 1024 && n <= 1024
    ensures MoreThanFirst(bytes, n) == 9
  {}

  // ---- the end of a session ----

  /** The event a timer or a replacement sends before the channel is closed: if there is room, and unaccounted. */
  function Tell(c: Chan, e: Event): Chan {
    if Len(c) < CAPACITY then c.(sent := c.sent + [e]) else c
  }

  /** Over a session's whole life: whatever is pushed and read, what its end adds is at most its own event. */
  lemma WholeLifeStaysBounded(ops: seq<Op>, last: Event, k: nat, n: NoticeBytes, largest: nat)
    requires forall i :: 0 <= i < |ops| && ops[i].PushOp? ==> Size(ops[i].evt, n) <= largest
    ensures
      var after := Read(Tell(Run(Chan([], 0, 0), ops, n), last), k);
      WellFormed(after) && QueuedBytes(after, n) <= Max(BYTE_CAP, largest + n) + Size(last, n)
  {
    var c := Run(Chan([], 0, 0), ops, n);
    RunStaysBounded(Chan([], 0, 0), ops, n, largest);
    BytesGrow(c.sent, last, c.received, n);
    ReadAccounts(Tell(c, last), k, n);
  }

  // ---- the session's queue as an object ----

  class EventQueue {
    const noticeBytes: NoticeBytes
    var sent: seq<Event>
    var received: nat
    var totalBytes: int

    function Channel(): Chan
      reads this
    {
      Chan(sent, received, totalBytes)
    }

    constructor (noticeBytes: NoticeBytes)
      ensures Channel() == Chan([], 0, 0) && this.noticeBytes == noticeBytes
    {
      this.noticeBytes := noticeBytes;
      sent, received, totalBytes := [], 0, 0;
    }

    method ReadUpTo(k: nat)
      requires WellFormed(Channel())
      modifies this`received
      ensures Channel() == Read(old(Channel()), k)
    {
      received := if k < |sent| - received then received + k else |sent|;
    }

    method EvictOldest()
      requires received < |sent|
      modifies this`received, this`totalBytes
      ensures Channel() == Evict(old(Channel()), noticeBytes)
    {
      totalBytes := totalBytes - Size(sent[received], noticeBytes);
      received := received + 1;
    }

    method SendOrMakeRoom(e: Event, reader: seq<nat>, k: nat) returns (evicted: bool)
      requires WellFormed(Channel())
      modifies this`sent, this`received, this`totalBytes
      ensures (Channel(), evicted) == SendMakingRoom(old(Channel()), e, noticeBytes, reader, k)
    {
      evicted := false;
      ReadUpTo(Takes(reader, k));
      if |sent| - received >= CAPACITY {
        ReadUpTo(Takes(reader, k + 1));
        if |sent| - received > 0 {
          EvictOldest();
          evicted := true;
        }
      }
      ReadUpTo(Takes(reader, k + 2));
      totalBytes := totalBytes + Size(e, noticeBytes);
      sent := sent + [e];
    }

    method EvictUntilFits(need: int, reader: seq<nat>) returns (dropped: bool, waits: bool, next: nat)
      requires WellFormed(Channel())
      modifies this`received, this`totalBytes
      ensures Scan(Channel(), dropped, waits, next) == EvictForBytes(old(Channel()), need, noticeBytes, reader, 1, false)
    {
      dropped, waits, next := false, false, 1;
      ghost var scan := EvictForBytes(Channel(), need, noticeBytes, reader, 1, false);
      while totalBytes + need > BYTE_CAP && |sent| - received > 0
        invariant WellFormed(Channel()) && sent == old(sent) && !waits
        invariant EvictForBytes(Channel(), need, noticeBytes, reader, next, dropped) == scan
        decreases |sent| - received
      {
        ReadUpTo(Takes(reader, next));
        if |sent| - received == 0 {
          waits := true;
          return;
        }
        EvictOldest();
        dropped := true;
        ReadUpTo(Takes(reader, next + 1));
        next := next + 2;
      }
    }

    /** The first half of a push. */
    method MakeRoomForBytes(evt: Event, reader: seq<nat>) returns (dropped: bool, waits: bool, next: nat)
      requires WellFormed(Channel())
      modifies this`received, this`totalBytes
      ensures Scan(Channel(), dropped, waits, next) == MakeBytes(old(Channel()), evt, noticeBytes, reader)
    {
      if |sent| - received == 0 {
        totalBytes := 0;
      }
      ReadUpTo(Takes(reader, 0));
      dropped, waits, next := EvictUntilFits(Size(evt, noticeBytes) + noticeBytes, reader);
    }

    method Push(evt: Event, reader: seq<nat>) returns (r: Outcome)
      requires WellFormed(Channel())
      modifies this`sent, this`received, this`totalBytes
      ensures (Channel(), r) == PushStep(old(Channel()), evt, noticeBytes, reader)
    {
      var dropped, waits, next := MakeRoomForBytes(evt, reader);
      if waits {
        return Waiting;
      }
      var evicted := SendOrMakeRoom(evt, reader, next);
      if dropped || evicted {
        var again := SendOrMakeRoom(Notice, reader, next + 3);
        return Pushed(true);
      }
      return Pushed(false);
    }
  }
}
