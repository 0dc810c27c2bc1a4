/**
 Leases on a donation's request rate.

 A lease is taken at once and counts for one window. It is given back only when the setup of the call
 fails before the donated credential is used, by a closure that acts once and on its own record. The
 limiter is compared with one that never drops an expired lease.
 */
module DonationLimiter {
  import opened Options
  import opened SlidingWindows

  type DonationId = nat
  type LeaseId = nat

  const WINDOW := 60
  const DEFAULT_LIMIT := 10

  datatype Lease = Lease(id: LeaseId, at: int)

  type Windows = map<DonationId, seq<Lease>>

  function LimitOf(limit: int): nat {
    if limit <= 0 then DEFAULT_LIMIT else limit
  }

  lemma LimitIsAsGiven(limit: int)
    ensures LimitOf(limit) == if limit >= 1 then limit else 10
  {}

  function Records(windows: Windows, d: DonationId): seq<Lease> {
    if d in windows then windows[d] else []
  }

  function Alive(records: seq<Lease>, cutoff: int): (r: seq<Lease>)
    ensures |r| <= |records| && forall x <- r :: x in records
  {
    if records == [] then []
    else
      var last := records[|records| - 1];
      Alive(records[..|records| - 1], cutoff) + if last.at > cutoff then [last] else []
  }

  function Without(records: seq<Lease>, id: LeaseId): (r: seq<Lease>)
    ensures forall x <- r :: x in records && x.id != id
  {
    if records == [] then []
    else
      var last := records[|records| - 1];
      Without(records[..|records| - 1], id) + if last.id != id then [last] else []
  }

  function Times(records: seq<Lease>): seq<int> {
    seq(|records|, i requires 0 <= i < |records| => records[i].at)
  }

  // ---- the two operations ----

  function Acquire(windows: Windows, nextID: LeaseId, d: DonationId, limit: int, now: int): (Windows, Option<LeaseId>) {
    var keep := Alive(Records(windows, d), now - WINDOW);
    if |keep| >= LimitOf(limit) then (windows[d := keep], None)
    else (windows[d := keep + [Lease(nextID + 1, now)]], Some(nextID + 1))
  }

  function Release(windows: Windows, d: DonationId, id: LeaseId): Windows {
    if d in windows then windows[d := Without(windows[d], id)] else windows
  }

  // ---- lists of leases ----

  lemma AliveGrows(records: seq<Lease>, x: Lease, cutoff: int)
    ensures Alive(records + [x], cutoff) == if x.at > cutoff then Alive(records, cutoff) + [x] else Alive(records, cutoff)
  {
    assert (records + [x])[..|records|] == records;
  }

  lemma WithoutGrows(records: seq<Lease>, x: Lease, id: LeaseId)
    ensures Without(records + [x], id) == if x.id != id then Without(records, id) + [x] else Without(records, id)
  {
    assert (records + [x])[..|records|] == records;
  }

  lemma TimesGrows(records: seq<Lease>, x: Lease)
    ensures Times(records + [x]) == Times(records) + [x.at]
  {}

  lemma LastOf(records: seq<Lease>)
    requires records != []
    ensures records == records[..|records| - 1] + [records[|records| - 1]]
  {}

  lemma {:induction false} TimesOfAlive(records: seq<Lease>, cutoff: int)
    ensures Times(Alive(records, cutoff)) == Recent(Times(records), cutoff)
  {
    if records != [] {
      var init, last := records[..|records| - 1], records[|records| - 1];
      TimesOfAlive(init, cutoff);
      LastOf(records);
      AliveGrows(init, last, cutoff);
      TimesGrows(init, last);
      TimesGrows(Alive(init, cutoff), last);
      RecentGrows(Times(init), last.at, cutoff);
    }
  }

  lemma {:induction false} AliveOfAlive(records: seq<Lease>, a: int, b: int)
    requires a <= b
    ensures Alive(Alive(records, a), b) == Alive(records, b)
  {
    if records != [] {
      var init, last := records[..|records| - 1], records[|records| - 1];
      AliveOfAlive(init, a, b);
      LastOf(records);
      AliveGrows(init, last, a);
      AliveGrows(init, last, b);
      AliveGrows(Alive(init, a), last, b);
    }
  }

  lemma {:induction false} AliveWithout(records: seq<Lease>, id: LeaseId, cutoff: int)
    ensures Alive(Without(records, id), cutoff) == Without(Alive(records, cutoff), id)
  {
    if records != [] {
      var init, last := records[..|records| - 1], records[|records| - 1];
      AliveWithout(init, id, cutoff);
      LastOf(records);
      AliveWithoutGrows(init, last, id, cutoff);
    }
  }

  lemma AliveWithoutGrows(init: seq<Lease>, x: Lease, id: LeaseId, cutoff: int)
    requires Alive(Without(init, id), cutoff) == Without(Alive(init, cutoff), id)
    ensures Alive(Without(init + [x], id), cutoff) == Without(Alive(init + [x], cutoff), id)
  {
    AliveGrows(init, x, cutoff);
    WithoutGrows(init, x, id);
    AliveGrows(Without(init, id), x, cutoff);
    WithoutGrows(Alive(init, cutoff), x, id);
  }

  /** Giving a lease back can only empty windows. */
  lemma {:induction false} WithoutCounts(records: seq<Lease>, id: LeaseId, last: int, width: int)
    ensures InWindow(Times(Without(records, id)), last, width) <= InWindow(Times(records), last, width)
  {
    if records != [] {
      var init, x := records[..|records| - 1], records[|records| - 1];
      WithoutCounts(init, id, last, width);
      LastOf(records);
      WithoutGrows(init, x, id);
      TimesGrows(init, x);
      TimesGrows(Without(init, id), x);
      InWindowGrows(Times(init), x.at, last, width);
      InWindowGrows(Times(Without(init, id)), x.at, last, width);
    }
  }

  /** A release takes away only its own record, and releasing again changes nothing. */
  lemma {:induction false} WithoutTakesOnlyItsOwn(records: seq<Lease>, id: LeaseId)
    ensures forall x :: x in Without(records, id) <==> x in records && x.id != id
    ensures Without(Without(records, id), id) == Without(records, id)
  {
    if records != [] {
      var init, last := records[..|records| - 1], records[|records| - 1];
      WithoutTakesOnlyItsOwn(init, id);
      LastOf(records);
      WithoutGrows(init, last, id);
      WithoutGrows(Without(init, id), last, id);
    }
  }

  // ---- the limiter decides as if expired leases were never dropped ----

  ghost predicate Reflects(windows: Windows, held: Windows, now: int) {
    forall d, cutoff {:trigger Alive(Records(windows, d), cutoff)} :: cutoff >= now - WINDOW ==>
      Alive(Records(windows, d), cutoff) == Alive(Records(held, d), cutoff)
  }

  /** Every lease acquired and not released, however old. */
  function Hold(held: Windows, d: DonationId, x: Lease): Windows {
    held[d := Records(held, d) + [x]]
  }

  lemma AcquireReflects(windows: Windows, held: Windows, before: int, nextID: LeaseId, d: DonationId, limit: int, now: int)
    requires Reflects(windows, held, before) && before <= now
    ensures
      var (after, r) := Acquire(windows, nextID, d, limit, now);
      && (r.Some? <==> |Alive(Records(held, d), now - WINDOW)| < LimitOf(limit))
      && Reflects(after, if r.Some? then Hold(held, d, Lease(r.value, now)) else held, now)
  {
    var (after, r) := Acquire(windows, nextID, d, limit, now);
    var x := Lease(nextID + 1, now);
    var next := if r.Some? then Hold(held, d, x) else held;
    assert Alive(Records(windows, d), now - WINDOW) == Alive(Records(held, d), now - WINDOW);
    forall e: DonationId, cutoff: int | cutoff >= now - WINDOW
      ensures Alive(Records(after, e), cutoff) == Alive(Records(next, e), cutoff)
    {
      assert Alive(Records(windows, e), cutoff) == Alive(Records(held, e), cutoff);
      if e == d {
        SameAfterTaking(Records(windows, d), Records(held, d), x, now - WINDOW, cutoff);
      }
    }
  }

  lemma SameAfterTaking(records: seq<Lease>, held: seq<Lease>, x: Lease, since: int, cutoff: int)
    requires since <= cutoff && Alive(records, cutoff) == Alive(held, cutoff)
    ensures Alive(Alive(records, since), cutoff) == Alive(held, cutoff)
    ensures Alive(Alive(records, since) + [x], cutoff) == Alive(held + [x], cutoff)
  {
    AliveOfAlive(records, since, cutoff);
    AliveGrows(Alive(records, since), x, cutoff);
    AliveGrows(held, x, cutoff);
  }

  lemma ReleaseReflects(windows: Windows, held: Windows, now: int, d: DonationId, id: LeaseId)
    requires Reflects(windows, held, now)
    ensures Reflects(Release(windows, d, id), Release(held, d, id), now)
  {
    var after, next := Release(windows, d, id), Release(held, d, id);
    forall e: DonationId, cutoff: int | cutoff >= now - WINDOW
      ensures Alive(Records(after, e), cutoff) == Alive(Records(next, e), cutoff)
    {
      assert Alive(Records(windows, e), cutoff) == Alive(Records(held, e), cutoff);
      if e == d {
        AliveWithout(Records(windows, d), id, cutoff);
        AliveWithout(Records(held, d), id, cutoff);
      }
    }
  }

  // ---- runs ----

  datatype Event = Take(d: DonationId, limit: int, now: int) | GiveBack(d: DonationId, id: LeaseId)

  datatype State = State(windows: Windows, nextID: LeaseId, held: Windows, now: int)

  /** The program's step beside the leases still held. */
  function Step(s: State, e: Event): State {
    match e
    case Take(d, limit, now) =>
      if now < s.now then s
      else
        var (after, r) := Acquire(s.windows, s.nextID, d, limit, now);
        if r.None? then s.(windows := after, now := now)
        else State(after, r.value, Hold(s.held, d, Lease(r.value, now)), now)
    case GiveBack(d, id) => s.(windows := Release(s.windows, d, id), held := Release(s.held, d, id))
  }

  function Run(s: State, events: seq<Event>): State
    decreases |events|
  {
    if events == [] then s else Run(Step(s, events[0]), events[1..])
  }

  ghost predicate HeldOk(held: Windows, limit: nat, now: int) {
    forall d <- held :: Capped(Times(held[d]), WINDOW, limit) && forall i :: 0 <= i < |held[d]| ==> held[d][i].at <= now
  }

  ghost predicate Valid(s: State, limit: nat) {
    Reflects(s.windows, s.held, s.now) && HeldOk(s.held, limit, s.now)
  }

  lemma NoneIsCapped(limit: nat)
    ensures Capped(Times([]), WINDOW, limit)
  {}

  lemma TakeKeepsValid(s: State, d: DonationId, limit: int, now: int)
    requires Valid(s, LimitOf(limit))
    ensures Valid(Step(s, Take(d, limit, now)), LimitOf(limit))
  {
    if now >= s.now {
      AcquireReflects(s.windows, s.held, s.now, s.nextID, d, limit, now);
      var r := Acquire(s.windows, s.nextID, d, limit, now).1;
      if r.Some? {
        HoldKeepsCap(s.held, d, Lease(r.value, now), LimitOf(limit), s.now);
      }
    }
  }

  lemma HoldKeepsCap(held: Windows, d: DonationId, x: Lease, limit: nat, from: int)
    requires HeldOk(held, limit, from) && from <= x.at
    requires |Alive(Records(held, d), x.at - WINDOW)| < limit
    ensures HeldOk(Hold(held, d, x), limit, x.at)
  {
    var records := Records(held, d);
    NoneIsCapped(limit);
    TimesOfAlive(records, x.at - WINDOW);
    CapGrows(Times(records), x.at, WINDOW, limit);
    TimesGrows(records, x);
  }

  lemma GiveBackKeepsValid(s: State, d: DonationId, id: LeaseId, limit: nat)
    requires Valid(s, limit)
    ensures Valid(Step(s, GiveBack(d, id)), limit)
  {
    ReleaseReflects(s.windows, s.held, s.now, d, id);
    if d in s.held {
      forall last: int
        ensures InWindow(Times(Without(s.held[d], id)), last, WINDOW) <= limit
      {
        WithoutCounts(s.held[d], id, last, WINDOW);
      }
      forall i | 0 <= i < |Without(s.held[d], id)|
        ensures Without(s.held[d], id)[i].at <= s.now
      {
        assert Without(s.held[d], id)[i] in s.held[d];
      }
    }
  }

  /**
   With one limit throughout, and releases wherever they come: no window ever holds more leases,
   acquired and not given back, than the limit.
   */
  lemma {:induction false} LeasesAreCapped(s: State, events: seq<Event>, limit: int)
    requires Valid(s, LimitOf(limit))
    requires forall i :: 0 <= i < |events| && events[i].Take? ==> LimitOf(events[i].limit) == LimitOf(limit)
    ensures Valid(Run(s, events), LimitOf(limit))
    ensures forall d :: Capped(Times(Records(Run(s, events).held, d)), 60, LimitOf(limit))
    decreases |events|
  {
    if events == [] {
      NoneIsCapped(LimitOf(limit));
    } else {
      match events[0]
      case Take(d, l, now) =>
        TakeKeepsValid(s, d, l, now);
        LeasesAreCapped(Step(s, events[0]), events[1..], limit);
      case GiveBack(d, id) =>
        GiveBackKeepsValid(s, d, id, LimitOf(limit));
        LeasesAreCapped(Step(s, events[0]), events[1..], limit);
    }
  }

  // ---- the limiter as an object ----

  ghost predicate Fresh(windows: Windows, nextID: LeaseId) {
    forall d <- windows :: IssuedIDs(windows[d], nextID) && DistinctIDs(windows[d])
  }

  ghost predicate IssuedIDs(records: seq<Lease>, nextID: LeaseId) {
    forall i :: 0 <= i < |records| ==> records[i].id <= nextID
  }

  ghost predicate DistinctIDs(records: seq<Lease>) {
    forall i, j :: 0 <= i < j < |records| ==> records[i].id != records[j].id
  }

  class Limiter {
    var windows: Windows
    var nextID: LeaseId
    var released: set<LeaseId>

    constructor ()
      ensures windows == map[] && nextID == 0 && released == {}
      ensures Fresh(windows, nextID)
    {
      windows, nextID, released := map[], 0, {};
    }

    method KeepAlive(records: seq<Lease>, cutoff: int) returns (keep: seq<Lease>)
      ensures keep == Alive(records, cutoff)
    {
      keep := [];
      for i := 0 to |records|
        invariant keep == Alive(records[..i], cutoff)
      {
        assert records[..i + 1] == records[..i] + [records[i]];
        AliveGrows(records[..i], records[i], cutoff);
        if records[i].at > cutoff {
          keep := keep + [records[i]];
        }
      }
      assert records[..|records|] == records;
    }

    method AcquireLease(d: DonationId, limit: int, now: int) returns (r: Option<LeaseId>)
      requires Fresh(windows, nextID)
      modifies this
      ensures Fresh(windows, nextID)
      ensures (windows, r) == Acquire(old(windows), old(nextID), d, limit, now)
      ensures nextID == if r.Some? then r.value else old(nextID)
      ensures released == old(released)
    {
      AcquireKeepsFresh(windows, nextID, d, limit, now);
      var cap := if limit <= 0 then DEFAULT_LIMIT else limit;
      var keep := KeepAlive(if d in windows then windows[d] else [], now - WINDOW);
      if |keep| >= cap {
        windows := windows[d := keep];
        return None;
      }
      nextID := nextID + 1;
      windows := windows[d := keep + [Lease(nextID, now)]];
      return Some(nextID);
    }

    /** The closure handed out with a lease: it acts once, on its own record. */
    method ReleaseLease(d: DonationId, id: LeaseId)
      requires Fresh(windows, nextID)
      modifies this
      ensures Fresh(windows, nextID)
      ensures windows == if id in old(released) then old(windows) else Release(old(windows), d, id)
      ensures released == old(released) + {id} && nextID == old(nextID)
    {
      if id in released {
        return;
      }
      released := released + {id};
      if d in windows {
        WithoutIsFresh(windows[d], id, nextID);
        var records := Remove(windows[d], id);
        windows := windows[d := records];
      }
    }

    /** Takes out the record with that id, wherever it is. */
    method Remove(records: seq<Lease>, id: LeaseId) returns (r: seq<Lease>)
      requires DistinctIDs(records)
      ensures r == Without(records, id)
    {
      for i := 0 to |records|
        invariant forall k :: 0 <= k < i ==> records[k].id != id
      {
        if records[i].id == id {
          RemovedAt(records, i, id);
          return records[..i] + records[i + 1..];
        }
      }
      NothingBefore(records, id);
      return records;
    }
  }

  lemma {:induction false} AliveIsFresh(records: seq<Lease>, cutoff: int, nextID: LeaseId)
    requires IssuedIDs(records, nextID) && DistinctIDs(records)
    ensures IssuedIDs(Alive(records, cutoff), nextID) && DistinctIDs(Alive(records, cutoff))
  {
    if records != [] {
      var init, last := records[..|records| - 1], records[|records| - 1];
      AliveIsFresh(init, cutoff, nextID);
      assert forall x <- init :: x.id != last.id;
    }
  }

  lemma {:induction false} WithoutIsFresh(records: seq<Lease>, id: LeaseId, nextID: LeaseId)
    requires IssuedIDs(records, nextID) && DistinctIDs(records)
    ensures IssuedIDs(Without(records, id), nextID) && DistinctIDs(Without(records, id))
  {
    if records != [] {
      var init, last := records[..|records| - 1], records[|records| - 1];
      WithoutIsFresh(init, id, nextID);
      assert forall x <- init :: x.id != last.id;
    }
  }

  lemma AcquireKeepsFresh(windows: Windows, nextID: LeaseId, d: DonationId, limit: int, now: int)
    requires Fresh(windows, nextID)
    ensures
      var (after, r) := Acquire(windows, nextID, d, limit, now);
      Fresh(after, if r.Some? then r.value else nextID)
  {
    AliveIsFresh(Records(windows, d), now - WINDOW, nextID);
  }

  lemma {:induction false} NothingBefore(records: seq<Lease>, id: LeaseId)
    ensures (forall k :: 0 <= k < |records| ==> records[k].id != id) ==> Without(records, id) == records
  {
    if records != [] {
      var init, last := records[..|records| - 1], records[|records| - 1];
      NothingBefore(init, id);
      LastOf(records);
      WithoutGrows(init, last, id);
    }
  }

  lemma {:induction false} WithoutOfSum(a: seq<Lease>, b: seq<Lease>, id: LeaseId)
    ensures Without(a + b, id) == Without(a, id) + Without(b, id)
  {
    if b == [] {
      assert a + b == a;
    } else {
      var init, last := b[..|b| - 1], b[|b| - 1];
      WithoutOfSum(a, init, id);
      LastOf(b);
      SumStep(a, init, last, id);
    }
  }

  lemma SumStep(a: seq<Lease>, b: seq<Lease>, x: Lease, id: LeaseId)
    requires Without(a + b, id) == Without(a, id) + Without(b, id)
    ensures Without(a + (b + [x]), id) == Without(a, id) + Without(b + [x], id)
  {
    Regroup(a, b, [x]);
    WithoutGrows(a + b, x, id);
    WithoutGrows(b, x, id);
    Regroup(Without(a, id), Without(b, id), [x]);
  }

  lemma Regroup(a: seq<Lease>, b: seq<Lease>, c: seq<Lease>)
    ensures a + (b + c) == a + b + c
  {}

  ghost predicate Lacks(records: seq<Lease>, id: LeaseId) {
    forall k :: 0 <= k < |records| ==> records[k].id != id
  }

  lemma RemovedFrom(a: seq<Lease>, x: Lease, b: seq<Lease>, id: LeaseId)
    requires Lacks(a, id) && x.id == id && Lacks(b, id)
    ensures Without(a + ([x] + b), id) == a + b
  {
    WithoutOfSum(a, [x] + b, id);
    WithoutHead(x, b, id);
    NothingBefore(a, id);
    NothingBefore(b, id);
  }

  lemma WithoutOwn(x: Lease)
    ensures Without([x], x.id) == []
  {
    assert [x][..0] == [];
  }

  lemma WithoutHead(x: Lease, b: seq<Lease>, id: LeaseId)
    requires x.id == id
    ensures Without([x] + b, id) == Without(b, id)
  {
    WithoutOwn(x);
    WithoutOfSum([x], b, id);
  }

  lemma SplitAround(records: seq<Lease>, i: nat)
    requires i < |records| && DistinctIDs(records)
    ensures records == records[..i] + ([records[i]] + records[i + 1..])
    ensures Lacks(records[..i], records[i].id) && Lacks(records[i + 1..], records[i].id)
  {}

  lemma RemovedAt(records: seq<Lease>, i: nat, id: LeaseId)
    requires i < |records| && records[i].id == id && DistinctIDs(records)
    ensures Without(records, id) == records[..i] + records[i + 1..]
  {
    SplitAround(records, i);
    RemovedFrom(records[..i], records[i], records[i + 1..], id);
  }
}
