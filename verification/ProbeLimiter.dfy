/**
 The cap on probes per user.

 An accepted probe is recorded and counts for one window; a denied one is not recorded. Records that
 have left the window are dropped when the user probes again, and for all users in a sweep. The
 limiter is compared with one that keeps every accepted probe for ever.
 */
module ProbeLimiter {
  import opened SlidingWindows

  type UserId = nat

  const WINDOW := 60
  const DEFAULT_LIMIT := 5
  const SWEEP_SIZE := 1024
  const SWEEP_INTERVAL := 60

  type Hits = map<UserId, seq<int>>

  function LimitOf(limit: int): nat {
    if limit <= 0 then DEFAULT_LIMIT else limit
  }

  lemma LimitIsAsGiven(limit: int)
    ensures LimitOf(limit) == if limit >= 1 then limit else 5
  {}

  function Records(hits: Hits, u: UserId): seq<int> {
    if u in hits then hits[u] else []
  }

  /** The decision and the new records; a denied attempt is not recorded. */
  function Allow(hits: Hits, u: UserId, limit: int, now: int): (Hits, bool) {
    var keep := Recent(Records(hits, u), now - WINDOW);
    if |keep| >= LimitOf(limit) then (hits[u := keep], false)
    else (hits[u := keep + [now]], true)
  }

  /** Drops what has expired, of every user. */
  function Sweep(hits: Hits, now: int): Hits {
    map u | u in hits && Recent(hits[u], now - WINDOW) != [] :: Recent(hits[u], now - WINDOW)
  }

  // ---- the limiter decides as if it kept everything ----

  /** Every accepted probe of every user, oldest first. */
  type History = map<UserId, seq<int>>

  /** From now on the records answer every question about the window as the whole history would. */
  ghost predicate Reflects(hits: Hits, history: History, now: int) {
    forall u, cutoff {:trigger Recent(Records(hits, u), cutoff)} :: cutoff >= now - WINDOW ==>
      Recent(Records(hits, u), cutoff) == Recent(Records(history, u), cutoff)
  }

  function Decide(history: History, u: UserId, limit: int, now: int): bool {
    |Recent(Records(history, u), now - WINDOW)| < LimitOf(limit)
  }

  function Remember(history: History, u: UserId, now: int, accepted: bool): History {
    if accepted then history[u := Records(history, u) + [now]] else history
  }

  lemma AllowReflects(hits: Hits, history: History, before: int, u: UserId, limit: int, now: int)
    requires Reflects(hits, history, before) && before <= now
    ensures
      var (after, ok) := Allow(hits, u, limit, now);
      ok == Decide(history, u, limit, now) && Reflects(after, Remember(history, u, now, ok), now)
  {
    var (after, ok) := Allow(hits, u, limit, now);
    var remembered := Remember(history, u, now, ok);
    var keep := Recent(Records(hits, u), now - WINDOW);
    forall v: UserId, cutoff: int | cutoff >= now - WINDOW
      ensures Recent(Records(after, v), cutoff) == Recent(Records(remembered, v), cutoff)
    {
      assert Recent(Records(hits, v), cutoff) == Recent(Records(history, v), cutoff);
      if v == u {
        RecentOfRecent(Records(hits, u), now - WINDOW, cutoff);
        RecentGrows(keep, now, cutoff);
        RecentGrows(Records(history, u), now, cutoff);
      }
    }
  }

  lemma SweepReflects(hits: Hits, history: History, before: int, now: int)
    requires Reflects(hits, history, before) && before <= now
    ensures Reflects(Sweep(hits, now), history, now)
  {
    forall u: UserId, cutoff: int | cutoff >= now - WINDOW
      ensures Recent(Records(Sweep(hits, now), u), cutoff) == Recent(Records(history, u), cutoff)
    {
      assert Recent(Records(hits, u), cutoff) == Recent(Records(history, u), cutoff);
      RecentOfRecent(Records(hits, u), now - WINDOW, cutoff);
    }
  }

  // ---- runs ----

  datatype Event = Probe(u: UserId, limit: int, now: int) | SweepAt(now: int)

  function Time(e: Event): int {
    match e
    case Probe(_, _, now) => now
    case SweepAt(now) => now
  }

  /** The decisions of a run, sweeps included wherever they come. */
  function Decisions(hits: Hits, events: seq<Event>): seq<bool>
    decreases |events|
  {
    if events == [] then []
    else
      match events[0]
      case Probe(u, limit, now) =>
        var (after, ok) := Allow(hits, u, limit, now);
        [ok] + Decisions(after, events[1..])
      case SweepAt(now) => Decisions(Sweep(hits, now), events[1..])
  }

  /** The decisions by the whole history, which knows no sweeps. */
  function Ideal(history: History, events: seq<Event>): seq<bool>
    decreases |events|
  {
    if events == [] then []
    else
      match events[0]
      case Probe(u, limit, now) =>
        var ok := Decide(history, u, limit, now);
        [ok] + Ideal(Remember(history, u, now, ok), events[1..])
      case SweepAt(now) => Ideal(history, events[1..])
  }

  function Accepted(history: History, events: seq<Event>): History
    decreases |events|
  {
    if events == [] then history
    else
      match events[0]
      case Probe(u, limit, now) => Accepted(Remember(history, u, now, Decide(history, u, limit, now)), events[1..])
      case SweepAt(now) => Accepted(history, events[1..])
  }

  predicate Ordered(events: seq<Event>, from: int)
    decreases |events|
  {
    events == [] || (from <= Time(events[0]) && Ordered(events[1..], Time(events[0])))
  }

  /** Forgetting and sweeping never change a decision. */
  lemma {:induction false} SweepsChangeNothing(hits: Hits, history: History, events: seq<Event>, from: int)
    requires Reflects(hits, history, from) && Ordered(events, from)
    ensures Decisions(hits, events) == Ideal(history, events)
    decreases |events|
  {
    if events != [] {
      match events[0]
      case Probe(u, limit, now) =>
        AllowReflects(hits, history, from, u, limit, now);
        var (after, ok) := Allow(hits, u, limit, now);
        SweepsChangeNothing(after, Remember(history, u, now, ok), events[1..], now);
      case SweepAt(now) =>
        SweepReflects(hits, history, from, now);
        SweepsChangeNothing(Sweep(hits, now), history, events[1..], now);
    }
  }

  ghost predicate HistoryOk(history: History, limit: nat, now: int) {
    forall u <- history :: Capped(history[u], WINDOW, limit) && forall i :: 0 <= i < |history[u]| ==> history[u][i] <= now
  }

  lemma NoneIsCapped(limit: nat)
    ensures Capped([], WINDOW, limit)
  {}

  lemma RememberKeepsCap(history: History, u: UserId, limit: int, now: int, from: int)
    requires HistoryOk(history, LimitOf(limit), from) && from <= now
    ensures HistoryOk(Remember(history, u, now, Decide(history, u, limit, now)), LimitOf(limit), now)
  {
    if Decide(history, u, limit, now) {
      NoneIsCapped(LimitOf(limit));
      CapGrows(Records(history, u), now, WINDOW, LimitOf(limit));
    }
  }

  /** With one limit throughout, no window ever holds more accepted probes of a user than the limit. */
  lemma {:induction false} AcceptsAreCapped(history: History, events: seq<Event>, limit: int, from: int)
    requires HistoryOk(history, LimitOf(limit), from) && Ordered(events, from)
    requires forall i :: 0 <= i < |events| && events[i].Probe? ==> LimitOf(events[i].limit) == LimitOf(limit)
    ensures forall u :: Capped(Records(Accepted(history, events), u), 60, LimitOf(limit))
    decreases |events|
  {
    if events == [] {
      NoneIsCapped(LimitOf(limit));
    } else {
      match events[0]
      case Probe(u, l, now) =>
        RememberKeepsCap(history, u, l, now, from);
        AcceptsAreCapped(Remember(history, u, now, Decide(history, u, l, now)), events[1..], limit, now);
      case SweepAt(now) => AcceptsAreCapped(history, events[1..], limit, now);
    }
  }

  // ---- the limiter as an object ----

  /** The records of many users are swept, and not too often. */
  predicate SweepDue(hits: Hits, lastSweep: int, now: int) {
    |hits| >= SWEEP_SIZE && now - lastSweep >= SWEEP_INTERVAL
  }

  /** Sweeps are for 1024 users or more, and a minute apart or longer. */
  lemma SweepsAreApart(hits: Hits, lastSweep: int, now: int)
    ensures SweepDue(hits, lastSweep, now) <==> |hits| > 1023 && lastSweep + 60 <= now
  {}

  class Limiter {
    var hits: Hits
    var lastSweep: int

    constructor ()
      ensures hits == map[] && lastSweep == 0
    {
      hits, lastSweep := map[], 0;
    }

    method AllowProbe(u: UserId, limit: int, now: int) returns (ok: bool)
      modifies this
      ensures ok == Allow(old(hits), u, limit, now).1
      ensures
        var after := Allow(old(hits), u, limit, now).0;
        var sweeps := ok && SweepDue(after, old(lastSweep), now);
        && hits == (if sweeps then Sweep(after, now) else after)
        && lastSweep == (if sweeps then now else old(lastSweep))
    {
      var cap := if limit <= 0 then DEFAULT_LIMIT else limit;
      var keep := Keep(if u in hits then hits[u] else [], now - WINDOW);
      if |keep| >= cap {
        // A cap is at least one, so there is something to keep.
        assert |keep| > 0;
        hits := hits[u := keep];
        return false;
      }
      hits := hits[u := keep + [now]];
      MaybeSweep(now);
      return true;
    }

    method MaybeSweep(now: int)
      modifies this
      ensures hits == if SweepDue(old(hits), old(lastSweep), now) then Sweep(old(hits), now) else old(hits)
      ensures lastSweep == if SweepDue(old(hits), old(lastSweep), now) then now else old(lastSweep)
    {
      if |hits| < SWEEP_SIZE || now - lastSweep < SWEEP_INTERVAL {
        return;
      }
      ghost var was := hits;
      var unseen := hits.Keys;
      while unseen != {}
        invariant unseen <= was.Keys
        invariant hits == SweptExcept(was, unseen, now)
        decreases unseen
      {
        var u :| u in unseen;
        SweepOneMore(was, unseen, now, u);
        var keep := Keep(hits[u], now - WINDOW);
        if |keep| == 0 {
          hits := hits - {u};
        } else {
          hits := hits[u := keep];
        }
        unseen := unseen - {u};
      }
      lastSweep := now;
    }
  }

  /** The sweep has still to reach the users in `unseen`. */
  function SweptExcept(was: Hits, unseen: set<UserId>, now: int): Hits {
    map u | u in was && (u in unseen || Recent(was[u], now - WINDOW) != []) ::
      if u in unseen then was[u] else Recent(was[u], now - WINDOW)
  }

  lemma SweepOneMore(was: Hits, unseen: set<UserId>, now: int, u: UserId)
    requires u in unseen && unseen <= was.Keys
    ensures
      var hits, keep := SweptExcept(was, unseen, now), Recent(was[u], now - WINDOW);
      && u in hits && hits[u] == was[u]
      && SweptExcept(was, unseen - {u}, now) == if keep == [] then hits - {u} else hits[u := keep]
  {}
}
