/**
 Failed logins per key.

 Enough failures within the window lock the key for a while and start a new count. A success
 forgets the key. A purge drops what is neither locked nor recent, which nobody can notice.
 */
module LoginThrottle {
  import opened Options
  import opened SlidingWindows

  type Key = nat

  datatype Config = Config(maxFailures: int, window: int, lockFor: int)

  datatype FailWindow = FailWindow(times: seq<int>, lockedUntil: Option<int>)

  type State = map<Key, FailWindow>

  function WindowOf(s: State, key: Key): FailWindow {
    if key in s then s[key] else FailWindow([], None)
  }

  predicate LockedAt(w: FailWindow, t: int) {
    w.lockedUntil.Some? && t < w.lockedUntil.value
  }

  function Locked(s: State, key: Key, now: int): bool {
    key in s && LockedAt(s[key], now)
  }

  /** Records a failure; true when it locks the key. */
  function Fail(cfg: Config, s: State, key: Key, now: int): (State, bool) {
    var w := WindowOf(s, key);
    var times := Recent(w.times, now - cfg.window) + [now];
    if |times| >= cfg.maxFailures then (s[key := FailWindow([], Some(now + cfg.lockFor))], true)
    else (s[key := w.(times := times)], false)
  }

  function Succeed(s: State, key: Key): State {
    s - {key}
  }

  function Purge(cfg: Config, s: State, now: int): State {
    map key | key in s && (LockedAt(s[key], now) || Recent(s[key].times, now - cfg.window) != []) :: s[key]
  }

  // ---- what of the state matters for one key ----

  datatype Standing = Standing(lockedUntil: Option<int>, recent: seq<int>)

  function At(cfg: Config, s: State, key: Key, t: int): Standing {
    var w := WindowOf(s, key);
    Standing(if LockedAt(w, t) then w.lockedUntil else None, Recent(w.times, t - cfg.window))
  }

  function Later(cfg: Config, x: Standing, t: int): Standing {
    Standing(if x.lockedUntil.Some? && t < x.lockedUntil.value then x.lockedUntil else None, Recent(x.recent, t - cfg.window))
  }

  function Failed(cfg: Config, x: Standing, now: int): Standing {
    if |x.recent| + 1 >= cfg.maxFailures then Standing(Some(now + cfg.lockFor), []) else x.(recent := x.recent + [now])
  }

  /** A failure locks exactly when it is the last of enough failures in the window since the last lock or success. */
  lemma FailByStanding(cfg: Config, s: State, key: Key, now: int, other: Key, t: int)
    requires now <= t
    ensures
      var (after, locks) := Fail(cfg, s, key, now);
      && locks == (|At(cfg, s, key, now).recent| + 1 >= cfg.maxFailures)
      && At(cfg, after, other, t)
         == if other == key then Later(cfg, Failed(cfg, At(cfg, s, key, now), now), t) else At(cfg, s, other, t)
  {
    var after := Fail(cfg, s, key, now).0;
    if other == key {
      FailedStanding(cfg, s, key, now, t);
    } else {
      assert WindowOf(after, other) == WindowOf(s, other);
    }
  }

  lemma FailedStanding(cfg: Config, s: State, key: Key, now: int, t: int)
    requires now <= t
    ensures At(cfg, Fail(cfg, s, key, now).0, key, t) == Later(cfg, Failed(cfg, At(cfg, s, key, now), now), t)
  {
    var w, x := WindowOf(s, key), At(cfg, s, key, now);
    assert WindowOf(Fail(cfg, s, key, now).0, key)
        == if |x.recent| + 1 >= cfg.maxFailures then FailWindow([], Some(now + cfg.lockFor)) else w.(times := x.recent + [now]);
  }

  lemma PurgeKeepsStanding(cfg: Config, s: State, now: int, key: Key, t: int)
    requires now <= t
    ensures At(cfg, Purge(cfg, s, now), key, t) == At(cfg, s, key, t)
  {
    RecentOfRecent(WindowOf(s, key).times, now - cfg.window, t - cfg.window);
  }

  /** A success forgets the key's failures and its lock, and nobody else's. */
  lemma SuccessForgets(cfg: Config, s: State, key: Key, other: Key, t: int)
    ensures At(cfg, Succeed(s, key), other, t) == if other == key then Standing(None, []) else At(cfg, s, other, t)
  {
    assert WindowOf(Succeed(s, key), other) == if other == key then FailWindow([], None) else WindowOf(s, other);
  }

  // ---- failures since the last success ----

  /** The first `n` failures of a key, one after the other. */
  function FailFirst(cfg: Config, s: State, key: Key, times: seq<int>, n: nat): State
    requires n <= |times|
  {
    if n == 0 then s else Fail(cfg, FailFirst(cfg, s, key, times, n - 1), key, times[n - 1]).0
  }

  /** The times are in order, and none is a window later than another. */
  ghost predicate InOneWindow(cfg: Config, times: seq<int>) {
    forall i, j :: 0 <= i < j < |times| ==> times[i] <= times[j] < times[i] + cfg.window
  }

  lemma OneFailure(cfg: Config, s: State, key: Key, times: seq<int>, now: int)
    requires WindowOf(s, key) == FailWindow(times, None) && Recent(times, now - cfg.window) == times
    ensures |times| + 1 >= cfg.maxFailures ==> WindowOf(Fail(cfg, s, key, now).0, key) == FailWindow([], Some(now + cfg.lockFor))
    ensures |times| + 1 < cfg.maxFailures ==> WindowOf(Fail(cfg, s, key, now).0, key) == FailWindow(times + [now], None)
  {
    assert Recent(WindowOf(s, key).times, now - cfg.window) + [now] == times + [now];
    assert |times + [now]| == |times| + 1;
  }

  lemma NextFailure(cfg: Config, s: State, key: Key, times: seq<int>, n: nat, w: FailWindow)
    requires InOneWindow(cfg, times) && n < |times| && WindowOf(s, key) == FailWindow(times[..n], None)
    requires w == if n + 1 >= cfg.maxFailures then FailWindow([], Some(times[n] + cfg.lockFor)) else FailWindow(times[..n + 1], None)
    ensures WindowOf(Fail(cfg, s, key, times[n]).0, key) == w
  {
    var earlier := times[..n];
    RecentAll(earlier, times[n] - cfg.window);
    assert earlier + [times[n]] == times[..n + 1];
    OneFailure(cfg, s, key, earlier, times[n]);
  }

  /** Fewer failures than enough after a success only add up. */
  lemma {:induction false} FailuresAddUp(cfg: Config, s: State, key: Key, times: seq<int>, n: nat, w: FailWindow)
    requires InOneWindow(cfg, times) && n <= |times| && n < cfg.maxFailures && WindowOf(s, key) == FailWindow([], None)
    requires w == FailWindow(times[..n], None)
    ensures WindowOf(FailFirst(cfg, s, key, times, n), key) == w
  {
    if n > 0 {
      FailuresAddUp(cfg, s, key, times, n - 1, FailWindow(times[..n - 1], None));
      NextFailure(cfg, FailFirst(cfg, s, key, times, n - 1), key, times, n - 1, w);
    }
  }

  /** So they never lock. */
  lemma FewFailuresNeverLock(cfg: Config, s: State, key: Key, times: seq<int>, t: int)
    requires InOneWindow(cfg, times) && |times| < cfg.maxFailures
    ensures !Locked(FailFirst(cfg, Succeed(s, key), key, times, |times|), key, t)
  {
    FailuresAddUp(cfg, Succeed(s, key), key, times, |times|, FailWindow(times[..|times|], None));
  }

  /** The last of enough failures in one window locks the key, from then until the penalty is over. */
  lemma EnoughFailuresLock(cfg: Config, s: State, key: Key, times: seq<int>, t: int)
    requires InOneWindow(cfg, times) && |times| == cfg.maxFailures > 0
    ensures Locked(FailFirst(cfg, Succeed(s, key), key, times, |times|), key, t) <==> t < times[|times| - 1] + cfg.lockFor
  {
    var n := |times| - 1;
    var before := FailFirst(cfg, Succeed(s, key), key, times, n);
    var w := FailWindow([], Some(times[n] + cfg.lockFor));
    FailuresAddUp(cfg, Succeed(s, key), key, times, n, FailWindow(times[..n], None));
    NextFailure(cfg, before, key, times, n, w);
    LockedIs(FailFirst(cfg, Succeed(s, key), key, times, |times|), key, w, t);
  }

  lemma LockedIs(s: State, key: Key, w: FailWindow, t: int)
    requires WindowOf(s, key) == w
    ensures Locked(s, key, t) <==> LockedAt(w, t)
  {}

  // ---- purges change nothing ----

  datatype Event = FailAt(key: Key, now: int) | AskAt(key: Key, now: int) | SucceedAt(key: Key, now: int) | PurgeAt(now: int)

  predicate Ordered(events: seq<Event>, from: int)
    decreases |events|
  {
    events == [] || (from <= events[0].now && Ordered(events[1..], events[0].now))
  }

  function Step(cfg: Config, s: State, e: Event, purging: bool): (State, seq<bool>) {
    match e
    case FailAt(key, now) => var (after, locks) := Fail(cfg, s, key, now); (after, [locks])
    case AskAt(key, now) => (s, [Locked(s, key, now)])
    case SucceedAt(key, _) => (Succeed(s, key), [])
    case PurgeAt(now) => (if purging then Purge(cfg, s, now) else s, [])
  }

  function Answers(cfg: Config, s: State, events: seq<Event>, purging: bool): seq<bool>
    decreases |events|
  {
    if events == [] then []
    else
      var (after, answer) := Step(cfg, s, events[0], purging);
      answer + Answers(cfg, after, events[1..], purging)
  }

  ghost predicate Agree(cfg: Config, a: State, b: State, now: int) {
    forall key, t {:trigger At(cfg, a, key, t)} :: now <= t ==> At(cfg, a, key, t) == At(cfg, b, key, t)
  }

  lemma StepKeepsAgree(cfg: Config, a: State, b: State, from: int, e: Event)
    requires Agree(cfg, a, b, from) && from <= e.now
    ensures Step(cfg, a, e, true).1 == Step(cfg, b, e, false).1
    ensures Agree(cfg, Step(cfg, a, e, true).0, Step(cfg, b, e, false).0, e.now)
  {
    forall key: Key, t: int | e.now <= t
      ensures At(cfg, Step(cfg, a, e, true).0, key, t) == At(cfg, Step(cfg, b, e, false).0, key, t)
    {
      assert At(cfg, a, key, t) == At(cfg, b, key, t);
      if e.FailAt? {
        assert At(cfg, a, e.key, e.now) == At(cfg, b, e.key, e.now);
        FailByStanding(cfg, a, e.key, e.now, key, t);
        FailByStanding(cfg, b, e.key, e.now, key, t);
      } else if e.PurgeAt? {
        PurgeKeepsStanding(cfg, a, e.now, key, t);
      }
    }
    SameAnswer(cfg, a, b, from, e);
  }

  lemma SameAnswer(cfg: Config, a: State, b: State, from: int, e: Event)
    requires Agree(cfg, a, b, from) && from <= e.now
    ensures Step(cfg, a, e, true).1 == Step(cfg, b, e, false).1
  {
    match e
    case FailAt(key, now) =>
      assert At(cfg, a, key, now) == At(cfg, b, key, now);
      FailByStanding(cfg, a, key, now, key, now);
      FailByStanding(cfg, b, key, now, key, now);
    case AskAt(key, now) =>
      assert At(cfg, a, key, now) == At(cfg, b, key, now);
    case SucceedAt(_, _) =>
    case PurgeAt(_) =>
  }

  /** A run with its purges and the same run without them give the same answers. */
  lemma {:induction false} PurgesChangeNothing(cfg: Config, a: State, b: State, events: seq<Event>, from: int)
    requires Agree(cfg, a, b, from) && Ordered(events, from)
    ensures Answers(cfg, a, events, true) == Answers(cfg, b, events, false)
    decreases |events|
  {
    if events != [] {
      StepKeepsAgree(cfg, a, b, from, events[0]);
      PurgesChangeNothing(cfg, Step(cfg, a, events[0], true).0, Step(cfg, b, events[0], false).0, events[1..], events[0].now);
    }
  }

  // ---- the throttle as an object ----

  class Throttle {
    const cfg: Config
    var fails: State

    constructor (cfg: Config)
      ensures this.cfg == cfg && fails == map[]
    {
      this.cfg := cfg;
      fails := map[];
    }

    method IsLocked(key: Key, now: int) returns (locked: bool)
      ensures locked == Locked(fails, key, now)
    {
      locked := key in fails && fails[key].lockedUntil.Some? && now < fails[key].lockedUntil.value;
    }

    method RecordFailure(key: Key, now: int) returns (locks: bool)
      modifies this
      ensures (fails, locks) == Fail(cfg, old(fails), key, now)
    {
      var w := if key in fails then fails[key] else FailWindow([], None);
      var keep := Keep(w.times, now - cfg.window);
      w := w.(times := keep + [now]);
      locks := |w.times| >= cfg.maxFailures;
      if locks {
        w := FailWindow([], Some(now + cfg.lockFor));
      }
      fails := fails[key := w];
    }

    method RecordSuccess(key: Key)
      modifies this
      ensures fails == Succeed(old(fails), key)
    {
      fails := fails - {key};
    }

    method PurgeOld(now: int)
      modifies this
      ensures fails == Purge(cfg, old(fails), now)
    {
      ghost var was := fails;
      var unseen := fails.Keys;
      NonePurged(cfg, was, now);
      while unseen != {}
        invariant unseen <= was.Keys && fails == PurgedExcept(cfg, was, unseen, now)
        decreases unseen
      {
        var key :| key in unseen;
        PurgeOneMore(cfg, was, unseen, now, key);
        var w := fails[key];
        if !(w.lockedUntil.Some? && now < w.lockedUntil.value) {
          var anyRecent := HasRecent(w.times, now - cfg.window);
          if !anyRecent {
            fails := fails - {key};
          }
        }
        unseen := unseen - {key};
      }
    }
  }

  predicate Kept(cfg: Config, w: FailWindow, now: int) {
    LockedAt(w, now) || Recent(w.times, now - cfg.window) != []
  }

  function PurgedExcept(cfg: Config, was: State, unseen: set<Key>, now: int): State {
    map key | key in was && (key in unseen || Kept(cfg, was[key], now)) :: was[key]
  }

  lemma NonePurged(cfg: Config, was: State, now: int)
    ensures PurgedExcept(cfg, was, was.Keys, now) == was && PurgedExcept(cfg, was, {}, now) == Purge(cfg, was, now)
  {}

  lemma PurgeOneMore(cfg: Config, was: State, unseen: set<Key>, now: int, key: Key)
    requires key in unseen && unseen <= was.Keys
    ensures
      var fails := PurgedExcept(cfg, was, unseen, now);
      && key in fails && fails[key] == was[key]
      && PurgedExcept(cfg, was, unseen - {key}, now) == if Kept(cfg, was[key], now) then fails else fails - {key}
  {}
}
