/**
 The per-address throttle: a sliding window, and a penalty once the window overflows.

 An address whose hits exceed the rate in a window is refused until its penalty is over, and then
 starts with no hits. A purge drops what can no longer matter. The throttle is compared with one that
 is never purged, and with the record of all the hits it allowed.
 */
module IpThrottle {
  import opened SlidingWindows

  type Ip = nat

  /** Seconds of penalty and of window; a rate that is not positive disables the throttle. */
  datatype Config = Config(rpm: int, penalty: int, window: int)

  datatype State = State(hits: map<Ip, seq<int>>, blockUntil: map<Ip, int>)

  function Empty(): State {
    State(map[], map[])
  }

  function HitsOf(s: State, ip: Ip): seq<int> {
    if ip in s.hits then s.hits[ip] else []
  }

  /** Records the hit and answers; crossing the rate starts the penalty and forgets the hits. */
  function Allow(cfg: Config, s: State, ip: Ip, now: int): (State, bool) {
    if cfg.rpm <= 0 then (s, true)
    else if ip in s.blockUntil && now < s.blockUntil[ip] then (s, false)
    else
      var open := if ip in s.blockUntil then State(s.hits - {ip}, s.blockUntil - {ip}) else s;
      var keep := Recent(HitsOf(open, ip), now - cfg.window) + [now];
      if |keep| > cfg.rpm then (State(open.hits - {ip}, open.blockUntil[ip := now + cfg.penalty]), false)
      else (open.(hits := open.hits[ip := keep]), true)
  }

  /** Drops penalties that are over and addresses without a recent hit. */
  function Purge(cfg: Config, s: State, now: int): State {
    State(map ip | ip in s.hits && Recent(s.hits[ip], now - cfg.window) != [] :: s.hits[ip],
          map ip | ip in s.blockUntil && now < s.blockUntil[ip] :: s.blockUntil[ip])
  }

  // ---- what of the state matters for one address ----

  datatype Standing = Blocked(until: int) | Open(recent: seq<int>)

  /** How an address stands at a moment `t`. */
  function At(cfg: Config, s: State, ip: Ip, t: int): Standing {
    if ip in s.blockUntil then if t < s.blockUntil[ip] then Blocked(s.blockUntil[ip]) else Open([])
    else Open(Recent(HitsOf(s, ip), t - cfg.window))
  }

  /** A blocked address has no hits. */
  ghost predicate Valid(s: State) {
    s.hits.Keys !! s.blockUntil.Keys
  }

  function Admits(cfg: Config, standing: Standing): bool {
    standing.Open? && |standing.recent| < cfg.rpm
  }

  /** Time passes, until `t`. */
  function Later(cfg: Config, standing: Standing, t: int): Standing {
    match standing
    case Blocked(until) => if t < until then standing else Open([])
    case Open(recent) => Open(Recent(recent, t - cfg.window))
  }

  /** How a hit at `now` changes the standing. */
  function Hit(cfg: Config, standing: Standing, now: int): Standing {
    match standing
    case Blocked(_) => standing
    case Open(recent) => if |recent| < cfg.rpm then Open(recent + [now]) else Blocked(now + cfg.penalty)
  }

  /** Without a positive rate everything is allowed, and nothing recorded. */
  lemma DisabledAllowsAll(cfg: Config, s: State, ip: Ip, now: int)
    requires cfg.rpm <= 0
    ensures Allow(cfg, s, ip, now) == (s, true)
  {}

  lemma LaterIsLater(cfg: Config, s: State, ip: Ip, now: int, t: int)
    requires now <= t
    ensures At(cfg, s, ip, t) == Later(cfg, At(cfg, s, ip, now), t)
  {
    if ip !in s.blockUntil {
      RecentOfRecent(HitsOf(s, ip), now - cfg.window, t - cfg.window);
    }
  }

  /** The answer, and every later standing, depend on the standing at the moment of the hit alone. */
  lemma AllowByStanding(cfg: Config, s: State, ip: Ip, now: int, other: Ip, t: int)
    requires cfg.rpm > 0 && Valid(s) && now <= t
    ensures
      var (after, ok) := Allow(cfg, s, ip, now);
      && Valid(after) && ok == Admits(cfg, At(cfg, s, ip, now))
      && At(cfg, after, other, t) == if other == ip then Later(cfg, Hit(cfg, At(cfg, s, ip, now), now), t) else At(cfg, s, other, t)
  {
    HitStanding(cfg, s, ip, now, t);
    if other != ip { HitKeepsOthers(cfg, s, ip, now, other, t); }
  }

  lemma HitStanding(cfg: Config, s: State, ip: Ip, now: int, t: int)
    requires cfg.rpm > 0 && Valid(s) && now <= t
    ensures Valid(Allow(cfg, s, ip, now).0) && Allow(cfg, s, ip, now).1 == Admits(cfg, At(cfg, s, ip, now))
    ensures At(cfg, Allow(cfg, s, ip, now).0, ip, t) == Later(cfg, Hit(cfg, At(cfg, s, ip, now), now), t)
  {
    if ip in s.blockUntil && now >= s.blockUntil[ip] {
      assert HitsOf(State(s.hits - {ip}, s.blockUntil - {ip}), ip) == [];
    }
  }

  lemma HitKeepsOthers(cfg: Config, s: State, ip: Ip, now: int, other: Ip, t: int)
    requires other != ip
    ensures At(cfg, Allow(cfg, s, ip, now).0, other, t) == At(cfg, s, other, t)
  {
    var after := Allow(cfg, s, ip, now).0;
    assert other in after.blockUntil <==> other in s.blockUntil;
    assert HitsOf(after, other) == HitsOf(s, other);
  }

  lemma PurgeKeepsHits(cfg: Config, s: State, now: int, ip: Ip, t: int)
    requires now <= t
    ensures Recent(HitsOf(Purge(cfg, s, now), ip), t - cfg.window) == Recent(HitsOf(s, ip), t - cfg.window)
  {
    RecentOfRecent(HitsOf(s, ip), now - cfg.window, t - cfg.window);
  }

  lemma PurgeKeepsStanding(cfg: Config, s: State, now: int, ip: Ip, t: int)
    requires Valid(s) && now <= t
    ensures At(cfg, Purge(cfg, s, now), ip, t) == At(cfg, s, ip, t)
  {
    PurgedPenalties(cfg, s, now, ip);
    if ip in s.blockUntil {
      assert ip !in s.hits;
      assert HitsOf(Purge(cfg, s, now), ip) == [];
    } else {
      PurgeKeepsHits(cfg, s, now, ip, t);
    }
  }

  lemma PurgedPenalties(cfg: Config, s: State, now: int, ip: Ip)
    ensures ip in Purge(cfg, s, now).blockUntil <==> ip in s.blockUntil && now < s.blockUntil[ip]
    ensures ip in Purge(cfg, s, now).blockUntil ==> Purge(cfg, s, now).blockUntil[ip] == s.blockUntil[ip]
  {}

  // ---- purges change nothing ----

  datatype Event = HitAt(ip: Ip, now: int) | PurgeAt(now: int)

  function Time(e: Event): int {
    match e
    case HitAt(_, now) => now
    case PurgeAt(now) => now
  }

  predicate Ordered(events: seq<Event>, from: int)
    decreases |events|
  {
    events == [] || (from <= Time(events[0]) && Ordered(events[1..], Time(events[0])))
  }

  function Answers(cfg: Config, s: State, events: seq<Event>, purging: bool): seq<bool>
    decreases |events|
  {
    if events == [] then []
    else
      match events[0]
      case HitAt(ip, now) =>
        var (after, ok) := Allow(cfg, s, ip, now);
        [ok] + Answers(cfg, after, events[1..], purging)
      case PurgeAt(now) => Answers(cfg, if purging then Purge(cfg, s, now) else s, events[1..], purging)
  }

  /** The two states answer alike from `now` on. */
  ghost predicate Agree(cfg: Config, a: State, b: State, now: int) {
    Valid(a) && Valid(b) && forall ip, t {:trigger At(cfg, a, ip, t)} :: now <= t ==> At(cfg, a, ip, t) == At(cfg, b, ip, t)
  }

  lemma AllowKeepsAgree(cfg: Config, a: State, b: State, from: int, ip: Ip, now: int)
    requires cfg.rpm > 0 && Agree(cfg, a, b, from) && from <= now
    ensures Allow(cfg, a, ip, now).1 == Allow(cfg, b, ip, now).1
    ensures Agree(cfg, Allow(cfg, a, ip, now).0, Allow(cfg, b, ip, now).0, now)
  {
    var a', b' := Allow(cfg, a, ip, now).0, Allow(cfg, b, ip, now).0;
    assert At(cfg, a, ip, now) == At(cfg, b, ip, now);
    AllowByStanding(cfg, a, ip, now, ip, now);
    AllowByStanding(cfg, b, ip, now, ip, now);
    forall other: Ip, t: int | now <= t
      ensures At(cfg, a', other, t) == At(cfg, b', other, t)
    {
      assert At(cfg, a, other, t) == At(cfg, b, other, t);
      AllowByStanding(cfg, a, ip, now, other, t);
      AllowByStanding(cfg, b, ip, now, other, t);
    }
  }

  lemma PurgeKeepsAgree(cfg: Config, a: State, b: State, from: int, now: int)
    requires Agree(cfg, a, b, from) && from <= now
    ensures Agree(cfg, Purge(cfg, a, now), b, now)
  {
    forall ip: Ip, t: int | now <= t
      ensures At(cfg, Purge(cfg, a, now), ip, t) == At(cfg, b, ip, t)
    {
      assert At(cfg, a, ip, t) == At(cfg, b, ip, t);
      PurgeKeepsStanding(cfg, a, now, ip, t);
    }
  }

  /** A run with its purges and the same run without them give the same answers. */
  lemma {:induction false} PurgesChangeNothing(cfg: Config, a: State, b: State, events: seq<Event>, from: int)
    requires cfg.rpm > 0 && Agree(cfg, a, b, from) && Ordered(events, from)
    ensures Answers(cfg, a, events, true) == Answers(cfg, b, events, false)
    decreases |events|
  {
    if events != [] {
      match events[0]
      case HitAt(ip, now) =>
        AllowKeepsAgree(cfg, a, b, from, ip, now);
        PurgesChangeNothing(cfg, Allow(cfg, a, ip, now).0, Allow(cfg, b, ip, now).0, events[1..], now);
      case PurgeAt(now) =>
        PurgeKeepsAgree(cfg, a, b, from, now);
        PurgesChangeNothing(cfg, Purge(cfg, a, now), b, events[1..], now);
    }
  }

  // ---- the cap ----

  function After(past: seq<int>, ok: bool, now: int): seq<int> {
    if ok then past + [now] else past
  }

  /** The moments at which the hits of one address were allowed. */
  function Allowed(cfg: Config, s: State, past: seq<int>, events: seq<Event>, ip: Ip): seq<int>
    decreases |events|
  {
    if events == [] then past
    else
      match events[0]
      case HitAt(other, now) =>
        var (after, ok) := Allow(cfg, s, other, now);
        Allowed(cfg, after, After(past, ok && other == ip, now), events[1..], ip)
      case PurgeAt(now) => Allowed(cfg, Purge(cfg, s, now), past, events[1..], ip)
  }

  /** An address that is not blocked is judged by everything it was allowed. */
  ghost predicate Judged(cfg: Config, s: State, past: seq<int>, ip: Ip, now: int) {
    && Valid(s) && cfg.rpm > 0
    && (forall i :: 0 <= i < |past| ==> past[i] <= now)
    && forall t {:trigger At(cfg, s, ip, t)} :: now <= t ==> OfPast(cfg, At(cfg, s, ip, t), past, t)
  }

  /** The recent hits are those of the whole past. */
  ghost predicate OfPast(cfg: Config, standing: Standing, past: seq<int>, t: int) {
    standing.Open? ==> standing.recent == Recent(past, t - cfg.window)
  }

  lemma AcceptedOfPast(cfg: Config, past: seq<int>, now: int, t: int)
    requires now <= t
    ensures OfPast(cfg, Later(cfg, Open(Recent(past, now - cfg.window) + [now]), t), past + [now], t)
  {
    RecentThenMore(past, now, now - cfg.window, t - cfg.window);
    OpenOfPast(cfg, Recent(past, now - cfg.window) + [now], past + [now], t);
  }

  lemma OpenOfPast(cfg: Config, recent: seq<int>, past: seq<int>, t: int)
    requires Recent(recent, t - cfg.window) == Recent(past, t - cfg.window)
    ensures OfPast(cfg, Later(cfg, Open(recent), t), past, t)
  {}

  /** A penalty as long as the window outlasts every hit in it. */
  lemma RejectedOfPast(cfg: Config, past: seq<int>, now: int, t: int)
    requires cfg.window <= cfg.penalty && forall i :: 0 <= i < |past| ==> past[i] <= now
    ensures OfPast(cfg, Later(cfg, Blocked(now + cfg.penalty), t), past, t)
  {
    if t >= now + cfg.penalty { RecentNone(past, t - cfg.window); }
  }

  lemma HitOfPast(cfg: Config, s: State, past: seq<int>, ip: Ip, now: int, t: int)
    requires Valid(s) && cfg.rpm > 0 && cfg.window <= cfg.penalty && now <= t && forall i :: 0 <= i < |past| ==> past[i] <= now
    requires OfPast(cfg, At(cfg, s, ip, now), past, now) && OfPast(cfg, At(cfg, s, ip, t), past, t)
    ensures
      var (after, ok) := Allow(cfg, s, ip, now);
      OfPast(cfg, At(cfg, after, ip, t), After(past, ok, now), t)
  {
    AllowByStanding(cfg, s, ip, now, ip, t);
    LaterIsLater(cfg, s, ip, now, t);
    AcceptedOfPast(cfg, past, now, t);
    RejectedOfPast(cfg, past, now, t);
  }

  lemma AllowedHasRoom(cfg: Config, s: State, past: seq<int>, ip: Ip, from: int, now: int)
    requires Judged(cfg, s, past, ip, from) && from <= now && Allow(cfg, s, ip, now).1
    ensures |Recent(past, now - cfg.window)| < cfg.rpm
  {
    AllowByStanding(cfg, s, ip, now, ip, now);
    JudgedAt(cfg, s, past, ip, from, now);
  }

  lemma CapAfter(past: seq<int>, ok: bool, now: int, width: int, limit: nat)
    requires Capped(past, width, limit) && forall i :: 0 <= i < |past| ==> past[i] <= now
    requires ok ==> |Recent(past, now - width)| < limit
    ensures Capped(After(past, ok, now), width, limit)
  {
    if ok { CapGrows(past, now, width, limit); }
  }

  lemma HitKeepsJudged(cfg: Config, s: State, past: seq<int>, ip: Ip, from: int, now: int)
    requires cfg.window <= cfg.penalty && Judged(cfg, s, past, ip, from) && from <= now
    ensures
      var (after, ok) := Allow(cfg, s, ip, now);
      Judged(cfg, after, After(past, ok, now), ip, now)
  {
    var (after, ok) := Allow(cfg, s, ip, now);
    forall t: int | now <= t
      ensures OfPast(cfg, At(cfg, after, ip, t), After(past, ok, now), t)
    {
      JudgedAt(cfg, s, past, ip, from, now);
      JudgedAt(cfg, s, past, ip, from, t);
      HitOfPast(cfg, s, past, ip, now, t);
    }
  }

  lemma JudgedAt(cfg: Config, s: State, past: seq<int>, ip: Ip, from: int, t: int)
    requires Judged(cfg, s, past, ip, from) && from <= t
    ensures OfPast(cfg, At(cfg, s, ip, t), past, t) && forall i :: 0 <= i < |past| ==> past[i] <= t
  {}

  lemma OtherKeepsJudged(cfg: Config, s: State, past: seq<int>, ip: Ip, from: int, other: Ip, now: int)
    requires Judged(cfg, s, past, ip, from) && from <= now && other != ip
    ensures Judged(cfg, Allow(cfg, s, other, now).0, past, ip, now)
  {
    AllowByStanding(cfg, s, other, now, ip, now);
    forall t: int | now <= t
      ensures At(cfg, Allow(cfg, s, other, now).0, ip, t) == At(cfg, s, ip, t)
    {
      AllowByStanding(cfg, s, other, now, ip, t);
    }
  }

  lemma PurgeKeepsJudged(cfg: Config, s: State, past: seq<int>, ip: Ip, from: int, now: int)
    requires Judged(cfg, s, past, ip, from) && from <= now
    ensures Judged(cfg, Purge(cfg, s, now), past, ip, now)
  {
    forall t: int | now <= t
      ensures At(cfg, Purge(cfg, s, now), ip, t) == At(cfg, s, ip, t)
    {
      PurgeKeepsStanding(cfg, s, now, ip, t);
    }
  }

  lemma {:induction false} AllowedAreCapped(cfg: Config, s: State, past: seq<int>, events: seq<Event>, ip: Ip, from: int)
    requires cfg.window <= cfg.penalty && Judged(cfg, s, past, ip, from) && Ordered(events, from)
    requires Capped(past, cfg.window, cfg.rpm)
    ensures Capped(Allowed(cfg, s, past, events, ip), cfg.window, cfg.rpm)
    decreases |events|
  {
    if events != [] {
      match events[0]
      case HitAt(other, now) =>
        var (after, ok) := Allow(cfg, s, other, now);
        if other == ip {
          HitKeepsJudged(cfg, s, past, ip, from, now);
          if ok { AllowedHasRoom(cfg, s, past, ip, from, now); }
          CapAfter(past, ok, now, cfg.window, cfg.rpm);
        } else {
          OtherKeepsJudged(cfg, s, past, ip, from, other, now);
        }
        AllowedAreCapped(cfg, after, After(past, ok && other == ip, now), events[1..], ip, now);
      case PurgeAt(now) =>
        PurgeKeepsJudged(cfg, s, past, ip, from, now);
        AllowedAreCapped(cfg, Purge(cfg, s, now), past, events[1..], ip, now);
    }
  }

  // ---- exactly when the cap holds ----

  /** Whatever hits and purges come, no window ever holds more allowed hits of an address than the rate. */
  ghost predicate CapHolds(cfg: Config)
    requires cfg.rpm > 0
  {
    forall events, ip :: Ordered(events, 0) ==> Capped(Allowed(cfg, Empty(), [], events, ip), cfg.window, cfg.rpm)
  }

  function Burst(n: nat, end: seq<Event>): seq<Event> {
    if n == 0 then end else [HitAt(0, 0)] + Burst(n - 1, end)
  }

  lemma {:induction false} BurstIsOrdered(n: nat, end: seq<Event>)
    requires Ordered(end, 0)
    ensures Ordered(Burst(n, end), 0)
  {
    if n > 0 {
      BurstIsOrdered(n - 1, end);
      assert Burst(n, end)[1..] == Burst(n - 1, end);
    }
  }

  lemma AllowedFirst(cfg: Config, s: State, past: seq<int>, now: int, end: seq<Event>)
    ensures
      var (after, ok) := Allow(cfg, s, 0, now);
      Allowed(cfg, s, past, [HitAt(0, now)] + end, 0) == Allowed(cfg, after, After(past, ok, now), end, 0)
  {
    var events := [HitAt(0, now)] + end;
    assert events[0] == HitAt(0, now) && events[1..] == end;
  }

  lemma BurstFirst(cfg: Config, s: State, past: seq<int>, n: nat, end: seq<Event>)
    requires n > 0 && Allow(cfg, s, 0, 0).1
    ensures Allowed(cfg, s, past, Burst(n, end), 0) == Allowed(cfg, Allow(cfg, s, 0, 0).0, past + [0], Burst(n - 1, end), 0)
  {
    AllowedFirst(cfg, s, past, 0, Burst(n - 1, end));
  }

  function Zeros(n: nat): (z: seq<int>)
    ensures |z| == n && forall i :: 0 <= i < n ==> z[i] == 0
  {
    if n == 0 then [] else [0] + Zeros(n - 1)
  }

  /** The hits of the burst so far, at moment 0, and nothing else, make up the standing. */
  ghost predicate Filled(cfg: Config, s: State, past: seq<int>) {
    && Valid(s) && At(cfg, s, 0, 0) == Open(past) && |past| <= cfg.rpm
    && forall i :: 0 <= i < |past| ==> past[i] == 0
  }

  lemma Regroup(past: seq<int>, n: nat, again: int)
    requires n > 0
    ensures past + [0] + Zeros(n - 1) + [again] == past + Zeros(n) + [again]
  {}

  /** A full burst at one moment, one more hit then, and one when the penalty is over. */
  lemma {:induction false} BurstThenAgain(cfg: Config, s: State, past: seq<int>, n: nat, again: int, end: seq<Event>)
    requires cfg.rpm > 0 && 0 < cfg.window && cfg.penalty <= again && 0 <= again
    requires Filled(cfg, s, past) && n + |past| == cfg.rpm && end == [HitAt(0, 0), HitAt(0, again)]
    ensures Allowed(cfg, s, past, Burst(n, end), 0) == past + Zeros(n) + [again]
    decreases n
  {
    if n > 0 {
      var after := Allow(cfg, s, 0, 0).0;
      FillingUp(cfg, s, past);
      BurstFirst(cfg, s, past, n, end);
      BurstThenAgain(cfg, after, past + [0], n - 1, again, end);
      Regroup(past, n, again);
    } else {
      OnceMoreAndAgain(cfg, s, past, again);
      assert past + Zeros(0) == past;
    }
  }

  lemma FillingUp(cfg: Config, s: State, past: seq<int>)
    requires cfg.rpm > |past| && 0 < cfg.window && Filled(cfg, s, past)
    ensures Allow(cfg, s, 0, 0).1 && Filled(cfg, Allow(cfg, s, 0, 0).0, past + [0])
  {
    AllowByStanding(cfg, s, 0, 0, 0, 0);
    StandingStays(cfg, past + [0]);
  }

  lemma StandingStays(cfg: Config, zeros: seq<int>)
    requires 0 < cfg.window && forall i :: 0 <= i < |zeros| ==> zeros[i] == 0
    ensures Later(cfg, Open(zeros), 0) == Open(zeros)
  {
    ZerosStay(zeros, cfg.window);
  }

  lemma ZerosStay(zeros: seq<int>, width: int)
    requires 0 < width && forall i :: 0 <= i < |zeros| ==> zeros[i] == 0
    ensures Recent(zeros, 0 - width) == zeros
  {
    RecentAll(zeros, 0 - width);
  }

  lemma OnceMoreAndAgain(cfg: Config, s: State, past: seq<int>, again: int)
    requires cfg.rpm > 0 && cfg.penalty <= again && 0 <= again
    requires Valid(s) && At(cfg, s, 0, 0) == Open(past) && |past| == cfg.rpm
    ensures Allowed(cfg, s, past, [HitAt(0, 0), HitAt(0, again)], 0) == past + [again]
  {
    var after := Allow(cfg, s, 0, 0).0;
    AllowedFirst(cfg, s, past, 0, [HitAt(0, again)]);
    RejectedThenAllowed(cfg, s, past, again);
    AllowedFirst(cfg, after, past, again, []);
    assert [HitAt(0, 0), HitAt(0, again)] == [HitAt(0, 0)] + [HitAt(0, again)];
    assert [HitAt(0, again)] == [HitAt(0, again)] + [];
  }

  lemma RejectedThenAllowed(cfg: Config, s: State, past: seq<int>, again: int)
    requires cfg.rpm > 0 && cfg.penalty <= again && 0 <= again
    requires Valid(s) && At(cfg, s, 0, 0) == Open(past) && |past| == cfg.rpm
    ensures !Allow(cfg, s, 0, 0).1 && Allow(cfg, Allow(cfg, s, 0, 0).0, 0, again).1
  {
    AllowByStanding(cfg, s, 0, 0, 0, 0);
    AllowByStanding(cfg, s, 0, 0, 0, again);
    AllowByStanding(cfg, Allow(cfg, s, 0, 0).0, 0, again, 0, again);
  }

  lemma {:induction false} AllInWindow(times: seq<int>, last: int, width: int)
    requires forall i :: 0 <= i < |times| ==> last - width < times[i] <= last
    ensures InWindow(times, last, width) == |times|
  {
    if times != [] {
      AllInWindow(times[..|times| - 1], last, width);
    }
  }

  /** The cap holds for every run exactly when the penalty is at least as long as the window. */
  lemma CapHoldsIffPenaltyCoversWindow(cfg: Config)
    requires cfg.rpm > 0 && cfg.window > 0
    ensures CapHolds(cfg) <==> cfg.window <= cfg.penalty
  {
    if cfg.window <= cfg.penalty {
      forall events, ip | Ordered(events, 0)
        ensures Capped(Allowed(cfg, Empty(), [], events, ip), cfg.window, cfg.rpm)
      {
        assert Capped([], cfg.window, cfg.rpm);
        AllowedAreCapped(cfg, Empty(), [], events, ip, 0);
      }
    } else {
      ShortPenaltyLetsMore(cfg);
    }
  }

  /** A penalty shorter than the window lets a full burst be followed by one hit too many. */
  lemma ShortPenaltyLetsMore(cfg: Config)
    requires cfg.rpm > 0 && cfg.window > 0 && cfg.penalty < cfg.window
    ensures !CapHolds(cfg)
  {
    var again := if cfg.penalty > 0 then cfg.penalty else 0;
    var events := Burst(cfg.rpm, [HitAt(0, 0), HitAt(0, again)]);
    BurstIsOrdered(cfg.rpm, [HitAt(0, 0), HitAt(0, again)]);
    BurstThenAgain(cfg, Empty(), [], cfg.rpm, again, [HitAt(0, 0), HitAt(0, again)]);
    var allowed := Allowed(cfg, Empty(), [], events, 0);
    AllInWindow(allowed, again, cfg.window);
    assert !Capped(allowed, cfg.window, cfg.rpm);
  }

  // ---- the throttle as an object ----

  class Throttle {
    const cfg: Config
    var hits: map<Ip, seq<int>>
    var blockUntil: map<Ip, int>

    function View(): State
      reads this
    {
      State(hits, blockUntil)
    }

    constructor (cfg: Config)
      ensures this.cfg == cfg && View() == Empty() && Valid(View())
    {
      this.cfg := cfg;
      hits, blockUntil := map[], map[];
    }

    method AllowHit(ip: Ip, now: int) returns (ok: bool)
      requires Valid(View())
      modifies this
      ensures (View(), ok) == Allow(cfg, old(View()), ip, now) && Valid(View())
    {
      if cfg.rpm <= 0 {
        return true;
      }
      if ip in blockUntil {
        if now < blockUntil[ip] {
          return false;
        }
        blockUntil := blockUntil - {ip};
        hits := hits - {ip};
      }
      var keep := Keep(if ip in hits then hits[ip] else [], now - cfg.window);
      keep := keep + [now];
      hits := hits[ip := keep];
      if |keep| > cfg.rpm {
        blockUntil := blockUntil[ip := now + cfg.penalty];
        assert hits - {ip} == old(hits) - {ip};
        hits := hits - {ip};
        return false;
      }
      return true;
    }

    method PurgeOld(now: int)
      requires Valid(View())
      modifies this
      ensures View() == Purge(cfg, old(View()), now) && Valid(View())
    {
      NonePurged(cfg, hits, now);
      blockUntil := map ip | ip in blockUntil && !(now >= blockUntil[ip]) :: blockUntil[ip];
      PurgeHits(now);
    }

    method PurgeHits(now: int)
      modifies this`hits
      ensures hits == PurgedExcept(cfg, old(hits), {}, now)
    {
      ghost var was := hits;
      var unseen := hits.Keys;
      NonePurged(cfg, hits, now);
      while unseen != {}
        invariant unseen <= was.Keys && hits == PurgedExcept(cfg, was, unseen, now)
        decreases unseen
      {
        var ip :| ip in unseen;
        PurgeOneMore(cfg, was, unseen, now, ip);
        var recent := HasRecent(hits[ip], now - cfg.window);
        if !recent {
          hits := hits - {ip};
        }
        unseen := unseen - {ip};
      }
    }
  }

  function PurgedExcept(cfg: Config, was: map<Ip, seq<int>>, unseen: set<Ip>, now: int): map<Ip, seq<int>> {
    map ip | ip in was && (ip in unseen || Recent(was[ip], now - cfg.window) != []) :: was[ip]
  }

  lemma NonePurged(cfg: Config, was: map<Ip, seq<int>>, now: int)
    ensures PurgedExcept(cfg, was, was.Keys, now) == was
    ensures PurgedExcept(cfg, was, {}, now) == map ip | ip in was && Recent(was[ip], now - cfg.window) != [] :: was[ip]
  {}

  lemma PurgeOneMore(cfg: Config, was: map<Ip, seq<int>>, unseen: set<Ip>, now: int, ip: Ip)
    requires ip in unseen && unseen <= was.Keys
    ensures
      var hits := PurgedExcept(cfg, was, unseen, now);
      && ip in hits && hits[ip] == was[ip]
      && PurgedExcept(cfg, was, unseen - {ip}, now) == if Recent(was[ip], now - cfg.window) == [] then hits - {ip} else hits
  {}
}
