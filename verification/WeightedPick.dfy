/**
 Choosing a donation among those that could serve a call.

 The sooner a donation's deadline, the likelier it is drawn. A drawn donation must still have
 rate left; if it has none, it is taken out and the draw is repeated among the others.
 */
module WeightedPick {
  import opened Options
  import opened DonationLimiter

  datatype Candidate = Candidate(id: DonationId, deadline: int, rpmLimit: int)

  const NEAREST := 60

  function Weight(c: Candidate, now: int): (w: real)
    ensures w > 0.0
  {
    var remaining := c.deadline - now;
    1.0 / (if remaining < NEAREST then NEAREST else remaining) as real
  }

  function Weights(candidates: seq<Candidate>, now: int): seq<real> {
    seq(|candidates|, i requires 0 <= i < |candidates| => Weight(candidates[i], now))
  }

  function Cumulative(weights: seq<real>, k: nat): real
    requires k <= |weights|
  {
    if k == 0 then 0.0 else Cumulative(weights, k - 1) + weights[k - 1]
  }

  /** A uniform draw from the unit interval, stretched to the sum of the weights. */
  function Scaled(weights: seq<real>, u: real): real {
    u * Cumulative(weights, |weights|)
  }

  /** Subtracts weight after weight from `r`; the one that reaches zero is chosen, or else the last. */
  function IndexFrom(weights: seq<real>, i: nat, r: real): (k: nat)
    requires i <= |weights| && |weights| > 0
    ensures k < |weights|
    decreases |weights| - i
  {
    if i == |weights| then |weights| - 1
    else if r - weights[i] <= 0.0 then i
    else IndexFrom(weights, i + 1, r - weights[i])
  }

  ghost predicate Positive(weights: seq<real>) {
    forall i :: 0 <= i < |weights| ==> weights[i] > 0.0
  }

  lemma {:induction false} CumulativeGrows(weights: seq<real>, j: nat, k: nat)
    requires j <= k <= |weights| && Positive(weights)
    ensures j < k ==> Cumulative(weights, j) < Cumulative(weights, k)
  {
    if j < k { CumulativeGrows(weights, j, k - 1); }
  }

  lemma {:induction false} IndexIsShare(weights: seq<real>, i: nat, r: real)
    requires Positive(weights) && i < |weights| && r <= Cumulative(weights, |weights|)
    requires i > 0 ==> Cumulative(weights, i) < r
    ensures
      var k := IndexFrom(weights, i, r - Cumulative(weights, i));
      && i <= k && r <= Cumulative(weights, k + 1) && (k > 0 && r > 0.0 ==> k == i || Cumulative(weights, k) < r)
    decreases |weights| - i
  {
    if r - Cumulative(weights, i) - weights[i] > 0.0 {
      assert Cumulative(weights, i + 1) < r;
      if i + 1 < |weights| { IndexIsShare(weights, i + 1, r); }
    }
  }

  /** Every candidate is chosen on its own interval of the draw, as long as its weight; the last is no catch-all. */
  lemma EveryCandidateHasItsShare(weights: seq<real>, r: real, k: nat)
    requires Positive(weights) && k < |weights| && 0.0 < r <= Cumulative(weights, |weights|)
    ensures IndexFrom(weights, 0, r) == k <==> Cumulative(weights, k) < r <= Cumulative(weights, k + 1)
  {
    IndexIsShare(weights, 0, r);
    var chosen := IndexFrom(weights, 0, r);
    if chosen < k { CumulativeGrows(weights, chosen + 1, k); }
    if k < chosen { CumulativeGrows(weights, k + 1, chosen); }
  }

  method Choose(candidates: seq<Candidate>, now: int, u: real) returns (index: nat)
    requires candidates != [] && 0.0 <= u < 1.0
    ensures index < |candidates|
    ensures index == IndexFrom(Weights(candidates, now), 0, Scaled(Weights(candidates, now), u))
  {
    ghost var all := Weights(candidates, now);
    var total := 0.0;
    var weights: seq<real> := [];
    for i := 0 to |candidates|
      invariant weights == all[..i] && total == Cumulative(all, i)
    {
      weights := weights + [Weight(candidates[i], now)];
      total := total + weights[i];
    }
    assert weights == all;
    assert total == Cumulative(all, |all|);
    var drawn := u * total;
    assert drawn == Scaled(all, u);
    index := Draw(weights, drawn);
  }

  method Draw(weights: seq<real>, drawn: real) returns (index: nat)
    requires weights != []
    ensures index < |weights| && index == IndexFrom(weights, 0, drawn)
  {
    var r := drawn;
    for i := 0 to |weights|
      invariant IndexFrom(weights, i, r) == IndexFrom(weights, 0, drawn)
    {
      r := r - weights[i];
      if r <= 0.0 {
        return i;
      }
    }
    return |weights| - 1;
  }

  // ---- choosing until a lease is granted ----

  /** The donation has no rate left at `now`. */
  ghost predicate Refused(windows: Windows, c: Candidate, now: int) {
    |Alive(Records(windows, c.id), now - WINDOW)| >= LimitOf(c.rpmLimit)
  }

  /** Refusals only drop what has expired. */
  ghost predicate OnlyPruned(was: Windows, windows: Windows, now: int) {
    forall d :: Alive(Records(windows, d), now - WINDOW) == Alive(Records(was, d), now - WINDOW)
  }

  lemma RefusalPrunes(was: Windows, windows: Windows, nextID: LeaseId, c: Candidate, now: int)
    requires OnlyPruned(was, windows, now)
    ensures
      var (after, r) := Acquire(windows, nextID, c.id, c.rpmLimit, now);
      (r.None? <==> Refused(was, c, now)) && (r.None? ==> OnlyPruned(was, after, now))
  {
    var (after, r) := Acquire(windows, nextID, c.id, c.rpmLimit, now);
    assert Alive(Records(windows, c.id), now - WINDOW) == Alive(Records(was, c.id), now - WINDOW);
    if r.None? {
      forall d: DonationId
        ensures Alive(Records(after, d), now - WINDOW) == Alive(Records(was, d), now - WINDOW)
      {
        PrunedOne(windows, c.id, now, d);
        assert Alive(Records(windows, d), now - WINDOW) == Alive(Records(was, d), now - WINDOW);
      }
    }
  }

  lemma PrunedOne(windows: Windows, c: DonationId, now: int, d: DonationId)
    ensures
      var pruned := windows[c := Alive(Records(windows, c), now - WINDOW)];
      Alive(Records(pruned, d), now - WINDOW) == Alive(Records(windows, d), now - WINDOW)
  {
    AliveOfAlive(Records(windows, c), now - WINDOW, now - WINDOW);
  }

  // ---- the order in which candidates are tried ----

  /** The sooner a donation's deadline, the more it weighs; within its last minute it weighs no more. */
  lemma EarlierWeighsMore(a: Candidate, b: Candidate, now: int)
    requires a.deadline <= b.deadline
    ensures Weight(a, now) >= Weight(b, now)
    ensures Weight(a, now) == Weight(b, now) <==> a.deadline == b.deadline || b.deadline <= now + 60
  {
    WeightIsInverse(a, now);
    WeightIsInverse(b, now);
    InverseFalls(Left(a, now) as real, Left(b, now) as real, Weight(a, now), Weight(b, now));
  }

  /** The seconds a donation has left, or a minute if it has less. */
  function Left(c: Candidate, now: int): nat {
    if c.deadline - now < 60 then 60 else c.deadline - now
  }

  /** Weights are in inverse proportion to the time left. */
  lemma WeightIsInverse(c: Candidate, now: int)
    ensures Weight(c, now) * Left(c, now) as real == 1.0
  {}

  lemma InverseFalls(x: real, y: real, p: real, q: real)
    requires 0.0 < x <= y && p * x == 1.0 && q * y == 1.0 && p > 0.0
    ensures p >= q && (p == q <==> x == y)
  {
    assert (p - q) * y == p * (y - x);
  }

  function ChosenOf(candidates: seq<Candidate>, now: int, u: real): (k: nat)
    requires candidates != []
    ensures k < |candidates|
  {
    IndexFrom(Weights(candidates, now), 0, Scaled(Weights(candidates, now), u))
  }

  /** How a draw chooses among candidates. */
  type Choice = (seq<Candidate>, real) -> nat

  function ByWeight(now: int): Choice {
    (candidates: seq<Candidate>, u: real) => if candidates == [] then 0 else ChosenOf(candidates, now, u)
  }

  /** The candidates in the order in which the draws put them, each chosen from those that are left. */
  function Tried(candidates: seq<Candidate>, choice: Choice, draws: seq<real>): (order: seq<Candidate>)
    requires |draws| >= |candidates|
    ensures |order| == |candidates| && multiset(order) == multiset(candidates)
    decreases |candidates|
  {
    if candidates == [] then []
    else
      var k := if choice(candidates, draws[0]) < |candidates| then choice(candidates, draws[0]) else 0;
      assert candidates == candidates[..k] + [candidates[k]] + candidates[k + 1..];
      [candidates[k]] + Tried(candidates[..k] + candidates[k + 1..], choice, draws[1..])
  }

  lemma TriedHead(candidates: seq<Candidate>, choice: Choice, draws: seq<real>, k: nat)
    requires |draws| >= |candidates| && k < |candidates| && k == choice(candidates, draws[0])
    ensures Tried(candidates, choice, draws)[0] == candidates[k]
  {}

  /** By weight, a candidate is tried first on an interval of the draw that is its share of all the weights. */
  lemma TriedFirst(candidates: seq<Candidate>, now: int, draws: seq<real>, k: nat, weights: seq<real>, r: real)
    requires |draws| >= |candidates| && k < |candidates| && 0.0 < draws[0] < 1.0
    requires weights == Weights(candidates, now) && r == Scaled(weights, draws[0])
    requires Cumulative(weights, k) < r <= Cumulative(weights, k) + Weight(candidates[k], now)
    ensures Tried(candidates, ByWeight(now), draws)[0] == candidates[k]
  {
    ChosenByShare(candidates, now, draws[0], k, weights, r);
    TriedHead(candidates, ByWeight(now), draws, k);
  }

  /** And it is chosen on no other draw. */
  lemma ChosenByShare(candidates: seq<Candidate>, now: int, u: real, k: nat, weights: seq<real>, r: real)
    requires k < |candidates| && 0.0 < u < 1.0 && weights == Weights(candidates, now) && r == Scaled(weights, u)
    ensures ChosenOf(candidates, now, u) == k <==> Cumulative(weights, k) < r <= Cumulative(weights, k) + Weight(candidates[k], now)
  {
    assert weights[k] == Weight(candidates[k], now);
    assert ChosenOf(candidates, now, u) == IndexFrom(weights, 0, r);
    ShareOfDraw(weights, u, r, k);
  }

  lemma ShareOfDraw(weights: seq<real>, u: real, r: real, k: nat)
    requires Positive(weights) && k < |weights| && 0.0 < u < 1.0 && r == u * Cumulative(weights, |weights|)
    ensures IndexFrom(weights, 0, r) == k <==> Cumulative(weights, k) < r <= Cumulative(weights, k) + weights[k]
  {
    CumulativeGrows(weights, 0, |weights|);
    ScaledInside(u, Cumulative(weights, |weights|), r);
    EveryCandidateHasItsShare(weights, r, k);
  }

  lemma ScaledInside(u: real, total: real, r: real)
    requires 0.0 < u < 1.0 && total > 0.0 && r == u * total
    ensures 0.0 < r <= total
  {}

  /** The first candidate in that order that is not refused. */
  function FirstGranted(order: seq<Candidate>, refused: Candidate -> bool): Option<Candidate> {
    if order == [] then None
    else if refused(order[0]) then FirstGranted(order[1..], refused)
    else Some(order[0])
  }

  /** Which candidates have no rate left. */
  ghost function NoRate(was: Windows, now: int): Candidate -> bool {
    (c: Candidate) => Refused(was, c, now)
  }

  /** One candidate by weight, and a lease on it if it has rate left. */
  method TryOne(
      limiter: Limiter, ghost candidates: seq<Candidate>, remaining: seq<Candidate>, now: int, draws: seq<real>, n: nat,
      ghost was: Windows, ghost nextID: LeaseId)
      returns (index: nat, lease: Option<LeaseId>)
    requires remaining != [] && |draws| >= |candidates| && forall i :: 0 <= i < |draws| ==> 0.0 <= draws[i] < 1.0
    requires GoesOn(candidates, remaining, now, draws, n, was, nextID, limiter.windows, limiter.nextID)
    modifies limiter
    ensures index < |remaining| && Fresh(limiter.windows, limiter.nextID)
    ensures lease.None? ==>
        GoesOn(candidates, remaining[..index] + remaining[index + 1..], now, draws, n + 1, was, nextID, limiter.windows, limiter.nextID)
    ensures lease.Some? ==>
        IsPick(candidates, now, draws, was, nextID, limiter.windows, limiter.nextID, Some((remaining[index], lease.value)))
  {
    index := Choose(remaining, now, draws[n]);
    ghost var windows := limiter.windows;
    lease := limiter.AcquireLease(remaining[index].id, remaining[index].rpmLimit, now);
    OneTried(candidates, remaining, now, draws, n, was, nextID, windows, limiter.windows, limiter.nextID, index, lease);
  }

  lemma OneTried(
      candidates: seq<Candidate>, remaining: seq<Candidate>, now: int, draws: seq<real>, n: nat, was: Windows, nextID: LeaseId,
      windows: Windows, after: Windows, lastID: LeaseId, index: nat, lease: Option<LeaseId>)
    requires |draws| >= |candidates| && GoesOn(candidates, remaining, now, draws, n, was, nextID, windows, nextID)
    requires index < |remaining| && index == ByWeight(now)(remaining, draws[n])
    requires (after, lease) == Acquire(windows, nextID, remaining[index].id, remaining[index].rpmLimit, now)
    requires Fresh(after, lastID) && lastID == if lease.Some? then lease.value else nextID
    ensures lease.None? ==>
        GoesOn(candidates, remaining[..index] + remaining[index + 1..], now, draws, n + 1, was, nextID, after, lastID)
    ensures lease.Some? ==> IsPick(candidates, now, draws, was, nextID, after, lastID, Some((remaining[index], lease.value)))
  {
    RefusalPrunes(was, windows, nextID, remaining[index], now);
    NextTry(candidates, remaining, ByWeight(now), draws, n, index, NoRate(was, now));
  }

  /**
   Tries candidates by weight until one has rate left. None only when every candidate is refused;
   otherwise exactly one lease was taken, on the candidate returned.
   */
  method PickWeightedDonation(limiter: Limiter, candidates: seq<Candidate>, now: int, draws: seq<real>)
      returns (r: Option<(Candidate, LeaseId)>)
    requires Fresh(limiter.windows, limiter.nextID) && |draws| >= |candidates|
    requires forall i :: 0 <= i < |draws| ==> 0.0 <= draws[i] < 1.0
    modifies limiter
    ensures Fresh(limiter.windows, limiter.nextID)
    ensures IsPick(candidates, now, draws, old(limiter.windows), old(limiter.nextID), limiter.windows, limiter.nextID, r)
  {
    ghost var was, nextID := limiter.windows, limiter.nextID;
    AllToTry(candidates, now, draws, was, nextID);
    var remaining := candidates;
    var n := 0;
    while remaining != []
      invariant GoesOn(candidates, remaining, now, draws, n, was, nextID, limiter.windows, limiter.nextID)
      decreases |remaining|
    {
      var index, lease := TryOne(limiter, candidates, remaining, now, draws, n, was, nextID);
      if lease.Some? {
        return Some((remaining[index], lease.value));
      }
      remaining := remaining[..index] + remaining[index + 1..];
      n := n + 1;
    }
    NoneLeft(candidates, remaining, now, draws, n, was, nextID, limiter.windows, limiter.nextID);
    return None;
  }

  lemma AllToTry(candidates: seq<Candidate>, now: int, draws: seq<real>, was: Windows, nextID: LeaseId)
    requires |draws| >= |candidates| && Fresh(was, nextID)
    ensures GoesOn(candidates, candidates, now, draws, 0, was, nextID, was, nextID)
  {
    StartTrying(candidates, ByWeight(now), draws, NoRate(was, now));
  }

  lemma NoneLeft(
      candidates: seq<Candidate>, remaining: seq<Candidate>, now: int, draws: seq<real>, n: nat, was: Windows, nextID: LeaseId,
      windows: Windows, lastID: LeaseId)
    requires |draws| >= |candidates| && remaining == []
    requires GoesOn(candidates, remaining, now, draws, n, was, nextID, windows, lastID)
    ensures Fresh(windows, lastID) && IsPick(candidates, now, draws, was, nextID, windows, lastID, None)
  {}

  /** No lease has been taken yet, and what is left has still to be tried. */
  ghost predicate GoesOn(
      candidates: seq<Candidate>, remaining: seq<Candidate>, now: int, draws: seq<real>, n: nat, was: Windows, nextID: LeaseId,
      windows: Windows, lastID: LeaseId)
    requires |draws| >= |candidates|
  {
    && StillTrying(candidates, remaining, ByWeight(now), draws, n, NoRate(was, now))
    && Fresh(windows, lastID) && lastID == nextID && OnlyPruned(was, windows, now)
  }

  /**
   The answer of a pick and the limiter after it: the first candidate in the order of the draws that has rate
   left, with one new lease on it; or none and no lease, if all are refused.
   */
  ghost predicate IsPick(
      candidates: seq<Candidate>, now: int, draws: seq<real>, was: Windows, nextID: LeaseId, windows: Windows, lastID: LeaseId,
      r: Option<(Candidate, LeaseId)>)
    requires |draws| >= |candidates|
  {
    var first := FirstGranted(Tried(candidates, ByWeight(now), draws), NoRate(was, now));
    match r
    case None =>
      first.None? && (forall c <- candidates :: Refused(was, c, now)) && lastID == nextID && OnlyPruned(was, windows, now)
    case Some((c, lease)) =>
      && first == Some(c) && c in candidates && !Refused(was, c, now)
      && lease == nextID + 1 == lastID && Lease(lease, now) in Records(windows, c.id)
  }

  /** What has been refused is out of the order, and the rest of the order is still to come. */
  predicate StillTrying(
      candidates: seq<Candidate>, remaining: seq<Candidate>, choice: Choice, draws: seq<real>, n: nat, refused: Candidate -> bool)
    requires |draws| >= |candidates|
  {
    && n + |remaining| == |candidates|
    && FirstGranted(Tried(remaining, choice, draws[n..]), refused) == FirstGranted(Tried(candidates, choice, draws), refused)
    && (forall c <- remaining :: c in candidates)
    && forall c <- candidates :: c in remaining || refused(c)
  }

  lemma StartTrying(candidates: seq<Candidate>, choice: Choice, draws: seq<real>, refused: Candidate -> bool)
    requires |draws| >= |candidates|
    ensures StillTrying(candidates, candidates, choice, draws, 0, refused)
  {
    assert draws[0..] == draws;
  }

  lemma NextTry(
      candidates: seq<Candidate>, remaining: seq<Candidate>, choice: Choice, draws: seq<real>, n: nat, k: nat,
      refused: Candidate -> bool)
    requires |draws| >= |candidates| && StillTrying(candidates, remaining, choice, draws, n, refused)
    requires k < |remaining| && k == choice(remaining, draws[n])
    ensures remaining[k] in candidates
    ensures
      if refused(remaining[k]) then StillTrying(candidates, remaining[..k] + remaining[k + 1..], choice, draws, n + 1, refused)
      else FirstGranted(Tried(candidates, choice, draws), refused) == Some(remaining[k])
  {
    assert draws[n..][0] == draws[n] && draws[n..][1..] == draws[n + 1..];
    assert remaining[k] in remaining;
    TriedSplits(remaining, choice, draws[n..], k, refused);
    if refused(remaining[k]) { RestCovers(candidates, remaining, k, refused); }
  }

  lemma RestCovers(candidates: seq<Candidate>, remaining: seq<Candidate>, k: nat, refused: Candidate -> bool)
    requires k < |remaining| && refused(remaining[k])
    requires forall c <- remaining :: c in candidates
    requires forall c <- candidates :: c in remaining || refused(c)
    ensures
      var rest := remaining[..k] + remaining[k + 1..];
      && |rest| == |remaining| - 1 && (forall c <- rest :: c in candidates)
      && forall c <- candidates :: c in rest || refused(c)
  {
    Dropped(remaining, k);
  }

  lemma TriedSplits(candidates: seq<Candidate>, choice: Choice, draws: seq<real>, k: nat, refused: Candidate -> bool)
    requires |draws| >= |candidates| && k < |candidates| && k == choice(candidates, draws[0])
    ensures FirstGranted(Tried(candidates, choice, draws), refused)
      == if refused(candidates[k]) then FirstGranted(Tried(candidates[..k] + candidates[k + 1..], choice, draws[1..]), refused)
         else Some(candidates[k])
  {
    var order := Tried(candidates, choice, draws);
    assert order[0] == candidates[k] && order[1..] == Tried(candidates[..k] + candidates[k + 1..], choice, draws[1..]);
  }

  lemma Dropped(remaining: seq<Candidate>, index: nat)
    requires index < |remaining|
    ensures
      var rest := remaining[..index] + remaining[index + 1..];
      && |rest| == |remaining| - 1
      && forall c :: c in remaining ==> c in rest || c == remaining[index]
  {
    assert remaining == remaining[..index] + [remaining[index]] + remaining[index + 1..];
  }
}
