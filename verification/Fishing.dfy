/** The fishing economy. */
module Fishing {
  // Weights become probabilities, and a scale factor on the fish makes the expected payout the promised
  // return. Arithmetic is over the reals.

  import opened Options

  const JUNK_RATE := 0.20
  const MAX_MULTIPLIER := 40.0
  const SCALE_MIN := 0.1
  const SCALE_MAX := 3.0

  datatype Tier = Small | Regular | Big | Giant | Legend
  datatype Treasure = Bottle | Clover | Shell

  datatype Species = Species(tier: Tier, minCM: int, maxCM: int)

  const SPECIES: seq<Species> := [
    Species(Small, 5, 25), Species(Small, 5, 25), Species(Small, 5, 25), Species(Small, 5, 25), Species(Small, 5, 25),
    Species(Regular, 15, 35), Species(Regular, 15, 35), Species(Regular, 15, 35), Species(Regular, 15, 35), Species(Regular, 15, 35),
    Species(Big, 30, 80), Species(Big, 30, 80), Species(Big, 30, 80), Species(Big, 30, 80), Species(Big, 30, 80),
    Species(Giant, 60, 150), Species(Giant, 60, 150), Species(Giant, 60, 150), Species(Giant, 60, 150), Species(Giant, 60, 150),
    Species(Legend, 100, 200), Species(Legend, 100, 200), Species(Legend, 100, 200)]

  /** The species of a tier, in the order of the list. */
  function OfTier(list: seq<Species>, tier: Tier): seq<Species> {
    if list == [] then []
    else (if list[0].tier == tier then [list[0]] else []) + OfTier(list[1..], tier)
  }

  // ---- multipliers ----

  function TierMult(tier: Tier): (real, real) {
    match tier
    case Small => (0.4, 0.6)
    case Regular => (1.0, 0.8)
    case Big => (2.0, 2.0)
    case Giant => (5.0, 6.0)
    case Legend => (20.0, 6.666666666666667)
  }

  /** The size range a tier is computed with: that of its first species. */
  function SizeRange(roster: seq<Species>, tier: Tier): (int, int) {
    var found := OfTier(roster, tier);
    if found == [] then (0, 0) else (found[0].minCM, found[0].maxCM)
  }

  function MultiplierRaw(roster: seq<Species>, tier: Tier, size: int): real {
    var (base, span) := TierMult(tier);
    var (minCM, maxCM) := SizeRange(roster, tier);
    var f := if maxCM > minCM then (size - minCM) as real / (maxCM - minCM) as real else 0.0;
    var m := base + f * span;
    var grown := if size >= 100 then m * 1.5 else m;
    if grown < MAX_MULTIPLIER then grown else MAX_MULTIPLIER
  }

  /** The sum of the raw multipliers over the sizes from `minCM` up to and excluding `end`. */
  function SumRaw(roster: seq<Species>, tier: Tier, minCM: int, end: int): real
    decreases end - minCM
  {
    if end <= minCM then 0.0 else SumRaw(roster, tier, minCM, end - 1) + MultiplierRaw(roster, tier, end - 1)
  }

  function MeanRaw(roster: seq<Species>, tier: Tier, minCM: int, maxCM: int): real {
    if maxCM < minCM then 0.0 else SumRaw(roster, tier, minCM, maxCM + 1) / (maxCM - minCM + 1) as real
  }

  /** The mean raw multiplier the engine is built with. */
  function ExpectedTierMultiplier(roster: seq<Species>, tier: Tier): real {
    MeanRaw(roster, tier, SizeRange(roster, tier).0, SizeRange(roster, tier).1)
  }

  method ExpectedTierMultiplierByLoop(roster: seq<Species>, tier: Tier) returns (mean: real)
    ensures mean == ExpectedTierMultiplier(roster, tier)
  {
    var (minCM, maxCM) := SizeRange(roster, tier);
    if maxCM < minCM {
      return 0.0;
    }
    var sum := 0.0;
    for size := minCM to maxCM + 1
      invariant sum == SumRaw(roster, tier, minCM, size)
    {
      sum := sum + MultiplierRaw(roster, tier, size);
    }
    return sum / (maxCM - minCM + 1) as real;
  }

  // ---- the engine ----

  /** Weights in the order a run of the engine happens to visit them. */
  datatype BaitSpec = BaitSpec(rtp: real, tiers: seq<(Tier, nat)>, treasures: seq<(Treasure, nat)>)

  type Mults = map<Treasure, int>

  datatype Outcome = FishOutcome(tier: Tier, prob: real) | TreasureOutcome(kind: Treasure, prob: real)

  datatype Engine = Engine(scale: real, outcomes: seq<Outcome>, mults: Mults)

  datatype EngineError = EmptySpec | InvalidEconomy(scale: real)

  function TreasureMult(mults: Mults, t: Treasure): real {
    if t in mults && mults[t] > 0 then mults[t] as real else 1.0
  }

  function SumWeights<K>(w: seq<(K, nat)>): nat {
    if w == [] then 0 else SumWeights(w[..|w| - 1]) + w[|w| - 1].1
  }

  function Total(spec: BaitSpec): nat {
    SumWeights(spec.tiers) + SumWeights(spec.treasures)
  }

  function Prob(w: nat, total: nat): real
    requires total > 0
  {
    (1.0 - JUNK_RATE) * w as real / total as real
  }

  function FishOutcomes(w: seq<(Tier, nat)>, total: nat): seq<Outcome>
    requires total > 0
  {
    if w == [] then []
    else FishOutcomes(w[..|w| - 1], total) + [FishOutcome(w[|w| - 1].0, Prob(w[|w| - 1].1, total))]
  }

  function TreasureOutcomes(w: seq<(Treasure, nat)>, total: nat): seq<Outcome>
    requires total > 0
  {
    if w == [] then []
    else TreasureOutcomes(w[..|w| - 1], total) + [TreasureOutcome(w[|w| - 1].0, Prob(w[|w| - 1].1, total))]
  }

  /** Some multiplier for each tier: the one computed from the roster, or any other. */
  type Means = Tier -> real

  function ExpectedMeans(roster: seq<Species>): Means {
    (tier: Tier) => ExpectedTierMultiplier(roster, tier)
  }

  function FishEV(means: Means, w: seq<(Tier, nat)>, total: nat): real
    requires total > 0
  {
    if w == [] then 0.0
    else FishEV(means, w[..|w| - 1], total) + Prob(w[|w| - 1].1, total) * means(w[|w| - 1].0)
  }

  function TreasureEV(w: seq<(Treasure, nat)>, total: nat, mults: Mults): real
    requires total > 0
  {
    if w == [] then 0.0
    else TreasureEV(w[..|w| - 1], total, mults) + Prob(w[|w| - 1].1, total) * TreasureMult(mults, w[|w| - 1].0)
  }

  function ScaleOf(means: Means, spec: BaitSpec, mults: Mults): real
    requires Total(spec) > 0
  {
    var fish := FishEV(means, spec.tiers, Total(spec));
    if fish > 0.0 then (spec.rtp - TreasureEV(spec.treasures, Total(spec), mults)) / fish else 1.0
  }

  /** What building an engine gives. */
  ghost predicate IsBuilt(means: Means, spec: BaitSpec, mults: Mults, r: Result<Engine, EngineError>) {
    match r
    case Err(EmptySpec) => Total(spec) == 0
    case Err(InvalidEconomy(scale)) => Total(spec) > 0 && scale == ScaleOf(means, spec, mults) && !(SCALE_MIN <= scale <= SCALE_MAX)
    case Ok(eng) =>
      && Total(spec) > 0 && eng.scale == ScaleOf(means, spec, mults) && SCALE_MIN <= eng.scale <= SCALE_MAX
      && eng.outcomes == FishOutcomes(spec.tiers, Total(spec)) + TreasureOutcomes(spec.treasures, Total(spec))
      && eng.mults == mults
  }

  method SumOf<K>(w: seq<(K, nat)>) returns (sum: nat)
    ensures sum == SumWeights(w)
  {
    sum := 0;
    for i := 0 to |w|
      invariant sum == SumWeights(w[..i])
    {
      assert w[..i + 1][..i] == w[..i];
      sum := sum + w[i].1;
    }
    assert w[..|w|] == w;
  }

  lemma FishGrows(means: Means, w: seq<(Tier, nat)>, i: nat, total: nat)
    requires total > 0 && i < |w|
    ensures
      var p := Prob(w[i].1, total);
      && FishOutcomes(w[..i + 1], total) == FishOutcomes(w[..i], total) + [FishOutcome(w[i].0, p)]
      && FishEV(means, w[..i + 1], total) == FishEV(means, w[..i], total) + p * means(w[i].0)
  {
    assert w[..i + 1][..i] == w[..i];
  }

  method AddFish(means: Means, w: seq<(Tier, nat)>, total: nat) returns (outcomes: seq<Outcome>, fishEV: real)
    requires total > 0
    ensures outcomes == FishOutcomes(w, total) && fishEV == FishEV(means, w, total)
  {
    outcomes, fishEV := [], 0.0;
    for i := 0 to |w|
      invariant outcomes == FishOutcomes(w[..i], total) && fishEV == FishEV(means, w[..i], total)
    {
      FishGrows(means, w, i, total);
      var p := Prob(w[i].1, total);
      outcomes := outcomes + [FishOutcome(w[i].0, p)];
      fishEV := fishEV + p * means(w[i].0);
    }
    assert w[..|w|] == w;
  }

  method AddTreasures(w: seq<(Treasure, nat)>, total: nat, mults: Mults) returns (outcomes: seq<Outcome>, treasureEV: real)
    requires total > 0
    ensures outcomes == TreasureOutcomes(w, total) && treasureEV == TreasureEV(w, total, mults)
  {
    outcomes, treasureEV := [], 0.0;
    for i := 0 to |w|
      invariant outcomes == TreasureOutcomes(w[..i], total) && treasureEV == TreasureEV(w[..i], total, mults)
    {
      assert w[..i + 1][..i] == w[..i];
      var p := Prob(w[i].1, total);
      outcomes := outcomes + [TreasureOutcome(w[i].0, p)];
      treasureEV := treasureEV + p * TreasureMult(mults, w[i].0);
    }
    assert w[..|w|] == w;
  }

  method BuildFishingEngine(roster: seq<Species>, spec: BaitSpec, mults: Mults) returns (r: Result<Engine, EngineError>)
    ensures IsBuilt(ExpectedMeans(roster), spec, mults, r)
  {
    var tierSum := SumOf(spec.tiers);
    var treasureSum := SumOf(spec.treasures);
    var total := tierSum + treasureSum;
    if total <= 0 {
      return Err(EmptySpec);
    }
    var outcomes, fishEV := AddFish(ExpectedMeans(roster), spec.tiers, total);
    var found, treasureEV := AddTreasures(spec.treasures, total, mults);
    var scale := 1.0;
    if fishEV > 0.0 {
      scale := (spec.rtp - treasureEV) / fishEV;
      if scale < SCALE_MIN || scale > SCALE_MAX {
        return Err(InvalidEconomy(scale));
      }
    }
    return Ok(Engine(scale, outcomes + found, mults));
  }

  // ---- the draw ----

  /** The probability of the first `k` outcomes together. */
  function Cumulative(outcomes: seq<Outcome>, k: nat): real
    requires k <= |outcomes|
  {
    if k == 0 then 0.0 else Cumulative(outcomes, k - 1) + outcomes[k - 1].prob
  }

  /** Picks by cumulative probability from position `i` on; past the last outcome, the last one. */
  function PickFrom(outcomes: seq<Outcome>, i: nat, rem: real): (k: nat)
    requires i <= |outcomes| && |outcomes| > 0
    ensures k < |outcomes|
    decreases |outcomes| - i
  {
    if i == |outcomes| then |outcomes| - 1
    else if rem < outcomes[i].prob then i
    else PickFrom(outcomes, i + 1, rem - outcomes[i].prob)
  }

  method Pick(outcomes: seq<Outcome>, u: real) returns (picked: nat)
    requires |outcomes| > 0 && JUNK_RATE <= u
    ensures picked == PickFrom(outcomes, 0, u - JUNK_RATE)
  {
    var rem := u - JUNK_RATE;
    for i := 0 to |outcomes|
      invariant PickFrom(outcomes, i, rem) == PickFrom(outcomes, 0, u - JUNK_RATE)
    {
      if rem < outcomes[i].prob {
        return i;
      }
      rem := rem - outcomes[i].prob;
    }
    return |outcomes| - 1;
  }

  /** Probabilities are not negative and, with the junk rate, make one: in any order of the outcomes. */
  ghost predicate IsDistribution(outcomes: seq<Outcome>) {
    && (forall i :: 0 <= i < |outcomes| ==> outcomes[i].prob >= 0.0)
    && Cumulative(outcomes, |outcomes|) == 1.0 - JUNK_RATE
  }

  lemma {:induction false} CumulativeGrows(outcomes: seq<Outcome>, j: nat, k: nat)
    requires j <= k <= |outcomes| && forall i :: 0 <= i < |outcomes| ==> outcomes[i].prob >= 0.0
    ensures Cumulative(outcomes, j) <= Cumulative(outcomes, k)
  {
    if j < k { CumulativeGrows(outcomes, j, k - 1); }
  }

  lemma {:induction false} PickIsShare(outcomes: seq<Outcome>, i: nat, u: real)
    requires IsDistribution(outcomes) && i < |outcomes|
    requires Cumulative(outcomes, i) <= u < 1.0 - JUNK_RATE
    ensures
      var picked := PickFrom(outcomes, i, u - Cumulative(outcomes, i));
      i <= picked < |outcomes| && Cumulative(outcomes, picked) <= u < Cumulative(outcomes, picked + 1)
    decreases |outcomes| - i
  {
    if u - Cumulative(outcomes, i) >= outcomes[i].prob {
      assert Cumulative(outcomes, i + 1) <= u;
      PickIsShare(outcomes, i + 1, u);
    }
  }

  /**
   An outcome is picked exactly on its own interval of the draw, which is as long as its
   probability; the pick past the end is never reached.
   */
  lemma EveryOutcomeHasItsShare(outcomes: seq<Outcome>, k: nat, u: real)
    requires IsDistribution(outcomes) && k < |outcomes| && JUNK_RATE <= u < 1.0
    ensures PickFrom(outcomes, 0, u - JUNK_RATE) == k
       <==> JUNK_RATE + Cumulative(outcomes, k) <= u < JUNK_RATE + Cumulative(outcomes, k) + outcomes[k].prob
    ensures u - JUNK_RATE < Cumulative(outcomes, |outcomes|)
  {
    var rem := u - JUNK_RATE;
    PickIsShare(outcomes, 0, rem);
    var picked := PickFrom(outcomes, 0, rem);
    if Cumulative(outcomes, k) <= rem < Cumulative(outcomes, k + 1) {
      if picked < k { CumulativeGrows(outcomes, picked + 1, k); }
      if k < picked { CumulativeGrows(outcomes, k + 1, picked); }
    }
  }

  /** A uniform integer from `lo` to `hi`, from a uniform `f` in the unit interval. */
  function RandInt(lo: int, hi: int, f: real): int {
    if hi <= lo then lo else lo + (f * (hi - lo + 1) as real).Floor
  }

  /** Every integer of the range is drawn on an interval of the same length. */
  lemma RandIntIsUniform(lo: int, hi: int, f: real, k: int)
    requires lo <= hi && 0.0 <= f < 1.0
    ensures lo <= RandInt(lo, hi, f) <= hi
    ensures lo < hi ==>
        (RandInt(lo, hi, f) == k <==> (k - lo) as real <= f * (hi - lo + 1) as real < (k - lo + 1) as real)
  {
    var n := (hi - lo + 1) as real;
    assert 0.0 <= f * n < n;
  }

  datatype Catch = Junk | Fish(tier: Tier, species: Species, sizeCM: int) | Found(kind: Treasure)

  /** What a catch pays per unit of stake, before rounding. */
  function Payout(roster: seq<Species>, eng: Engine, c: Catch): real {
    match c
    case Junk => 0.0
    case Fish(tier, _, size) => MultiplierRaw(roster, tier, size) * eng.scale
    case Found(kind) => TreasureMult(eng.mults, kind)
  }

  /** One roll from three uniform draws: the outcome, then the species, then the size. */
  method RollFishingOutcome(roster: seq<Species>, eng: Engine, u: real, f: real, g: real) returns (c: Catch)
    requires eng.outcomes != [] && 0.0 <= u < 1.0 && 0.0 <= f < 1.0 && 0.0 <= g < 1.0
    requires forall tier :: SharedRange(roster, tier)
    ensures RollGives(roster, eng, u, f, g, c)
  {
    if u < JUNK_RATE {
      return Junk;
    }
    var picked := Pick(eng.outcomes, u);
    match eng.outcomes[picked]
    case TreasureOutcome(kind, _) => return Found(kind);
    case FishOutcome(tier, _) =>
      assert SharedRange(roster, tier);
      var candidates := OfTier(roster, tier);
      RandIntIsUniform(0, |candidates| - 1, f, 0);
      var species := candidates[RandInt(0, |candidates| - 1, f)];
      var size := RandInt(species.minCM, species.maxCM, g);
      return Fish(tier, species, size);
  }

  /** The catch of three draws: junk below the junk rate, and else a catch of the outcome picked. */
  ghost predicate RollGives(roster: seq<Species>, eng: Engine, u: real, f: real, g: real, c: Catch) {
    && (c.Junk? <==> u < JUNK_RATE)
    && (u >= JUNK_RATE ==> eng.outcomes != [] && IsCatchOf(roster, eng.outcomes[PickFrom(eng.outcomes, 0, u - JUNK_RATE)], f, g, c))
  }

  /** A catch of the outcome: a treasure is itself, a fish has a species of the tier and a size in its range. */
  ghost predicate IsCatchOf(roster: seq<Species>, o: Outcome, f: real, g: real, c: Catch) {
    match o
    case TreasureOutcome(kind, _) => c == Found(kind)
    case FishOutcome(tier, _) =>
      var candidates := OfTier(roster, tier);
      var k := RandInt(0, |candidates| - 1, f);
      && 0 <= k < |candidates|
      && c == Fish(tier, candidates[k], RandInt(candidates[k].minCM, candidates[k].maxCM, g))
  }

  /** A caught fish has a size in its species' range, so it pays more than nothing and the clamp at zero never bites. */
  lemma CatchPays(roster: seq<Species>, eng: Engine, o: Outcome, f: real, g: real, c: Catch)
    requires IsCatchOf(roster, o, f, g, c) && 0.0 <= g < 1.0 && eng.scale > 0.0
    requires forall tier :: SharedRange(roster, tier)
    ensures Payout(roster, eng, c) > 0.0
    ensures c.Fish? ==> c.species.minCM <= c.sizeCM <= c.species.maxCM && c.species.tier == c.tier
  {
    if o.FishOutcome? {
      assert SharedRange(roster, o.tier) && c.species in OfTier(roster, o.tier);
      OfTierMembers(roster, o.tier);
      RandIntIsUniform(c.species.minCM, c.species.maxCM, g, 0);
    }
  }

  lemma {:induction false} OfTierMembers(list: seq<Species>, tier: Tier)
    ensures forall sp <- OfTier(list, tier) :: sp.tier == tier && sp in list
  {
    if list != [] { OfTierMembers(list[1..], tier); }
  }

  // ---- weights make a distribution ----

  lemma ProbAdds(a: nat, b: nat, total: nat)
    requires total > 0
    ensures Prob(a + b, total) == Prob(a, total) + Prob(b, total) && Prob(a, total) >= 0.0 && Prob(0, total) == 0.0
  {
    var t, p := total as real, 1.0 - JUNK_RATE;
    assert p * (a + b) as real == p * a as real + p * b as real;
    assert (p * a as real + p * b as real) / t == p * a as real / t + p * b as real / t;
  }

  ghost predicate AllNonNegative(outcomes: seq<Outcome>) {
    forall i :: 0 <= i < |outcomes| ==> outcomes[i].prob >= 0.0
  }

  lemma {:induction false} CumulativeOfSum(a: seq<Outcome>, b: seq<Outcome>, k: nat)
    requires k <= |b|
    ensures Cumulative(a + b, |a| + k) == Cumulative(a, |a|) + Cumulative(b, k)
  {
    if k == 0 {
      CumulativeOfPrefix(a, b, |a|);
    } else {
      CumulativeOfSum(a, b, k - 1);
      assert (a + b)[|a| + k - 1] == b[k - 1];
    }
  }

  lemma {:induction false} CumulativeOfPrefix(a: seq<Outcome>, b: seq<Outcome>, k: nat)
    requires k <= |a|
    ensures Cumulative(a + b, k) == Cumulative(a, k)
  {
    if k > 0 { CumulativeOfPrefix(a, b, k - 1); }
  }

  lemma {:induction false} FishShare(w: seq<(Tier, nat)>, total: nat)
    requires total > 0
    ensures AllNonNegative(FishOutcomes(w, total))
    ensures Cumulative(FishOutcomes(w, total), |FishOutcomes(w, total)|) == Prob(SumWeights(w), total)
  {
    if w == [] {
      ProbAdds(0, 0, total);
    } else {
      var init, last := w[..|w| - 1], w[|w| - 1];
      FishShare(init, total);
      ProbAdds(SumWeights(init), last.1, total);
      ProbAdds(last.1, 0, total);
      OneMore(FishOutcomes(init, total), FishOutcome(last.0, Prob(last.1, total)));
    }
  }

  lemma OneMore(a: seq<Outcome>, o: Outcome)
    ensures Cumulative(a + [o], |a| + 1) == Cumulative(a, |a|) + o.prob
  {
    CumulativeOfSum(a, [o], 1);
  }

  lemma {:induction false} TreasureShare(w: seq<(Treasure, nat)>, total: nat)
    requires total > 0
    ensures AllNonNegative(TreasureOutcomes(w, total))
    ensures Cumulative(TreasureOutcomes(w, total), |TreasureOutcomes(w, total)|) == Prob(SumWeights(w), total)
  {
    if w == [] {
      ProbAdds(0, 0, total);
    } else {
      var init, last := w[..|w| - 1], w[|w| - 1];
      TreasureShare(init, total);
      ProbAdds(SumWeights(init), last.1, total);
      ProbAdds(last.1, 0, total);
      OneMore(TreasureOutcomes(init, total), TreasureOutcome(last.0, Prob(last.1, total)));
    }
  }

  /** Whatever the order in which the weights were visited, the outcomes share out what the junk leaves. */
  lemma BuiltIsDistribution(means: Means, spec: BaitSpec, mults: Mults, eng: Engine)
    requires IsBuilt(means, spec, mults, Ok(eng))
    ensures IsDistribution(eng.outcomes)
  {
    var fish, found := FishOutcomes(spec.tiers, Total(spec)), TreasureOutcomes(spec.treasures, Total(spec));
    FishShare(spec.tiers, Total(spec));
    TreasureShare(spec.treasures, Total(spec));
    CumulativeOfSum(fish, found, |found|);
    ProbAdds(SumWeights(spec.tiers), SumWeights(spec.treasures), Total(spec));
    WholeShare(Total(spec));
  }

  lemma WholeShare(total: nat)
    requires total > 0
    ensures Prob(total, total) == 1.0 - JUNK_RATE
  {}

  // ---- the expected payout of a roll, per unit of stake ----

  function SumOver(mean: Species -> real, candidates: seq<Species>): real {
    if candidates == [] then 0.0 else mean(candidates[0]) + SumOver(mean, candidates[1..])
  }

  /** The mean multiplier over a species' own sizes. */
  function SpeciesMean(roster: seq<Species>, tier: Tier): Species -> real {
    (sp: Species) => MeanRaw(roster, tier, sp.minCM, sp.maxCM)
  }

  /** What a caught fish of the tier pays on average: a uniform species, then a uniform size of it. */
  function MeanPay(roster: seq<Species>, tier: Tier): real {
    var candidates := OfTier(roster, tier);
    if candidates == [] then 0.0 else SumOver(SpeciesMean(roster, tier), candidates) / |candidates| as real
  }

  function OutcomePay(pay: Means, eng: Engine, o: Outcome): real {
    match o
    case FishOutcome(tier, _) => pay(tier) * eng.scale
    case TreasureOutcome(kind, _) => TreasureMult(eng.mults, kind)
  }

  function PayOf(pay: Means, eng: Engine, outcomes: seq<Outcome>): real {
    if outcomes == [] then 0.0
    else
      var last := outcomes[|outcomes| - 1];
      PayOf(pay, eng, outcomes[..|outcomes| - 1]) + last.prob * OutcomePay(pay, eng, last)
  }

  /** Junk pays nothing; a fish or treasure what it pays on average. */
  function ExpectedPay(roster: seq<Species>, eng: Engine): real {
    JUNK_RATE * 0.0 + PayOf((tier: Tier) => MeanPay(roster, tier), eng, eng.outcomes)
  }

  /** The species of a tier share its size range. */
  ghost predicate SharedRange(roster: seq<Species>, tier: Tier) {
    && OfTier(roster, tier) != []
    && forall sp <- OfTier(roster, tier) :: sp.minCM <= sp.maxCM && (sp.minCM, sp.maxCM) == SizeRange(roster, tier)
  }

  lemma {:induction false} SumOfEquals(mean: Species -> real, candidates: seq<Species>, x: real)
    requires forall i :: 0 <= i < |candidates| ==> mean(candidates[i]) == x
    ensures SumOver(mean, candidates) == |candidates| as real * x
  {
    if candidates != [] {
      SumOfEquals(mean, candidates[1..], x);
    }
  }

  lemma MeanOfEquals(mean: Species -> real, candidates: seq<Species>, x: real)
    requires candidates != [] && forall i :: 0 <= i < |candidates| ==> mean(candidates[i]) == x
    ensures SumOver(mean, candidates) / |candidates| as real == x
  {
    SumOfEquals(mean, candidates, x);
  }

  lemma MeanPayIsExpected(roster: seq<Species>, tier: Tier)
    requires SharedRange(roster, tier)
    ensures MeanPay(roster, tier) == ExpectedTierMultiplier(roster, tier)
  {
    MeanOfEquals(SpeciesMean(roster, tier), OfTier(roster, tier), ExpectedTierMultiplier(roster, tier));
  }

  lemma {:induction false} PayOfSum(pay: Means, eng: Engine, a: seq<Outcome>, b: seq<Outcome>)
    ensures PayOf(pay, eng, a + b) == PayOf(pay, eng, a) + PayOf(pay, eng, b)
  {
    if b == [] {
      assert a + b == a;
    } else {
      var init, last := b[..|b| - 1], b[|b| - 1];
      PayOfSum(pay, eng, a, init);
      assert a + b == a + init + [last];
    }
  }

  lemma {:induction false} SamePay(a: Means, b: Means, eng: Engine, outcomes: seq<Outcome>)
    requires forall tier :: a(tier) == b(tier)
    ensures PayOf(a, eng, outcomes) == PayOf(b, eng, outcomes)
  {
    if outcomes != [] {
      SamePay(a, b, eng, outcomes[..|outcomes| - 1]);
    }
  }

  lemma Scaled(ev: real, p: real, m: real, scale: real)
    ensures ev * scale + p * (m * scale) == (ev + p * m) * scale
  {
    assert p * (m * scale) == (p * m) * scale;
  }

  lemma {:induction false} FishPay(means: Means, eng: Engine, w: seq<(Tier, nat)>, total: nat)
    requires total > 0
    ensures PayOf(means, eng, FishOutcomes(w, total)) == FishEV(means, w, total) * eng.scale
  {
    if w != [] {
      var init, last := w[..|w| - 1], w[|w| - 1];
      var p := Prob(last.1, total);
      FishPay(means, eng, init, total);
      Scaled(FishEV(means, init, total), p, means(last.0), eng.scale);
    }
  }

  lemma {:induction false} TreasurePay(pay: Means, eng: Engine, w: seq<(Treasure, nat)>, total: nat)
    requires total > 0
    ensures PayOf(pay, eng, TreasureOutcomes(w, total)) == TreasureEV(w, total, eng.mults)
  {
    if w != [] {
      var init, last := w[..|w| - 1], w[|w| - 1];
      TreasurePay(pay, eng, init, total);
    }
  }

  // ---- fish with weight have a positive expected payout ----

  lemma {:induction false} SumRawIsPositive(roster: seq<Species>, tier: Tier, minCM: int, end: int)
    requires SizeRange(roster, tier).0 <= minCM < end
    ensures SumRaw(roster, tier, minCM, end) > 0.0
    decreases end - minCM
  {
    RawIsPositive(roster, tier, end - 1);
    if end - 1 > minCM { SumRawIsPositive(roster, tier, minCM, end - 1); }
  }

  lemma RawIsPositive(roster: seq<Species>, tier: Tier, size: int)
    requires SizeRange(roster, tier).0 <= size
    ensures MultiplierRaw(roster, tier, size) > 0.0
  {
    var (minCM, maxCM) := SizeRange(roster, tier);
    if maxCM > minCM { ShareIsNatural(size - minCM, maxCM - minCM, TierMult(tier).1); }
  }

  lemma ShareIsNatural(a: int, b: int, span: real)
    requires 0 <= a && 0 < b && span >= 0.0
    ensures a as real / b as real * span >= 0.0
  {
    assert a as real / b as real >= 0.0;
  }

  lemma MultiplierIsPositive(roster: seq<Species>, tier: Tier)
    requires SharedRange(roster, tier)
    ensures ExpectedTierMultiplier(roster, tier) > 0.0
  {
    var (minCM, maxCM) := SizeRange(roster, tier);
    assert OfTier(roster, tier)[0] in OfTier(roster, tier);
    SumRawIsPositive(roster, tier, minCM, maxCM + 1);
  }

  lemma {:induction false} FishEVIsPositive(means: Means, w: seq<(Tier, nat)>, total: nat)
    requires total > 0 && forall tier :: means(tier) > 0.0
    ensures FishEV(means, w, total) >= 0.0
    ensures FishEV(means, w, total) > 0.0 <==> SumWeights(w) > 0
  {
    if w != [] {
      var last := w[|w| - 1];
      FishEVIsPositive(means, w[..|w| - 1], total);
      WeightedIsPositive(last.1, total, means(last.0));
    }
  }

  lemma WeightedIsPositive(w: nat, total: nat, m: real)
    requires total > 0 && m > 0.0
    ensures Prob(w, total) * m >= 0.0 && (Prob(w, total) * m > 0.0 <==> w > 0)
  {
    var p := Prob(w, total);
    if w > 0 { assert p > 0.0; } else { assert p == 0.0; }
  }

  lemma PayIsScaled(means: Means, eng: Engine, tiers: seq<(Tier, nat)>, treasures: seq<(Treasure, nat)>, total: nat)
    requires total > 0 && eng.outcomes == FishOutcomes(tiers, total) + TreasureOutcomes(treasures, total)
    ensures PayOf(means, eng, eng.outcomes) == FishEV(means, tiers, total) * eng.scale + TreasureEV(treasures, total, eng.mults)
  {
    PayOfSum(means, eng, FishOutcomes(tiers, total), TreasureOutcomes(treasures, total));
    FishPay(means, eng, tiers, total);
    TreasurePay(means, eng, treasures, total);
  }

  lemma ScaleSolves(means: Means, eng: Engine, tiers: seq<(Tier, nat)>, treasures: seq<(Treasure, nat)>, total: nat, rtp: real)
    requires total > 0 && eng.outcomes == FishOutcomes(tiers, total) + TreasureOutcomes(treasures, total)
    requires FishEV(means, tiers, total) >= 0.0
    requires FishEV(means, tiers, total) > 0.0 ==>
        eng.scale == (rtp - TreasureEV(treasures, total, eng.mults)) / FishEV(means, tiers, total)
    ensures PayOf(means, eng, eng.outcomes)
         == if FishEV(means, tiers, total) > 0.0 then rtp else TreasureEV(treasures, total, eng.mults)
  {
    PayIsScaled(means, eng, tiers, treasures, total);
    Solves(FishEV(means, tiers, total), TreasureEV(treasures, total, eng.mults), eng.scale, rtp, PayOf(means, eng, eng.outcomes));
  }

  lemma Solves(fish: real, treasure: real, scale: real, rtp: real, pay: real)
    requires fish >= 0.0 && pay == fish * scale + treasure && (fish > 0.0 ==> scale == (rtp - treasure) / fish)
    ensures pay == if fish > 0.0 then rtp else treasure
  {}

  /**
   The return is exact. For every bait and treasure setting the engine accepts, the expected payout
   of a roll is the promised return as soon as any fish has weight; without fish it is what the
   treasures happen to give.
   */
  lemma ReturnIsExact(roster: seq<Species>, spec: BaitSpec, mults: Mults, eng: Engine)
    requires IsBuilt(ExpectedMeans(roster), spec, mults, Ok(eng)) && forall tier :: SharedRange(roster, tier)
    ensures SumWeights(spec.tiers) > 0 ==> ExpectedPay(roster, eng) == spec.rtp
    ensures SumWeights(spec.tiers) == 0 ==> ExpectedPay(roster, eng) == TreasureEV(spec.treasures, Total(spec), mults)
  {
    var means, pay := ExpectedMeans(roster), (tier: Tier) => MeanPay(roster, tier);
    forall tier
      ensures means(tier) > 0.0 && pay(tier) == means(tier)
    {
      assert SharedRange(roster, tier);
      MultiplierIsPositive(roster, tier);
      MeanPayIsExpected(roster, tier);
    }
    SamePay(pay, means, eng, eng.outcomes);
    FishEVIsPositive(means, spec.tiers, Total(spec));
    ScaleSolves(means, eng, spec.tiers, spec.treasures, Total(spec), spec.rtp);
  }

  // ---- the same, told by what is actually caught and paid ----

  function SumTo(p: int -> real, lo: int, end: int): real
    decreases end - lo
  {
    if end <= lo then 0.0 else SumTo(p, lo, end - 1) + p(end - 1)
  }

  /** What a fish pays, by its size. */
  function PayoutBySize(roster: seq<Species>, eng: Engine, tier: Tier, sp: Species): int -> real {
    (size: int) => Payout(roster, eng, Fish(tier, sp, size))
  }

  /** What a fish of a species pays, its sizes being equally likely. */
  function SpeciesPay(roster: seq<Species>, eng: Engine, tier: Tier, sp: Species): real {
    if sp.maxCM < sp.minCM then 0.0 else SumTo(PayoutBySize(roster, eng, tier, sp), sp.minCM, sp.maxCM + 1) / (sp.maxCM - sp.minCM + 1) as real
  }

  function PayBySpecies(roster: seq<Species>, eng: Engine, tier: Tier): Species -> real {
    (sp: Species) => SpeciesPay(roster, eng, tier, sp)
  }

  /** What the catches of an outcome pay, the species of a tier being equally likely. */
  function CatchesPay(roster: seq<Species>, eng: Engine, o: Outcome): real {
    match o
    case FishOutcome(tier, _) =>
      var candidates := OfTier(roster, tier);
      if candidates == [] then 0.0 else SumOver(PayBySpecies(roster, eng, tier), candidates) / |candidates| as real
    case TreasureOutcome(kind, _) => Payout(roster, eng, Found(kind))
  }

  function OutcomesPay(roster: seq<Species>, eng: Engine, outcomes: seq<Outcome>): real {
    if outcomes == [] then 0.0
    else
      var last := outcomes[|outcomes| - 1];
      OutcomesPay(roster, eng, outcomes[..|outcomes| - 1]) + last.prob * CatchesPay(roster, eng, last)
  }

  /** The expectation of the payout of a roll: junk and each outcome with their probabilities. */
  function ExpectedPayout(roster: seq<Species>, eng: Engine): real {
    0.20 * Payout(roster, eng, Junk) + OutcomesPay(roster, eng, eng.outcomes)
  }

  /** The second and third draw of a given fish: an interval for its species and one for its size. */
  ghost predicate DrawsFish(candidates: seq<Species>, j: nat, size: int, f: real, g: real)
    requires j < |candidates|
  {
    && 0.0 <= f < 1.0 && 0.0 <= g < 1.0
    && j as real <= f * |candidates| as real < (j + 1) as real
    && (size - candidates[j].minCM) as real <= g * (candidates[j].maxCM - candidates[j].minCM + 1) as real
    && g * (candidates[j].maxCM - candidates[j].minCM + 1) as real < (size - candidates[j].minCM + 1) as real
  }

  lemma FishDrawn(roster: seq<Species>, o: Outcome, j: nat, size: int, f: real, g: real, c: Catch)
    requires o.FishOutcome? && SharedRange(roster, o.tier) && j < |OfTier(roster, o.tier)|
    requires DrawsFish(OfTier(roster, o.tier), j, size, f, g) && IsCatchOf(roster, o, f, g, c)
    ensures c == Fish(o.tier, OfTier(roster, o.tier)[j], size)
  {
    var candidates := OfTier(roster, o.tier);
    var sp := candidates[j];
    assert sp in candidates && sp.minCM <= sp.maxCM;
    SpeciesDrawn(candidates, j, size, f, g);
  }

  lemma SpeciesDrawn(candidates: seq<Species>, j: nat, size: int, f: real, g: real)
    requires j < |candidates| && candidates[j].minCM <= candidates[j].maxCM && DrawsFish(candidates, j, size, f, g)
    ensures RandInt(0, |candidates| - 1, f) == j && RandInt(candidates[j].minCM, candidates[j].maxCM, g) == size
  {
    IndexDrawn(|candidates|, j, f);
    SizeDrawn(candidates[j], size, g);
  }

  lemma IndexDrawn(n: nat, j: nat, f: real)
    requires n > 0 && 0.0 <= f < 1.0 && j as real <= f * n as real < (j + 1) as real
    ensures RandInt(0, n - 1, f) == j
  {
    RandIntIs(0, n - 1, f, j);
  }

  lemma SizeDrawn(sp: Species, size: int, g: real)
    requires sp.minCM <= sp.maxCM && 0.0 <= g < 1.0
    requires (size - sp.minCM) as real <= g * (sp.maxCM - sp.minCM + 1) as real < (size - sp.minCM + 1) as real
    ensures RandInt(sp.minCM, sp.maxCM, g) == size
  {
    RandIntIs(sp.minCM, sp.maxCM, g, size);
  }

  lemma OutcomeDrawn(outcomes: seq<Outcome>, k: nat, u: real)
    requires IsDistribution(outcomes) && k < |outcomes| && u < 1.0
    requires 0.20 + Cumulative(outcomes, k) <= u < 0.20 + Cumulative(outcomes, k) + outcomes[k].prob
    ensures u >= JUNK_RATE && PickFrom(outcomes, 0, u - JUNK_RATE) == k
  {
    CumulativeGrows(outcomes, 0, k);
    EveryOutcomeHasItsShare(outcomes, k, u);
  }

  /**
   The probabilities of the expectation are those of the roll: a fish is caught on an interval of the first
   draw as long as its outcome's probability, one of the second as long as for every species of the tier, and
   one of the third as long as for every size of the species.
   */
  lemma EveryFishHasItsShare(roster: seq<Species>, eng: Engine, k: nat, j: nat, size: int, u: real, f: real, g: real, c: Catch)
    requires IsDistribution(eng.outcomes) && k < |eng.outcomes| && u < 1.0
    requires 0.20 + Cumulative(eng.outcomes, k) <= u < 0.20 + Cumulative(eng.outcomes, k) + eng.outcomes[k].prob
    requires eng.outcomes[k].FishOutcome? && SharedRange(roster, eng.outcomes[k].tier)
    requires j < |OfTier(roster, eng.outcomes[k].tier)| && DrawsFish(OfTier(roster, eng.outcomes[k].tier), j, size, f, g)
    requires RollGives(roster, eng, u, f, g, c)
    ensures c == Fish(eng.outcomes[k].tier, OfTier(roster, eng.outcomes[k].tier)[j], size)
  {
    OutcomeDrawn(eng.outcomes, k, u);
    FishDrawn(roster, eng.outcomes[k], j, size, f, g, c);
  }

  /** Junk is caught on a fifth of the first draw, and a treasure on the interval of its outcome. */
  lemma EveryTreasureHasItsShare(roster: seq<Species>, eng: Engine, k: nat, u: real, f: real, g: real, c: Catch)
    requires IsDistribution(eng.outcomes) && k < |eng.outcomes| && eng.outcomes[k].TreasureOutcome? && 0.0 <= u < 1.0
    requires RollGives(roster, eng, u, f, g, c)
    ensures c == Junk <==> u < 0.20
    ensures 0.20 + Cumulative(eng.outcomes, k) <= u < 0.20 + Cumulative(eng.outcomes, k) + eng.outcomes[k].prob ==>
        c == Found(eng.outcomes[k].kind)
  {
    if 0.20 + Cumulative(eng.outcomes, k) <= u < 0.20 + Cumulative(eng.outcomes, k) + eng.outcomes[k].prob {
      OutcomeDrawn(eng.outcomes, k, u);
    }
  }

  lemma RandIntIs(lo: int, hi: int, f: real, k: int)
    requires lo <= hi && 0.0 <= f < 1.0 && (k - lo) as real <= f * (hi - lo + 1) as real < (k - lo + 1) as real
    ensures RandInt(lo, hi, f) == k
  {
    RandIntIsUniform(lo, hi, f, k);
  }

  function RawBySize(roster: seq<Species>, tier: Tier): int -> real {
    (size: int) => MultiplierRaw(roster, tier, size)
  }

  lemma {:induction false} SumRawIsSumTo(roster: seq<Species>, tier: Tier, lo: int, end: int)
    ensures SumRaw(roster, tier, lo, end) == SumTo(RawBySize(roster, tier), lo, end)
    decreases end - lo
  {
    if lo < end { SumRawIsSumTo(roster, tier, lo, end - 1); }
  }

  ghost predicate ScaledBy<T(!new)>(p: T -> real, q: T -> real, scale: real) {
    forall x: T :: p(x) == q(x) * scale
  }

  lemma {:induction false} SumToScaled(p: int -> real, q: int -> real, scale: real, lo: int, end: int)
    requires ScaledBy(p, q, scale)
    ensures SumTo(p, lo, end) == SumTo(q, lo, end) * scale
    decreases end - lo
  {
    if lo < end {
      SumToScaled(p, q, scale, lo, end - 1);
      Distributes(SumTo(q, lo, end - 1), q(end - 1), scale);
    }
  }

  /** A fish pays its multiplier, scaled. */
  lemma SizesArePaidScaled(roster: seq<Species>, eng: Engine, tier: Tier, sp: Species)
    ensures ScaledBy(PayoutBySize(roster, eng, tier, sp), RawBySize(roster, tier), eng.scale)
  {}

  lemma SumIsScaled(p: int -> real, q: int -> real, scale: real, lo: int, end: int, total: real, raw: real)
    requires ScaledBy(p, q, scale) && total == SumTo(p, lo, end) && raw == SumTo(q, lo, end)
    ensures total == raw * scale
  {
    SumToScaled(p, q, scale, lo, end);
  }

  lemma SizesPayScaled(roster: seq<Species>, eng: Engine, tier: Tier, sp: Species, end: int, total: real, raw: real)
    requires total == SumTo(PayoutBySize(roster, eng, tier, sp), sp.minCM, end) && raw == SumRaw(roster, tier, sp.minCM, end)
    ensures total == raw * eng.scale
  {
    SumRawIsSumTo(roster, tier, sp.minCM, end);
    SizesArePaidScaled(roster, eng, tier, sp);
    SumIsScaled(PayoutBySize(roster, eng, tier, sp), RawBySize(roster, tier), eng.scale, sp.minCM, end, total, raw);
  }

  lemma Distributes(a: real, b: real, scale: real)
    ensures (a + b) * scale == a * scale + b * scale
  {}

  lemma MeanScaled(sum: real, n: real, scale: real)
    requires n > 0.0
    ensures sum * scale / n == sum / n * scale
  {}

  lemma SpeciesPayScaled(roster: seq<Species>, eng: Engine, tier: Tier, sp: Species)
    ensures SpeciesPay(roster, eng, tier, sp) == MeanRaw(roster, tier, sp.minCM, sp.maxCM) * eng.scale
  {
    if sp.minCM <= sp.maxCM {
      var total, raw := SumTo(PayoutBySize(roster, eng, tier, sp), sp.minCM, sp.maxCM + 1), SumRaw(roster, tier, sp.minCM, sp.maxCM + 1);
      SizesPayScaled(roster, eng, tier, sp, sp.maxCM + 1, total, raw);
      MeanScaled(raw, (sp.maxCM - sp.minCM + 1) as real, eng.scale);
    }
  }

  lemma {:induction false} SumOverScaled(p: Species -> real, q: Species -> real, scale: real, candidates: seq<Species>)
    requires ScaledBy(p, q, scale)
    ensures SumOver(p, candidates) == SumOver(q, candidates) * scale
  {
    if candidates != [] {
      SumOverScaled(p, q, scale, candidates[1..]);
      Distributes(q(candidates[0]), SumOver(q, candidates[1..]), scale);
    }
  }

  lemma MeanOverScaled(p: Species -> real, q: Species -> real, scale: real, candidates: seq<Species>)
    requires candidates != [] && ScaledBy(p, q, scale)
    ensures SumOver(p, candidates) / |candidates| as real == SumOver(q, candidates) / |candidates| as real * scale
  {
    SumOverScaled(p, q, scale, candidates);
    MeanScaled(SumOver(q, candidates), |candidates| as real, scale);
  }

  /** What the catches of an outcome pay on average is what the outcome was reckoned with. */
  lemma CatchesPayIsOutcomePay(roster: seq<Species>, eng: Engine, o: Outcome)
    ensures CatchesPay(roster, eng, o) == OutcomePay((tier: Tier) => MeanPay(roster, tier), eng, o)
  {
    if o.FishOutcome? {
      FishCatchesPay(roster, eng, o, CatchesPay(roster, eng, o), MeanPay(roster, o.tier));
    }
  }

  lemma MeanIsScaled(p: Species -> real, q: Species -> real, scale: real, candidates: seq<Species>, total: real, mean: real)
    requires candidates != [] && ScaledBy(p, q, scale)
    requires total == SumOver(p, candidates) / |candidates| as real && mean == SumOver(q, candidates) / |candidates| as real
    ensures total == mean * scale
  {
    MeanOverScaled(p, q, scale, candidates);
  }

  lemma SpeciesArePaidScaled(roster: seq<Species>, eng: Engine, tier: Tier)
    ensures ScaledBy(PayBySpecies(roster, eng, tier), SpeciesMean(roster, tier), eng.scale)
  {
    forall sp: Species
      ensures PayBySpecies(roster, eng, tier)(sp) == SpeciesMean(roster, tier)(sp) * eng.scale
    {
      SpeciesPayScaled(roster, eng, tier, sp);
    }
  }

  lemma FishCatchesPay(roster: seq<Species>, eng: Engine, o: Outcome, total: real, mean: real)
    requires o.FishOutcome? && total == CatchesPay(roster, eng, o) && mean == MeanPay(roster, o.tier)
    ensures total == mean * eng.scale
  {
    var candidates := OfTier(roster, o.tier);
    SpeciesArePaidScaled(roster, eng, o.tier);
    if candidates != [] {
      MeanIsScaled(PayBySpecies(roster, eng, o.tier), SpeciesMean(roster, o.tier), eng.scale, candidates, total, mean);
    }
  }

  lemma {:induction false} OutcomesPayIsPayOf(roster: seq<Species>, eng: Engine, outcomes: seq<Outcome>)
    ensures OutcomesPay(roster, eng, outcomes) == PayOf((tier: Tier) => MeanPay(roster, tier), eng, outcomes)
  {
    if outcomes != [] {
      OutcomesPayIsPayOf(roster, eng, outcomes[..|outcomes| - 1]);
      CatchesPayIsOutcomePay(roster, eng, outcomes[|outcomes| - 1]);
    }
  }

  /**
   The return is exact for the rolls themselves: the expectation of what they pay is the promised return as
   soon as any fish has weight, and else the treasures' share.
   */
  lemma PaidReturnIsExact(roster: seq<Species>, spec: BaitSpec, mults: Mults, eng: Engine)
    requires IsBuilt(ExpectedMeans(roster), spec, mults, Ok(eng)) && forall tier :: SharedRange(roster, tier)
    ensures SumWeights(spec.tiers) > 0 ==> ExpectedPayout(roster, eng) == spec.rtp
    ensures SumWeights(spec.tiers) == 0 ==> ExpectedPayout(roster, eng) == TreasureEV(spec.treasures, Total(spec), mults)
  {
    ReturnIsExact(roster, spec, mults, eng);
    OutcomesPayIsPayOf(roster, eng, eng.outcomes);
  }

  /** An engine is refused exactly if nothing has weight or the fish would have to be scaled out of bounds. */
  lemma AcceptedScales(means: Means, spec: BaitSpec, mults: Mults, r: Result<Engine, EngineError>)
    requires IsBuilt(means, spec, mults, r)
    ensures r.Ok? <==> Total(spec) > 0 && 0.1 <= ScaleOf(means, spec, mults) <= 3.0
  {}

  // ---- the program's own roster ----

  function FixedRange(tier: Tier): (int, int) {
    match tier
    case Small => (5, 25)
    case Regular => (15, 35)
    case Big => (30, 80)
    case Giant => (60, 150)
    case Legend => (100, 200)
  }

  lemma {:induction false} OfTierKeepsRange(list: seq<Species>, tier: Tier)
    requires forall i :: 0 <= i < |list| ==> (list[i].minCM, list[i].maxCM) == FixedRange(list[i].tier)
    ensures forall sp <- OfTier(list, tier) :: (sp.minCM, sp.maxCM) == FixedRange(tier)
    ensures (exists i :: 0 <= i < |list| && list[i].tier == tier) ==> OfTier(list, tier) != []
  {
    if list != [] {
      OfTierKeepsRange(list[1..], tier);
      if list[0].tier != tier && exists i :: 0 <= i < |list| && list[i].tier == tier {
        var i :| 0 <= i < |list| && list[i].tier == tier;
        assert list[1..][i - 1].tier == tier;
      }
    }
  }

  /** The roster the program ships meets the condition, so the return is exact on it. */
  lemma SpeciesShareRanges(tier: Tier)
    ensures SharedRange(SPECIES, tier) && SizeRange(SPECIES, tier) == FixedRange(tier)
  {
    forall i | 0 <= i < |SPECIES|
      ensures (SPECIES[i].minCM, SPECIES[i].maxCM) == FixedRange(SPECIES[i].tier)
    {
    }
    var first := match tier case Small => 0 case Regular => 5 case Big => 10 case Giant => 15 case Legend => 20;
    assert SPECIES[first].tier == tier;
    SharedFromFixed(SPECIES, tier, first);
  }

  lemma SharedFromFixed(roster: seq<Species>, tier: Tier, first: nat)
    requires first < |roster| && roster[first].tier == tier
    requires forall i :: 0 <= i < |roster| ==> (roster[i].minCM, roster[i].maxCM) == FixedRange(roster[i].tier)
    ensures SharedRange(roster, tier) && SizeRange(roster, tier) == FixedRange(tier)
  {
    OfTierKeepsRange(roster, tier);
    assert OfTier(roster, tier)[0] in OfTier(roster, tier);
  }


  // ---- what a size is worth ----

  lemma SmallSizes(roster: seq<Species>)
    requires SizeRange(roster, Small) == (5, 25)
    ensures MultiplierRaw(roster, Small, 5) == 0.4 && MultiplierRaw(roster, Small, 25) == 1.0
  {}

  lemma RegularSizes(roster: seq<Species>)
    requires SizeRange(roster, Regular) == (15, 35)
    ensures MultiplierRaw(roster, Regular, 15) == 1.0 && MultiplierRaw(roster, Regular, 35) == 1.8
  {}

  lemma BigSizes(roster: seq<Species>)
    requires SizeRange(roster, Big) == (30, 80)
    ensures MultiplierRaw(roster, Big, 30) == 2.0 && MultiplierRaw(roster, Big, 80) == 4.0
  {}

  lemma GiantSizes(roster: seq<Species>)
    requires SizeRange(roster, Giant) == (60, 150)
    ensures MultiplierRaw(roster, Giant, 60) == 5.0 && MultiplierRaw(roster, Giant, 99) == 7.6
    ensures MultiplierRaw(roster, Giant, 105) == 12.0 && MultiplierRaw(roster, Giant, 150) == 16.5
  {}

  lemma LegendSizes(roster: seq<Species>)
    requires SizeRange(roster, Legend) == (100, 200)
    ensures MultiplierRaw(roster, Legend, 100) == 30.0 && MultiplierRaw(roster, Legend, 200) == 40.0
  {}

  /** The smallest and the largest fish of each tier: half as much again from a metre on, and never more than forty. */
  lemma ShippedMultipliers(tier: Tier)
    ensures
      var (least, most) := match tier
        case Small => ((5, 0.4), (25, 1.0))
        case Regular => ((15, 1.0), (35, 1.8))
        case Big => ((30, 2.0), (80, 4.0))
        case Giant => ((60, 5.0), (150, 16.5))
        case Legend => ((100, 30.0), (200, 40.0));
      && SizeRange(SPECIES, tier) == (least.0, most.0)
      && MultiplierRaw(SPECIES, tier, least.0) == least.1 && MultiplierRaw(SPECIES, tier, most.0) == most.1
  {
    SpeciesShareRanges(tier);
    match tier
    case Small => SmallSizes(SPECIES);
    case Regular => RegularSizes(SPECIES);
    case Big => BigSizes(SPECIES);
    case Giant => GiantSizes(SPECIES);
    case Legend => LegendSizes(SPECIES);
  }

  lemma ShareGrows(a: int, b: int, n: int, span: real)
    requires a <= b && 0 < n && span >= 0.0
    ensures a as real / n as real * span <= b as real / n as real * span
  {
    assert a as real / n as real <= b as real / n as real;
  }

  /** A larger fish of a tier never pays less. */
  lemma LargerPaysMore(roster: seq<Species>, tier: Tier, a: int, b: int)
    requires SizeRange(roster, tier).0 <= a <= b
    ensures MultiplierRaw(roster, tier, a) <= MultiplierRaw(roster, tier, b) <= 40.0
  {
    var (minCM, maxCM) := SizeRange(roster, tier);
    if maxCM > minCM {
      ShareGrows(a - minCM, b - minCM, maxCM - minCM, TierMult(tier).1);
      ShareIsNatural(a - minCM, maxCM - minCM, TierMult(tier).1);
    }
  }
}
