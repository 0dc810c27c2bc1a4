/** Crash recovery: settling whatever is in flight by its durable status. */
module CharityRecovery {
  // The outcome does not depend on the order, on interruptions, on reruns, or on who settles.

  import opened Options
  import opened MapSums
  import opened Charity
  import opened CharityLaws
  import opened CharityRuns

  // ---- what is still to come when everything in flight is settled ----

  ghost function RefundTo(u: UserId): Reservation -> int {
    (r: Reservation) => if r.status.Reserved? && r.consumer == u then r.price else 0
  }

  ghost function RewardTo(u: UserId): Reservation -> int {
    (r: Reservation) => if r.status.Dispatched? && r.donor == Some(u) then r.reward else 0
  }

  ghost function CallsBy(u: UserId): Reservation -> int {
    (r: Reservation) => if r.status.Dispatched? && r.donor == Some(u) then 1 else 0
  }

  ghost function ReservedOn(d: DonationId): Reservation -> int {
    (r: Reservation) => if r.status.Reserved? && r.donation == d then 1 else 0
  }

  ghost function DispatchedOn(d: DonationId): Reservation -> int {
    (r: Reservation) => if r.status.Dispatched? && r.donation == d then 1 else 0
  }

  ghost function ForecastCredits(l: Ledger, u: UserId): int
    requires u in l.users
  {
    l.users[u].credits + Sum(l.reservations, RefundTo(u)) + Sum(l.reservations, RewardTo(u))
  }

  ghost function ForecastContribution(l: Ledger, u: UserId): int
    requires u in l.users
  {
    l.users[u].donationCredit + Sum(l.reservations, CallsBy(u))
  }

  ghost function ForecastRemaining(l: Ledger, d: DonationId): int
    requires d in l.donations
  {
    l.donations[d].remaining + Sum(l.reservations, ReservedOn(d))
  }

  ghost function ForecastSuccesses(l: Ledger, d: DonationId): int
    requires d in l.donations
  {
    l.donations[d].successes + Sum(l.reservations, DispatchedOn(d))
  }

  function Fate(s: Status): Status {
    match s
    case Reserved => Released
    case Dispatched => Committed
    case _ => s
  }

  ghost predicate SameUserForecast(l: Ledger, m: Ledger, u: UserId)
    requires u in l.users && u in m.users
  {
    ForecastCredits(l, u) == ForecastCredits(m, u) && ForecastContribution(l, u) == ForecastContribution(m, u)
  }

  ghost predicate SameDonationForecast(l: Ledger, m: Ledger, d: DonationId)
    requires d in l.donations && d in m.donations
  {
    ForecastRemaining(l, d) == ForecastRemaining(m, d) && ForecastSuccesses(l, d) == ForecastSuccesses(m, d)
  }

  /** Two ledgers agree on every balance, count and fate once all calls are settled. */
  ghost predicate SameForecast(l: Ledger, m: Ledger) {
    && l.users.Keys == m.users.Keys
    && l.donations.Keys == m.donations.Keys
    && l.reservations.Keys == m.reservations.Keys
    && (forall u <- l.users :: SameUserForecast(l, m, u))
    && (forall d <- l.donations :: SameDonationForecast(l, m, d))
    && (forall k <- l.reservations :: Fate(l.reservations[k].status) == Fate(m.reservations[k].status))
  }

  lemma SameForecastTransitive(l: Ledger, m: Ledger, n: Ledger)
    requires SameForecast(l, m) && SameForecast(m, n)
    ensures SameForecast(l, n)
  {
    forall u <- l.users
      ensures SameUserForecast(l, n, u)
    {
      assert SameUserForecast(l, m, u) && SameUserForecast(m, n, u);
    }
    forall d <- l.donations
      ensures SameDonationForecast(l, n, d)
    {
      assert SameDonationForecast(l, m, d) && SameDonationForecast(m, n, d);
    }
  }

  ghost predicate Quiet(l: Ledger) {
    forall k <- l.reservations :: !InFlight(l.reservations[k])
  }

  /** Two ledgers agree on every balance, count and status now. */
  ghost predicate SameBalances(l: Ledger, m: Ledger) {
    && l.users.Keys == m.users.Keys
    && l.donations.Keys == m.donations.Keys
    && l.reservations.Keys == m.reservations.Keys
    && (forall u <- l.users ::
          l.users[u].credits == m.users[u].credits && l.users[u].donationCredit == m.users[u].donationCredit)
    && (forall d <- l.donations ::
          l.donations[d].remaining == m.donations[d].remaining && l.donations[d].successes == m.donations[d].successes)
    && (forall k <- l.reservations :: l.reservations[k].status == m.reservations[k].status)
  }

  lemma NothingToCome(l: Ledger, f: Reservation -> int)
    requires Quiet(l) && CountsInFlight(f)
    ensures Sum(l.reservations, f) == 0
  {
    SumSame(l.reservations, map[], f);
  }

  lemma QuietUser(l: Ledger, u: UserId)
    requires Quiet(l) && u in l.users
    ensures ForecastCredits(l, u) == l.users[u].credits && ForecastContribution(l, u) == l.users[u].donationCredit
  {
    NothingToCome(l, RefundTo(u));
    NothingToCome(l, RewardTo(u));
    NothingToCome(l, CallsBy(u));
  }

  lemma QuietDonation(l: Ledger, d: DonationId)
    requires Quiet(l) && d in l.donations
    ensures ForecastRemaining(l, d) == l.donations[d].remaining && ForecastSuccesses(l, d) == l.donations[d].successes
  {
    NothingToCome(l, ReservedOn(d));
    NothingToCome(l, DispatchedOn(d));
  }

  lemma QuietForecastIsBalance(l: Ledger, m: Ledger)
    requires Quiet(l) && Quiet(m) && SameForecast(l, m)
    ensures SameBalances(l, m)
  {
    forall u <- l.users
      ensures l.users[u].credits == m.users[u].credits && l.users[u].donationCredit == m.users[u].donationCredit
    {
      assert SameUserForecast(l, m, u);
      QuietUser(l, u); QuietUser(m, u);
    }
    forall d <- l.donations
      ensures l.donations[d].remaining == m.donations[d].remaining && l.donations[d].successes == m.donations[d].successes
    {
      assert SameDonationForecast(l, m, d);
      QuietDonation(l, d); QuietDonation(m, d);
    }
    forall k <- l.reservations
      ensures l.reservations[k].status == m.reservations[k].status
    {
      assert !InFlight(l.reservations[k]) && !InFlight(m.reservations[k]);
    }
  }

  // ---- settling keeps the forecast ----

  /** With its consumer and donation in place, a settlement attempt never fails. */
  lemma SettleSucceeds(l: Ledger, id: ReservationId)
    requires Valid(l)
    ensures !Settle(l, id).entry.Rejected?
    ensures id in l.reservations ==> id in Settle(l, id).after.reservations
    ensures id in l.reservations ==> !InFlight(Settle(l, id).after.reservations[id])
    ensures forall k <- l.reservations :: k != id ==>
              k in Settle(l, id).after.reservations && Settle(l, id).after.reservations[k] == l.reservations[k]
  {}

  lemma SettleKeepsUser(l: Ledger, id: ReservationId, u: UserId)
    requires Valid(l) && u in l.users
    ensures u in Settle(l, id).after.users && SameUserForecast(l, Settle(l, id).after, u)
  {
    SettleKeepsCredits(l, id, u);
    SettleKeepsContribution(l, id, u);
  }

  /** What a settlement pays a user is what was booked for it. */
  lemma SettlePaysUser(l: Ledger, id: ReservationId, u: UserId)
    requires Valid(l) && u in l.users
    ensures
      var tx := Settle(l, id);
      && u in tx.after.users
      && tx.after.users[u].credits == l.users[u].credits - Booked(l, tx, RefundTo(u)) - Booked(l, tx, RewardTo(u))
      && tx.after.users[u].donationCredit == l.users[u].donationCredit - Booked(l, tx, CallsBy(u))
  {}

  lemma SettleKeepsCredits(l: Ledger, id: ReservationId, u: UserId)
    requires Valid(l) && u in l.users
    ensures u in Settle(l, id).after.users
    ensures ForecastCredits(Settle(l, id).after, u) == ForecastCredits(l, u)
  {
    SettlePaysUser(l, id, u);
    BookedCall(l, EvSettle(id), RefundTo(u));
    BookedCall(l, EvSettle(id), RewardTo(u));
  }

  lemma SettleKeepsContribution(l: Ledger, id: ReservationId, u: UserId)
    requires Valid(l) && u in l.users
    ensures u in Settle(l, id).after.users
    ensures ForecastContribution(Settle(l, id).after, u) == ForecastContribution(l, u)
  {
    SettlePaysUser(l, id, u);
    BookedCall(l, EvSettle(id), CallsBy(u));
  }

  lemma SettleCountsOnDonation(l: Ledger, id: ReservationId, d: DonationId)
    requires Valid(l) && d in l.donations
    ensures
      var tx := Settle(l, id);
      && d in tx.after.donations
      && tx.after.donations[d].remaining == l.donations[d].remaining - Booked(l, tx, ReservedOn(d))
      && tx.after.donations[d].successes == l.donations[d].successes - Booked(l, tx, DispatchedOn(d))
  {}

  lemma SettleKeepsDonation(l: Ledger, id: ReservationId, d: DonationId)
    requires Valid(l) && d in l.donations
    ensures d in Settle(l, id).after.donations && SameDonationForecast(l, Settle(l, id).after, d)
  {
    SettleCountsOnDonation(l, id, d);
    BookedCall(l, EvSettle(id), ReservedOn(d));
    BookedCall(l, EvSettle(id), DispatchedOn(d));
  }

  lemma SettleKeepsRows(l: Ledger, id: ReservationId)
    requires Valid(l)
    ensures var m := Settle(l, id).after;
      && l.users.Keys == m.users.Keys
      && l.donations.Keys == m.donations.Keys
      && l.reservations.Keys == m.reservations.Keys
      && (forall k <- l.reservations :: Fate(l.reservations[k].status) == Fate(m.reservations[k].status))
  {}

  lemma SettleKeepsForecast(l: Ledger, id: ReservationId)
    requires Valid(l)
    ensures SameForecast(l, Settle(l, id).after)
  {
    SettleKeepsRows(l, id);
    forall u <- l.users { SettleKeepsUser(l, id, u); }
    forall d <- l.donations { SettleKeepsDonation(l, id, d); }
  }

  ghost predicate SettlesOnly(es: seq<TimedEvent>) {
    forall e <- es :: e.event.OnCall? && e.event.call.EvSettle?
  }

  lemma ClockKeepsForecast(l: Ledger, now: int)
    ensures SameForecast(l, l.(clock := now))
  {
    forall u <- l.users
      ensures SameUserForecast(l, l.(clock := now), u)
    {}
    forall d <- l.donations
      ensures SameDonationForecast(l, l.(clock := now), d)
    {}
  }

  lemma StepKeepsForecast(l: Ledger, e: TimedEvent)
    requires Valid(l) && l.clock <= e.now && e.event.OnCall? && e.event.call.EvSettle?
    ensures Valid(Step(l, e).after) && Step(l, e).after.clock == e.now
    ensures SameForecast(l, Step(l, e).after)
  {
    var m := l.(clock := e.now);
    ClockKeepsValid(l, e.now);
    StepConserves(l, e);
    SettleKeepsForecast(m, e.event.call.id);
    ClockKeepsForecast(l, e.now);
    SameForecastTransitive(l, m, Step(l, e).after);
  }

  lemma {:induction false} RecoveryKeepsForecast(l: Ledger, es: seq<TimedEvent>)
    requires Valid(l) && Ordered(l.clock, es) && SettlesOnly(es)
    ensures SameForecast(l, Run(l, es).final)
    decreases es
  {
    if es != [] {
      var after := Step(l, es[0]).after;
      StepKeepsForecast(l, es[0]);
      RecoveryKeepsForecast(after, es[1..]);
      SameForecastTransitive(l, after, Run(l, es).final);
    }
  }

  /**
   Any two recoveries that leave nothing in flight, however they were ordered, interrupted
   and resumed, end with the same balances, counts and statuses.
   */
  lemma RecoveryIsUnique(l: Ledger, es: seq<TimedEvent>, fs: seq<TimedEvent>)
    requires Valid(l) && Ordered(l.clock, es) && Ordered(l.clock, fs) && SettlesOnly(es) && SettlesOnly(fs)
    requires Quiet(Run(l, es).final) && Quiet(Run(l, fs).final)
    ensures SameBalances(Run(l, es).final, Run(l, fs).final)
  {
    RecoveryKeepsForecast(l, es);
    RecoveryKeepsForecast(l, fs);
    QuietForecastIsBalance(Run(l, es).final, Run(l, fs).final);
  }

  ghost predicate Covers(es: seq<TimedEvent>, id: ReservationId) {
    exists e <- es :: e.event.OnCall? && e.event.call == EvSettle(id)
  }

  lemma SettlingStep(l: Ledger, e: TimedEvent)
    requires Valid(l) && l.clock <= e.now && e.event.OnCall? && e.event.call.EvSettle?
    ensures
      var tx, id := Step(l, e), e.event.call.id;
      && Valid(tx.after) && tx.after.clock == e.now && !tx.entry.Rejected?
      && tx.after.reservations.Keys == l.reservations.Keys
      && (id in l.reservations ==> !InFlight(tx.after.reservations[id]))
      && forall k <- l.reservations :: k != id ==> tx.after.reservations[k] == l.reservations[k]
  {
    ClockKeepsValid(l, e.now);
    SettleSucceeds(l.(clock := e.now), e.event.call.id);
    SettleKeepsRows(l.(clock := e.now), e.event.call.id);
    StepConserves(l, e);
  }

  /** Recovery settles what it visits and never fails on the way. */
  lemma {:induction false} RecoverySettles(l: Ledger, es: seq<TimedEvent>)
    requires Valid(l) && Ordered(l.clock, es) && SettlesOnly(es)
    ensures forall e <- Run(l, es).history :: !e.Rejected?
    ensures Run(l, es).final.reservations.Keys == l.reservations.Keys
    ensures forall k <- l.reservations ::
              InFlight(Run(l, es).final.reservations[k]) ==> InFlight(l.reservations[k]) && !Covers(es, k)
    decreases es
  {
    if es != [] {
      var tx := Step(l, es[0]);
      SettlingStep(l, es[0]);
      RecoverySettles(tx.after, es[1..]);
      forall k <- l.reservations | InFlight(Run(l, es).final.reservations[k])
        ensures InFlight(l.reservations[k]) && !Covers(es, k)
      {
        assert InFlight(tx.after.reservations[k]) && !Covers(es[1..], k);
      }
    }
  }

  type Rows = map<ReservationId, Reservation>

  /** Exactly the rows in `pending` are in flight, and they are as they were at `start`. */
  ghost predicate PendingRows(start: Rows, rows: Rows, pending: set<ReservationId>) {
    && pending <= start.Keys && pending <= rows.Keys
    && (forall k <- rows :: InFlight(rows[k]) <==> k in pending)
    && (forall k <- pending :: rows[k] == start[k])
  }

  /** A recovery that began at `start` and still has `pending` to settle. */
  ghost predicate Recovering(start: Ledger, l: Ledger, pending: set<ReservationId>) {
    Valid(l) && PendingRows(start.reservations, l.reservations, pending)
  }

  ghost predicate OneRowSettled(rows: Rows, after: Rows, id: ReservationId) {
    && rows.Keys == after.Keys && id in rows && !InFlight(after[id])
    && (forall k <- rows :: k != id ==> after[k] == rows[k])
  }

  lemma PendingStep(start: Rows, rows: Rows, after: Rows, pending: set<ReservationId>, id: ReservationId)
    requires PendingRows(start, rows, pending) && OneRowSettled(rows, after, id)
    ensures PendingRows(start, after, pending - {id})
  {}

  lemma SettlesOneRow(l: Ledger, id: ReservationId)
    requires Valid(l) && id in l.reservations
    ensures OneRowSettled(l.reservations, Settle(l, id).after.reservations, id)
  {
    SettleSucceeds(l, id);
  }

  lemma RecoveringStep(start: Ledger, l: Ledger, pending: set<ReservationId>, id: ReservationId)
    requires Recovering(start, l, pending) && id in pending
    ensures Recovering(start, Settle(l, id).after, pending - {id})
  {
    SettlesOneRow(l, id);
    PendingStep(start.reservations, l.reservations, Settle(l, id).after.reservations, pending, id);
    CallKeepsValid(l, EvSettle(id));
  }

  lemma ForecastStep(start: Ledger, l: Ledger, id: ReservationId)
    requires Valid(l) && SameForecast(start, l)
    ensures SameForecast(start, Settle(l, id).after)
  {
    SettleKeepsForecast(l, id);
    SameForecastTransitive(start, l, Settle(l, id).after);
  }

  ghost function WithStatus(rows: Rows, s: Status): set<ReservationId> {
    set k <- rows | rows[k].status == s
  }

  ghost function Visited(start: Rows, s: Status, pending: set<ReservationId>): nat {
    |WithStatus(start, s) - pending|
  }

  /** How many rows of each status have been visited, as visiting goes on. */
  lemma VisitedOneMore(start: Rows, rows: Rows, pending: set<ReservationId>, id: ReservationId)
    requires PendingRows(start, rows, pending) && id in pending
    ensures
      var reserved := rows[id].status == Reserved;
      && Visited(start, Reserved, pending - {id}) == Visited(start, Reserved, pending) + (if reserved then 1 else 0)
      && Visited(start, Dispatched, pending - {id}) == Visited(start, Dispatched, pending) + (if reserved then 0 else 1)
  {
    OneMore(WithStatus(start, Reserved), pending, id);
    OneMore(WithStatus(start, Dispatched), pending, id);
  }

  lemma OneMore(all: set<ReservationId>, pending: set<ReservationId>, id: ReservationId)
    requires id in pending
    ensures |all - (pending - {id})| == |all - pending| + if id in all then 1 else 0
  {
    assert all - (pending - {id}) == (all - pending) + if id in all then {id} else {};
  }

  lemma VisitedBounds(start: Rows)
    ensures forall s: Status | s.Reserved? || s.Dispatched? ::
              Visited(start, s, set k <- start | InFlight(start[k])) == 0 && Visited(start, s, {}) == |WithStatus(start, s)|
  {
    forall s: Status | s.Reserved? || s.Dispatched?
      ensures WithStatus(start, s) - (set k <- start | InFlight(start[k])) == {}
      ensures WithStatus(start, s) - {} == WithStatus(start, s)
    {}
  }
}
