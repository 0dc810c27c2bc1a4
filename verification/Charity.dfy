/**
 The durable ledger behind charity calls: users, donations, charity reservations and
 game rounds, and the transactions on them. Every transaction is one atomic step; a
 transaction that fails is rolled back, so its `Tx` holds the unchanged ledger.

 `clock` is the time, in unix seconds, at which the current transaction runs.
 */
module Charity {
  import opened Options

  type UserId = nat
  type DonationId = nat
  type ReservationId = string
  type RoundId = string

  datatype DonationStatus = Active | Inactive | Expired
  datatype Status = Reserved | Dispatched | Committed | Released

  datatype User = User(credits: int, donationCredit: int, lastCheckinDay: string, admin: bool)

  datatype Donation = Donation(
    source: Option<UserId>, deadline: int, total: int, remaining: int,
    successes: int, failures: int, consecutive: int, status: DonationStatus)

  /** Price, reward and donor are snapshots taken when the call is reserved. */
  datatype Reservation = Reservation(
    consumer: UserId, donation: DonationId, donor: Option<UserId>,
    price: int, reward: int, status: Status, updatedAt: int)

  datatype Round = Round(player: UserId, won: int, settled: bool, createdAt: int)

  datatype Ledger = Ledger(
    clock: int, nextUser: nat, nextDonation: nat,
    users: map<UserId, User>, donations: map<DonationId, Donation>,
    reservations: map<ReservationId, Reservation>, rounds: map<RoundId, Round>)

  datatype Error =
    | NegativeAmount | DonationUnavailable | InsufficientCredits | DuplicateKey
    | NoSuchRow | NotDispatchable | NotDispatched | AlreadyReleased | AlreadyCommitted
    | MustCommit | DonationGone | StillInFlight | AdministratorRow | ExpiredDonation
    | InvalidPatch | PricingAbsent | RecordAbsent | AlreadyCheckedIn | CreditsCapped

  /** What a transaction did, as its caller and the books see it. */
  datatype Entry =
    | Rejected(error: Error)
    | Unchanged
    | DidReserve(id: ReservationId, price: int)
    | DidDispatch(id: ReservationId)
    | DidCommit(id: ReservationId, price: int, paid: int)
    | DidRelease(id: ReservationId, refund: int, consecutive: int)
    | DidCheckIn(bonus: int)
    | DidStartRound(round: RoundId, ticket: int)
    | DidSettleRound(round: RoundId, payout: int)
    | DidAdjust(delta: int)
    | DidCloseAccount(balance: int)
    | DidHousekeeping

  datatype Tx = Tx(after: Ledger, entry: Entry)

  predicate InFlight(r: Reservation) {
    r.status.Reserved? || r.status.Dispatched?
  }

  predicate Routable(d: Donation, now: int) {
    d.status.Active? && d.deadline > now && d.remaining > 0
  }

  predicate DonationInFlight(reservations: map<ReservationId, Reservation>, id: DonationId) {
    exists k <- reservations :: InFlight(reservations[k]) && reservations[k].donation == id
  }

  predicate UserInFlight(reservations: map<ReservationId, Reservation>, id: UserId) {
    exists k <- reservations ::
      InFlight(reservations[k]) && (reservations[k].consumer == id || reservations[k].donor == Some(id))
  }

  // ---- reservations ----

  function Reserve(l: Ledger, id: ReservationId, user: UserId, donation: DonationId, price: int, reward: int): Tx {
    if price < 0 || reward < 0 then Tx(l, Rejected(NegativeAmount))
    else if donation !in l.donations || !Routable(l.donations[donation], l.clock) then
      Tx(l, Rejected(DonationUnavailable))
    else if user !in l.users || l.users[user].credits < price then Tx(l, Rejected(InsufficientCredits))
    else if id in l.reservations then Tx(l, Rejected(DuplicateKey))
    else
      var d := l.donations[donation];
      var u := l.users[user];
      var left := d.remaining - 1;
      var row := Reservation(user, donation, d.source, price, reward, Reserved, l.clock);
      Tx(l.(donations := l.donations[donation :=
                           d.(remaining := left, status := if left <= 0 then Expired else d.status)],
            users := l.users[user := u.(credits := u.credits - price)],
            reservations := l.reservations[id := row]),
         DidReserve(id, price))
  }

  function MarkDispatched(l: Ledger, id: ReservationId): Tx {
    if id !in l.reservations then Tx(l, Rejected(NotDispatchable))
    else
      var r := l.reservations[id];
      match r.status
      case Reserved =>
        Tx(l.(reservations := l.reservations[id := r.(status := Dispatched, updatedAt := l.clock)]), DidDispatch(id))
      case Dispatched => Tx(l, Unchanged)
      case _ => Tx(l, Rejected(NotDispatchable))
  }

  function Commit(l: Ledger, id: ReservationId): Tx {
    if id !in l.reservations then Tx(l, Rejected(NoSuchRow))
    else
      var r := l.reservations[id];
      match r.status
      case Committed => Tx(l, Unchanged)
      case Released => Tx(l, Rejected(AlreadyReleased))
      case Reserved => Tx(l, Rejected(NotDispatched))
      case Dispatched =>
        if r.donation !in l.donations then Tx(l, Rejected(DonationGone))
        else
          var d := l.donations[r.donation];
          var paid := r.donor.Some? && r.donor.value in l.users;
          Tx(l.(donations := l.donations[r.donation := d.(successes := d.successes + 1, consecutive := 0)],
                users := if paid then l.users[r.donor.value := Rewarded(l.users[r.donor.value], r.reward)] else l.users,
                reservations := l.reservations[id := r.(status := Committed, updatedAt := l.clock)]),
             DidCommit(id, r.price, if paid then r.reward else 0))
  }

  function Rewarded(u: User, reward: int): User {
    u.(donationCredit := u.donationCredit + 1, credits := u.credits + reward)
  }

  function Release(l: Ledger, id: ReservationId, countFailure: bool): Tx {
    if id !in l.reservations then Tx(l, Rejected(NoSuchRow))
    else
      var r := l.reservations[id];
      match r.status
      case Released => Tx(l, Unchanged)
      case Committed => Tx(l, Rejected(AlreadyCommitted))
      case Dispatched => Tx(l, Rejected(MustCommit))
      case Reserved =>
        if r.donation !in l.donations then Tx(l, Rejected(DonationGone))
        else
          var d := Restored(l.donations[r.donation], l.clock, if countFailure then 1 else 0);
          var refunded :=
            if r.consumer in l.users then
              l.users[r.consumer := l.users[r.consumer].(credits := l.users[r.consumer].credits + r.price)]
            else l.users;
          Tx(l.(donations := l.donations[r.donation := d],
                users := refunded,
                reservations := l.reservations[id := r.(status := Released, updatedAt := l.clock)]),
             DidRelease(id, if r.consumer in l.users then r.price else 0, if countFailure then d.consecutive else 0))
  }

  /** The row after a use is given back. The CASE reads the values before the update. */
  function Restored(d: Donation, now: int, failure: int): Donation {
    d.(remaining := d.remaining + 1, failures := d.failures + failure, consecutive := d.consecutive + failure,
       status := if d.status.Expired? && d.remaining == 0 && d.deadline > now then Active else d.status)
  }

  /** One settlement attempt, decided by the durable status alone. */
  function Settle(l: Ledger, id: ReservationId): Tx {
    if id !in l.reservations then Tx(l, Unchanged)
    else
      match l.reservations[id].status
      case Reserved => Release(l, id, false)
      case Dispatched => Commit(l, id)
      case _ => Tx(l, Unchanged)
  }

  function PurgeSettled(l: Ledger, before: int): Tx {
    Tx(l.(reservations := map k | k in l.reservations
                            && (InFlight(l.reservations[k]) || l.reservations[k].updatedAt >= before)
                            :: l.reservations[k]),
       DidHousekeeping)
  }

  // ---- donations ----

  /**
   A named source was looked up in an earlier step, so it has been registered by now;
   it may have been deleted since, and the insert does not look again.
   */
  function CreateDonation(l: Ledger, source: Option<UserId>, deadline: int, total: int): Tx {
    if source.Some? && source.value >= l.nextUser then Tx(l, Rejected(NoSuchRow))
    else if total <= 0 || deadline <= 0 then Tx(l, Rejected(InvalidPatch))
    else
      Tx(l.(nextDonation := l.nextDonation + 1,
            donations := l.donations[l.nextDonation := Donation(source, deadline, total, total, 0, 0, 0, Inactive)]),
         DidHousekeeping)
  }

  /** `recordMissing`: a review note is to be written, and no application refers to the donation. */
  datatype Patch = Patch(
    rpmLimit: Option<int>, deadline: Option<int>, total: Option<int>, activate: Option<bool>, recordMissing: bool)

  /** `remaining` follows a change of `total`, but not below zero. */
  function ShiftedRemaining(d: Donation, total: int): int {
    var shifted := d.remaining + total - d.total;
    if shifted < 0 then 0 else shifted
  }

  function PatchDonation(l: Ledger, id: DonationId, p: Patch, priced: bool): Tx {
    if id !in l.donations then Tx(l, Rejected(NoSuchRow))
    else
      var d := l.donations[id];
      if d.status.Expired? then Tx(l, Rejected(ExpiredDonation))
      else if p.rpmLimit.Some? && p.rpmLimit.value <= 0 then Tx(l, Rejected(InvalidPatch))
      else if p.deadline.Some? && p.deadline.value <= l.clock then Tx(l, Rejected(InvalidPatch))
      else if p.total.Some? && p.total.value <= 0 then Tx(l, Rejected(InvalidPatch))
      else
        var status := if p.activate.None? then d.status else if p.activate.value then Active else Inactive;
        var activated := !d.status.Active? && status.Active?;
        if activated && !priced then Tx(l, Rejected(PricingAbsent))
        else if p.recordMissing then Tx(l, Rejected(RecordAbsent))
        else
          var patched := d.(deadline := if p.deadline.Some? then p.deadline.value else d.deadline,
                            remaining := if p.total.Some? then ShiftedRemaining(d, p.total.value) else d.remaining,
                            total := if p.total.Some? then p.total.value else d.total,
                            consecutive := if activated then 0 else d.consecutive,
                            status := status);
          Tx(l.(donations := l.donations[id := patched]), DidHousekeeping)
  }

  function SwitchedTo(d: Donation, active: bool): Donation {
    if active then d.(status := Active, consecutive := 0) else d.(status := Inactive)
  }

  /** The unvalidated status write; its callers have looked at the row in an earlier step. */
  function SetDonationStatus(l: Ledger, id: DonationId, active: bool): Tx {
    if id !in l.donations then Tx(l, DidHousekeeping)
    else Tx(l.(donations := l.donations[id := SwitchedTo(l.donations[id], active)]), DidHousekeeping)
  }

  function BatchStatusError(l: Ledger, ids: seq<DonationId>, active: bool, priced: set<DonationId>): Option<Error> {
    if ids == [] then None
    else if ids[0] !in l.donations then Some(NoSuchRow)
    else if l.donations[ids[0]].status.Expired? then Some(ExpiredDonation)
    else if active && ids[0] !in priced then Some(PricingAbsent)
    else BatchStatusError(l, ids[1..], active, priced)
  }

  function BatchSetDonationStatus(l: Ledger, ids: seq<DonationId>, active: bool, priced: set<DonationId>): Tx {
    var e := BatchStatusError(l, ids, active, priced);
    if e.Some? then Tx(l, Rejected(e.value))
    else
      Tx(l.(donations := map k | k in l.donations ::
              if k in ids then SwitchedTo(l.donations[k], active) else l.donations[k]),
         DidHousekeeping)
  }

  /** Expired entries of a user's service become inactive when the user regenerates a template. */
  function InvalidateDonations(l: Ledger, scope: set<DonationId>): Tx {
    Tx(l.(donations := map k | k in l.donations ::
            if k in scope && l.donations[k].status.Expired? then l.donations[k].(status := Inactive) else l.donations[k]),
       DidHousekeeping)
  }

  function ExpireOverdue(l: Ledger): Tx {
    Tx(l.(donations := map k | k in l.donations ::
            if l.donations[k].deadline <= l.clock then l.donations[k].(status := Expired) else l.donations[k]),
       DidHousekeeping)
  }

  function RemainingDonations(l: Ledger, donations: map<DonationId, Donation>, ids: seq<DonationId>)
    : Result<map<DonationId, Donation>, Error>
  {
    if ids == [] then Ok(donations)
    else if DonationInFlight(l.reservations, ids[0]) then Err(StillInFlight)
    else if ids[0] !in donations then Err(NoSuchRow)
    else RemainingDonations(l, donations - {ids[0]}, ids[1..])
  }

  function DeleteDonations(l: Ledger, ids: seq<DonationId>): Tx {
    match RemainingDonations(l, l.donations, ids)
    case Ok(rest) => Tx(l.(donations := rest), DidHousekeeping)
    case Err(e) => Tx(l, Rejected(e))
  }

  // ---- users and games ----

  function CreateUser(l: Ledger): Tx {
    Tx(l.(nextUser := l.nextUser + 1, users := l.users[l.nextUser := User(0, 0, "", false)]), DidHousekeeping)
  }

  /** A settled row that names a deleted user keeps its other party, or goes. */
  function Anonymised(r: Reservation, id: UserId): Option<Reservation> {
    if (r.consumer == id && (r.donor.None? || r.donor == Some(id))) || (r.donor == Some(id) && r.consumer == 0) then None
    else Some(r.(consumer := if r.consumer == id then 0 else r.consumer,
                 donor := if r.donor == Some(id) then None else r.donor))
  }

  function AnonymisedRows(rows: map<ReservationId, Reservation>, id: UserId): map<ReservationId, Reservation> {
    map k | k in rows && Anonymised(rows[k], id).Some? :: Anonymised(rows[k], id).value
  }

  function DeleteUser(l: Ledger, id: UserId): Tx {
    if id !in l.users then Tx(l, Rejected(NoSuchRow))
    else if l.users[id].admin then Tx(l, Rejected(AdministratorRow))
    else if UserInFlight(l.reservations, id) then Tx(l, Rejected(StillInFlight))
    else
      Tx(l.(users := l.users - {id},
            reservations := AnonymisedRows(l.reservations, id),
            donations := map k | k in l.donations ::
              if l.donations[k].source == Some(id) then l.donations[k].(source := None) else l.donations[k],
            rounds := map k | k in l.rounds && l.rounds[k].player != id :: l.rounds[k]),
         DidCloseAccount(l.users[id].credits))
  }

  function CheckIn(l: Ledger, user: UserId, day: string, bonus: int, cap: int, bypassCap: bool): Tx {
    if user !in l.users then Tx(l, Rejected(NoSuchRow))
    else
      var u := l.users[user];
      if u.lastCheckinDay == day then Tx(l, Rejected(AlreadyCheckedIn))
      else if !bypassCap && u.credits >= cap then Tx(l, Rejected(CreditsCapped))
      else Tx(l.(users := l.users[user := u.(lastCheckinDay := day, credits := u.credits + bonus)]), DidCheckIn(bonus))
  }

  function AdjustCredits(l: Ledger, user: UserId, delta: int): Tx {
    if user !in l.users then Tx(l, Rejected(NoSuchRow))
    else
      var u := l.users[user];
      Tx(l.(users := l.users[user := u.(credits := u.credits + delta)]), DidAdjust(delta))
  }

  function SetCredits(l: Ledger, user: UserId, credits: int): Tx {
    if user !in l.users then Tx(l, Unchanged)
    else
      var u := l.users[user];
      Tx(l.(users := l.users[user := u.(credits := credits)]), DidAdjust(credits - u.credits))
  }

  /** `won` is the outcome drawn when the round starts. */
  function StartRound(l: Ledger, id: RoundId, user: UserId, price: int, won: int): Tx {
    if price <= 0 then Tx(l, Rejected(InvalidPatch))
    else if user !in l.users then Tx(l, Rejected(NoSuchRow))
    else if l.users[user].admin then Tx(l, Rejected(AdministratorRow))
    else if l.users[user].credits < price then Tx(l, Rejected(InsufficientCredits))
    else if id in l.rounds then Tx(l, Rejected(DuplicateKey))
    else
      var u := l.users[user];
      Tx(l.(users := l.users[user := u.(credits := u.credits - price)],
            rounds := l.rounds[id := Round(user, won, false, l.clock)]),
         DidStartRound(id, price))
  }

  function SettleRound(l: Ledger, id: RoundId, user: UserId): Tx {
    if id !in l.rounds || l.rounds[id].player != user then Tx(l, Rejected(NoSuchRow))
    else if user !in l.users then Tx(l, Rejected(NoSuchRow))
    else if l.rounds[id].settled then Tx(l, Unchanged)
    else
      var round := l.rounds[id];
      var u := l.users[user];
      var payout := if round.won > 0 then round.won else 0;
      Tx(l.(users := l.users[user := u.(credits := u.credits + payout)],
            rounds := l.rounds[id := round.(settled := true)]),
         DidSettleRound(id, payout))
  }

  function PurgeRounds(l: Ledger, cutoff: int): Tx {
    Tx(l.(rounds := map k | k in l.rounds && l.rounds[k].createdAt >= cutoff :: l.rounds[k]), DidHousekeeping)
  }

  // ---- one step of a run ----

  datatype CallEvent =
    | EvReserve(id: ReservationId, user: UserId, donation: DonationId, price: int, reward: int)
    | EvMark(id: ReservationId)
    | EvCommit(id: ReservationId)
    | EvRelease(id: ReservationId, countFailure: bool)
    | EvSettle(id: ReservationId)

  datatype DonationEvent =
    | EvCreateDonation(source: Option<UserId>, deadline: int, total: int)
    | EvPatch(donation: DonationId, patch: Patch, priced: bool)
    | EvSetStatus(donation: DonationId, active: bool)
    | EvBatchStatus(ids: seq<DonationId>, active: bool, pricedIds: set<DonationId>)
    | EvInvalidate(scope: set<DonationId>)
    | EvExpireOverdue
    | EvDeleteDonations(ids: seq<DonationId>)

  datatype AccountEvent =
    | EvCreateUser
    | EvDeleteUser(user: UserId)
    | EvCheckIn(user: UserId, day: string, bonus: int, cap: int, bypassCap: bool)
    | EvAdjustCredits(user: UserId, delta: int)
    | EvSetCredits(user: UserId, credits: int)
    | EvStartRound(round: RoundId, user: UserId, price: int, won: int)
    | EvSettleRound(round: RoundId, user: UserId)

  datatype PurgeEvent =
    | EvPurgeSettled(before: int)
    | EvPurgeRounds(cutoff: int)

  datatype Event =
    | OnCall(call: CallEvent)
    | OnDonation(onDonation: DonationEvent)
    | OnAccount(account: AccountEvent)
    | OnPurge(purge: PurgeEvent)

  function ApplyCall(l: Ledger, e: CallEvent): Tx {
    match e
    case EvReserve(id, user, donation, price, reward) => Reserve(l, id, user, donation, price, reward)
    case EvMark(id) => MarkDispatched(l, id)
    case EvCommit(id) => Commit(l, id)
    case EvRelease(id, countFailure) => Release(l, id, countFailure)
    case EvSettle(id) => Settle(l, id)
  }

  function ApplyDonation(l: Ledger, e: DonationEvent): Tx {
    match e
    case EvCreateDonation(source, deadline, total) => CreateDonation(l, source, deadline, total)
    case EvPatch(id, patch, priced) => PatchDonation(l, id, patch, priced)
    case EvSetStatus(id, active) => SetDonationStatus(l, id, active)
    case EvBatchStatus(ids, active, priced) => BatchSetDonationStatus(l, ids, active, priced)
    case EvInvalidate(scope) => InvalidateDonations(l, scope)
    case EvExpireOverdue => ExpireOverdue(l)
    case EvDeleteDonations(ids) => DeleteDonations(l, ids)
  }

  function ApplyAccount(l: Ledger, e: AccountEvent): Tx {
    match e
    case EvCreateUser => CreateUser(l)
    case EvDeleteUser(user) => DeleteUser(l, user)
    case EvCheckIn(user, day, bonus, cap, bypass) => CheckIn(l, user, day, bonus, cap, bypass)
    case EvAdjustCredits(user, delta) => AdjustCredits(l, user, delta)
    case EvSetCredits(user, credits) => SetCredits(l, user, credits)
    case EvStartRound(round, user, price, won) => StartRound(l, round, user, price, won)
    case EvSettleRound(round, user) => SettleRound(l, round, user)
  }

  function ApplyPurge(l: Ledger, e: PurgeEvent): Tx {
    match e
    case EvPurgeSettled(before) => PurgeSettled(l, before)
    case EvPurgeRounds(cutoff) => PurgeRounds(l, cutoff)
  }

  function Apply(l: Ledger, e: Event): Tx {
    match e
    case OnCall(call) => ApplyCall(l, call)
    case OnDonation(don) => ApplyDonation(l, don)
    case OnAccount(account) => ApplyAccount(l, account)
    case OnPurge(purge) => ApplyPurge(l, purge)
  }

  datatype TimedEvent = TimedEvent(now: int, event: Event)

  function Step(l: Ledger, e: TimedEvent): Tx {
    Apply(l.(clock := e.now), e.event)
  }

  /** The clock never runs backwards over a schedule. */
  ghost predicate Ordered(clock: int, es: seq<TimedEvent>)
    decreases es
  {
    es == [] || (clock <= es[0].now && Ordered(es[0].now, es[1..]))
  }

  datatype Trace = Trace(final: Ledger, history: seq<Entry>)

  /** Any interleaving of the request path, the worker, the scans and the administrators is a schedule. */
  function Run(l: Ledger, es: seq<TimedEvent>): Trace
    decreases es
  {
    if es == [] then Trace(l, [])
    else
      var tx := Step(l, es[0]);
      var rest := Run(tx.after, es[1..]);
      Trace(rest.final, [tx.entry] + rest.history)
  }
}
