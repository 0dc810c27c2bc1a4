/** What every transaction on the ledger keeps. */
module CharityLaws {
  // Referential integrity of calls in flight, conservation of credits and conservation of donation uses.

  import opened Options
  import opened MapSums
  import opened Charity

  // ---- columns that are summed ----

  ghost function Balance(): User -> int {
    (u: User) => u.credits
  }

  ghost function HeldPrice(): Reservation -> int {
    (r: Reservation) => if InFlight(r) then r.price else 0
  }

  ghost function UseOf(d: DonationId): Reservation -> int {
    (r: Reservation) => if InFlight(r) && r.donation == d then 1 else 0
  }

  ghost function Balances(l: Ledger): int {
    Sum(l.users, Balance())
  }

  /** All credits of the system: balances, and prices of calls in flight. */
  ghost function Wealth(l: Ledger): int {
    Balances(l) + Sum(l.reservations, HeldPrice())
  }

  /** The number of uses of a donation that calls in flight hold. */
  ghost function UsesInFlight(l: Ledger, d: DonationId): int {
    Sum(l.reservations, UseOf(d))
  }

  ghost function Tally(l: Ledger, d: DonationId): int
    requires d in l.donations
  {
    l.donations[d].remaining + l.donations[d].successes - l.donations[d].total
  }

  /** How far uses left, held and consumed together exceed the donated total. */
  ghost function Slack(l: Ledger, d: DonationId): int
    requires d in l.donations
  {
    Tally(l, d) + UsesInFlight(l, d)
  }

  /** What an entry adds to the wealth of the system; reserving and refunding only move credits. */
  function Value(e: Entry): int {
    match e
    case DidCommit(_, price, paid) => paid - price
    case DidCheckIn(bonus) => bonus
    case DidStartRound(_, ticket) => -ticket
    case DidSettleRound(_, payout) => payout
    case DidAdjust(delta) => delta
    case DidCloseAccount(balance) => -balance
    case _ => 0
  }

  // ---- the invariant ----

  ghost predicate Registered(l: Ledger, source: Option<UserId>) {
    source.Some? ==> source.value < l.nextUser
  }

  /** A call in flight can be settled either way: its consumer and its donation exist. */
  ghost predicate ReservationOk(l: Ledger, r: Reservation) {
    && Registered(l, r.donor)
    && (InFlight(r) ==> r.consumer in l.users && r.donation in l.donations && r.price >= 0 && r.reward >= 0)
  }

  /** An expired donation whose deadline is still ahead was exhausted by reservations. */
  ghost predicate DonationOk(l: Ledger, d: Donation) {
    && d.remaining >= 0
    && (d.status.Expired? && d.deadline > l.clock ==> d.remaining == 0)
    && Registered(l, d.source)
  }

  ghost predicate Valid(l: Ledger) {
    && 0 < l.nextUser
    && (forall u <- l.users :: 0 < u < l.nextUser)
    && (forall d <- l.donations :: d < l.nextDonation && DonationOk(l, l.donations[d]))
    && (forall k <- l.reservations :: ReservationOk(l, l.reservations[k]))
  }

  lemma ApplyKeepsValid(l: Ledger, e: Event)
    requires Valid(l)
    ensures Valid(Apply(l, e).after)
  {
    match e
    case OnCall(call) => CallKeepsValid(l, call);
    case OnDonation(don) => DonationKeepsValid(l, don);
    case OnAccount(account) => AccountKeepsValid(l, account);
    case OnPurge(_) =>
  }

  lemma CallKeepsValid(l: Ledger, e: CallEvent)
    requires Valid(l)
    ensures Valid(ApplyCall(l, e).after)
  {
    match e
    case EvReserve(id, user, donation, price, reward) => ReserveKeepsValid(l, id, user, donation, price, reward);
    case EvMark(id) => MarkKeepsValid(l, id);
    case EvCommit(id) => CommitKeepsValid(l, id);
    case EvRelease(id, countFailure) => ReleaseKeepsValid(l, id, countFailure);
    case EvSettle(id) => CommitKeepsValid(l, id); ReleaseKeepsValid(l, id, false);
  }

  lemma ReserveKeepsValid(l: Ledger, id: ReservationId, user: UserId, donation: DonationId, price: int, reward: int)
    requires Valid(l)
    ensures Valid(Reserve(l, id, user, donation, price, reward).after)
  {}

  lemma MarkKeepsValid(l: Ledger, id: ReservationId)
    requires Valid(l)
    ensures Valid(MarkDispatched(l, id).after)
  {}

  lemma CommitKeepsValid(l: Ledger, id: ReservationId)
    requires Valid(l)
    ensures Valid(Commit(l, id).after)
  {}

  lemma ReleaseKeepsValid(l: Ledger, id: ReservationId, countFailure: bool)
    requires Valid(l)
    ensures Valid(Release(l, id, countFailure).after)
  {}

  lemma DonationKeepsValid(l: Ledger, e: DonationEvent)
    requires Valid(l)
    ensures Valid(ApplyDonation(l, e).after)
  {
    match e
    case EvDeleteDonations(ids) => DeletedAreIdle(l, l.donations, ids);
    case EvPatch(id, patch, priced) => PatchKeepsValid(l, id, patch, priced);
    case EvCreateDonation(_, _, _) =>
    case _ => StatusKeepsValid(l, e);
  }

  lemma PatchKeepsValid(l: Ledger, id: DonationId, patch: Patch, priced: bool)
    requires Valid(l)
    ensures Valid(PatchDonation(l, id, patch, priced).after)
  {}

  lemma StatusKeepsValid(l: Ledger, e: DonationEvent)
    requires e.EvSetStatus? || e.EvBatchStatus? || e.EvInvalidate? || e.EvExpireOverdue?
    requires Valid(l)
    ensures Valid(ApplyDonation(l, e).after)
  {}

  lemma AccountKeepsValid(l: Ledger, e: AccountEvent)
    requires Valid(l)
    ensures Valid(ApplyAccount(l, e).after)
  {}

  /** What a batch deletion removes has no call in flight. */
  lemma {:induction false} DeletedAreIdle(l: Ledger, donations: map<DonationId, Donation>, ids: seq<DonationId>)
    ensures
      var rest := RemainingDonations(l, donations, ids);
      rest.Ok? ==>
        && rest.value.Keys <= donations.Keys
        && (forall d <- rest.value :: rest.value[d] == donations[d])
        && (forall d <- donations :: d !in rest.value ==> !DonationInFlight(l.reservations, d))
    decreases ids
  {
    if ids != [] && !DonationInFlight(l.reservations, ids[0]) && ids[0] in donations {
      DeletedAreIdle(l, donations - {ids[0]}, ids[1..]);
    }
  }

  lemma ClockKeepsValid(l: Ledger, now: int)
    requires Valid(l) && l.clock <= now
    ensures Valid(l.(clock := now))
  {}

  lemma StepKeepsValid(l: Ledger, e: TimedEvent)
    requires Valid(l) && l.clock <= e.now
    ensures Valid(Step(l, e).after)
  {
    ClockKeepsValid(l, e.now);
    ApplyKeepsValid(l.(clock := e.now), e.event);
  }

  // ---- sums over the reservations ----

  ghost predicate CountsInFlight(f: Reservation -> int) {
    forall r :: !InFlight(r) ==> f(r) == 0
  }

  /** What an entry adds to a sum over the reservations that counts calls in flight only. */
  ghost function Booked(l: Ledger, tx: Tx, f: Reservation -> int): int {
    match tx.entry
    case DidReserve(id, _) => At(tx.after.reservations, f, id)
    case DidDispatch(id) => At(tx.after.reservations, f, id) - At(l.reservations, f, id)
    case DidCommit(id, _, _) => -At(l.reservations, f, id)
    case DidRelease(id, _, _) => -At(l.reservations, f, id)
    case _ => 0
  }

  ghost predicate BookedOk(l: Ledger, tx: Tx, f: Reservation -> int) {
    Sum(tx.after.reservations, f) == Sum(l.reservations, f) + Booked(l, tx, f)
  }

  lemma BookedSum(l: Ledger, e: Event, f: Reservation -> int)
    requires CountsInFlight(f)
    ensures BookedOk(l, Apply(l, e), f)
  {
    match e
    case OnCall(call) => BookedCall(l, call, f);
    case OnDonation(don) => BookedDonation(l, don, f);
    case OnAccount(account) => BookedAccount(l, account, f);
    case OnPurge(purge) => SumSame(l.reservations, ApplyPurge(l, purge).after.reservations, f);
  }

  lemma BookedCall(l: Ledger, e: CallEvent, f: Reservation -> int)
    requires CountsInFlight(f)
    ensures BookedOk(l, ApplyCall(l, e), f)
  {
    match e
    case EvReserve(id, user, donation, price, reward) => BookedReserve(l, id, user, donation, price, reward, f);
    case EvMark(id) => BookedMark(l, id, f);
    case EvCommit(id) => BookedCommit(l, id, f);
    case EvRelease(id, countFailure) => BookedRelease(l, id, countFailure, f);
    case EvSettle(id) => BookedCommit(l, id, f); BookedRelease(l, id, false, f);
  }

  lemma BookedReserve(l: Ledger, id: ReservationId, user: UserId, donation: DonationId, price: int, reward: int,
                      f: Reservation -> int)
    ensures BookedOk(l, Reserve(l, id, user, donation, price, reward), f)
  {
    var tx := Reserve(l, id, user, donation, price, reward);
    if tx.entry.DidReserve? { SumUpdate(l.reservations, f, id, tx.after.reservations[id]); }
  }

  lemma BookedMark(l: Ledger, id: ReservationId, f: Reservation -> int)
    ensures BookedOk(l, MarkDispatched(l, id), f)
  {
    var tx := MarkDispatched(l, id);
    if tx.entry.DidDispatch? { SumUpdate(l.reservations, f, id, tx.after.reservations[id]); }
  }

  lemma BookedCommit(l: Ledger, id: ReservationId, f: Reservation -> int)
    requires CountsInFlight(f)
    ensures BookedOk(l, Commit(l, id), f)
  {
    var tx := Commit(l, id);
    if tx.entry.DidCommit? { SumUpdate(l.reservations, f, id, tx.after.reservations[id]); }
  }

  lemma BookedRelease(l: Ledger, id: ReservationId, countFailure: bool, f: Reservation -> int)
    requires CountsInFlight(f)
    ensures BookedOk(l, Release(l, id, countFailure), f)
  {
    var tx := Release(l, id, countFailure);
    if tx.entry.DidRelease? { SumUpdate(l.reservations, f, id, tx.after.reservations[id]); }
  }

  lemma BookedDonation(l: Ledger, e: DonationEvent, f: Reservation -> int)
    ensures BookedOk(l, ApplyDonation(l, e), f)
  {}

  lemma BookedAccount(l: Ledger, e: AccountEvent, f: Reservation -> int)
    requires CountsInFlight(f)
    ensures BookedOk(l, ApplyAccount(l, e), f)
  {
    match e
    case EvDeleteUser(user) => BookedDeletion(l, user, f);
    case _ =>
  }

  lemma BookedDeletion(l: Ledger, user: UserId, f: Reservation -> int)
    requires CountsInFlight(f)
    ensures BookedOk(l, DeleteUser(l, user), f)
  {
    if DeleteUser(l, user).entry.DidCloseAccount? {
      forall k
        ensures At(l.reservations, f, k) == At(AnonymisedRows(l.reservations, user), f, k)
      {}
      SumSame(l.reservations, AnonymisedRows(l.reservations, user), f);
    }
  }

  // ---- conservation of uses ----

  /** The amount by which a patch would push the remaining count below zero. */
  ghost function Shortfall(l: Ledger, e: Event, d: DonationId): int
    requires d in l.donations
  {
    if e.OnDonation? && e.onDonation.EvPatch? && e.onDonation.donation == d && e.onDonation.patch.total.Some?
       && Apply(l, e).entry.DidHousekeeping?
       && l.donations[d].remaining + e.onDonation.patch.total.value < l.donations[d].total
    then l.donations[d].total - l.donations[d].remaining - e.onDonation.patch.total.value
    else 0
  }

  /** No transaction but such a patch changes the slack of a donation, and that patch only adds to it. */
  lemma ApplyKeepsSlack(l: Ledger, e: Event, d: DonationId)
    requires Valid(l) && d in l.donations && d in Apply(l, e).after.donations
    ensures Slack(Apply(l, e).after, d) == Slack(l, d) + Shortfall(l, e, d)
    ensures Shortfall(l, e, d) >= 0
  {
    BookedSum(l, e, UseOf(d));
    match e
    case OnCall(call) => CallKeepsTally(l, call, d);
    case OnDonation(don) => DonationKeepsTally(l, e, d);
    case OnAccount(account) => AccountKeepsTally(l, account, d);
    case OnPurge(_) =>
  }

  lemma CallKeepsTally(l: Ledger, e: CallEvent, d: DonationId)
    requires d in l.donations
    ensures MovesUses(l, ApplyCall(l, e), d)
  {
    match e
    case EvReserve(id, user, donation, price, reward) => ReserveMovesUses(l, id, user, donation, price, reward, d);
    case EvMark(_) =>
    case EvCommit(id) => CommitMovesUses(l, id, d);
    case EvRelease(id, countFailure) => ReleaseMovesUses(l, id, countFailure, d);
    case EvSettle(id) => CommitMovesUses(l, id, d); ReleaseMovesUses(l, id, false, d);
  }

  ghost predicate MovesUses(l: Ledger, tx: Tx, d: DonationId)
    requires d in l.donations
  {
    d in tx.after.donations && Tally(tx.after, d) == Tally(l, d) - Booked(l, tx, UseOf(d))
  }

  lemma ReserveMovesUses(l: Ledger, id: ReservationId, user: UserId, donation: DonationId, price: int, reward: int,
                         d: DonationId)
    requires d in l.donations
    ensures MovesUses(l, Reserve(l, id, user, donation, price, reward), d)
  {}

  lemma CommitMovesUses(l: Ledger, id: ReservationId, d: DonationId)
    requires d in l.donations
    ensures MovesUses(l, Commit(l, id), d)
  {}

  lemma ReleaseMovesUses(l: Ledger, id: ReservationId, countFailure: bool, d: DonationId)
    requires d in l.donations
    ensures MovesUses(l, Release(l, id, countFailure), d)
  {}

  lemma DonationKeepsTally(l: Ledger, e: Event, d: DonationId)
    requires e.OnDonation? && Valid(l) && d in l.donations && d in Apply(l, e).after.donations
    ensures Booked(l, Apply(l, e), UseOf(d)) == 0
    ensures Tally(Apply(l, e).after, d) == Tally(l, d) + Shortfall(l, e, d)
  {
    match e.onDonation
    case EvDeleteDonations(ids) => DeletedAreIdle(l, l.donations, ids);
    case EvPatch(id, patch, priced) => PatchKeepsTally(l, id, patch, priced, d);
    case EvCreateDonation(_, _, _) =>
    case _ => StatusKeepsTally(l, e.onDonation, d);
  }

  lemma PatchKeepsTally(l: Ledger, id: DonationId, patch: Patch, priced: bool, d: DonationId)
    requires Valid(l) && d in l.donations
    ensures
      var tx := PatchDonation(l, id, patch, priced);
      && (tx.entry.DidHousekeeping? || tx.entry.Rejected?)
      && d in tx.after.donations
      && Tally(tx.after, d) == Tally(l, d) + Shortfall(l, OnDonation(EvPatch(id, patch, priced)), d)
  {}

  lemma StatusKeepsTally(l: Ledger, e: DonationEvent, d: DonationId)
    requires e.EvSetStatus? || e.EvBatchStatus? || e.EvInvalidate? || e.EvExpireOverdue?
    requires d in l.donations
    ensures
      var tx := ApplyDonation(l, e);
      (tx.entry.DidHousekeeping? || tx.entry.Rejected?) && d in tx.after.donations && Tally(tx.after, d) == Tally(l, d)
  {}

  lemma AccountKeepsTally(l: Ledger, e: AccountEvent, d: DonationId)
    requires d in l.donations
    ensures
      var tx := ApplyAccount(l, e);
      d in tx.after.donations && Tally(tx.after, d) == Tally(l, d) && Booked(l, tx, UseOf(d)) == 0
  {}

  lemma CreatedWithoutSlack(l: Ledger, e: DonationEvent, d: DonationId)
    requires Valid(l) && d !in l.donations && d in ApplyDonation(l, e).after.donations
    ensures Slack(ApplyDonation(l, e).after, d) == 0
  {
    if e.EvDeleteDonations? { DeletedAreIdle(l, l.donations, e.ids); }
    SumSame(l.reservations, map[], UseOf(d));
  }

  // ---- conservation of credits ----

  lemma ApplyKeepsWealth(l: Ledger, e: Event)
    requires Valid(l)
    ensures Wealth(Apply(l, e).after) == Wealth(l) + Value(Apply(l, e).entry)
  {
    BookedSum(l, e, HeldPrice());
    match e
    case OnCall(call) => CallKeepsBalances(l, call);
    case OnAccount(account) => AccountKeepsBalances(l, account);
    case OnDonation(don) => DonationMovesNoCredits(l, don);
    case OnPurge(_) =>
  }

  lemma DonationMovesNoCredits(l: Ledger, e: DonationEvent)
    ensures MovesCredits(l, ApplyDonation(l, e)) && ApplyDonation(l, e).after.users == l.users
  {}

  lemma CallKeepsBalances(l: Ledger, e: CallEvent)
    requires Valid(l)
    ensures
      MovesCredits(l, ApplyCall(l, e))
  {
    match e
    case EvReserve(id, user, donation, price, reward) =>
      if user in l.users {
        SumUpdate(l.users, Balance(), user, l.users[user].(credits := l.users[user].credits - price));
      }
    case EvMark(_) =>
    case EvCommit(id) => CommitKeepsBalances(l, id);
    case EvRelease(id, countFailure) => ReleaseKeepsBalances(l, id, countFailure);
    case EvSettle(id) => CommitKeepsBalances(l, id); ReleaseKeepsBalances(l, id, false);
  }

  ghost predicate MovesCredits(l: Ledger, tx: Tx) {
    Balances(tx.after) == Balances(l) + Value(tx.entry) - Booked(l, tx, HeldPrice())
  }

  lemma CommitKeepsBalances(l: Ledger, id: ReservationId)
    requires Valid(l)
    ensures MovesCredits(l, Commit(l, id))
  {
    if id in l.reservations {
      var r := l.reservations[id];
      if r.donor.Some? && r.donor.value in l.users {
        SumUpdate(l.users, Balance(), r.donor.value, Rewarded(l.users[r.donor.value], r.reward));
      }
    }
  }

  lemma ReleaseKeepsBalances(l: Ledger, id: ReservationId, countFailure: bool)
    requires Valid(l)
    ensures MovesCredits(l, Release(l, id, countFailure))
  {
    if id in l.reservations && l.reservations[id].consumer in l.users {
      var r := l.reservations[id];
      SumUpdate(l.users, Balance(), r.consumer, l.users[r.consumer].(credits := l.users[r.consumer].credits + r.price));
    }
  }

  lemma AccountKeepsBalances(l: Ledger, e: AccountEvent)
    requires Valid(l)
    ensures AccountMoves(l, ApplyAccount(l, e))
  {
    match e
    case EvCreateUser => SumUpdate(l.users, Balance(), l.nextUser, User(0, 0, "", false));
    case EvDeleteUser(user) => SumTake(l.users, Balance(), user);
    case _ => ExistingUserKeepsBalances(l, e);
  }

  ghost predicate AccountMoves(l: Ledger, tx: Tx) {
    Balances(tx.after) == Balances(l) + Value(tx.entry) && Booked(l, tx, HeldPrice()) == 0
  }

  lemma ExistingUserKeepsBalances(l: Ledger, e: AccountEvent)
    requires !e.EvCreateUser? && !e.EvDeleteUser?
    ensures AccountMoves(l, ApplyAccount(l, e))
  {
    match e
    case EvCheckIn(user, day, bonus, cap, bypass) =>
      var tx := CheckIn(l, user, day, bonus, cap, bypass);
      if tx.entry.DidCheckIn? { SumUpdate(l.users, Balance(), user, tx.after.users[user]); }
    case EvAdjustCredits(user, delta) => AdjustMovesBalance(l, user, delta);
    case EvSetCredits(user, credits) => SetMovesBalance(l, user, credits);
    case EvStartRound(round, user, price, won) => StartMovesBalance(l, round, user, price, won);
    case EvSettleRound(round, user) => PayoutMovesBalance(l, round, user);
  }

  lemma AdjustMovesBalance(l: Ledger, user: UserId, delta: int)
    ensures AccountMoves(l, AdjustCredits(l, user, delta))
  {
    var tx := AdjustCredits(l, user, delta);
    if user in l.users { SumUpdate(l.users, Balance(), user, tx.after.users[user]); }
  }

  lemma SetMovesBalance(l: Ledger, user: UserId, credits: int)
    ensures AccountMoves(l, SetCredits(l, user, credits))
  {
    var tx := SetCredits(l, user, credits);
    if user in l.users { SumUpdate(l.users, Balance(), user, tx.after.users[user]); }
  }

  lemma StartMovesBalance(l: Ledger, id: RoundId, user: UserId, price: int, won: int)
    ensures AccountMoves(l, StartRound(l, id, user, price, won))
  {
    var tx := StartRound(l, id, user, price, won);
    if tx.entry.DidStartRound? { SumUpdate(l.users, Balance(), user, tx.after.users[user]); }
  }

  lemma PayoutMovesBalance(l: Ledger, id: RoundId, user: UserId)
    ensures AccountMoves(l, SettleRound(l, id, user))
  {
    var tx := SettleRound(l, id, user);
    if tx.entry.DidSettleRound? { SumUpdate(l.users, Balance(), user, tx.after.users[user]); }
  }
}
