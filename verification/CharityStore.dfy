/** The store as the program has it: tables updated in place. */
module CharityStore {
  // Each method is one transaction. It works on its own copies of the tables and installs them when it
  // commits; leaving early is the rollback. Each method is proved against its step in `Charity`.

  import opened Options
  import opened Charity
  import opened CharityLaws
  import opened CharityRuns
  import opened CharityRecovery

  class Store {
    var clock: int
    var nextUser: nat
    var nextDonation: nat
    var users: map<UserId, User>
    var donations: map<DonationId, Donation>
    var reservations: map<ReservationId, Reservation>
    var rounds: map<RoundId, Round>

    function Books(): Ledger
      reads this
    {
      Ledger(clock, nextUser, nextDonation, users, donations, reservations, rounds)
    }

    constructor ()
      ensures Books() == Empty() && Valid(Books())
    {
      clock, nextUser, nextDonation := 0, 1, 1;
      users, donations, reservations, rounds := map[], map[], map[], map[];
    }

    /** Reserving takes a use from the donation and the price from the consumer; on any refusal neither is taken. */
    method ReserveCharityCall(now: int, id: ReservationId, userID: UserId, donationID: DonationId, price: int, reward: int)
      returns (r: Result<Reservation, Error>)
      modifies this
      ensures
        var tx := Reserve(old(Books()).(clock := now), id, userID, donationID, price, reward);
        && Books() == tx.after
        && (r.Err? ==> tx.entry == Rejected(r.error))
        && (r.Ok? ==> tx.entry == DidReserve(id, price) && id in reservations && r.value == reservations[id])
      ensures r.Ok? ==>
          && donationID in old(donations)
          && r.value == Reservation(userID, donationID, old(donations)[donationID].source, price, reward, Reserved, now)
    {
      clock := now;
      if price < 0 || reward < 0 {
        return Err(NegativeAmount);
      }
      var workDonations, workUsers := donations, users;
      if donationID !in workDonations {
        return Err(DonationUnavailable);
      }
      var d := workDonations[donationID];
      if !(d.status.Active? && d.deadline > now && d.remaining > 0) {
        return Err(DonationUnavailable);
      }
      // The right-hand sides of the update read the row as it was.
      d := d.(remaining := d.remaining - 1, status := if d.remaining - 1 <= 0 then Expired else d.status);
      workDonations := workDonations[donationID := d];
      var donor := workDonations[donationID].source;
      if userID !in workUsers || !(workUsers[userID].credits >= price) {
        return Err(InsufficientCredits);
      }
      var u := workUsers[userID];
      workUsers := workUsers[userID := u.(credits := u.credits - price)];
      if id in reservations {
        return Err(DuplicateKey);
      }
      var row := Reservation(userID, donationID, donor, price, reward, Reserved, now);
      donations, users, reservations := workDonations, workUsers, reservations[id := row];
      return Ok(row);
    }

    /** Records durably that the donated credential is about to be used. */
    method MarkCharityDispatched(now: int, id: ReservationId) returns (ok: bool)
      modifies this
      ensures
        var tx := MarkDispatched(old(Books()).(clock := now), id);
        Books() == tx.after && (ok <==> !tx.entry.Rejected?)
      ensures ok <==> id in reservations && reservations[id].status.Dispatched?
    {
      clock := now;
      if id in reservations && reservations[id].status == Reserved {
        reservations := reservations[id := reservations[id].(status := Dispatched, updatedAt := now)];
        return true;
      }
      return id in reservations && reservations[id].status == Dispatched;
    }

    method CommitCharityReservation(now: int, id: ReservationId) returns (r: Result<Reservation, Error>)
      modifies this
      ensures
        var tx := Commit(old(Books()).(clock := now), id);
        && Books() == tx.after
        && (r.Err? ==> tx.entry == Rejected(r.error))
        && (r.Ok? ==> !tx.entry.Rejected? && id in reservations && r.value == reservations[id] && r.value.status.Committed?)
    {
      clock := now;
      if id !in reservations {
        return Err(NoSuchRow);
      }
      var row := reservations[id];
      if row.status == Committed {
        return Ok(row);
      } else if row.status == Released {
        return Err(AlreadyReleased);
      } else if row.status != Dispatched {
        return Err(NotDispatched);
      }
      var workDonations, workUsers := donations, users;
      if row.donation !in workDonations {
        return Err(DonationGone);
      }
      var d := workDonations[row.donation];
      workDonations := workDonations[row.donation := d.(successes := d.successes + 1, consecutive := 0)];
      if row.donor.Some? && row.donor.value in workUsers {
        var u := workUsers[row.donor.value];
        u := u.(donationCredit := u.donationCredit + 1, credits := u.credits + row.reward);
        workUsers := workUsers[row.donor.value := u];
      }
      row := row.(status := Committed, updatedAt := now);
      donations, users, reservations := workDonations, workUsers, reservations[id := row];
      return Ok(row);
    }

    /** Refunds the consumer and restores the use, while the call is known to be undispatched. */
    method ReleaseCharityReservation(now: int, id: ReservationId, countFailure: bool) returns (r: Result<int, Error>)
      modifies this
      ensures
        var tx := Release(old(Books()).(clock := now), id, countFailure);
        && Books() == tx.after
        && (r.Err? ==> tx.entry == Rejected(r.error))
        && (r.Ok? ==> !tx.entry.Rejected? && id in reservations && reservations[id].status.Released?)
        && (r.Ok? && tx.entry.DidRelease? ==> r.value == tx.entry.consecutive)
    {
      clock := now;
      if id !in reservations {
        return Err(NoSuchRow);
      }
      var row := reservations[id];
      match row.status {
        case Released => return Ok(0);
        case Committed => return Err(AlreadyCommitted);
        case Dispatched => return Err(MustCommit);
        case Reserved =>
      }
      var failureInc := if countFailure then 1 else 0;
      var workDonations, workUsers := donations, users;
      if row.donation !in workDonations {
        return Err(DonationGone);
      }
      var d := workDonations[row.donation];
      var status := d.status;
      if d.status == Expired && d.remaining == 0 && d.deadline > now {
        status := Active;
      }
      d := d.(remaining := d.remaining + 1, failures := d.failures + failureInc,
              consecutive := d.consecutive + failureInc, status := status);
      workDonations := workDonations[row.donation := d];
      if row.consumer in workUsers {
        var u := workUsers[row.consumer];
        workUsers := workUsers[row.consumer := u.(credits := u.credits + row.price)];
      }
      row := row.(status := Released, updatedAt := now);
      donations, users, reservations := workDonations, workUsers, reservations[id := row];
      return Ok(if countFailure then workDonations[row.donation].consecutive else 0);
    }

    /** One transaction of a recovery. */
    method SettlePending(now: int, id: ReservationId) returns (wasReserved: bool)
      requires clock == now && id in reservations && InFlight(reservations[id])
      modifies this
      ensures Books() == Settle(old(Books()), id).after && clock == now
      ensures wasReserved <==> old(reservations)[id].status.Reserved?
    {
      wasReserved := reservations[id].status == Reserved;
      if wasReserved {
        var r := ReleaseCharityReservation(now, id, false);
      } else {
        var r := CommitCharityReservation(now, id);
      }
    }

    /** Settles what is listed, in any order, until `budget` transactions are done. */
    method SettleListed(now: int, listed: set<ReservationId>, budget: nat, ghost start: Ledger)
      returns (released: nat, committed: nat, rest: set<ReservationId>)
      requires Recovering(start, Books(), listed) && clock == now && SameForecast(start, Books())
      requires Visited(start.reservations, Reserved, listed) == Visited(start.reservations, Dispatched, listed) == 0
      modifies this
      ensures Recovering(start, Books(), rest) && clock == now && SameForecast(start, Books())
      ensures released == Visited(start.reservations, Reserved, rest)
      ensures committed == Visited(start.reservations, Dispatched, rest)
      ensures rest == {} || released + committed == budget
    {
      released, committed, rest := 0, 0, listed;
      while rest != {} && released + committed < budget
        invariant Recovering(start, Books(), rest) && clock == now && SameForecast(start, Books())
        invariant released == Visited(start.reservations, Reserved, rest)
        invariant committed == Visited(start.reservations, Dispatched, rest)
        invariant released + committed <= budget
        decreases rest
      {
        var id :| id in rest;
        RecoveringStep(start, Books(), rest, id);
        ForecastStep(start, Books(), id);
        VisitedOneMore(start.reservations, reservations, rest, id);
        var wasReserved := SettlePending(now, id);
        rest := rest - {id};
        if wasReserved {
          released := released + 1;
        } else {
          committed := committed + 1;
        }
      }
    }

    /**
     Settles every call left in flight. `budget` is how many transactions complete before the
     process is interrupted again.
     */
    method RecoverCharityReservations(now: int, budget: nat)
      returns (released: nat, committed: nat, interrupted: bool)
      requires Valid(Books()) && clock <= now
      modifies this
      ensures Valid(Books()) && clock == now
      ensures SameForecast(old(Books()).(clock := now), Books())
      ensures interrupted ==> released + committed == budget
      ensures !interrupted ==> Quiet(Books())
      ensures !interrupted ==> released == |WithStatus(old(reservations), Reserved)|
      ensures !interrupted ==> committed == |WithStatus(old(reservations), Dispatched)|
    {
      ClockKeepsValid(Books(), now);
      ClockKeepsForecast(Books().(clock := now), now);
      VisitedBounds(reservations);
      clock := now;
      var listed := set k <- reservations | InFlight(reservations[k]);
      var rest;
      released, committed, rest := SettleListed(now, listed, budget, Books());
      interrupted := rest != {};
    }

    method PurgeSettledCharityReservations(now: int, before: int) returns (purged: nat)
      modifies this
      ensures Books() == PurgeSettled(old(Books()).(clock := now), before).after
      ensures reservations.Keys <= old(reservations).Keys && purged == |old(reservations)| - |reservations|
    {
      clock := now;
      var gone := set k <- reservations | !InFlight(reservations[k]) && reservations[k].updatedAt < before;
      purged := |gone|;
      RowsWithout(reservations, gone);
      assert reservations - gone == PurgeSettled(Books(), before).after.reservations;
      reservations := reservations - gone;
    }

    method PatchDonation(now: int, id: DonationId, patch: Patch, priced: bool) returns (r: Result<Donation, Error>)
      modifies this
      ensures
        var tx := Charity.PatchDonation(old(Books()).(clock := now), id, patch, priced);
        && Books() == tx.after
        && (r.Err? ==> tx.entry == Rejected(r.error))
        && (r.Ok? ==> !tx.entry.Rejected? && id in donations && r.value == donations[id])
    {
      clock := now;
      if id !in donations {
        return Err(NoSuchRow);
      }
      var current := donations[id];
      if current.status == Expired {
        return Err(ExpiredDonation);
      }
      var updated := current;
      if patch.rpmLimit.Some? && patch.rpmLimit.value <= 0 {
        return Err(InvalidPatch);
      }
      if patch.deadline.Some? {
        if patch.deadline.value <= now {
          return Err(InvalidPatch);
        }
        updated := updated.(deadline := patch.deadline.value);
      }
      if patch.total.Some? {
        if patch.total.value <= 0 {
          return Err(InvalidPatch);
        }
        updated := updated.(remaining := updated.remaining + patch.total.value - current.total);
        if updated.remaining < 0 {
          updated := updated.(remaining := 0);
        }
        updated := updated.(total := patch.total.value);
      }
      if patch.activate.Some? {
        updated := updated.(status := if patch.activate.value then Active else Inactive);
      }
      if current.status != Active && updated.status == Active {
        updated := updated.(consecutive := 0);
        if !priced {
          return Err(PricingAbsent);
        }
      }
      var workDonations := donations[id := updated];
      if patch.recordMissing {
        return Err(RecordAbsent);
      }
      donations := workDonations;
      return Ok(updated);
    }

    /** Validates the whole selection before it writes any of it. */
    method BatchSetDonationStatus(now: int, ids: seq<DonationId>, active: bool, priced: set<DonationId>)
      returns (e: Option<Error>)
      modifies this
      ensures
        var tx := Charity.BatchSetDonationStatus(old(Books()).(clock := now), ids, active, priced);
        Books() == tx.after && (if e.Some? then tx.entry == Rejected(e.value) else !tx.entry.Rejected?)
    {
      clock := now;
      for i := 0 to |ids|
        invariant Books() == old(Books()).(clock := now)
        invariant BatchStatusError(Books(), ids, active, priced) == BatchStatusError(Books(), ids[i..], active, priced)
      {
        assert ids[i..][1..] == ids[i + 1..];
        if ids[i] !in donations {
          return Some(NoSuchRow);
        }
        if donations[ids[i]].status == Expired {
          return Some(ExpiredDonation);
        }
        if active && ids[i] !in priced {
          return Some(PricingAbsent);
        }
      }
      assert ids[|ids|..] == [];
      ghost var start := donations;
      for i := 0 to |ids|
        invariant donations == SwitchedRows(start, ids[..i], active)
        invariant Books() == old(Books()).(clock := now, donations := donations)
        invariant BatchStatusError(old(Books()).(clock := now), ids, active, priced) == None
      {
        assert ids[..i + 1] == ids[..i] + [ids[i]];
        BatchedIdsExist(old(Books()).(clock := now), ids, active, priced, i);
        SwitchOneMore(start, ids[..i], ids[i], active);
        var d := donations[ids[i]];
        if active {
          d := d.(status := Active, consecutive := 0);
        } else {
          d := d.(status := Inactive);
        }
        donations := donations[ids[i] := d];
      }
      assert ids[..|ids|] == ids;
      return None;
    }

    method ExpireOverdueDonations(now: int) returns (changed: nat)
      modifies this
      ensures Books() == ExpireOverdue(old(Books()).(clock := now)).after
      ensures changed == |set k <- old(donations) | old(donations)[k] != donations[k]|
    {
      clock := now;
      var due := set k <- donations | donations[k].deadline <= now && donations[k].status != Expired;
      changed := |due|;
      donations := map k | k in donations :: if k in due then donations[k].(status := Expired) else donations[k];
      assert due == set k <- old(donations) | old(donations)[k] != donations[k];
    }

    /** Missing or repeated ids and calls in flight undo every deletion of the batch. */
    method DeleteDonations(now: int, ids: seq<DonationId>) returns (e: Option<Error>)
      modifies this
      ensures
        var tx := Charity.DeleteDonations(old(Books()).(clock := now), ids);
        Books() == tx.after && (if e.Some? then tx.entry == Rejected(e.value) else !tx.entry.Rejected?)
    {
      clock := now;
      var work := donations;
      for i := 0 to |ids|
        invariant Books() == old(Books()).(clock := now)
        invariant RemainingDonations(Books(), donations, ids) == RemainingDonations(Books(), work, ids[i..])
      {
        assert ids[i..][1..] == ids[i + 1..];
        if exists k <- reservations :: InFlight(reservations[k]) && reservations[k].donation == ids[i] {
          return Some(StillInFlight);
        }
        if ids[i] !in work {
          return Some(NoSuchRow);
        }
        work := work - {ids[i]};
      }
      assert ids[|ids|..] == [];
      donations := work;
      return None;
    }

    /** Rows of this user alone go; rows shared with another party lose this party. */
    static method Anonymise(rows: map<ReservationId, Reservation>, id: UserId)
      returns (work: map<ReservationId, Reservation>)
      ensures work == AnonymisedRows(rows, id)
    {
      work := map k | k in rows
        && !((rows[k].consumer == id && (rows[k].donor == None || rows[k].donor == Some(id)))
             || (rows[k].donor == Some(id) && rows[k].consumer == 0)) :: rows[k];
      work := map k | k in work :: if work[k].consumer == id then work[k].(consumer := 0) else work[k];
      work := map k | k in work :: if work[k].donor == Some(id) then work[k].(donor := None) else work[k];
    }

    method DeleteUser(now: int, id: UserId) returns (e: Option<Error>)
      modifies this
      ensures
        var tx := Charity.DeleteUser(old(Books()).(clock := now), id);
        Books() == tx.after && (if e.Some? then tx.entry == Rejected(e.value) else !tx.entry.Rejected?)
    {
      clock := now;
      if id !in users {
        return Some(NoSuchRow);
      }
      if users[id].admin {
        return Some(AdministratorRow);
      }
      if exists k <- reservations ::
           InFlight(reservations[k]) && (reservations[k].consumer == id || reservations[k].donor == Some(id)) {
        return Some(StillInFlight);
      }
      reservations := Anonymise(reservations, id);
      rounds := map k | k in rounds && rounds[k].player != id :: rounds[k];
      donations := map k | k in donations ::
        if donations[k].source == Some(id) then donations[k].(source := None) else donations[k];
      users := users - {id};
      return None;
    }

    method ApplyUserCheckin(now: int, userID: UserId, day: string, bonus: int, cap: int, bypassCap: bool)
      returns (r: Result<int, Error>)
      modifies this
      ensures
        var tx := CheckIn(old(Books()).(clock := now), userID, day, bonus, cap, bypassCap);
        && Books() == tx.after
        && (r.Err? ==> tx.entry == Rejected(r.error))
        && (r.Ok? ==> tx.entry == DidCheckIn(bonus) && r.value == users[userID].credits)
    {
      clock := now;
      if userID !in users {
        return Err(NoSuchRow);
      }
      var u := users[userID];
      if u.lastCheckinDay == day {
        return Err(AlreadyCheckedIn);
      }
      if !bypassCap && u.credits >= cap {
        return Err(CreditsCapped);
      }
      var newCredits := u.credits + bonus;
      users := users[userID := u.(lastCheckinDay := day, credits := newCredits)];
      return Ok(newCredits);
    }

    method StartFishingRound(now: int, id: RoundId, userID: UserId, price: int, won: int) returns (e: Option<Error>)
      modifies this
      ensures
        var tx := StartRound(old(Books()).(clock := now), id, userID, price, won);
        Books() == tx.after && (if e.Some? then tx.entry == Rejected(e.value) else tx.entry == DidStartRound(id, price))
    {
      clock := now;
      if price <= 0 {
        return Some(InvalidPatch);
      }
      if userID !in users {
        return Some(NoSuchRow);
      }
      var u := users[userID];
      if u.admin {
        return Some(AdministratorRow);
      }
      if !(u.credits >= price) {
        return Some(InsufficientCredits);
      }
      var workUsers := users[userID := u.(credits := u.credits - price)];
      if id in rounds {
        return Some(DuplicateKey);
      }
      users, rounds := workUsers, rounds[id := Round(userID, won, false, now)];
      return None;
    }

    /** Pays a round out once; settling it again replays the stored outcome. */
    method SettleFishingRound(now: int, userID: UserId, id: RoundId) returns (r: Result<bool, Error>)
      modifies this
      ensures
        var tx := SettleRound(old(Books()).(clock := now), id, userID);
        && Books() == tx.after
        && (r.Err? ==> tx.entry == Rejected(r.error))
        && (r.Ok? ==> (r.value <==> tx.entry.DidSettleRound?) && (!r.value <==> tx.entry.Unchanged?))
    {
      clock := now;
      if id !in rounds || rounds[id].player != userID {
        return Err(NoSuchRow);
      }
      var round := rounds[id];
      if userID !in users {
        return Err(NoSuchRow);
      }
      if round.settled {
        return Ok(false);
      }
      rounds := rounds[id := round.(settled := true)];
      if round.won > 0 {
        users := users[userID := users[userID].(credits := users[userID].credits + round.won)];
      }
      return Ok(true);
    }
  }

  lemma {:induction false} BatchedIdsExist(l: Ledger, ids: seq<DonationId>, active: bool, priced: set<DonationId>, i: nat)
    requires i < |ids| && BatchStatusError(l, ids, active, priced) == None
    ensures ids[i] in l.donations && !l.donations[ids[i]].status.Expired?
    decreases ids
  {
    if i > 0 {
      BatchedIdsExist(l, ids[1..], active, priced, i - 1);
    }
  }

  ghost function SwitchedRows(start: map<DonationId, Donation>, ids: seq<DonationId>, active: bool)
    : map<DonationId, Donation>
  {
    map k | k in start :: if k in ids then SwitchedTo(start[k], active) else start[k]
  }

  lemma SwitchOneMore(start: map<DonationId, Donation>, ids: seq<DonationId>, id: DonationId, active: bool)
    requires id in start
    ensures
      var rows := SwitchedRows(start, ids, active);
      SwitchedRows(start, ids + [id], active) == rows[id := SwitchedTo(rows[id], active)]
  {}

  lemma RowsWithout(rows: map<ReservationId, Reservation>, gone: set<ReservationId>)
    requires gone <= rows.Keys
    ensures |rows - gone| == |rows| - |gone|
  {
    assert (rows - gone).Keys == rows.Keys - gone;
    assert |rows - gone| == |(rows - gone).Keys| && |rows| == |rows.Keys|;
  }
}
