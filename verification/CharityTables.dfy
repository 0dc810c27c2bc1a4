/** What each transaction on donations, accounts and rounds does to the tables. */
module CharityTables {
  // Each is told by who may ask for it, what it changes in the rows it is about, and that it changes nothing
  // else. Two laws are about runs: a user is paid for a check-in once a day, and a round pays what was drawn
  // when it was started.

  import opened Options
  import opened Charity
  import opened CharityLaws
  import opened CharityRuns
  import opened CharityRounds

  /** Only the row `k` may have changed, and it is still there. */
  ghost predicate OnlyRow<K(!new), V(!new)>(before: map<K, V>, after: map<K, V>, k: K) {
    k in before && after.Keys == before.Keys && forall j <- before :: j != k ==> after[j] == before[j]
  }

  ghost predicate OnlyDonations(l: Ledger, m: Ledger) {
    m == l.(donations := m.donations)
  }

  ghost predicate OnlyUsers(l: Ledger, m: Ledger) {
    m == l.(users := m.users)
  }

  // ---- calls that are over, or not far enough ----

  /** A second mark or settlement changes nothing, and one that comes too early or too late says why. */
  lemma RepeatsAndRefusals(l: Ledger, id: ReservationId, countFailure: bool)
    requires id in l.reservations ==> l.reservations[id].donation in l.donations
    ensures id !in l.reservations ==>
        && MarkDispatched(l, id) == Tx(l, Rejected(NotDispatchable))
        && Commit(l, id) == Release(l, id, countFailure) == Tx(l, Rejected(NoSuchRow))
    ensures id in l.reservations ==>
        match l.reservations[id].status
        case Reserved => MarkDispatched(l, id).entry == DidDispatch(id) && Commit(l, id) == Tx(l, Rejected(NotDispatched))
        case Dispatched => MarkDispatched(l, id) == Tx(l, Unchanged) && Release(l, id, countFailure) == Tx(l, Rejected(MustCommit))
        case Committed =>
          && MarkDispatched(l, id) == Tx(l, Rejected(NotDispatchable)) && Commit(l, id) == Tx(l, Unchanged)
          && Release(l, id, countFailure) == Tx(l, Rejected(AlreadyCommitted))
        case Released =>
          && MarkDispatched(l, id) == Tx(l, Rejected(NotDispatchable)) && Commit(l, id) == Tx(l, Rejected(AlreadyReleased))
          && Release(l, id, countFailure) == Tx(l, Unchanged)
  {}

  /** A mark changes the status of its row and its stamp. */
  lemma MarkMoves(l: Ledger, id: ReservationId)
    requires MarkDispatched(l, id).entry.DidDispatch?
    ensures
      var m := MarkDispatched(l, id).after;
      && m == l.(reservations := m.reservations) && OnlyRow(l.reservations, m.reservations, id)
      && l.reservations[id].status == Reserved
      && m.reservations[id] == l.reservations[id].(status := Dispatched, updatedAt := l.clock)
  {}

  /** A purge takes exactly the settled rows last touched before the cutoff. */
  lemma PurgeTakesTheOld(l: Ledger, before: int, id: ReservationId)
    ensures
      var m := ApplyPurge(l, EvPurgeSettled(before)).after;
      && m == l.(reservations := m.reservations)
      && (id in m.reservations ==> id in l.reservations && m.reservations[id] == l.reservations[id])
      && (id in l.reservations ==>
            (id !in m.reservations <==> l.reservations[id].status in {Committed, Released} && l.reservations[id].updatedAt < before))
  {}

  // ---- donations ----

  /** Whether the values of a patch are in order. */
  predicate InOrder(l: Ledger, p: Patch) {
    && (p.rpmLimit.Some? ==> p.rpmLimit.value >= 1)
    && (p.deadline.Some? ==> p.deadline.value > l.clock)
    && (p.total.Some? ==> p.total.value >= 1)
  }

  predicate SwitchesOn(d: Donation, p: Patch) {
    p.activate == Some(true) && d.status != Active
  }

  /** Why a patch is refused, the first reason that applies. */
  lemma PatchRefusal(l: Ledger, id: DonationId, p: Patch, priced: bool)
    ensures
      var tx := ApplyDonation(l, EvPatch(id, p, priced));
      var reason :=
        if id !in l.donations then Some(NoSuchRow)
        else if l.donations[id].status == DonationStatus.Expired then Some(ExpiredDonation)
        else if !InOrder(l, p) then Some(InvalidPatch)
        else if SwitchesOn(l.donations[id], p) && !priced then Some(PricingAbsent)
        else if p.recordMissing then Some(RecordAbsent)
        else None;
      if reason.Some? then tx == Tx(l, Rejected(reason.value)) else tx.entry == DidHousekeeping
  {}

  /** A new total keeps what has been used; what is left does not go below nothing. */
  lemma PatchMoves(l: Ledger, id: DonationId, p: Patch, priced: bool)
    requires ApplyDonation(l, EvPatch(id, p, priced)).entry == DidHousekeeping
    ensures
      var m := ApplyDonation(l, EvPatch(id, p, priced)).after;
      && OnlyDonations(l, m) && OnlyRow(l.donations, m.donations, id)
      && var d, e := l.donations[id], m.donations[id];
         && e.source == d.source && e.successes == d.successes && e.failures == d.failures
         && e.deadline == (match p.deadline case Some(t) => t case None => d.deadline)
         && e.total == (match p.total case Some(n) => n case None => d.total)
         && (e.total - e.remaining == d.total - d.remaining || (e.remaining == 0 && e.total < d.total - d.remaining)
               || (p.total.None? && e.remaining == d.remaining))
         && (p.total.Some? ==> e.remaining >= 0)
         && (p.activate.None? ==> e.status == d.status)
         && (p.activate == Some(true) ==> e.status == Active)
         && (p.activate == Some(false) ==> e.status == Inactive)
         && e.consecutive == if SwitchesOn(d, p) then 0 else d.consecutive
  {}

  /** Switching on forgets consecutive failures; switching off remembers them. */
  lemma SwitchMoves(l: Ledger, id: DonationId, active: bool)
    requires id in l.donations
    ensures
      var m := ApplyDonation(l, EvSetStatus(id, active)).after;
      && OnlyDonations(l, m) && OnlyRow(l.donations, m.donations, id)
      && m.donations[id].status == (if active then Active else Inactive)
      && m.donations[id].consecutive == (if active then 0 else l.donations[id].consecutive)
      && m.donations[id].(status := Active, consecutive := 0) == l.donations[id].(status := Active, consecutive := 0)
  {}

  /** Why a donation of a selection cannot be switched. */
  predicate Hinders(l: Ledger, id: DonationId, active: bool, priced: set<DonationId>, e: Error) {
    match e
    case NoSuchRow => id !in l.donations
    case ExpiredDonation => id in l.donations && l.donations[id].status == DonationStatus.Expired
    case PricingAbsent => id in l.donations && l.donations[id].status != DonationStatus.Expired && active && id !in priced
    case _ => false
  }

  /** Donation number `i` of the selection is the first that cannot be switched, for the reason `e`. */
  ghost predicate FirstHindered(l: Ledger, ids: seq<DonationId>, active: bool, priced: set<DonationId>, i: nat, e: Error) {
    && i < |ids| && Hinders(l, ids[i], active, priced, e)
    && forall j, f :: 0 <= j < i ==> !Hinders(l, ids[j], active, priced, f)
  }

  /** A selection is refused exactly if one of its donations cannot be switched, and for the first of them. */
  lemma {:induction false} BatchError(l: Ledger, ids: seq<DonationId>, active: bool, priced: set<DonationId>) returns (i: nat)
    ensures
      match BatchStatusError(l, ids, active, priced)
      case None => forall k, e :: 0 <= k < |ids| ==> !Hinders(l, ids[k], active, priced, e)
      case Some(e) => FirstHindered(l, ids, active, priced, i, e)
  {
    i := 0;
    if ids != [] {
      var whole, rest := BatchStatusError(l, ids, active, priced), BatchStatusError(l, ids[1..], active, priced);
      if whole.None? || !Hinders(l, ids[0], active, priced, whole.value) {
        assert whole == rest && forall e :: !Hinders(l, ids[0], active, priced, e);
        var k := BatchError(l, ids[1..], active, priced);
        if whole.None? {
          forall k, e | 0 <= k < |ids|
            ensures !Hinders(l, ids[k], active, priced, e)
          {
            if k > 0 { assert ids[k] == ids[1..][k - 1]; }
          }
        } else {
          LaterHindered(l, ids, active, priced, k, rest.value);
          i := k + 1;
        }
      }
    }
  }

  lemma LaterHindered(l: Ledger, ids: seq<DonationId>, active: bool, priced: set<DonationId>, i: nat, e: Error)
    requires ids != [] && (forall f :: !Hinders(l, ids[0], active, priced, f)) && FirstHindered(l, ids[1..], active, priced, i, e)
    ensures FirstHindered(l, ids, active, priced, i + 1, e)
  {
    forall j, f | 0 <= j < i + 1
      ensures !Hinders(l, ids[j], active, priced, f)
    {
      if j > 0 { assert ids[j] == ids[1..][j - 1]; }
    }
  }

  /** A selection is switched as a whole, each row as it would be alone, and only the rows selected. */
  lemma BatchMoves(l: Ledger, ids: seq<DonationId>, active: bool, priced: set<DonationId>, d: DonationId)
    requires ApplyDonation(l, EvBatchStatus(ids, active, priced)).entry == DidHousekeeping && d in l.donations
    ensures
      var m := ApplyDonation(l, EvBatchStatus(ids, active, priced)).after;
      && OnlyDonations(l, m) && m.donations.Keys == l.donations.Keys
      && m.donations[d] == if d in ids then SetDonationStatus(l, d, active).after.donations[d] else l.donations[d]
  {}

  /** When a user regenerates a template, the expired donations concerned become inactive, and no others. */
  lemma InvalidateMoves(l: Ledger, scope: set<DonationId>, d: DonationId)
    requires d in l.donations
    ensures
      var m := ApplyDonation(l, EvInvalidate(scope)).after;
      && OnlyDonations(l, m) && m.donations.Keys == l.donations.Keys
      && m.donations[d].(status := Active) == l.donations[d].(status := Active)
      && m.donations[d].status
         == if d in scope && l.donations[d].status == DonationStatus.Expired then Inactive else l.donations[d].status
  {}

  /** A donation whose deadline has come is expired, whatever it was, and no other changes. */
  lemma ExpireMoves(l: Ledger, d: DonationId)
    requires d in l.donations
    ensures
      var m := ApplyDonation(l, EvExpireOverdue).after;
      && OnlyDonations(l, m) && m.donations.Keys == l.donations.Keys
      && m.donations[d].(status := Active) == l.donations[d].(status := Active)
      && (m.donations[d].status != l.donations[d].status ==> l.donations[d].deadline <= l.clock)
      && (m.donations[d].status == DonationStatus.Expired <==>
            l.donations[d].status == DonationStatus.Expired || l.donations[d].deadline <= l.clock)
  {}

  /** A donation begins unused and switched off, under a number of its own. */
  lemma CreateMoves(l: Ledger, source: Option<UserId>, deadline: int, total: int)
    ensures
      var tx := ApplyDonation(l, EvCreateDonation(source, deadline, total));
      && (tx.entry == DidHousekeeping <==> total >= 1 && deadline >= 1 && (source.Some? ==> source.value < l.nextUser))
      && (tx.entry != DidHousekeeping ==> tx.after == l && tx.entry.Rejected?)
      && (tx.entry == DidHousekeeping ==>
            && tx.after == l.(donations := tx.after.donations, nextDonation := l.nextDonation + 1)
            && tx.after.donations == l.donations[l.nextDonation := Donation(source, deadline, total, total, 0, 0, 0, Inactive)])
  {}

  /** A batch of donations can be deleted exactly if all exist, none twice, and no call in flight uses any of them. */
  lemma {:induction false} DeletableIff(l: Ledger, donations: map<DonationId, Donation>, ids: seq<DonationId>)
    ensures
      var rest := RemainingDonations(l, donations, ids);
      && (rest.Ok? <==>
            && (forall i :: 0 <= i < |ids| ==> ids[i] in donations && !DonationInFlight(l.reservations, ids[i]))
            && forall i, j :: 0 <= i < j < |ids| ==> ids[i] != ids[j])
      && (rest.Ok? ==> rest.value == donations - set id <- ids)
    decreases ids
  {
    if ids != [] && !DonationInFlight(l.reservations, ids[0]) && ids[0] in donations {
      DeletableIff(l, donations - {ids[0]}, ids[1..]);
      var ok := RemainingDonations(l, donations, ids).Ok?;
      if ok {
        forall i | 0 <= i < |ids|
          ensures ids[i] in donations && !DonationInFlight(l.reservations, ids[i])
        {
          if i > 0 { assert ids[i] == ids[1..][i - 1]; }
        }
        forall i, j | 0 <= i < j < |ids|
          ensures ids[i] != ids[j]
        {
          assert ids[j] == ids[1..][j - 1] && ids[1..][j - 1] in donations - {ids[0]};
          if i > 0 { assert ids[i] == ids[1..][i - 1]; }
        }
        assert (donations - {ids[0]}) - (set id <- ids[1..]) == donations - set id <- ids;
      }
      if (forall i :: 0 <= i < |ids| ==> ids[i] in donations && !DonationInFlight(l.reservations, ids[i]))
         && forall i, j :: 0 <= i < j < |ids| ==> ids[i] != ids[j] {
        forall i | 0 <= i < |ids[1..]|
          ensures ids[1..][i] in donations - {ids[0]} && !DonationInFlight(l.reservations, ids[1..][i])
        {
          assert ids[1..][i] == ids[i + 1];
        }
        assert forall i, j :: 0 <= i < j < |ids[1..]| ==> ids[1..][i] == ids[i + 1] && ids[1..][j] == ids[j + 1];
      }
    } else if ids == [] {
      assert donations - (set id <- ids) == donations;
    }
  }

  lemma DeleteMoves(l: Ledger, ids: seq<DonationId>)
    ensures
      var tx := ApplyDonation(l, EvDeleteDonations(ids));
      if RemainingDonations(l, l.donations, ids).Ok? then tx == Tx(l.(donations := l.donations - set id <- ids), DidHousekeeping)
      else tx.after == l && (tx.entry == Rejected(StillInFlight) || tx.entry == Rejected(NoSuchRow))
  {
    DeletableIff(l, l.donations, ids);
    if RemainingDonations(l, l.donations, ids).Err? { DeletionErrors(l, l.donations, ids); }
  }

  lemma {:induction false} DeletionErrors(l: Ledger, donations: map<DonationId, Donation>, ids: seq<DonationId>)
    requires RemainingDonations(l, donations, ids).Err?
    ensures RemainingDonations(l, donations, ids).error in {StillInFlight, NoSuchRow}
    decreases |ids|
  {
    if !DonationInFlight(l.reservations, ids[0]) && ids[0] in donations { DeletionErrors(l, donations - {ids[0]}, ids[1..]); }
  }

  // ---- accounts ----

  lemma CreateUserMoves(l: Ledger)
    ensures
      var m := ApplyAccount(l, EvCreateUser).after;
      && m == l.(users := m.users, nextUser := l.nextUser + 1)
      && m.users == l.users[l.nextUser := User(0, 0, "", false)]
  {}

  /** Whether a settled call would be about nobody without the user. */
  predicate OnlyAbout(r: Reservation, u: UserId) {
    (r.consumer == u || r.consumer == 0) && (r.donor == Some(u) || (r.donor.None? && r.consumer == u))
  }

  lemma DeletionRefusal(l: Ledger, u: UserId)
    ensures
      var tx := ApplyAccount(l, EvDeleteUser(u));
      var busy := exists k <- l.reservations ::
        l.reservations[k].status in {Reserved, Dispatched} && (l.reservations[k].consumer == u || l.reservations[k].donor == Some(u));
      if u !in l.users then tx == Tx(l, Rejected(NoSuchRow))
      else if l.users[u].admin then tx == Tx(l, Rejected(AdministratorRow))
      else if busy then tx == Tx(l, Rejected(StillInFlight))
      else tx.entry == DidCloseAccount(l.users[u].credits)
  {}

  /** After a deletion nothing names the user; rows that were not about it, or not about it alone, are still there. */
  lemma DeletionMoves(l: Ledger, u: UserId)
    requires Valid(l) && ApplyAccount(l, EvDeleteUser(u)).entry.DidCloseAccount?
    ensures
      var m := ApplyAccount(l, EvDeleteUser(u)).after;
      && m.users == l.users - {u}
      && m.donations.Keys == l.donations.Keys
      && (forall d <- l.donations :: m.donations[d]
            == if l.donations[d].source == Some(u) then l.donations[d].(source := None) else l.donations[d])
      && (forall k <- m.rounds :: k in l.rounds && m.rounds[k] == l.rounds[k] && m.rounds[k].player != u)
      && (forall k <- l.rounds :: l.rounds[k].player != u ==> k in m.rounds)
      && m.clock == l.clock && m.nextUser == l.nextUser && m.nextDonation == l.nextDonation
  {}

  lemma DeletionAnonymises(l: Ledger, u: UserId, k: ReservationId)
    requires Valid(l) && ApplyAccount(l, EvDeleteUser(u)).entry.DidCloseAccount?
    ensures
      var m := ApplyAccount(l, EvDeleteUser(u)).after;
      && (k in m.reservations <==> k in l.reservations && !OnlyAbout(l.reservations[k], u))
      && (k in m.reservations ==>
            && m.reservations[k].consumer != u && m.reservations[k].donor != Some(u)
            && (l.reservations[k].consumer != u ==> m.reservations[k].consumer == l.reservations[k].consumer)
            && (l.reservations[k].donor != Some(u) ==> m.reservations[k].donor == l.reservations[k].donor)
            && m.reservations[k].(consumer := 0, donor := None) == l.reservations[k].(consumer := 0, donor := None))
  {
    assert u in l.users && 0 < u;
  }

  /** A user is paid for a check-in that is the first of its day and comes while its credits are under the cap, or bypass it. */
  lemma CheckInMoves(l: Ledger, u: UserId, day: string, bonus: int, cap: int, bypass: bool)
    ensures
      var tx := ApplyAccount(l, EvCheckIn(u, day, bonus, cap, bypass));
      && (tx.entry == DidCheckIn(bonus) <==> u in l.users && l.users[u].lastCheckinDay != day && (bypass || l.users[u].credits < cap))
      && (tx.entry != DidCheckIn(bonus) ==>
            tx == Tx(l, Rejected(if u !in l.users then NoSuchRow
                                 else if l.users[u].lastCheckinDay == day then AlreadyCheckedIn else CreditsCapped)))
      && (tx.entry == DidCheckIn(bonus) ==>
            && OnlyUsers(l, tx.after) && OnlyRow(l.users, tx.after.users, u)
            && tx.after.users[u] == l.users[u].(credits := l.users[u].credits + bonus, lastCheckinDay := day))
  {}

  lemma AdjustMoves(l: Ledger, u: UserId, delta: int)
    ensures
      var added, set_ := ApplyAccount(l, EvAdjustCredits(u, delta)), ApplyAccount(l, EvSetCredits(u, delta));
      && (u !in l.users ==> added == Tx(l, Rejected(NoSuchRow)) && set_ == Tx(l, Unchanged))
      && (u in l.users ==>
            && added.after == l.(users := l.users[u := l.users[u].(credits := l.users[u].credits + delta)])
            && set_.after == l.(users := l.users[u := l.users[u].(credits := delta)])
            && added.entry == DidAdjust(delta) && set_.entry == DidAdjust(delta - l.users[u].credits))
  {}

  // ---- rounds ----

  /** A round is started by a user who can pay the ticket; it costs that and remembers what was drawn. */
  lemma StartMoves(l: Ledger, id: RoundId, u: UserId, price: int, won: int)
    ensures
      var tx := ApplyAccount(l, EvStartRound(id, u, price, won));
      && (tx.entry == DidStartRound(id, price) <==>
            price >= 1 && u in l.users && !l.users[u].admin && price <= l.users[u].credits && id !in l.rounds)
      && (tx.entry != DidStartRound(id, price) ==>
            tx == Tx(l, Rejected(if price <= 0 then InvalidPatch else if u !in l.users then NoSuchRow
                                 else if l.users[u].admin then AdministratorRow
                                 else if l.users[u].credits < price then InsufficientCredits else DuplicateKey)))
      && (tx.entry == DidStartRound(id, price) ==>
            && tx.after == l.(users := tx.after.users, rounds := tx.after.rounds)
            && OnlyRow(l.users, tx.after.users, u)
            && tx.after.users[u] == l.users[u].(credits := l.users[u].credits - price)
            && tx.after.rounds.Keys == l.rounds.Keys + {id} && tx.after.rounds - {id} == l.rounds
            && tx.after.rounds[id] == Round(u, won, false, l.clock))
  {
    if StartRound(l, id, u, price, won).entry == DidStartRound(id, price) {
      assert StartRound(l, id, u, price, won).after.rounds - {id} == l.rounds;
    }
  }

  /** An open round of its player pays what was drawn, to that player, and is closed. */
  lemma SettleMoves(l: Ledger, id: RoundId, u: UserId)
    ensures
      var tx := ApplyAccount(l, EvSettleRound(id, u));
      && (tx.entry.DidSettleRound? <==> id in l.rounds && l.rounds[id].player == u && u in l.users && !l.rounds[id].settled)
      && (!tx.entry.DidSettleRound? ==> tx.after == l)
      && (tx.entry.DidSettleRound? ==>
            && tx.entry == DidSettleRound(id, Due(l.rounds[id]))
            && tx.after == l.(users := tx.after.users, rounds := tx.after.rounds)
            && OnlyRow(l.users, tx.after.users, u) && OnlyRow(l.rounds, tx.after.rounds, id)
            && tx.after.users[u] == l.users[u].(credits := l.users[u].credits + Due(l.rounds[id]))
            && tx.after.rounds[id] == l.rounds[id].(settled := true))
  {}

  lemma PurgeRoundsMoves(l: Ledger, cutoff: int, id: RoundId)
    ensures
      var m := ApplyPurge(l, EvPurgeRounds(cutoff)).after;
      && m == l.(rounds := m.rounds)
      && (id in m.rounds <==> id in l.rounds && l.rounds[id].createdAt >= cutoff)
      && (id in m.rounds ==> m.rounds[id] == l.rounds[id])
  {}

  /** Over every run a round that was started pays at most once, and then what was drawn at its start, or nothing for a loss. */
  lemma RoundPaysWhatWasDrawn(l: Ledger, es: seq<TimedEvent>, id: RoundId, u: UserId, price: int, won: int)
    requires es != [] && es[0].event == OnAccount(EvStartRound(id, u, price, won)) && NeverStarted(es[1..], id)
    requires Step(l, es[0]).entry.DidStartRound?
    ensures
      var payouts := Payouts(id, Run(l, es).history);
      payouts == [] || payouts == [if won > 0 then won else 0]
  {
    var tx := Step(l, es[0]);
    StartMoves(l.(clock := es[0].now), id, u, price, won);
    RoundPaysOnce(tx.after, es[1..], id);
    assert Run(l, es).history[1..] == Run(tx.after, es[1..]).history;
  }

  // ---- one check-in a day ----

  predicate ChecksIn(e: TimedEvent, u: UserId) {
    e.event.OnAccount? && e.event.account.EvCheckIn? && e.event.account.user == u
  }

  /** All check-ins of the user in the run are on that day. */
  predicate OnOneDay(es: seq<TimedEvent>, u: UserId, day: string) {
    forall e <- es :: ChecksIn(e, u) ==> e.event.account.day == day
  }

  /** How often the user was paid for a check-in. */
  function PaidCheckIns(l: Ledger, es: seq<TimedEvent>, u: UserId): nat
    decreases es
  {
    if es == [] then 0
    else
      var tx := Step(l, es[0]);
      (if ChecksIn(es[0], u) && tx.entry.DidCheckIn? then 1 else 0) + PaidCheckIns(tx.after, es[1..], u)
  }

  /** The user has checked in on that day, or is no longer there. */
  predicate CheckedIn(l: Ledger, u: UserId, day: string) {
    u < l.nextUser && (u in l.users ==> l.users[u].lastCheckinDay == day)
  }

  lemma StepKeepsCheckedIn(l: Ledger, e: TimedEvent, u: UserId, day: string)
    requires CheckedIn(l, u, day) && (ChecksIn(e, u) ==> e.event.account.day == day)
    ensures CheckedIn(Step(l, e).after, u, day) && !(ChecksIn(e, u) && Step(l, e).entry.DidCheckIn?)
  {
    match e.event
    case OnAccount(account) => AccountKeepsCheckedIn(l.(clock := e.now), account, u, day);
    case OnCall(call) => CallKeepsCheckedIn(l.(clock := e.now), call, u, day);
    case _ =>
  }

  lemma AccountKeepsCheckedIn(l: Ledger, e: AccountEvent, u: UserId, day: string)
    requires CheckedIn(l, u, day) && (e.EvCheckIn? && e.user == u ==> e.day == day)
    ensures CheckedIn(ApplyAccount(l, e).after, u, day)
    ensures !(e.EvCheckIn? && e.user == u && ApplyAccount(l, e).entry.DidCheckIn?)
  {}

  lemma CallKeepsCheckedIn(l: Ledger, e: CallEvent, u: UserId, day: string)
    requires CheckedIn(l, u, day)
    ensures CheckedIn(ApplyCall(l, e).after, u, day)
  {}

  lemma {:induction false} CheckedInIsNotPaid(l: Ledger, es: seq<TimedEvent>, u: UserId, day: string)
    requires CheckedIn(l, u, day) && OnOneDay(es, u, day)
    ensures PaidCheckIns(l, es, u) == 0
    decreases es
  {
    if es != [] {
      assert ChecksIn(es[0], u) ==> es[0].event.account.day == day;
      StepKeepsCheckedIn(l, es[0], u, day);
      CheckedInIsNotPaid(Step(l, es[0]).after, es[1..], u, day);
    }
  }

  lemma PaidIsCheckedIn(l: Ledger, e: TimedEvent, u: UserId)
    requires CharityLaws.Valid(l) && ChecksIn(e, u) && Step(l, e).entry.DidCheckIn?
    ensures CheckedIn(Step(l, e).after, u, e.event.account.day)
  {}

  /** Over every run in which a user checks in on one day only, however often, it is paid at most once. */
  lemma {:induction false} PaidOnceADay(l: Ledger, es: seq<TimedEvent>, u: UserId, day: string)
    requires CharityLaws.Valid(l) && Ordered(l.clock, es) && OnOneDay(es, u, day)
    ensures PaidCheckIns(l, es, u) <= 1
    decreases es
  {
    if es != [] {
      var tx := Step(l, es[0]);
      StepConserves(l, es[0]);
      if ChecksIn(es[0], u) && tx.entry.DidCheckIn? {
        PaidIsCheckedIn(l, es[0], u);
        CheckedInIsNotPaid(tx.after, es[1..], u, day);
      } else {
        PaidOnceADay(tx.after, es[1..], u, day);
      }
    }
  }
}
