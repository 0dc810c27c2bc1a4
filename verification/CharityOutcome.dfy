/** What a recovery leaves in full: every column of every row. */
module CharityOutcome {
  // Only the stamps of the settled rows depend on when they were settled, and the status of a donation on
  // whether its deadline passed meanwhile.

  import opened Options
  import opened MapSums
  import opened Charity
  import opened CharityLaws
  import opened CharityRuns
  import opened CharityRecovery

  // ---- each row when everything in flight is settled ----

  ghost function UserAtEnd(l: Ledger, u: UserId): User
    requires u in l.users
  {
    l.users[u].(credits := ForecastCredits(l, u), donationCredit := ForecastContribution(l, u))
  }

  /** A use given back before the deadline revives a donation that was exhausted; a success ends a row of failures. */
  ghost function DonationAtEnd(l: Ledger, d: DonationId, beforeDeadline: bool): Donation
    requires d in l.donations
  {
    var x := l.donations[d];
    var revives := x.status.Expired? && x.remaining == 0 && beforeDeadline && Sum(l.reservations, ReservedOn(d)) > 0;
    x.(remaining := ForecastRemaining(l, d),
       successes := ForecastSuccesses(l, d),
       consecutive := if Sum(l.reservations, DispatchedOn(d)) > 0 then 0 else x.consecutive,
       status := if revives then Active else x.status)
  }

  function RowAtEnd(r: Reservation): Reservation {
    r.(status := Fate(r.status), updatedAt := 0)
  }

  ghost predicate SameUserEnd(l: Ledger, m: Ledger, u: UserId)
    requires u in l.users
  {
    u in m.users && UserAtEnd(l, u) == UserAtEnd(m, u)
  }

  ghost predicate SameDonationEnd(l: Ledger, m: Ledger, d: DonationId, now: int)
    requires d in l.donations
  {
    && d in m.donations && m.donations[d].deadline == l.donations[d].deadline
    && DonationAtEnd(l, d, l.donations[d].deadline > now) == DonationAtEnd(m, d, l.donations[d].deadline > now)
  }

  /** Two ledgers come to the same rows once all calls are settled at a time like `now`. */
  ghost predicate SameEnd(l: Ledger, m: Ledger, now: int) {
    && l.users.Keys == m.users.Keys && l.donations.Keys == m.donations.Keys && l.reservations.Keys == m.reservations.Keys
    && l.rounds == m.rounds && l.nextUser == m.nextUser && l.nextDonation == m.nextDonation
    && (forall u <- l.users :: SameUserEnd(l, m, u))
    && (forall d <- l.donations :: SameDonationEnd(l, m, d, now))
    && (forall k <- l.reservations :: RowAtEnd(l.reservations[k]) == RowAtEnd(m.reservations[k]))
  }

  /** No donation is on the other side of its deadline at `t` than at `now`. */
  ghost predicate SameDeadlines(l: Ledger, now: int, t: int) {
    forall d <- l.donations :: l.donations[d].deadline > now <==> l.donations[d].deadline > t
  }

  // ---- one settlement ----

  lemma SettleKeepsUserEnd(l: Ledger, id: ReservationId, u: UserId)
    requires Valid(l) && u in l.users
    ensures SameUserEnd(l, Settle(l, id).after, u)
  {
    SettleKeepsUser(l, id, u);
    OtherColumnsStay(l, id, u);
  }

  lemma OtherColumnsStay(l: Ledger, id: ReservationId, u: UserId)
    requires u in l.users
    ensures var after := Settle(l, id).after.users;
      u in after && after[u].(credits := 0, donationCredit := 0) == l.users[u].(credits := 0, donationCredit := 0)
  {}

  lemma CountsAreNatural(l: Ledger, d: DonationId)
    ensures Sum(l.reservations, ReservedOn(d)) >= 0 && Sum(l.reservations, DispatchedOn(d)) >= 0
  {
    SumBounds(l.reservations, ReservedOn(d));
    SumBounds(l.reservations, DispatchedOn(d));
  }

  lemma SettleBooks(l: Ledger, id: ReservationId, d: DonationId)
    ensures
      var tx := Settle(l, id);
      && Sum(tx.after.reservations, ReservedOn(d)) == Sum(l.reservations, ReservedOn(d)) + Booked(l, tx, ReservedOn(d))
      && Sum(tx.after.reservations, DispatchedOn(d)) == Sum(l.reservations, DispatchedOn(d)) + Booked(l, tx, DispatchedOn(d))
      && Sum(tx.after.reservations, ReservedOn(d)) >= 0 && Sum(tx.after.reservations, DispatchedOn(d)) >= 0
  {
    BookedCall(l, EvSettle(id), ReservedOn(d));
    BookedCall(l, EvSettle(id), DispatchedOn(d));
    CountsAreNatural(Settle(l, id).after, d);
  }

  lemma ReleaseKeepsDonationEnd(l: Ledger, id: ReservationId, d: DonationId)
    requires Valid(l) && d in l.donations && id in l.reservations && l.reservations[id].status.Reserved?
    ensures SameDonationEnd(l, Settle(l, id).after, d, l.clock)
  {
    SettleBooks(l, id, d);
  }

  lemma CommitKeepsDonationEnd(l: Ledger, id: ReservationId, d: DonationId)
    requires Valid(l) && d in l.donations && id in l.reservations && l.reservations[id].status.Dispatched?
    ensures SameDonationEnd(l, Settle(l, id).after, d, l.clock)
  {
    SettleBooks(l, id, d);
  }

  lemma SettleKeepsDonationEnd(l: Ledger, id: ReservationId, d: DonationId, now: int)
    requires Valid(l) && d in l.donations && (l.donations[d].deadline > now <==> l.donations[d].deadline > l.clock)
    ensures SameDonationEnd(l, Settle(l, id).after, d, now)
  {
    if id in l.reservations && l.reservations[id].status.Reserved? {
      ReleaseKeepsDonationEnd(l, id, d);
    } else if id in l.reservations && l.reservations[id].status.Dispatched? {
      CommitKeepsDonationEnd(l, id, d);
    }
  }

  lemma SettleKeepsRowEnds(l: Ledger, id: ReservationId)
    requires Valid(l)
    ensures var m := Settle(l, id).after;
      && l.rounds == m.rounds && l.nextUser == m.nextUser && l.nextDonation == m.nextDonation
      && l.reservations.Keys == m.reservations.Keys
      && forall k <- l.reservations :: RowAtEnd(l.reservations[k]) == RowAtEnd(m.reservations[k])
  {}

  /** One settlement changes nothing about the end, whichever call it settles. */
  lemma SettleKeepsEnd(l: Ledger, id: ReservationId, now: int)
    requires Valid(l) && SameDeadlines(l, now, l.clock)
    ensures SameEnd(l, Settle(l, id).after, now)
  {
    SettleKeepsRows(l, id);
    SettleKeepsRowEnds(l, id);
    forall u <- l.users { SettleKeepsUserEnd(l, id, u); }
    forall d <- l.donations { SettleKeepsDonationEnd(l, id, d, now); }
  }

  // ---- a whole recovery ----

  lemma SameEndTransitive(l: Ledger, m: Ledger, n: Ledger, now: int)
    requires SameEnd(l, m, now) && SameEnd(m, n, now)
    ensures SameEnd(l, n, now)
  {
    forall u <- l.users
      ensures SameUserEnd(l, n, u)
    {
      assert SameUserEnd(l, m, u) && SameUserEnd(m, n, u);
    }
    forall d <- l.donations
      ensures SameDonationEnd(l, n, d, now)
    {
      assert SameDonationEnd(l, m, d, now) && SameDonationEnd(m, n, d, now);
    }
    forall k <- l.reservations
      ensures RowAtEnd(l.reservations[k]) == RowAtEnd(n.reservations[k])
    {
      assert k in m.reservations;
    }
  }

  /** The clock is no part of the end. */
  lemma ClockKeepsEnd(l: Ledger, t: int, now: int)
    ensures SameEnd(l, l.(clock := t), now)
  {
    forall u <- l.users
      ensures SameUserEnd(l, l.(clock := t), u)
    {}
    forall d <- l.donations
      ensures SameDonationEnd(l, l.(clock := t), d, now)
    {}
  }

  /** No deadline of a donation passes while the recovery runs. */
  ghost predicate NoDeadlinePasses(l: Ledger, es: seq<TimedEvent>, now: int) {
    forall e <- es :: SameDeadlines(l, now, e.now)
  }

  lemma StepKeepsEnd(l: Ledger, e: TimedEvent, now: int)
    requires Valid(l) && l.clock <= e.now && e.event.OnCall? && e.event.call.EvSettle? && SameDeadlines(l, now, e.now)
    ensures SameEnd(l, Step(l, e).after, now)
  {
    var m := l.(clock := e.now);
    ClockKeepsValid(l, e.now);
    ClockKeepsEnd(l, e.now, now);
    SettleKeepsEnd(m, e.event.call.id, now);
    SameEndTransitive(l, m, Step(l, e).after, now);
  }

  lemma SameEndSameDeadlines(l: Ledger, m: Ledger, es: seq<TimedEvent>, now: int)
    requires SameEnd(l, m, now) && NoDeadlinePasses(l, es, now)
    ensures NoDeadlinePasses(m, es, now)
  {
    forall e <- es, d <- m.donations
      ensures m.donations[d].deadline > now <==> m.donations[d].deadline > e.now
    {
      assert SameDeadlines(l, now, e.now) && SameDonationEnd(l, m, d, now);
    }
  }

  lemma {:induction false} RecoveryKeepsEnd(l: Ledger, es: seq<TimedEvent>, now: int)
    requires Valid(l) && Ordered(l.clock, es) && SettlesOnly(es) && NoDeadlinePasses(l, es, now)
    ensures SameEnd(l, Run(l, es).final, now)
    decreases es
  {
    if es == [] {
      ClockKeepsEnd(l, l.clock, now);
    } else {
      var after := Step(l, es[0]).after;
      StepKeepsEnd(l, es[0], now);
      StepConserves(l, es[0]);
      SameEndSameDeadlines(l, after, es[1..], now);
      RecoveryKeepsEnd(after, es[1..], now);
      SameEndTransitive(l, after, Run(l, es).final, now);
    }
  }

  /** That matters: the last use of an exhausted donation revives it exactly if it comes back before the deadline. */
  lemma RevivedIffBeforeDeadline(l: Ledger, id: ReservationId)
    requires Valid(l) && id in l.reservations && l.reservations[id].status.Reserved?
    requires l.donations[l.reservations[id].donation].status.Expired? && l.donations[l.reservations[id].donation].remaining == 0
    ensures var d := l.reservations[id].donation;
      d in Settle(l, id).after.donations && (Settle(l, id).after.donations[d].status.Active? <==> l.donations[d].deadline > l.clock)
  {}

  /** All rows are the same, but for the time at which a call was settled. */
  ghost predicate SameRows(l: Ledger, m: Ledger) {
    && l.users == m.users && l.donations == m.donations && l.rounds == m.rounds
    && l.nextUser == m.nextUser && l.nextDonation == m.nextDonation
    && l.reservations.Keys == m.reservations.Keys
    && (forall k <- l.reservations :: l.reservations[k].(updatedAt := 0) == m.reservations[k].(updatedAt := 0))
  }

  lemma QuietUserEnd(l: Ledger, u: UserId)
    requires Quiet(l) && u in l.users
    ensures UserAtEnd(l, u) == l.users[u]
  {
    QuietUser(l, u);
  }

  lemma QuietDonationEnd(l: Ledger, d: DonationId, beforeDeadline: bool)
    requires Quiet(l) && d in l.donations
    ensures DonationAtEnd(l, d, beforeDeadline) == l.donations[d]
  {
    QuietDonation(l, d);
    NothingToCome(l, ReservedOn(d));
    NothingToCome(l, DispatchedOn(d));
  }

  lemma QuietEndIsNow(l: Ledger, m: Ledger, now: int)
    requires Quiet(l) && Quiet(m) && SameEnd(l, m, now)
    ensures SameRows(l, m)
  {
    forall u <- l.users
      ensures l.users[u] == m.users[u]
    {
      assert SameUserEnd(l, m, u);
      QuietUserEnd(l, u); QuietUserEnd(m, u);
    }
    forall d <- l.donations
      ensures l.donations[d] == m.donations[d]
    {
      assert SameDonationEnd(l, m, d, now);
      QuietDonationEnd(l, d, l.donations[d].deadline > now); QuietDonationEnd(m, d, l.donations[d].deadline > now);
    }
    forall k <- l.reservations
      ensures l.reservations[k].(updatedAt := 0) == m.reservations[k].(updatedAt := 0)
    {
      assert !InFlight(l.reservations[k]) && !InFlight(m.reservations[k]);
      assert RowAtEnd(l.reservations[k]) == RowAtEnd(m.reservations[k]);
    }
  }

  lemma SameEndFromOne(l: Ledger, m: Ledger, n: Ledger, now: int)
    requires SameEnd(l, m, now) && SameEnd(l, n, now)
    ensures SameEnd(m, n, now)
  {
    forall u <- m.users
      ensures SameUserEnd(m, n, u)
    {
      assert SameUserEnd(l, m, u) && SameUserEnd(l, n, u);
    }
    forall d <- m.donations
      ensures SameDonationEnd(m, n, d, now)
    {
      assert SameDonationEnd(l, m, d, now) && SameDonationEnd(l, n, d, now);
    }
    forall k <- m.reservations
      ensures RowAtEnd(m.reservations[k]) == RowAtEnd(n.reservations[k])
    {
      assert k in l.reservations;
    }
  }

  /**
   Any two recoveries that leave nothing in flight, and during which no donation's deadline passes,
   end with the same rows in every column, up to the times of settlement.
   */
  lemma RecoveryIsUniqueInFull(l: Ledger, es: seq<TimedEvent>, fs: seq<TimedEvent>, now: int)
    requires Valid(l) && Ordered(l.clock, es) && Ordered(l.clock, fs) && SettlesOnly(es) && SettlesOnly(fs)
    requires NoDeadlinePasses(l, es, now) && NoDeadlinePasses(l, fs, now)
    requires Quiet(Run(l, es).final) && Quiet(Run(l, fs).final)
    ensures SameRows(Run(l, es).final, Run(l, fs).final)
  {
    RecoveryKeepsEnd(l, es, now);
    RecoveryKeepsEnd(l, fs, now);
    SameEndFromOne(l, Run(l, es).final, Run(l, fs).final, now);
    QuietEndIsNow(Run(l, es).final, Run(l, fs).final, now);
  }
}
