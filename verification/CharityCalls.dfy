/** Whole charity calls, told by the balances, uses and rewards they move. */
module CharityCalls {
  // What a call does is said about the users, donations and rows before it and after it, so that each
  // transaction is held to what the others make of it: a released call leaves no trace, and a committed one
  // has moved one price, one use and one reward, to the source that the donation had when it was reserved.

  import opened Options
  import opened Charity
  import opened CharityLaws
  import opened CharityRuns

  datatype Order = Order(id: ReservationId, user: UserId, donation: DonationId, price: int, reward: int)

  function ReserveFor(l: Ledger, o: Order): Tx {
    Reserve(l, o.id, o.user, o.donation, o.price, o.reward)
  }

  /** The consumer can pay, the donation is switched on, not past its deadline and not used up, and the id is new. */
  predicate Reservable(l: Ledger, o: Order) {
    && o.price >= 0 && o.reward >= 0
    && o.donation in l.donations
    && l.donations[o.donation].status == Active && l.clock < l.donations[o.donation].deadline
    && 1 <= l.donations[o.donation].remaining
    && o.user in l.users && o.price <= l.users[o.user].credits
    && o.id !in l.reservations
  }

  lemma ReserveSucceedsIff(l: Ledger, o: Order)
    ensures ReserveFor(l, o).entry == DidReserve(o.id, o.price) <==> Reservable(l, o)
    ensures !Reservable(l, o) ==> ReserveFor(l, o).entry.Rejected? && ReserveFor(l, o).after == l
  {}

  predicate Routed(l: Ledger, o: Order) {
    && o.donation in l.donations
    && var d := l.donations[o.donation]; d.status == Active && d.deadline > l.clock && d.remaining > 0
  }

  predicate Affordable(l: Ledger, o: Order) {
    o.user in l.users && l.users[o.user].credits >= o.price
  }

  /** Why a call is refused: its amounts come before its donation, and its donation before its consumer. */
  lemma ReserveRefusal(l: Ledger, o: Order)
    requires !Reservable(l, o)
    ensures
      var error := ReserveFor(l, o).entry.error;
      && (error == NegativeAmount <==> o.price < 0 || o.reward < 0)
      && (error == DonationUnavailable <==> o.price >= 0 && o.reward >= 0 && !Routed(l, o))
      && (error == InsufficientCredits <==> o.price >= 0 && o.reward >= 0 && Routed(l, o) && !Affordable(l, o))
      && (error == DuplicateKey <==> o.price >= 0 && o.reward >= 0 && Routed(l, o) && Affordable(l, o))
  {}

  /** The row is a snapshot: who pays, from which donation, whom to reward and how much is at stake. */
  lemma ReserveRecords(l: Ledger, o: Order)
    requires Reservable(l, o)
    ensures
      var after := ReserveFor(l, o).after;
      && o.id in after.reservations
      && var row := after.reservations[o.id];
         && row.consumer == o.user && row.donation == o.donation && row.price == o.price && row.reward == o.reward
         && row.donor == l.donations[o.donation].source
         && row.status == Status.Reserved && row.updatedAt == l.clock
    ensures forall k <- l.reservations ::
        k in ReserveFor(l, o).after.reservations && ReserveFor(l, o).after.reservations[k] == l.reservations[k]
    ensures ReserveFor(l, o).after.rounds == l.rounds
  {}

  // ---- a call that is released ----

  /** The donation with one failure more, if failures are counted. */
  function WithFailure(d: Donation, counted: bool): Donation {
    if counted then d.(failures := d.failures + 1, consecutive := d.consecutive + 1) else d
  }

  /**
   Releasing undoes the reservation: every balance and every donation is as before, but for a counted
   failure, and for a last use that came back too late to reopen its donation.
   */
  lemma ReleasedCallLeavesNothing(l: Ledger, o: Order, now: int, countFailure: bool)
    requires Reservable(l, o) && l.clock <= now
    ensures
      var tx := Release(ReserveFor(l, o).after.(clock := now), o.id, countFailure);
      var before := l.donations[o.donation];
      var expires := before.remaining == 1 && before.deadline <= now;
      && tx.entry.DidRelease? && tx.entry.refund == o.price
      && tx.entry.consecutive == (if countFailure then before.consecutive + 1 else 0)
      && tx.after.users == l.users
      && tx.after.donations
         == l.donations[o.donation := WithFailure(if expires then before.(status := Expired) else before, countFailure)]
      && tx.after.reservations.Keys == l.reservations.Keys + {o.id}
      && tx.after.reservations[o.id].status == Released && tx.after.reservations[o.id].updatedAt == now
      && tx.after.reservations - {o.id} == l.reservations
  {
    var tx := Release(ReserveFor(l, o).after.(clock := now), o.id, countFailure);
    assert tx.after.users[o.user] == l.users[o.user];
    assert tx.after.reservations - {o.id} == l.reservations;
  }

  // ---- a call that is committed ----

  /** The ledger after a call reserved now, marked at `marked` and committed at `now`. */
  function Called(l: Ledger, o: Order, marked: int, now: int): Tx {
    var held := MarkDispatched(ReserveFor(l, o).after.(clock := marked), o.id).after;
    Commit(held.(clock := now), o.id)
  }

  /** What a call takes from a user and what it brings it. */
  function Moved(l: Ledger, o: Order, u: UserId): int
    requires o.donation in l.donations
  {
    (if u == o.user then -o.price else 0) + if l.donations[o.donation].source == Some(u) then o.reward else 0
  }

  function Helped(l: Ledger, o: Order, u: UserId): int
    requires o.donation in l.donations
  {
    if l.donations[o.donation].source == Some(u) then 1 else 0
  }

  lemma CommittedCallPays(l: Ledger, o: Order, marked: int, now: int)
    requires Reservable(l, o) && l.clock <= marked <= now
    ensures
      var tx := Called(l, o, marked, now);
      var source := l.donations[o.donation].source;
      && tx.entry == DidCommit(o.id, o.price, if source.Some? && source.value in l.users then o.reward else 0)
      && tx.after.users.Keys == l.users.Keys
      && (forall u <- l.users :: tx.after.users[u]
            == l.users[u].(credits := l.users[u].credits + Moved(l, o, u), donationCredit := l.users[u].donationCredit + Helped(l, o, u)))
  {}

  lemma CommittedCallUses(l: Ledger, o: Order, marked: int, now: int)
    requires Reservable(l, o) && l.clock <= marked <= now
    ensures
      var after, before := Called(l, o, marked, now).after, l.donations[o.donation];
      && after.donations == l.donations[o.donation := before.(
           remaining := before.remaining - 1, successes := before.successes + 1, consecutive := 0,
           status := if before.remaining == 1 then Expired else Active)]
      && after.reservations.Keys == l.reservations.Keys + {o.id}
      && after.reservations[o.id].status == Committed && after.reservations[o.id].updatedAt == now
      && after.reservations - {o.id} == l.reservations
  {
    assert Called(l, o, marked, now).after.reservations - {o.id} == l.reservations;
  }

  /**
   A committed call has taken the price from its consumer, one use from the donation, and brought the
   reward and one credit of merit to the donation's source, if that is a user; and nothing else.
   */
  lemma CommittedCallMoves(l: Ledger, o: Order, marked: int, now: int)
    requires Reservable(l, o) && l.clock <= marked <= now
    ensures
      var tx := Called(l, o, marked, now);
      var before := l.donations[o.donation];
      var paid := before.source.Some? && before.source.value in l.users;
      && tx.entry == DidCommit(o.id, o.price, if paid then o.reward else 0)
      && tx.after.users.Keys == l.users.Keys
      && (forall u <- l.users :: tx.after.users[u]
            == l.users[u].(credits := l.users[u].credits + Moved(l, o, u), donationCredit := l.users[u].donationCredit + Helped(l, o, u)))
      && tx.after.donations == l.donations[o.donation := before.(
           remaining := before.remaining - 1, successes := before.successes + 1, consecutive := 0,
           status := if before.remaining == 1 then Expired else Active)]
      && tx.after.reservations - {o.id} == l.reservations
  {
    CommittedCallPays(l, o, marked, now);
    CommittedCallUses(l, o, marked, now);
  }

  // ---- who is paid over a run ----

  predicate ReservesIn(e: TimedEvent, o: Order) {
    e.event == OnCall(EvReserve(o.id, o.user, o.donation, o.price, o.reward))
  }

  /**
   A call reserved at the beginning of a run, and committed anywhere in it, costs the price and pays the
   reward exactly if the donation's source was a user when the call was reserved.
   */
  lemma ReservedCallPaysItsSource(l: Ledger, es: seq<TimedEvent>, o: Order, commit: Entry)
    requires Valid(l) && Ordered(l.clock, es) && es != [] && ReservesIn(es[0], o)
    requires Reservable(l.(clock := es[0].now), o) && NeverDrawn(es[1..], o.id)
    requires commit in Run(l, es).history && commit.DidCommit? && commit.id == o.id
    ensures
      var source := l.donations[o.donation].source;
      && commit.price == o.price
      && commit.paid == if source.Some? && source.value in l.users then o.reward else 0
  {
    var m := l.(clock := es[0].now);
    var tx := Step(l, es[0]);
    ReserveSucceedsIff(m, o);
    ReserveRecords(m, o);
    StepConserves(l, es[0]);
    assert tx.after.users.Keys == l.users.Keys;
    assert commit in Run(tx.after, es[1..]).history;
    RewardIsPaidIffDonorExists(tx.after, es[1..], o.id, commit);
  }

  lemma UndrawnStaysAbsent(l: Ledger, e: TimedEvent, id: ReservationId)
    requires Valid(l) && l.clock <= e.now && id !in l.reservations && !Draws(e, id)
    ensures id !in Step(l, e).after.reservations && !About(id, Step(l, e).entry)
  {
    StepReflects(l, e, id, []);
  }

  /** The same for a call reserved at any point of a run: what counts is the donations table at that point. */
  lemma {:induction false} RunPaysTheSource(l: Ledger, es: seq<TimedEvent>, i: nat, o: Order, commit: Entry)
    requires Valid(l) && Ordered(l.clock, es) && i < |es| && ReservesIn(es[i], o)
    requires o.id !in l.reservations && DrawnAtMostOnce(es, o.id)
    requires Reservable(Run(l, es[..i]).final.(clock := es[i].now), o)
    requires commit in Run(l, es).history && commit.DidCommit? && commit.id == o.id
    ensures
      var at := Run(l, es[..i]).final;
      && commit.price == o.price
      && commit.paid
         == match at.donations[o.donation].source
            case Some(u) => if u in at.users then o.reward else 0
            case None => 0
    decreases i
  {
    assert Draws(es[i], o.id);
    if i == 0 {
      assert es[..0] == [];
      ReservedCallPaysItsSource(l, es, o, commit);
    } else {
      var tx := Step(l, es[0]);
      assert !Draws(es[0], o.id);
      UndrawnStaysAbsent(l, es[0], o.id);
      StepConserves(l, es[0]);
      assert es[1..][..i - 1] == es[..i][1..] && es[..i][0] == es[0] && es[1..][i - 1] == es[i];
      RunPaysTheSource(tx.after, es[1..], i - 1, o, commit);
    }
  }
}
