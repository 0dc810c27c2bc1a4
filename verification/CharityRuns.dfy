/** Laws over whole runs of the charity ledger. */
module CharityRuns {
  // A run is any interleaving of request paths, the settlement worker, stale scans, housekeeping,
  // administrators, crashes and restarts. A crash is no event of its own: it only ends the requests that
  // would have sent more.

  import opened Options
  import opened MapSums
  import opened Charity
  import opened CharityLaws

  // ---- conservation of credits over a run ----

  function TotalValue(history: seq<Entry>): int {
    if history == [] then 0 else Value(history[0]) + TotalValue(history[1..])
  }

  lemma {:induction false} RunConservesCredits(l: Ledger, es: seq<TimedEvent>)
    requires Valid(l) && Ordered(l.clock, es)
    ensures Valid(Run(l, es).final)
    ensures Wealth(Run(l, es).final) == Wealth(l) + TotalValue(Run(l, es).history)
    decreases es
  {
    if es != [] {
      StepConserves(l, es[0]);
      var tx := Step(l, es[0]);
      var rest := Run(tx.after, es[1..]);
      RunConservesCredits(tx.after, es[1..]);
      assert ([tx.entry] + rest.history)[1..] == rest.history;
    }
  }

  lemma StepConserves(l: Ledger, e: TimedEvent)
    requires Valid(l) && l.clock <= e.now
    ensures Valid(Step(l, e).after) && Step(l, e).after.clock == e.now
    ensures Wealth(Step(l, e).after) == Wealth(l) + Value(Step(l, e).entry)
  {
    StepKeepsValid(l, e);
    ApplyKeepsWealth(l.(clock := e.now), e.event);
    ApplyKeepsClock(l.(clock := e.now), e.event);
  }

  lemma ApplyKeepsClock(l: Ledger, e: Event)
    ensures Apply(l, e).after.clock == l.clock
  {}

  // ---- conservation of uses over a run ----

  /** The donation is deleted at no point of the run. */
  ghost predicate Persists(l: Ledger, es: seq<TimedEvent>, d: DonationId)
    decreases es
  {
    d in l.donations && (es == [] || Persists(Step(l, es[0]).after, es[1..], d))
  }

  /** An applied patch that sets the total below the uses consumed and held so far. */
  ghost predicate ShrinksBelowUsage(l: Ledger, e: TimedEvent, d: DonationId)
    requires d in l.donations
  {
    && e.event.OnDonation?
    && e.event.onDonation.EvPatch?
    && e.event.onDonation.donation == d
    && e.event.onDonation.patch.total.Some?
    && !Step(l, e).entry.Rejected?
    && e.event.onDonation.patch.total.value < UsesInFlight(l, d) + l.donations[d].successes
  }

  ghost predicate NeverShrinksBelowUsage(l: Ledger, es: seq<TimedEvent>, d: DonationId)
    requires Persists(l, es, d)
    decreases es
  {
    es == [] || (!ShrinksBelowUsage(l, es[0], d) && NeverShrinksBelowUsage(Step(l, es[0]).after, es[1..], d))
  }

  lemma StepSlack(l: Ledger, e: TimedEvent, d: DonationId)
    requires Valid(l) && l.clock <= e.now && d in l.donations && d in Step(l, e).after.donations
    ensures Slack(Step(l, e).after, d) >= Slack(l, d)
    ensures Slack(l, d) == 0 ==> (Slack(Step(l, e).after, d) == 0 <==> !ShrinksBelowUsage(l, e, d))
  {
    var m := l.(clock := e.now);
    ApplyKeepsSlack(m, e.event, d);
    assert Slack(m, d) == Slack(l, d);
    if e.event.OnDonation? && e.event.onDonation.EvPatch? {
      assert Apply(m, e.event).entry.Rejected? || Apply(m, e.event).entry.DidHousekeeping?;
    }
  }

  /**
   Uses are never lost over a run, and the books stay exact (left + held + consumed ==
   total) exactly as long as no patch shrinks the total below what is used already.
   */
  lemma {:induction false} RunConservesUses(l: Ledger, es: seq<TimedEvent>, d: DonationId)
    requires Valid(l) && Ordered(l.clock, es) && Persists(l, es, d)
    ensures d in Run(l, es).final.donations
    ensures Slack(Run(l, es).final, d) >= Slack(l, d)
    ensures Slack(l, d) == 0 ==> (Slack(Run(l, es).final, d) == 0 <==> NeverShrinksBelowUsage(l, es, d))
    decreases es
  {
    if es != [] {
      StepConserves(l, es[0]);
      StepSlack(l, es[0], d);
      RunConservesUses(Step(l, es[0]).after, es[1..], d);
    }
  }

  ghost predicate UsesCovered(l: Ledger) {
    forall d <- l.donations :: Slack(l, d) >= 0
  }

  lemma {:induction false} RunCoversUses(l: Ledger, es: seq<TimedEvent>)
    requires Valid(l) && Ordered(l.clock, es) && UsesCovered(l)
    ensures UsesCovered(Run(l, es).final)
    decreases es
  {
    if es != [] {
      var after := Step(l, es[0]).after;
      StepConserves(l, es[0]);
      forall d <- after.donations
        ensures Slack(after, d) >= 0
      {
        if d in l.donations {
          StepSlack(l, es[0], d);
        } else {
          var m := l.(clock := es[0].now);
          OnlyDonationsAppear(m, es[0].event, d);
          CreatedWithoutSlack(m, es[0].event.onDonation, d);
        }
      }
      RunCoversUses(after, es[1..]);
    }
  }

  lemma OnlyDonationsAppear(l: Ledger, e: Event, d: DonationId)
    requires Valid(l) && d !in l.donations && d in Apply(l, e).after.donations
    ensures e.OnDonation?
  {}

  // ---- the life of one reservation ----

  predicate About(id: ReservationId, e: Entry) {
    match e
    case DidReserve(k, _) => k == id
    case DidDispatch(k) => k == id
    case DidCommit(k, _, _) => k == id
    case DidRelease(k, _, _) => k == id
    case _ => false
  }

  /** The entries of a history that concern one reservation, in order. */
  function LifeOf(id: ReservationId, history: seq<Entry>): seq<Entry> {
    if history == [] then []
    else (if About(id, history[0]) then [history[0]] else []) + LifeOf(id, history[1..])
  }

  predicate Refunded(life: seq<Entry>) {
    |life| == 2 && life[0].DidReserve? && life[1].DidRelease? && life[1].refund == life[0].price
  }

  predicate Charged(life: seq<Entry>) {
    |life| == 3 && life[0].DidReserve? && life[1].DidDispatch? && life[2].DidCommit? && life[2].price == life[0].price
  }

  /** How the durable row reflects the life of the reservation so far. */
  predicate RowReflects(l: Ledger, id: ReservationId, life: seq<Entry>) {
    if id !in l.reservations then life == [] || Refunded(life) || Charged(life)
    else
      && life != [] && life[0] == DidReserve(id, l.reservations[id].price)
      && match l.reservations[id].status
         case Reserved => |life| == 1
         case Dispatched => |life| == 2 && life[1] == DidDispatch(id)
         case Committed => Charged(life)
         case Released => Refunded(life)
  }

  predicate Draws(e: TimedEvent, id: ReservationId) {
    e.event.OnCall? && e.event.call.EvReserve? && e.event.call.id == id
  }

  /** Ids are drawn at random and not drawn twice. */
  predicate NeverDrawn(es: seq<TimedEvent>, id: ReservationId) {
    forall e <- es :: !Draws(e, id)
  }

  predicate DrawnAtMostOnce(es: seq<TimedEvent>, id: ReservationId) {
    forall i, j :: 0 <= i < j < |es| && Draws(es[i], id) ==> !Draws(es[j], id)
  }

  lemma StepReflects(l: Ledger, e: TimedEvent, id: ReservationId, life: seq<Entry>)
    requires Valid(l) && l.clock <= e.now && RowReflects(l, id, life)
    requires Draws(e, id) ==> life == []
    ensures RowReflects(Step(l, e).after, id, life + LifeOf(id, [Step(l, e).entry]))
    ensures life == [] && !Draws(e, id) ==> LifeOf(id, [Step(l, e).entry]) == []
  {
    var m := l.(clock := e.now);
    ClockKeepsValid(l, e.now);
    assert life + [] == life;
    match e.event
    case OnCall(call) => CallReflects(m, call, id, life);
    case OnAccount(account) => AccountReflects(m, account, id, life);
    case OnDonation(don) => DonationReflects(m, don, id);
    case OnPurge(_) =>
  }

  lemma DonationReflects(l: Ledger, e: DonationEvent, id: ReservationId)
    ensures ApplyDonation(l, e).after.reservations == l.reservations && LifeOf(id, [ApplyDonation(l, e).entry]) == []
  {}

  /** The row after a call reflects the life with the call's entry. */
  predicate CarriesOn(tx: Tx, id: ReservationId, life: seq<Entry>) {
    RowReflects(tx.after, id, life + if About(id, tx.entry) then [tx.entry] else [])
  }

  lemma CallReflects(l: Ledger, e: CallEvent, id: ReservationId, life: seq<Entry>)
    requires Valid(l) && RowReflects(l, id, life)
    requires e.EvReserve? && e.id == id ==> life == []
    ensures RowReflects(ApplyCall(l, e).after, id, life + LifeOf(id, [ApplyCall(l, e).entry]))
    ensures life == [] && !(e.EvReserve? && e.id == id) ==> LifeOf(id, [ApplyCall(l, e).entry]) == []
  {
    var entry := ApplyCall(l, e).entry;
    assert LifeOf(id, [entry]) == if About(id, entry) then [entry] else [];
    assert life + [] == life;
    match e
    case EvReserve(k, user, donation, price, reward) =>
      assert CarriesOn(Reserve(l, k, user, donation, price, reward), id, life);
    case EvMark(k) =>
      assert CarriesOn(MarkDispatched(l, k), id, life);
    case EvCommit(k) => CommitCarriesOn(l, k, id, life);
    case EvRelease(k, countFailure) => ReleaseCarriesOn(l, k, countFailure, id, life);
    case EvSettle(k) => CommitCarriesOn(l, k, id, life); ReleaseCarriesOn(l, k, false, id, life);
  }

  lemma CommitCarriesOn(l: Ledger, k: ReservationId, id: ReservationId, life: seq<Entry>)
    requires RowReflects(l, id, life)
    ensures CarriesOn(Commit(l, k), id, life) && (life == [] ==> !About(id, Commit(l, k).entry))
  {
    assert life + [] == life;
  }

  lemma ReleaseCarriesOn(l: Ledger, k: ReservationId, countFailure: bool, id: ReservationId, life: seq<Entry>)
    requires Valid(l) && RowReflects(l, id, life)
    ensures CarriesOn(Release(l, k, countFailure), id, life)
    ensures life == [] ==> !About(id, Release(l, k, countFailure).entry)
  {
    assert life + [] == life;
  }

  lemma AccountReflects(l: Ledger, e: AccountEvent, id: ReservationId, life: seq<Entry>)
    requires Valid(l) && RowReflects(l, id, life)
    ensures RowReflects(ApplyAccount(l, e).after, id, life)
    ensures LifeOf(id, [ApplyAccount(l, e).entry]) == []
  {}

  /**
   Over every run, a reservation lives through reserve-release or reserve-dispatch-commit
   or a prefix of one of them: once dispatched it is never released, it ends at most once,
   and it is refunded exactly the price it was charged.
   */
  lemma {:induction false} RunReflects(l: Ledger, es: seq<TimedEvent>, id: ReservationId, life: seq<Entry>)
    requires Valid(l) && Ordered(l.clock, es) && RowReflects(l, id, life)
    requires if life == [] then DrawnAtMostOnce(es, id) else NeverDrawn(es, id)
    ensures RowReflects(Run(l, es).final, id, life + LifeOf(id, Run(l, es).history))
    decreases es
  {
    if es == [] {
      assert life + [] == life;
    } else {
      var tx := Step(l, es[0]);
      assert Draws(es[0], id) ==> life == [];
      StepReflects(l, es[0], id, life);
      StepConserves(l, es[0]);
      RunReflects(tx.after, es[1..], id, life + LifeOf(id, [tx.entry]));
      LifeOfCons(id, life, tx.entry, Run(tx.after, es[1..]).history);
    }
  }

  lemma LifeOfCons(id: ReservationId, life: seq<Entry>, e: Entry, history: seq<Entry>)
    ensures (life + LifeOf(id, [e])) + LifeOf(id, history) == life + LifeOf(id, [e] + history)
  {
    assert ([e] + history)[1..] == history;
    assert LifeOf(id, [e]) == if About(id, e) then [e] else [];
  }

  lemma {:induction false} InLifeOf(id: ReservationId, history: seq<Entry>, e: Entry)
    requires e in history && About(id, e)
    ensures e in LifeOf(id, history)
  {
    if e != history[0] {
      InLifeOf(id, history[1..], e);
    }
  }

  /** A dispatched reservation is never released, whatever runs beside it. */
  lemma DispatchedIsNeverReleased(l: Ledger, es: seq<TimedEvent>, id: ReservationId, e: Entry)
    requires Valid(l) && Ordered(l.clock, es)
    requires id !in l.reservations && DrawnAtMostOnce(es, id)
    requires DidDispatch(id) in Run(l, es).history
    requires e in Run(l, es).history
    ensures !(e.DidRelease? && e.id == id)
  {
    var history := Run(l, es).history;
    RunReflects(l, es, id, []);
    InLifeOf(id, history, DidDispatch(id));
    if e.DidRelease? && e.id == id {
      InLifeOf(id, history, e);
      DispatchExcludesRelease(Run(l, es).final, id, LifeOf(id, history), e);
    }
  }

  lemma DispatchExcludesRelease(l: Ledger, id: ReservationId, life: seq<Entry>, e: Entry)
    requires RowReflects(l, id, life) && DidDispatch(id) in life && e in life
    ensures !e.DidRelease?
    ensures id in l.reservations ==> l.reservations[id].status in {Dispatched, Committed}
  {}

  // ---- who is paid ----

  ghost predicate DonorExists(l: Ledger, r: Reservation) {
    r.donor.Some? && r.donor.value in l.users
  }

  /** While a call is in flight its snapshot stays, and so does its donor if there is one. */
  lemma StepKeepsDonor(l: Ledger, e: TimedEvent, id: ReservationId)
    requires Valid(l) && l.clock <= e.now
    requires id in l.reservations && InFlight(l.reservations[id])
    requires var after := Step(l, e).after; id in after.reservations && InFlight(after.reservations[id])
    ensures
      var before, after := l.reservations[id], Step(l, e).after.reservations[id];
      && after.price == before.price && after.reward == before.reward
      && (DonorExists(Step(l, e).after, after) <==> DonorExists(l, before))
  {
    var m := l.(clock := e.now);
    match e.event
    case OnCall(call) => CallKeepsDonor(m, call, id);
    case OnAccount(account) => ClockKeepsValid(l, e.now); AccountKeepsDonor(m, account, id);
    case _ =>
  }

  lemma CallKeepsDonor(l: Ledger, e: CallEvent, id: ReservationId)
    requires id in l.reservations && InFlight(l.reservations[id])
    ensures ApplyCall(l, e).after.users.Keys == l.users.Keys
    ensures
      var after := ApplyCall(l, e).after.reservations;
      id in after && after[id].(status := Reserved, updatedAt := 0) == l.reservations[id].(status := Reserved, updatedAt := 0)
  {}

  lemma AccountKeepsDonor(l: Ledger, e: AccountEvent, id: ReservationId)
    requires Valid(l) && id in l.reservations && InFlight(l.reservations[id])
    ensures var after := ApplyAccount(l, e).after;
      && id in after.reservations
      && after.reservations[id] == l.reservations[id]
      && (DonorExists(after, l.reservations[id]) <==> DonorExists(l, l.reservations[id]))
  {}

  /** Nothing happens any more to an id that is not in flight and not drawn again. */
  lemma {:induction false} SettledIsQuiet(l: Ledger, es: seq<TimedEvent>, id: ReservationId)
    requires NeverDrawn(es, id)
    requires id in l.reservations ==> !InFlight(l.reservations[id])
    ensures forall e <- Run(l, es).history :: !About(id, e)
    decreases es
  {
    if es != [] {
      assert !Draws(es[0], id);
      SettledStepIsQuiet(l.(clock := es[0].now), es[0].event, id);
      SettledIsQuiet(Step(l, es[0]).after, es[1..], id);
    }
  }

  lemma SettledStepIsQuiet(l: Ledger, e: Event, id: ReservationId)
    requires !(e.OnCall? && e.call.EvReserve? && e.call.id == id)
    requires id in l.reservations ==> !InFlight(l.reservations[id])
    ensures
      var tx := Apply(l, e);
      !About(id, tx.entry) && (id in tx.after.reservations ==> !InFlight(tx.after.reservations[id]))
  {
    match e
    case OnCall(call) => SettledCallIsQuiet(l, call, id);
    case OnDonation(don) => DonationReflects(l, don, id);
    case OnAccount(_) =>
    case OnPurge(_) =>
  }

  lemma SettledCallIsQuiet(l: Ledger, e: CallEvent, id: ReservationId)
    requires !(e.EvReserve? && e.id == id)
    requires id in l.reservations ==> !InFlight(l.reservations[id])
    ensures
      var tx := ApplyCall(l, e);
      !About(id, tx.entry) && (id in tx.after.reservations ==> !InFlight(tx.after.reservations[id]))
  {}

  lemma StepPays(l: Ledger, e: TimedEvent, id: ReservationId)
    requires id in l.reservations
    requires var entry := Step(l, e).entry; entry.DidCommit? && entry.id == id
    ensures Step(l, e).entry.price == l.reservations[id].price
    ensures Step(l, e).entry.paid == if DonorExists(l, l.reservations[id]) then l.reservations[id].reward else 0
  {}

  /**
   The donor of a committed call is paid the reward exactly if the donor existed while the
   call was in flight, which is decided when the call is reserved.
   */
  lemma {:induction false} RewardIsPaidIffDonorExists(l: Ledger, es: seq<TimedEvent>, id: ReservationId, commit: Entry)
    requires Valid(l) && Ordered(l.clock, es) && NeverDrawn(es, id)
    requires id in l.reservations && InFlight(l.reservations[id])
    requires commit in Run(l, es).history && commit.DidCommit? && commit.id == id
    ensures commit.price == l.reservations[id].price
    ensures commit.paid == if DonorExists(l, l.reservations[id]) then l.reservations[id].reward else 0
    decreases es
  {
    var tx := Step(l, es[0]);
    StepConserves(l, es[0]);
    if tx.entry == commit {
      StepPays(l, es[0], id);
    } else {
      if id in tx.after.reservations && InFlight(tx.after.reservations[id]) {
        StepKeepsDonor(l, es[0], id);
        RewardIsPaidIffDonorExists(tx.after, es[1..], id, commit);
      } else {
        SettledIsQuiet(tx.after, es[1..], id);
      }
    }
  }

  function Empty(): Ledger {
    Ledger(0, 1, 1, map[], map[], map[], map[])
  }

  /** Runs can start from the empty ledger. */
  lemma EmptyIsValid()
    ensures Valid(Empty())
  {}

  /**
   The other case is reachable: a source looked up before its account was deleted, and
   inserted after, leaves a donation whose calls reward nobody.
   */
  lemma SourceDeletedBeforeInsertIsNotPaid()
    ensures
      var l2 := CreateUser(CreateUser(Empty()).after).after;
      var l3 := DeleteUser(l2, 2).after;
      var l4 := CreateDonation(l3, Some(2), 100, 5).after;
      var l5 := AdjustCredits(SetDonationStatus(l4, 1, true).after, 1, 10).after;
      var l6 := MarkDispatched(Reserve(l5, "r", 1, 1, 3, 7).after, "r").after;
      l6.reservations["r"].reward == 7 && Commit(l6, "r").entry == DidCommit("r", 3, 0)
  {
    var l2 := CreateUser(CreateUser(Empty()).after).after;
    assert l2.users.Keys == {1, 2};
    var l3 := DeleteUser(l2, 2).after;
    assert l3.users.Keys == {1};
    var l4 := CreateDonation(l3, Some(2), 100, 5).after;
    assert l4.donations[1] == Donation(Some(2), 100, 5, 5, 0, 0, 0, Inactive);
    var l5 := AdjustCredits(SetDonationStatus(l4, 1, true).after, 1, 10).after;
    assert l5.donations[1] == Donation(Some(2), 100, 5, 5, 0, 0, 0, Active);
    assert l5.users[1].credits == 10;
    var l6 := MarkDispatched(Reserve(l5, "r", 1, 1, 3, 7).after, "r").after;
    assert l6.reservations["r"] == Reservation(1, 1, Some(2), 3, 7, Dispatched, 0);
  }

  // ---- revival ----

  /**
   Giving a use back reopens an entry exactly if reservations exhausted it before its
   deadline; entries past their deadline or switched off stay as they are.
   */
  lemma ReleaseRevivesExhausted(l: Ledger, id: ReservationId, countFailure: bool)
    requires Valid(l) && Release(l, id, countFailure).entry.DidRelease?
    ensures
      var r := l.reservations[id];
      var before, after := l.donations[r.donation], Release(l, id, countFailure).after.donations[r.donation];
      && (after.status.Active? <==> before.status.Active? || (before.status.Expired? && before.deadline > l.clock))
      && (after.status != before.status ==> before.remaining == 0 && Routable(after, l.clock))
  {}
}
