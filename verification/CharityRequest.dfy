/** One charity request among everything else that happens. */
module CharityRequest {
  // It leases a donation's rate, reserves, marks the dispatch, uses the donated credential and settles.
  // Other events of the ledger may come between any two of its steps, and it may stop anywhere, as in a
  // crash.

  import opened Options
  import opened Charity
  import opened CharityLaws
  import opened CharityRuns
  import opened CharityRecovery
  import opened CharityCalls

  /** How the request ended: with its lease given back or not, and its row handed to the worker or not. */
  datatype Path =
    | Choosing
    | Leased(donation: DonationId)
    | HoldsRow(id: ReservationId)
    | Aborting(id: ReservationId)
    | Marked(id: ReservationId)
    | UsesCredential(id: ReservationId)
    | Over(row: Option<ReservationId>, leaseBack: bool, handedOver: bool)

  datatype State = State(ledger: Ledger, path: Path, history: seq<Entry>, used: bool)

  datatype Action =
    | Other(event: TimedEvent)
    | Pick(donation: DonationId)
    | NothingToPick
    | TryReserve(now: int, id: ReservationId, user: UserId, price: int, reward: int)
    | SetupFails
    | TryMark(now: int)
    | UseCredential
    | SettleNow(now: int, stored: bool)

  /** A store call of the request, as the run of the ledger sees it. */
  function Call(now: int, e: CallEvent): TimedEvent {
    TimedEvent(now, OnCall(e))
  }

  function Ledgered(s: State, e: TimedEvent): State {
    var tx := Step(s.ledger, e);
    s.(ledger := tx.after, history := s.history + [tx.entry])
  }

  /** The ledger event of an action, if it has one. */
  function EventOf(s: State, a: Action): Option<TimedEvent> {
    match a
    case Other(e) => Some(e)
    case TryReserve(now, id, user, price, reward) =>
      if s.path.Leased? then Some(Call(now, EvReserve(id, user, s.path.donation, price, reward))) else None
    case TryMark(now) => if s.path.HoldsRow? then Some(Call(now, EvMark(s.path.id))) else None
    case SettleNow(now, stored) =>
      if stored && (s.path.Aborting? || s.path.Marked? || s.path.UsesCredential?) then Some(Call(now, EvSettle(s.path.id)))
      else None
    case _ => None
  }

  function PathAfter(s: State, a: Action): Path {
    match a
    case Other(_) => s.path
    case Pick(donation) => if s.path.Choosing? then Leased(donation) else s.path
    case NothingToPick => if s.path.Choosing? then Over(None, true, false) else s.path
    case TryReserve(now, id, user, price, reward) =>
      if !s.path.Leased? then s.path
      else
        var entry := Step(s.ledger, EventOf(s, a).value).entry;
        if entry.DidReserve? then HoldsRow(id)
        else if entry == Rejected(DonationUnavailable) then Choosing
        else Over(None, true, false)
    case SetupFails => if s.path.HoldsRow? then Aborting(s.path.id) else s.path
    case TryMark(now) =>
      if !s.path.HoldsRow? then s.path
      else if Step(s.ledger, EventOf(s, a).value).entry.Rejected? then Aborting(s.path.id)
      else Marked(s.path.id)
    case UseCredential => if s.path.Marked? then UsesCredential(s.path.id) else s.path
    case SettleNow(_, stored) =>
      if !(s.path.Aborting? || s.path.Marked? || s.path.UsesCredential?) then s.path
      else Over(Some(s.path.id), s.path.Aborting?, !stored || Step(s.ledger, EventOf(s, a).value).entry.Rejected?)
  }

  function Act(s: State, a: Action): State {
    var ledgered := if EventOf(s, a).Some? then Ledgered(s, EventOf(s, a).value) else s;
    ledgered.(path := PathAfter(s, a), used := s.used || (a.UseCredential? && s.path.Marked?))
  }

  function Run(s: State, actions: seq<Action>): State
    decreases |actions|
  {
    if actions == [] then s else Run(Act(s, actions[0]), actions[1..])
  }

  // ---- one reservation id through a request ----

  predicate MarksIt(e: TimedEvent, id: ReservationId) {
    e.event.OnCall? && e.event.call.EvMark? && e.event.call.id == id
  }

  /**
   The clock does not run backwards, an id is drawn only while nothing has happened to it, and
   only the request that reserved a row marks it.
   */
  ghost predicate Fair(s: State, a: Action, id: ReservationId) {
    && (a.Other? ==> !MarksIt(a.event, id))
    && (EventOf(s, a).Some? ==>
          && s.ledger.clock <= EventOf(s, a).value.now
          && (Draws(EventOf(s, a).value, id) ==> LifeOf(id, s.history) == []))
  }

  ghost predicate FairRun(s: State, actions: seq<Action>, id: ReservationId)
    decreases |actions|
  {
    actions == [] || (Fair(s, actions[0], id) && FairRun(Act(s, actions[0]), actions[1..], id))
  }

  /** The request has had its dispatch of `id` marked. */
  predicate PastMark(p: Path, id: ReservationId) {
    match p
    case Marked(k) => k == id
    case UsesCredential(k) => k == id
    case Over(row, leaseBack, _) => row == Some(id) && !leaseBack
    case _ => false
  }

  /** The row the request works under, or worked under when it ended. */
  function RowOf(p: Path): Option<ReservationId> {
    match p
    case Choosing => None
    case Leased(_) => None
    case HoldsRow(id) => Some(id)
    case Aborting(id) => Some(id)
    case Marked(id) => Some(id)
    case UsesCredential(id) => Some(id)
    case Over(row, _, _) => row
  }

  predicate GivesLeaseBack(p: Path) {
    p.Over? && p.leaseBack
  }

  predicate Dispatches(life: seq<Entry>, id: ReservationId) {
    |life| >= 2 && life[1] == DidDispatch(id)
  }

  /** The request settled the row of `id` itself. */
  predicate SettledHere(p: Path, id: ReservationId) {
    p.Over? && p.row == Some(id) && !p.handedOver
  }

  /** What the request's path says about `id` agrees with what the ledger recorded. */
  ghost predicate Agrees(s: State, id: ReservationId) {
    var life := LifeOf(id, s.history);
    && CharityLaws.Valid(s.ledger) && RowReflects(s.ledger, id, life)
    && (PastMark(s.path, id) <==> Dispatches(life, id))
    && (s.path == HoldsRow(id) || s.path == Aborting(id) ==> life != [])
    && (SettledHere(s.path, id) ==> life != [] && (id in s.ledger.reservations ==> !InFlight(s.ledger.reservations[id])))
  }

  /** The lease is kept exactly by a request whose dispatch was marked, and only such a request uses the credential. */
  ghost predicate LeaseOk(s: State) {
    && (s.used ==> s.path.UsesCredential? || (s.path.Over? && s.path.row.Some? && !s.path.leaseBack))
    && (s.path.UsesCredential? ==> s.used)
    && (s.path.Over? && s.path.row.None? ==> s.path.leaseBack && !s.path.handedOver)
  }

  lemma {:induction false} LifeOfAppend(id: ReservationId, history: seq<Entry>, e: Entry)
    ensures LifeOf(id, history + [e]) == LifeOf(id, history) + LifeOf(id, [e])
  {
    if history == [] {
      assert [] + [e] == [e];
    } else {
      var first := if About(id, history[0]) then [history[0]] else [];
      assert (history + [e])[1..] == history[1..] + [e];
      LifeOfAppend(id, history[1..], e);
      assert first + (LifeOf(id, history[1..]) + LifeOf(id, [e])) == first + LifeOf(id, history[1..]) + LifeOf(id, [e]);
    }
  }

  lemma OnlyMarksDispatch(l: Ledger, e: TimedEvent, id: ReservationId)
    ensures Step(l, e).entry == DidDispatch(id) ==> MarksIt(e, id) && id in l.reservations && l.reservations[id].status == Reserved
  {}

  /** An event of the ledger carries the life of `id` on, and dispatches it only by marking it. */
  lemma EventAgrees(s: State, e: TimedEvent, id: ReservationId)
    requires CharityLaws.Valid(s.ledger) && RowReflects(s.ledger, id, LifeOf(id, s.history)) && s.ledger.clock <= e.now
    requires Draws(e, id) ==> LifeOf(id, s.history) == []
    ensures
      var life, after := LifeOf(id, s.history), Ledgered(s, e);
      var longer := LifeOf(id, after.history);
      && CharityLaws.Valid(after.ledger) && RowReflects(after.ledger, id, longer)
      && (life != [] ==> longer != [])
      && (Dispatches(longer, id) <==> Dispatches(life, id) || Step(s.ledger, e).entry == DidDispatch(id))
  {
    var life, entry := LifeOf(id, s.history), Step(s.ledger, e).entry;
    StepReflects(s.ledger, e, id, life);
    StepConserves(s.ledger, e);
    LifeOfAppend(id, s.history, entry);
    OnlyMarksDispatch(s.ledger, e, id);
  }

  lemma OtherAgrees(s: State, a: Action, id: ReservationId)
    requires Agrees(s, id) && Fair(s, a, id) && a.Other?
    ensures Agrees(Act(s, a), id)
  {
    EventAgrees(s, a.event, id);
    OnlyMarksDispatch(s.ledger, a.event, id);
    if SettledHere(s.path, id) {
      SettledStepIsQuiet(s.ledger.(clock := a.event.now), a.event.event, id);
    }
  }

  lemma ReserveAgrees(s: State, a: Action, id: ReservationId)
    requires Agrees(s, id) && Fair(s, a, id) && a.TryReserve? && s.path.Leased?
    ensures Agrees(Act(s, a), id)
  {
    var e := EventOf(s, a).value;
    EventAgrees(s, e, id);
    OnlyMarksDispatch(s.ledger, e, id);
    ReservedIsInLife(s, e, id);
  }

  lemma ReservedIsInLife(s: State, e: TimedEvent, id: ReservationId)
    requires e.event.OnCall? && e.event.call.EvReserve?
    ensures Step(s.ledger, e).entry.DidReserve? && e.event.call.id == id ==> LifeOf(id, Ledgered(s, e).history) != []
  {
    LifeOfAppend(id, s.history, Step(s.ledger, e).entry);
  }

  lemma MarkAgrees(s: State, a: Action, id: ReservationId)
    requires Agrees(s, id) && Fair(s, a, id) && a.TryMark? && s.path.HoldsRow?
    ensures Agrees(Act(s, a), id)
  {
    var e := EventOf(s, a).value;
    EventAgrees(s, e, id);
    OnlyMarksDispatch(s.ledger, e, id);
  }

  lemma SettleAgrees(s: State, a: Action, id: ReservationId)
    requires Agrees(s, id) && Fair(s, a, id) && a.SettleNow? && a.stored
    requires s.path.Aborting? || s.path.Marked? || s.path.UsesCredential?
    ensures Agrees(Act(s, a), id)
  {
    var e := EventOf(s, a).value;
    EventAgrees(s, e, id);
    OnlyMarksDispatch(s.ledger, e, id);
    SettlingStep(s.ledger, e);
  }

  lemma ActAgrees(s: State, a: Action, id: ReservationId)
    requires Agrees(s, id) && Fair(s, a, id)
    ensures Agrees(Act(s, a), id)
  {
    if EventOf(s, a).None? {
    } else {
      match a
      case Other(_) => OtherAgrees(s, a, id);
      case TryReserve(_, _, _, _, _) => ReserveAgrees(s, a, id);
      case TryMark(_) => MarkAgrees(s, a, id);
      case SettleNow(_, _) => SettleAgrees(s, a, id);
      case _ => assert false;
    }
  }

  lemma {:induction false} RunAgrees(s: State, actions: seq<Action>, id: ReservationId)
    requires Agrees(s, id) && LeaseOk(s) && FairRun(s, actions, id)
    ensures Agrees(Run(s, actions), id) && LeaseOk(Run(s, actions))
    decreases |actions|
  {
    if actions != [] {
      ActAgrees(s, actions[0], id);
      RunAgrees(Act(s, actions[0]), actions[1..], id);
    }
  }

  /**
   Whatever else happens and wherever the request stops: the donated credential is used only under
   a dispatched reservation, which is then never refunded; and a request that settled its own row
   has it charged in full if the dispatch was marked, its lease kept, and refunded in full if not,
   its lease given back.
   */
  lemma UsedIsChargedUnusedIsRefunded(l: Ledger, actions: seq<Action>, id: ReservationId)
    requires CharityLaws.Valid(l) && id !in l.reservations && FairRun(State(l, Choosing, [], false), actions, id)
    ensures
      var s := Run(State(l, Choosing, [], false), actions);
      var life := LifeOf(id, s.history);
      && (s.used ==> RowOf(s.path).Some? && !GivesLeaseBack(s.path))
      && (s.path.UsesCredential? ==> s.used)
      && (s.path.Over? && s.path.row.None? ==> s.path.leaseBack && !s.path.handedOver)
      && (s.used && RowOf(s.path) == Some(id) ==> Dispatches(life, id) && !Refunded(life))
      && (s.path == UsesCredential(id) ==> Dispatches(life, id))
      && (PastMark(s.path, id) ==> Dispatches(life, id) && !Refunded(life))
      && (SettledHere(s.path, id) ==> if s.path.leaseBack then !s.used && Refunded(life) else Charged(life))
  {
    var start := State(l, Choosing, [], false);
    RunAgrees(start, actions, id);
    var s := Run(start, actions);
    if SettledHere(s.path, id) {
      LifeIsAbout(id, s.history);
    }
  }

  lemma {:induction false} LifeIsAbout(id: ReservationId, history: seq<Entry>)
    ensures forall i :: 0 <= i < |LifeOf(id, history)| ==> About(id, LifeOf(id, history)[i])
  {
    if history != [] { LifeIsAbout(id, history[1..]); }
  }


  /** A refused reservation ends the request, unless it was the donation that could not serve it: then another is chosen. */
  lemma RefusedRequestChoosesAgain(s: State, now: int, id: ReservationId, user: UserId, price: int, reward: int)
    requires s.path.Leased?
    ensures
      var tx := Reserve(s.ledger.(clock := now), id, user, s.path.donation, price, reward);
      Act(s, TryReserve(now, id, user, price, reward)).path
      == if tx.entry.DidReserve? then HoldsRow(id)
         else if tx.entry == Rejected(DonationUnavailable) then Choosing
         else Over(None, true, false)
  {}


  /** A failing setup and an empty choice end a request as they should, and a settlement that cannot be stored is handed over. */
  lemma PathsEnd(s: State, now: int)
    ensures s.path.HoldsRow? ==> Act(s, SetupFails) == s.(path := Aborting(s.path.id))
    ensures s.path.Choosing? ==> forall d :: Act(s, Pick(d)) == s.(path := Leased(d))
    ensures s.path.Choosing? ==> Act(s, NothingToPick) == s.(path := Over(None, true, false))
    ensures s.path.Marked? ==> Act(s, UseCredential) == s.(path := UsesCredential(s.path.id), used := true)
    ensures s.path.Aborting? || s.path.Marked? || s.path.UsesCredential? ==>
        Act(s, SettleNow(now, false)) == s.(path := Over(Some(s.path.id), s.path.Aborting?, true))
  {}

  // ---- a request that nothing disturbs ----

  lemma OneAction(s: State, a: Action, rest: seq<Action>)
    ensures Run(s, [a] + rest) == Run(Act(s, a), rest)
  {
    assert ([a] + rest)[1..] == rest;
  }

  lemma TwoActions(s: State, a: Action, b: Action, rest: seq<Action>)
    ensures Run(s, [a, b] + rest) == Run(Act(Act(s, a), b), rest)
  {
    OneAction(s, a, [b] + rest);
    OneAction(Act(s, a), b, rest);
    assert [a] + ([b] + rest) == [a, b] + rest;
  }

  lemma ThreeActions(s: State, a: Action, b: Action, c: Action)
    ensures Run(s, [a, b, c]) == Act(Act(Act(s, a), b), c)
  {
    TwoActions(s, a, b, [c]);
    OneAction(Act(Act(s, a), b), c, []);
    assert [a, b] + [c] == [a, b, c] && [c] + [] == [c];
  }

  /** The request holds the row of its call, reserved at `l`. */
  ghost predicate Holds(s: State, l: Ledger, o: Order) {
    s.path == HoldsRow(o.id) && !s.used && s.ledger == ReserveFor(l, o).after && Reservable(l, o)
  }

  lemma ReservedIsHeld(l: Ledger, o: Order, now: int)
    requires Reservable(l.(clock := now), o)
    ensures
      var leased := Act(State(l, Choosing, [], false), Pick(o.donation));
      Holds(Act(leased, TryReserve(now, o.id, o.user, o.price, o.reward)), l.(clock := now), o)
  {
    ReserveSucceedsIff(l.(clock := now), o);
  }

  lemma HeldIsMarked(s: State, l: Ledger, o: Order, now: int)
    requires Holds(s, l, o)
    ensures
      var after := Act(s, TryMark(now));
      after.path == Marked(o.id) && !after.used && after.ledger == MarkDispatched(s.ledger.(clock := now), o.id).after
  {
    ReserveRecords(l, o);
  }

  /** Marked, used and settled, the call is committed. */
  lemma MarkedIsCommitted(s: State, l: Ledger, o: Order, marked: int, now: int)
    requires Reservable(l, o) && s.path == Marked(o.id) && s.ledger == MarkDispatched(ReserveFor(l, o).after.(clock := marked), o.id).after
    ensures
      var after := Act(Act(s, UseCredential), SettleNow(now, true));
      after.path == Over(Some(o.id), false, false) && after.used && after.ledger == Called(l, o, marked, now).after
  {
    ReserveRecords(l, o);
  }

  lemma ServedFromHolding(s: State, l: Ledger, o: Order, marked: int, now: int)
    requires Holds(s, l, o)
    ensures
      var after := Run(s, [TryMark(marked), UseCredential, SettleNow(now, true)]);
      after.path == Over(Some(o.id), false, false) && after.used && after.ledger == Called(l, o, marked, now).after
  {
    HeldIsMarked(s, l, o, marked);
    MarkedIsCommitted(Act(s, TryMark(marked)), l, o, marked, now);
    ThreeActions(s, TryMark(marked), UseCredential, SettleNow(now, true));
  }

  /** A request that nothing disturbs is served: its row is charged, its lease kept, and its credential used. */
  lemma UndisturbedIsServed(l: Ledger, o: Order, now: int, marked: int, settled: int)
    requires Reservable(l.(clock := now), o)
    ensures
      var actions := [Pick(o.donation), TryReserve(now, o.id, o.user, o.price, o.reward)]
        + [TryMark(marked), UseCredential, SettleNow(settled, true)];
      var s := Run(State(l, Choosing, [], false), actions);
      && s.path == Over(Some(o.id), false, false) && s.used
      && s.ledger == Called(l.(clock := now), o, marked, settled).after
  {
    var s0, a, b := State(l, Choosing, [], false), Pick(o.donation), TryReserve(now, o.id, o.user, o.price, o.reward);
    ReservedIsHeld(l, o, now);
    ServedFromHolding(Act(Act(s0, a), b), l.(clock := now), o, marked, settled);
    TwoActions(s0, a, b, [TryMark(marked), UseCredential, SettleNow(settled, true)]);
  }

  lemma RefundedFromHolding(s: State, l: Ledger, o: Order, now: int)
    requires Holds(s, l, o) && l.clock <= now
    ensures
      var after := Act(Act(s, SetupFails), SettleNow(now, true));
      after.path == Over(Some(o.id), true, false) && !after.used && after.ledger.users == l.users
  {
    ReserveRecords(l, o);
    ReleasedCallLeavesNothing(l, o, now, false);
  }

  /** One whose setup fails is refunded, and has its lease back and its credential unused. */
  lemma FailedSetupIsRefunded(l: Ledger, o: Order, now: int, settled: int)
    requires Reservable(l.(clock := now), o) && now <= settled
    ensures
      var actions := [Pick(o.donation), TryReserve(now, o.id, o.user, o.price, o.reward)] + [SetupFails, SettleNow(settled, true)];
      var s := Run(State(l, Choosing, [], false), actions);
      && s.path == Over(Some(o.id), true, false) && !s.used && s.ledger.users == l.users
  {
    var s0, a, b := State(l, Choosing, [], false), Pick(o.donation), TryReserve(now, o.id, o.user, o.price, o.reward);
    var held := Act(Act(s0, a), b);
    ReservedIsHeld(l, o, now);
    RefundedFromHolding(held, l.(clock := now), o, settled);
    TwoActions(s0, a, b, [SetupFails, SettleNow(settled, true)]);
    TwoActions(held, SetupFails, SettleNow(settled, true), []);
    assert [SetupFails, SettleNow(settled, true)] + [] == [SetupFails, SettleNow(settled, true)];
  }
}
