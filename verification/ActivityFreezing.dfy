/** What a completed day is frozen as, and that it stays so until retention deletes it. */
module ActivityFreezing {
  import opened Options
  import opened MapSums
  import opened Activity
  import opened ActivityLaws

  /** Retention has not yet reached `day`. */
  predicate WithinRetention(db: Db, day: DayStart) {
    day >= UtcDay(db.now) - (RETENTION_DAYS - 1) * DAY_SECONDS
  }

  /** The users of `end` are still there with their inclusion flags; later ones count nothing for `day`. */
  ghost predicate SameRoster(end: Users, db: Db, day: DayStart) {
    && (forall u <- end :: u in db.users && Included(db.users[u]) == Included(end[u]) && db.users[u].createdAt == end[u].createdAt)
    && (forall u <- db.users :: u !in end ==> UtcDay(db.users[u].createdAt) > day && (day, u) !in db.acts)
  }

  /** The day is over, its row is still open, and nobody's inclusion has changed since its end. */
  ghost predicate Awaiting(end: Users, db: Db, day: DayStart) {
    day < UtcDay(db.now) && day in db.site && db.site[day].Open? && SameRoster(end, db, day)
  }

  lemma SameRosterSameTotals(end: Users, db: Db, day: DayStart)
    requires SameRoster(end, db, day)
    ensures Recomputed(db.users, db.acts, day) == Recomputed(end, db.acts, day)
  {
    var a, b := Shares(db.users, db.acts, day), Shares(end, db.acts, day);
    forall u
      ensures ShareOr0(a, u) == ShareOr0(b, u)
    {}
    TotalsSame(a, b);
  }

  lemma {:induction false} RunClockOnlyAdvances(db: Db, events: seq<Event>)
    ensures UtcDay(db.now) <= UtcDay(Run(db, events).now)
    decreases |events|
  {
    if events != [] {
      RunClockOnlyAdvances(Step(db, events[0]), events[1..]);
    }
  }

  lemma RegisterWaits(end: Users, db: Db, day: DayStart)
    requires Awaiting(end, db, day) && Structured(db)
    ensures Awaiting(end, CreateUser(db), day)
  {}

  /** What freezing makes of the row. */
  ghost function FrozenFrom(end: Users, acts: Acts, day: DayStart): SiteRow {
    Frozen(Suppressed(Recomputed(end, acts, day)))
  }

  ghost predicate WaitsOrFroze(end: Users, before: Acts, after: Db, day: DayStart) {
    day in after.site && (Awaiting(end, after, day) || after.site[day] == FrozenFrom(end, before, day))
  }

  lemma FinaliseFreezes(end: Users, db: Db, day: DayStart)
    requires Awaiting(end, db, day)
    ensures day in Finalised(db).site && Finalised(db).site[day] == FrozenFrom(end, db.acts, day)
  {
    SameRosterSameTotals(end, db, day);
  }

  lemma RecordWaits(end: Users, db: Db, u: UserId, at: int, d: Act, day: DayStart)
    requires Awaiting(end, db, day) && at <= db.now && (u in db.users ==> db.users[u].createdAt <= at)
    ensures Awaiting(end, RecordActivity(db, u, at, d), day)
  {
    if u in db.users { DayIsMonotone(db.users[u].createdAt, at); }
  }

  lemma SwitchFreezes(end: Users, db: Db, u: UserId, disabled: bool, day: DayStart)
    requires Awaiting(end, db, day)
    ensures WaitsOrFroze(end, db.acts, SetDisabled(db, u, disabled), day)
  {
    if u in db.users && !db.users[u].admin && db.users[u].disabled != disabled {
      FinaliseFreezes(end, db, day);
    } else {
      assert Awaiting(end, SetDisabled(db, u, disabled), day);
    }
  }

  lemma DeleteFreezes(end: Users, db: Db, u: UserId, day: DayStart)
    requires Awaiting(end, db, day)
    ensures WaitsOrFroze(end, db.acts, DeleteUser(db, u), day)
  {
    FinaliseFreezes(end, db, day);
  }

  lemma MaintainFreezes(end: Users, db: Db, day: DayStart)
    requires Awaiting(end, db, day) && WithinRetention(db, day)
    ensures WaitsOrFroze(end, db.acts, Maintain(db), day)
  {
    FinaliseFreezes(end, db, day);
  }

  /** One step: the row goes on waiting, or is frozen from the flags users had at the day's end. */
  lemma StepFreezes(end: Users, db: Db, e: Event, day: DayStart)
    requires Awaiting(end, db, day) && Structured(db) && WithinRetention(Step(db, e), day)
    ensures WaitsOrFroze(end, db.acts, Step(db, e), day)
  {
    match e
    case Record(u, at, d) =>
      if at <= db.now && (u in db.users ==> db.users[u].createdAt <= at) { RecordWaits(end, db, u, at, d, day); }
    case Register => RegisterWaits(end, db, day);
    case Switch(u, disabled) => SwitchFreezes(end, db, u, disabled, day);
    case LiftBan(u) => SwitchFreezes(end, db, u, false, day);
    case Remove(u) => DeleteFreezes(end, db, u, day);
    case Maintenance => MaintainFreezes(end, db, day);
    case Tick(now) => if db.now <= now { DayIsMonotone(db.now, now); }
  }

  /** A frozen row is never written again. */
  lemma StepKeepsFrozen(db: Db, e: Event, day: DayStart)
    requires day in db.site && db.site[day].Frozen? && day < UtcDay(db.now)
    requires WithinRetention(Step(db, e), day)
    ensures day in Step(db, e).site && Step(db, e).site[day] == db.site[day]
  {}

  /** The rows of activity as they stood when the day was frozen, or at the end of the run. */
  ghost function ActsAtFreeze(db: Db, events: seq<Event>, day: DayStart): Acts
    decreases |events|
  {
    if events == [] || (day in db.site && db.site[day].Frozen?) then db.acts
    else if day in Step(db, events[0]).site && Step(db, events[0]).site[day].Frozen? then db.acts
    else ActsAtFreeze(Step(db, events[0]), events[1..], day)
  }

  lemma {:induction false} RunKeepsFrozen(db: Db, events: seq<Event>, day: DayStart)
    requires day in db.site && db.site[day].Frozen? && day < UtcDay(db.now)
    requires WithinRetention(Run(db, events), day)
    ensures day in Run(db, events).site && Run(db, events).site[day] == db.site[day]
    decreases |events|
  {
    if events != [] {
      RunClockOnlyAdvances(Step(db, events[0]), events[1..]);
      StepKeepsFrozen(db, events[0], day);
      RunKeepsFrozen(Step(db, events[0]), events[1..], day);
    }
  }

  /**
   Whatever happens after the day is over, late activity included: the row still waits with
   the day's own inclusion flags, or it is frozen from those flags and the activity recorded
   by then.
   */
  lemma {:induction false} RunFreezes(end: Users, db: Db, events: seq<Event>, day: DayStart)
    requires Valid(db) && Awaiting(end, db, day) && WithinRetention(Run(db, events), day)
    ensures WaitsOrFroze(end, ActsAtFreeze(db, events, day), Run(db, events), day)
    decreases |events|
  {
    if events != [] {
      var next := Step(db, events[0]);
      RunClockOnlyAdvances(next, events[1..]);
      StepFreezes(end, db, events[0], day);
      StepKeepsValid(db, events[0]);
      if next.site[day].Open? {
        RunFreezes(end, next, events[1..], day);
      } else {
        RunKeepsFrozen(next, events[1..], day);
      }
    }
  }

  /** No activity of `day` is recorded any more. */
  predicate NoLateActivity(events: seq<Event>, day: DayStart) {
    forall i :: 0 <= i < |events| && events[i].Record? ==> UtcDay(events[i].at) != day
  }

  ghost predicate SameActs(a: Acts, b: Acts, users: Users, day: DayStart) {
    forall u <- users :: ActOf(a, day, u) == ActOf(b, day, u)
  }

  lemma SameActsSameTotals(users: Users, a: Acts, b: Acts, day: DayStart)
    requires SameActs(a, b, users, day)
    ensures Recomputed(users, a, day) == Recomputed(users, b, day)
  {
    TotalsSame(Shares(users, a, day), Shares(users, b, day));
  }

  /** The row still waits as it was, and so do the users' rows it will be made of. */
  ghost predicate Untouched(end: Users, db: Db, after: Db, day: DayStart) {
    day in after.site && after.site[day].Open? ==>
      SameActs(after.acts, db.acts, end, day) && day in db.site && after.site[day] == db.site[day]
  }

  lemma StepKeepsActs(end: Users, db: Db, e: Event, day: DayStart)
    requires Awaiting(end, db, day) && WithinRetention(Step(db, e), day)
    requires e.Record? ==> UtcDay(e.at) != day
    ensures Untouched(end, db, Step(db, e), day)
  {
    match e
    case Record(u, at, d) =>
    case Register =>
    case Switch(u, disabled) => SwitchTouchesToday(end, db, u, disabled, day);
    case LiftBan(u) => SwitchTouchesToday(end, db, u, false, day);
    case Remove(u) => RemoveFreezes(end, db, u, day);
    case Maintenance =>
    case Tick(now) =>
  }

  lemma SwitchTouchesToday(end: Users, db: Db, u: UserId, disabled: bool, day: DayStart)
    requires Awaiting(end, db, day)
    ensures Untouched(end, db, SetDisabled(db, u, disabled), day)
  {}

  lemma RemoveFreezes(end: Users, db: Db, u: UserId, day: DayStart)
    requires Awaiting(end, db, day)
    ensures Untouched(end, db, DeleteUser(db, u), day)
  {}

  lemma {:induction false} LateActivityIsTheOnlyChange(end: Users, db: Db, events: seq<Event>, day: DayStart)
    requires Valid(db) && Awaiting(end, db, day) && WithinRetention(Run(db, events), day) && NoLateActivity(events, day)
    ensures SameActs(ActsAtFreeze(db, events, day), db.acts, end, day)
    ensures day in Run(db, events).site && (Run(db, events).site[day].Open? ==> Run(db, events).site[day] == db.site[day])
    decreases |events|
  {
    if events != [] {
      var next := Step(db, events[0]);
      RunClockOnlyAdvances(next, events[1..]);
      StepFreezes(end, db, events[0], day);
      StepKeepsValid(db, events[0]);
      if next.site[day].Open? {
        StepKeepsActs(end, db, events[0], day);
        LateActivityIsTheOnlyChange(end, next, events[1..], day);
      } else {
        RunKeepsFrozen(next, events[1..], day);
      }
    }
  }

  /** The last state of a day, once the clock has moved past it. */
  ghost predicate EndedWith(end: Db, db: Db, day: DayStart) {
    Valid(end) && UtcDay(end.now) == day && day in end.site && db == end.(now := db.now) && day < UtcDay(db.now)
  }

  /**
   A day whose row exists when the day ends and for which nothing is recorded late: at any
   later time within retention its row is the one it ended with, or exactly that row with its
   small counts withheld.
   */
  lemma DayIsFrozenAsItEnded(end: Db, db: Db, events: seq<Event>, day: DayStart)
    requires EndedWith(end, db, day) && NoLateActivity(events, day) && WithinRetention(Run(db, events), day)
    ensures
      var site := Run(db, events).site;
      day in site && (site[day] == end.site[day] || site[day] == Frozen(Suppressed(end.site[day].counters)))
  {
    ClockKeepsValid(end, db.now);
    assert Awaiting(end.users, db, day);
    RunFreezes(end.users, db, events, day);
    LateActivityIsTheOnlyChange(end.users, db, events, day);
    SameActsSameTotals(end.users, ActsAtFreeze(db, events, day), end.acts, day);
  }
}
