/** The increments agree with the recomputation on every reachable state. */
module ActivityLaws {
  import opened Options
  import opened MapSums
  import opened Activity

  ghost predicate UsersOk(users: Users, nextUser: nat, now: int) {
    forall u <- users :: u < nextUser && users[u].createdAt <= now
  }

  ghost predicate ActsOk(acts: Acts, users: Users, today: DayStart) {
    forall k <- acts :: k.1 in users && k.0 <= today
  }

  ghost predicate SiteOk(site: Site, today: DayStart) {
    forall day <- site :: day <= today && (site[day].Frozen? ==> day < today)
  }

  ghost predicate Structured(db: Db) {
    UsersOk(db.users, db.nextUser, db.now) && ActsOk(db.acts, db.users, UtcDay(db.now)) && SiteOk(db.site, UtcDay(db.now))
  }

  /** The counters an open row holds; a row not yet created counts as all zero. */
  function Kept(site: Site, day: DayStart): Counters {
    if day in site && site[day].Open? then site[day].counters else ZERO
  }

  /** Field by field, today's row is what a recomputation from the users' rows would give. */
  ghost predicate TodayAgrees(db: Db) {
    Kept(db.site, UtcDay(db.now)) == Recomputed(db.users, db.acts, UtcDay(db.now))
  }

  ghost predicate Valid(db: Db) {
    Structured(db) && TodayAgrees(db)
  }

  // ---- algebra of counters ----

  lemma PlusMinus(t: Counters, rest: Counters, before: Counters, after: Counters)
    requires t == Plus(rest, before)
    ensures Plus(t, Minus(after, before)) == Plus(rest, after)
    ensures Minus(t, before) == rest
  {}

  lemma ClampedNonNegative(c: Counters)
    requires NonNegative(c)
    ensures Clamped(c) == c
  {
    assert Get(c, NewUsers) >= 0 && Get(c, Product) >= 0 && Get(c, Successful) >= 0 && Get(c, Attempted) >= 0;
    assert Get(c, Console) >= 0 && Get(c, Game) >= 0 && Get(c, CheckinOnly) >= 0;
    assert Get(c, Attempts) >= 0 && Get(c, Successes) >= 0;
  }

  lemma SharesNonNegative(users: Users, acts: Acts, day: DayStart)
    ensures forall u <- Shares(users, acts, day) :: NonNegative(Shares(users, acts, day)[u])
    ensures NonNegative(Recomputed(users, acts, day))
  {
    TotalsNonNegative(Shares(users, acts, day));
  }

  lemma NothingYet(users: Users, acts: Acts, day: DayStart)
    requires forall u <- users :: UtcDay(users[u].createdAt) != day && (day, u) !in acts
    ensures Recomputed(users, acts, day) == ZERO
  {
    TotalsSame(Shares(users, acts, day), map[]);
    Extensional(Totals(map[]), ZERO);
  }

  /** One user's share changes: the totals change by the difference. */
  lemma ReplacedShare(a: map<UserId, Counters>, b: map<UserId, Counters>, u: UserId)
    requires a - {u} == b - {u}
    ensures Totals(b) == Plus(Totals(a), Minus(ShareOr0(b, u), ShareOr0(a, u)))
  {
    TotalsTake(a, u);
    TotalsTake(b, u);
    PlusMinus(Totals(a), Totals(a - {u}), ShareOr0(a, u), ShareOr0(b, u));
  }

  /** Runs can start without users, activity or days. */
  lemma EmptyIsValid(now: int)
    ensures Valid(Db(now, 1, map[], map[], map[]))
  {}

  // ---- the passage of time ----

  lemma ClockKeepsValid(db: Db, now: int)
    requires Valid(db) && db.now <= now
    ensures Valid(db.(now := now))
  {
    DayIsMonotone(db.now, now);
    if UtcDay(now) != UtcDay(db.now) {
      NewDayAgrees(db, now);
    }
  }

  /** Nobody has registered or been active on a day that has not begun. */
  lemma NewDayAgrees(db: Db, now: int)
    requires Structured(db) && UtcDay(db.now) < UtcDay(now)
    ensures TodayAgrees(db.(now := now))
  {
    forall u <- db.users
      ensures UtcDay(db.users[u].createdAt) != UtcDay(now) && (UtcDay(now), u) !in db.acts
    {
      DayIsMonotone(db.users[u].createdAt, db.now);
    }
    NothingYet(db.users, db.acts, UtcDay(now));
  }

  // ---- each transaction ----

  function TodayShares(db: Db): map<UserId, Counters> {
    Shares(db.users, db.acts, UtcDay(db.now))
  }

  /** How much user `u` adds to today's totals in `after` beyond what it added in `db`. */
  function Change(db: Db, after: Db, u: UserId): Counters {
    Minus(ShareOr0(TodayShares(after), u), ShareOr0(TodayShares(db), u))
  }

  /** A transaction that changes one user's share agrees if it changes the row by as much. */
  lemma OneShareChanges(db: Db, after: Db, u: UserId)
    requires TodayAgrees(db) && after.now == db.now
    requires TodayShares(after) - {u} == TodayShares(db) - {u}
    requires Kept(after.site, UtcDay(db.now)) == Plus(Kept(db.site, UtcDay(db.now)), Change(db, after, u))
    ensures TodayAgrees(after)
  {
    ReplacedShare(TodayShares(db), TodayShares(after), u);
  }

  lemma RecordKeepsValid(db: Db, u: UserId, at: int, d: Act)
    requires Valid(db) && at <= db.now
    ensures Valid(RecordActivity(db, u, at, d))
  {
    var after := RecordActivity(db, u, at, d);
    RecordStructure(db, u, at, d);
    RecordShares(db, u, at, d);
    RecordRow(db, u, at, d);
    OneShareChanges(db, after, u);
  }

  lemma BumpKeepsSite(site: Site, day: DayStart, delta: Counters, today: DayStart)
    requires SiteOk(site, today) && day <= today
    ensures SiteOk(Bumped(EnsureOpen(site, day), day, delta), today)
    ensures Kept(Bumped(EnsureOpen(site, day), day, delta), today)
         == if day == today then Plus(Kept(site, today), delta) else Kept(site, today)
  {}

  lemma DayIsMonotone(a: int, b: int)
    requires a <= b
    ensures UtcDay(a) <= UtcDay(b)
  {}

  lemma RecordStructure(db: Db, u: UserId, at: int, d: Act)
    requires Structured(db) && at <= db.now
    ensures Structured(RecordActivity(db, u, at, d))
  {
    DayIsMonotone(at, db.now);
    var before := ActOf(db.acts, UtcDay(at), u);
    BumpKeepsSite(db.site, UtcDay(at), Minus(ActShare(ActSum(before, d)), ActShare(before)), UtcDay(db.now));
  }

  lemma RecordShares(db: Db, u: UserId, at: int, d: Act)
    ensures TodayShares(RecordActivity(db, u, at, d)) - {u} == TodayShares(db) - {u}
  {}

  lemma RecordRow(db: Db, u: UserId, at: int, d: Act)
    requires Structured(db) && at <= db.now
    ensures
      var after := RecordActivity(db, u, at, d);
      Kept(after.site, UtcDay(db.now)) == Plus(Kept(db.site, UtcDay(db.now)), Change(db, after, u))
  {
    var before := ActOf(db.acts, UtcDay(at), u);
    var delta := Minus(ActShare(ActSum(before, d)), ActShare(before));
    DayIsMonotone(at, db.now);
    BumpKeepsSite(db.site, UtcDay(at), delta, UtcDay(db.now));
    RecordChange(db, u, at, d);
    PlusZero(Kept(db.site, UtcDay(db.now)));
  }

  lemma PlusZero(c: Counters)
    ensures Plus(c, ZERO) == c && Minus(c, c) == ZERO
  {}

  lemma RecordChange(db: Db, u: UserId, at: int, d: Act)
    ensures
      var before := ActOf(db.acts, UtcDay(at), u);
      var counted := u in db.users && Included(db.users[u]) && UtcDay(at) == UtcDay(db.now);
      Change(db, RecordActivity(db, u, at, d), u)
      == if counted then Minus(ActShare(ActSum(before, d)), ActShare(before)) else ZERO
  {
    var after := RecordActivity(db, u, at, d);
    PlusZero(ShareOr0(TodayShares(db), u));
    if u in db.users && Included(db.users[u]) && UtcDay(at) == UtcDay(db.now) {
      var before := ActOf(db.acts, UtcDay(at), u);
      SameRegistration(db.users[u], before, ActSum(before, d), UtcDay(db.now));
      assert ActOf(after.acts, UtcDay(db.now), u) == ActSum(before, d);
    }
  }

  lemma SameRegistration(user: User, before: Act, after: Act, day: DayStart)
    ensures Minus(Share(user, after, day), Share(user, before, day)) == Minus(ActShare(after), ActShare(before))
  {}

  lemma CreateKeepsValid(db: Db)
    requires Valid(db)
    ensures Valid(CreateUser(db))
  {
    CreateStructure(db);
    CreateShares(db);
    CreateRow(db);
    OneShareChanges(db, CreateUser(db), db.nextUser);
  }

  lemma CreateStructure(db: Db)
    requires Structured(db)
    ensures Structured(CreateUser(db))
  {
    BumpKeepsSite(db.site, UtcDay(db.now), ZERO.(newUsers := 1), UtcDay(db.now));
  }

  lemma CreateShares(db: Db)
    ensures TodayShares(CreateUser(db)) - {db.nextUser} == TodayShares(db) - {db.nextUser}
  {}

  lemma CreateRow(db: Db)
    requires Structured(db)
    ensures
      var after := CreateUser(db);
      Kept(after.site, UtcDay(db.now)) == Plus(Kept(db.site, UtcDay(db.now)), Change(db, after, db.nextUser))
  {
    var after := CreateUser(db);
    BumpKeepsSite(db.site, UtcDay(db.now), ZERO.(newUsers := 1), UtcDay(db.now));
    assert db.nextUser !in db.users && (UtcDay(db.now), db.nextUser) !in db.acts;
    NewUsersShare(db);
    MinusZero(Kept(db.site, UtcDay(db.now)), ZERO.(newUsers := 1));
  }

  lemma MinusZero(c: Counters, d: Counters)
    ensures Plus(c, Minus(d, ZERO)) == Plus(c, d)
  {}

  lemma NewUsersShare(db: Db)
    requires Structured(db)
    ensures ShareOr0(TodayShares(CreateUser(db)), db.nextUser) == ZERO.(newUsers := 1)
    ensures ShareOr0(TodayShares(db), db.nextUser) == ZERO
  {
    assert db.nextUser !in db.users && (UtcDay(db.now), db.nextUser) !in db.acts;
  }

  lemma FinaliseKeepsValid(db: Db)
    requires Valid(db)
    ensures Valid(Finalised(db))
    ensures TodayShares(Finalised(db)) == TodayShares(db)
  {}

  /** Today's row after a user joined or left, before the clamp. */
  function Unclamped(db: Db, u: UserId, joins: bool): Counters
    requires u in db.users
  {
    var today := UtcDay(db.now);
    var share := Share(db.users[u], ActOf(db.acts, today, u), today);
    if joins then Plus(Kept(db.site, today), share) else Minus(Kept(db.site, today), share)
  }

  /** When the user table follows, the unclamped row is the recomputation, so the clamp never bites. */
  lemma AdjustAgrees(db: Db, after: Db, u: UserId, joins: bool)
    requires Structured(db) && TodayAgrees(db) && u in db.users
    requires after.now == db.now && after.site == Adjusted(db, u, joins).site
    requires TodayShares(after) - {u} == TodayShares(db) - {u}
    requires var today := UtcDay(db.now); var share := Share(db.users[u], ActOf(db.acts, today, u), today);
      if joins then ShareOr0(TodayShares(db), u) == ZERO && ShareOr0(TodayShares(after), u) == share
      else ShareOr0(TodayShares(db), u) == share && ShareOr0(TodayShares(after), u) == ZERO
    ensures TodayAgrees(after)
    ensures NonNegative(Unclamped(db, u, joins))
  {
    var today := UtcDay(db.now);
    ReplacedShare(TodayShares(db), TodayShares(after), u);
    JoinOrLeave(Totals(TodayShares(db)), ShareOr0(TodayShares(db), u), ShareOr0(TodayShares(after), u));
    SharesNonNegative(after.users, after.acts, today);
    AdjustedRow(db, u, joins, Recomputed(after.users, after.acts, today));
  }

  lemma JoinOrLeave(t: Counters, before: Counters, after: Counters)
    ensures before == ZERO ==> Plus(t, Minus(after, before)) == Plus(t, after)
    ensures after == ZERO ==> Plus(t, Minus(after, before)) == Minus(t, before)
  {}

  lemma AdjustedRow(db: Db, u: UserId, joins: bool, c: Counters)
    requires Structured(db) && u in db.users && Unclamped(db, u, joins) == c && NonNegative(c)
    ensures Kept(Adjusted(db, u, joins).site, UtcDay(db.now)) == c
  {
    ClampedNonNegative(c);
  }

  lemma AdjustStructure(db: Db, u: UserId, joins: bool)
    requires Structured(db) && u in db.users
    ensures Structured(Adjusted(db, u, joins))
  {}

  lemma SameSharesAgree(db: Db, after: Db)
    requires TodayAgrees(db) && after.now == db.now
    requires TodayShares(after) == TodayShares(db) && Kept(after.site, UtcDay(db.now)) == Kept(db.site, UtcDay(db.now))
    ensures TodayAgrees(after)
  {}

  lemma SetDisabledKeepsValid(db: Db, u: UserId, disabled: bool)
    requires Valid(db)
    ensures Valid(SetDisabled(db, u, disabled))
  {
    if u in db.users && !db.users[u].admin && db.users[u].disabled != disabled {
      SwitchKeepsValid(db, u, disabled);
    } else {
      SwitchStructure(db, u, disabled);
      IdleSwitch(db, u, disabled);
      SameSharesAgree(db, SetDisabled(db, u, disabled));
    }
  }

  lemma IdleSwitch(db: Db, u: UserId, disabled: bool)
    requires u in db.users && !db.users[u].admin ==> db.users[u].disabled == disabled
    ensures TodayShares(SetDisabled(db, u, disabled)) == TodayShares(db)
    ensures SetDisabled(db, u, disabled).site == db.site && SetDisabled(db, u, disabled).now == db.now
  {}

  lemma SwitchStructure(db: Db, u: UserId, disabled: bool)
    requires Structured(db)
    ensures Structured(SetDisabled(db, u, disabled))
  {
    if u in db.users && !db.users[u].admin && db.users[u].disabled != disabled {
      AdjustStructure(Finalised(db), u, !disabled);
    }
  }

  /** The share taken back or added is the user's own, whatever the flag says at that moment. */
  lemma SwitchSite(db: Db, u: UserId, disabled: bool)
    requires u in db.users && !db.users[u].admin && db.users[u].disabled != disabled
    ensures SetDisabled(db, u, disabled).site == Adjusted(Finalised(db), u, !disabled).site
  {}

  lemma SwitchShares(db: Db, u: UserId, disabled: bool)
    requires u in db.users && !db.users[u].admin && db.users[u].disabled != disabled
    ensures
      var today := UtcDay(db.now);
      var before, after := TodayShares(db), TodayShares(SetDisabled(db, u, disabled));
      && after - {u} == before - {u}
      && ShareOr0(if disabled then before else after, u) == Share(db.users[u], ActOf(db.acts, today, u), today)
      && ShareOr0(if disabled then after else before, u) == ZERO
  {}

  lemma SwitchKeepsValid(db: Db, u: UserId, disabled: bool)
    requires Valid(db) && u in db.users && !db.users[u].admin && db.users[u].disabled != disabled
    ensures Valid(SetDisabled(db, u, disabled))
    ensures NonNegative(Unclamped(Finalised(db), u, !disabled))
  {
    FinaliseKeepsValid(db);
    SwitchStructure(db, u, disabled);
    SwitchSite(db, u, disabled);
    SwitchShares(db, u, disabled);
    AdjustAgrees(Finalised(db), SetDisabled(db, u, disabled), u, !disabled);
  }

  lemma DeleteStructure(db: Db, u: UserId)
    requires Structured(db)
    ensures Structured(DeleteUser(db, u))
  {
    if u in db.users {
      AdjustStructure(Finalised(db), u, false);
    }
  }

  lemma DeleteShares(db: Db, u: UserId)
    requires u in db.users && !db.users[u].admin
    ensures
      var today := UtcDay(db.now);
      var before, after := TodayShares(db), TodayShares(DeleteUser(db, u));
      && after - {u} == before - {u} && u !in after && (db.users[u].disabled ==> u !in before)
      && ShareOr0(before, u) == if db.users[u].disabled then ZERO else Share(db.users[u], ActOf(db.acts, today, u), today)
  {}

  lemma DeleteSite(db: Db, u: UserId)
    requires u in db.users && !db.users[u].admin
    ensures DeleteUser(db, u).now == db.now
    ensures DeleteUser(db, u).site
         == if db.users[u].disabled then Finalised(db).site else Adjusted(Finalised(db), u, false).site
  {}

  lemma DeleteKeepsValid(db: Db, u: UserId)
    requires Valid(db)
    ensures Valid(DeleteUser(db, u))
    ensures u in db.users && Included(db.users[u]) ==> NonNegative(Unclamped(Finalised(db), u, false))
  {
    if u in db.users && !db.users[u].admin {
      DeleteStructure(db, u);
      FinaliseKeepsValid(db);
      DeleteShares(db, u);
      DeleteSite(db, u);
      if db.users[u].disabled {
        TakenNothing(TodayShares(db), TodayShares(DeleteUser(db, u)), u);
        SameSharesAgree(Finalised(db), DeleteUser(db, u));
      } else {
        AdjustAgrees(Finalised(db), DeleteUser(db, u), u, false);
      }
    }
  }

  lemma TakenNothing(before: map<UserId, Counters>, after: map<UserId, Counters>, u: UserId)
    requires after - {u} == before - {u} && u !in before && u !in after
    ensures after == before
  {
    assert before == before - {u} && after == after - {u};
  }

  lemma RetentionSparesToday(db: Db)
    ensures TodayShares(Retained(db)) == TodayShares(db)
    ensures Kept(Retained(db).site, UtcDay(db.now)) == Kept(db.site, UtcDay(db.now))
  {}

  /** The maintenance pass makes the row agree whatever it held before. */
  lemma MaintainRepairs(db: Db)
    requires Structured(db)
    ensures Valid(Maintain(db))
    ensures Kept(Maintain(db).site, UtcDay(db.now)) == Recomputed(db.users, db.acts, UtcDay(db.now))
  {
    var rebuilt := Rebuilt(Finalised(db));
    assert TodayShares(rebuilt) == TodayShares(db);
    RetentionSparesToday(rebuilt);
    assert Structured(Maintain(db));
  }

  /** On every reachable state it changes none of today's nine counters. */
  lemma MaintainChangesNothingToday(db: Db)
    requires Valid(db)
    ensures Valid(Maintain(db))
    ensures Kept(Maintain(db).site, UtcDay(db.now)) == Kept(db.site, UtcDay(db.now))
  {
    MaintainRepairs(db);
  }

  // ---- runs ----

  datatype Event =
    | Record(u: UserId, at: int, d: Act)
    | Register
    | Switch(u: UserId, disabled: bool)
    | LiftBan(u: UserId)
    | Remove(u: UserId)
    | Maintenance
    | Tick(now: int)

  /** Activity belongs to a registered user's past, and the clock never goes back. */
  ghost function Step(db: Db, e: Event): Db {
    match e
    case Record(u, at, d) => if at <= db.now && (u in db.users ==> db.users[u].createdAt <= at) then RecordActivity(db, u, at, d) else db
    case Register => CreateUser(db)
    case Switch(u, disabled) => SetDisabled(db, u, disabled)
    case LiftBan(u) => Unban(db, u)
    case Remove(u) => DeleteUser(db, u)
    case Maintenance => Maintain(db)
    case Tick(now) => if db.now <= now then db.(now := now) else db
  }

  ghost function Run(db: Db, events: seq<Event>): Db
    decreases |events|
  {
    if events == [] then db else Run(Step(db, events[0]), events[1..])
  }

  lemma StepKeepsValid(db: Db, e: Event)
    requires Valid(db)
    ensures Valid(Step(db, e))
  {
    match e
    case Record(u, at, d) => if at <= db.now { RecordKeepsValid(db, u, at, d); }
    case Register => CreateKeepsValid(db);
    case Switch(u, disabled) => SetDisabledKeepsValid(db, u, disabled);
    case LiftBan(u) => SetDisabledKeepsValid(db, u, false);
    case Remove(u) => DeleteKeepsValid(db, u);
    case Maintenance => MaintainChangesNothingToday(db);
    case Tick(now) => if db.now <= now { ClockKeepsValid(db, now); }
  }

  /** From any agreeing state, every run of events leaves today's row equal to its recomputation. */
  lemma {:induction false} RunAgrees(db: Db, events: seq<Event>)
    requires Valid(db)
    ensures Valid(Run(db, events))
    decreases |events|
  {
    if events != [] {
      StepKeepsValid(db, events[0]);
      RunAgrees(Step(db, events[0]), events[1..]);
    }
  }
}
