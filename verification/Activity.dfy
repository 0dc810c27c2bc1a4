/**
 Site-wide daily activity counters: kept by increments while a day is open, recomputed from
 the users and their daily rows when the day is over, and frozen from then on.
 */
module Activity {
  import opened Options
  import opened MapSums

  type UserId = nat
  type DayStart = int

  const DAY_SECONDS := 86400
  const RETENTION_DAYS := 400
  const ANONYMITY_FLOOR := 5

  /** The first second of the UTC day of `t`. */
  function UtcDay(t: int): DayStart {
    t / DAY_SECONDS * DAY_SECONDS
  }

  datatype User = User(admin: bool, disabled: bool, createdAt: int)

  /** One user's activity on one day. */
  datatype Act = Act(attempts: nat, successes: nat, console: nat, checkins: nat, games: nat)

  datatype Counters = Counters(
    newUsers: int, product: int, successful: int, attempted: int, console: int,
    game: int, checkinOnly: int, attempts: int, successes: int)

  const ZERO := Counters(0, 0, 0, 0, 0, 0, 0, 0, 0)

  /** A finalised row; counts below the anonymity floor are withheld. */
  datatype Published = Published(
    newUsers: Option<int>, product: Option<int>, successful: Option<int>, attempted: Option<int>, console: Option<int>,
    game: Option<int>, checkinOnly: Option<int>, attempts: Option<int>, successes: Option<int>)

  datatype SiteRow = Open(counters: Counters) | Frozen(published: Published)

  type Users = map<UserId, User>
  type Acts = map<(DayStart, UserId), Act>
  type Site = map<DayStart, SiteRow>

  datatype Db = Db(now: int, nextUser: nat, users: Users, acts: Acts, site: Site)

  // ---- one user's share of a day, and the recomputation ----

  function ActOf(acts: Acts, day: DayStart, u: UserId): Act {
    if (day, u) in acts then acts[(day, u)] else Act(0, 0, 0, 0, 0)
  }

  predicate IsProduct(a: Act) {
    a.successes > 0 || a.console > 0 || a.games > 0
  }

  function Bit(b: bool): int {
    if b then 1 else 0
  }

  function ActShare(a: Act): Counters {
    Counters(0, Bit(IsProduct(a)), Bit(a.successes > 0), Bit(a.attempts > 0), Bit(a.console > 0),
             Bit(a.games > 0), Bit(a.checkins > 0 && !IsProduct(a)), a.attempts, a.successes)
  }

  function Share(user: User, a: Act, day: DayStart): Counters {
    ActShare(a).(newUsers := Bit(UtcDay(user.createdAt) == day))
  }

  predicate Included(user: User) {
    !user.admin && !user.disabled
  }

  /** The shares of all included users. */
  function Shares(users: Users, acts: Acts, day: DayStart): map<UserId, Counters> {
    map u | u in users && Included(users[u]) :: Share(users[u], ActOf(acts, day, u), day)
  }

  datatype Field = NewUsers | Product | Successful | Attempted | Console | Game | CheckinOnly | Attempts | Successes

  function Get(c: Counters, f: Field): int {
    match f
    case NewUsers => c.newUsers
    case Product => c.product
    case Successful => c.successful
    case Attempted => c.attempted
    case Console => c.console
    case Game => c.game
    case CheckinOnly => c.checkinOnly
    case Attempts => c.attempts
    case Successes => c.successes
  }

  function Build(g: Field -> int): Counters {
    Counters(g(NewUsers), g(Product), g(Successful), g(Attempted), g(Console), g(Game), g(CheckinOnly), g(Attempts),
             g(Successes))
  }

  ghost function Column(f: Field): Counters -> int {
    (c: Counters) => Get(c, f)
  }

  ghost function Totals(shares: map<UserId, Counters>): Counters {
    Build(f => Sum(shares, Column(f)))
  }

  /** What a rebuild of the day stores. */
  ghost function Recomputed(users: Users, acts: Acts, day: DayStart): Counters {
    Totals(Shares(users, acts, day))
  }

  function Plus(a: Counters, b: Counters): Counters {
    Build(f => Get(a, f) + Get(b, f))
  }

  function Minus(a: Counters, b: Counters): Counters {
    Build(f => Get(a, f) - Get(b, f))
  }

  /** The clamp of the adjusting update: no counter goes below zero. */
  function Clamped(a: Counters): Counters {
    Build(f => if Get(a, f) < 0 then 0 else Get(a, f))
  }

  function Withheld(n: int): Option<int> {
    if n < ANONYMITY_FLOOR then None else Some(n)
  }

  function Suppressed(c: Counters): Published {
    Published(Withheld(c.newUsers), Withheld(c.product), Withheld(c.successful), Withheld(c.attempted), Withheld(c.console),
              Withheld(c.game), Withheld(c.checkinOnly),
              if c.attempted >= ANONYMITY_FLOOR then Some(c.attempts) else None,
              if c.successful >= ANONYMITY_FLOOR then Some(c.successes) else None)
  }

  // ---- transactions ----

  function EnsureOpen(site: Site, day: DayStart): Site {
    if day in site then site else site[day := Open(ZERO)]
  }

  /** Updates touch a row only while it is not finalised. */
  function Bumped(site: Site, day: DayStart, delta: Counters): Site {
    if day in site && site[day].Open? then site[day := Open(Plus(site[day].counters, delta))] else site
  }

  function ActSum(a: Act, b: Act): Act {
    Act(a.attempts + b.attempts, a.successes + b.successes, a.console + b.console, a.checkins + b.checkins,
        a.games + b.games)
  }

  function RecordActivity(db: Db, u: UserId, at: int, d: Act): Db {
    if u !in db.users || db.users[u].admin then db
    else
      var day := UtcDay(at);
      var before := ActOf(db.acts, day, u);
      var after := ActSum(before, d);
      var acts := db.acts[(day, u) := after];
      if db.users[u].disabled then db.(acts := acts)
      else
        var delta := Minus(ActShare(after), ActShare(before));
        db.(acts := acts, site := Bumped(EnsureOpen(db.site, day), day, delta))
  }

  function CreateUser(db: Db): Db {
    var day := UtcDay(db.now);
    db.(nextUser := db.nextUser + 1,
        users := db.users[db.nextUser := User(false, false, db.now)],
        site := Bumped(EnsureOpen(db.site, day), day, ZERO.(newUsers := 1)))
  }

  ghost function Finalised(db: Db): Db {
    db.(site := map day | day in db.site ::
          if db.site[day].Open? && day < UtcDay(db.now) then Frozen(Suppressed(Recomputed(db.users, db.acts, day)))
          else db.site[day])
  }

  /** Adds or takes back the share of a user whose inclusion changes today. */
  function Adjusted(db: Db, u: UserId, joins: bool): Db
    requires u in db.users
  {
    var day := UtcDay(db.now);
    var share := Share(db.users[u], ActOf(db.acts, day, u), day);
    var site := EnsureOpen(db.site, day);
    db.(site := if site[day].Open? then
                  site[day := Open(Clamped(if joins then Plus(site[day].counters, share) else Minus(site[day].counters, share)))]
                else site)
  }

  ghost function SetDisabled(db: Db, u: UserId, disabled: bool): Db {
    if u !in db.users then db
    else
      var user := db.users[u];
      var users := db.users[u := user.(disabled := disabled)];
      if user.admin || user.disabled == disabled then db.(users := users)
      else Adjusted(Finalised(db).(users := users), u, !disabled)
  }

  ghost function Unban(db: Db, u: UserId): Db {
    if u !in db.users || db.users[u].admin then db else SetDisabled(db, u, false)
  }

  ghost function DeleteUser(db: Db, u: UserId): Db {
    if u !in db.users || db.users[u].admin then db
    else
      var done := Finalised(db);
      var adjusted := if db.users[u].disabled then done else Adjusted(done, u, false);
      adjusted.(users := db.users - {u}, acts := map k | k in db.acts && k.1 != u :: db.acts[k])
  }

  ghost function Rebuilt(db: Db): Db {
    var day := UtcDay(db.now);
    db.(site := db.site[day := Open(Recomputed(db.users, db.acts, day))])
  }

  function Retained(db: Db): Db {
    var cutoff := UtcDay(db.now) - (RETENTION_DAYS - 1) * DAY_SECONDS;
    db.(acts := map k | k in db.acts && k.0 >= cutoff :: db.acts[k],
        site := map day | day in db.site && day >= cutoff :: db.site[day])
  }

  ghost function Maintain(db: Db): Db {
    Retained(Rebuilt(Finalised(db)))
  }

  // ---- sums of shares ----

  lemma Extensional(a: Counters, b: Counters)
    requires forall f :: Get(a, f) == Get(b, f)
    ensures a == b
  {
    assert Get(a, NewUsers) == Get(b, NewUsers) && Get(a, Product) == Get(b, Product);
    assert Get(a, Successful) == Get(b, Successful) && Get(a, Attempted) == Get(b, Attempted);
    assert Get(a, Console) == Get(b, Console) && Get(a, Game) == Get(b, Game);
    assert Get(a, CheckinOnly) == Get(b, CheckinOnly) && Get(a, Attempts) == Get(b, Attempts);
    assert Get(a, Successes) == Get(b, Successes);
  }

  function ShareOr0(shares: map<UserId, Counters>, u: UserId): Counters {
    if u in shares then shares[u] else ZERO
  }

  lemma TotalsTakeField(shares: map<UserId, Counters>, u: UserId, f: Field)
    ensures Get(Totals(shares), f) == Get(Plus(Totals(shares - {u}), ShareOr0(shares, u)), f)
  {
    SumTake(shares, Column(f), u);
  }

  lemma TotalsTake(shares: map<UserId, Counters>, u: UserId)
    ensures Totals(shares) == Plus(Totals(shares - {u}), ShareOr0(shares, u))
  {
    forall f { TotalsTakeField(shares, u, f); }
    Extensional(Totals(shares), Plus(Totals(shares - {u}), ShareOr0(shares, u)));
  }

  lemma TotalsSameField(a: map<UserId, Counters>, b: map<UserId, Counters>, f: Field)
    requires forall u :: ShareOr0(a, u) == ShareOr0(b, u)
    ensures Get(Totals(a), f) == Get(Totals(b), f)
  {
    forall u
      ensures At(a, Column(f), u) == At(b, Column(f), u)
    {
      assert ShareOr0(a, u) == ShareOr0(b, u);
    }
    SumSame(a, b, Column(f));
  }

  lemma TotalsSame(a: map<UserId, Counters>, b: map<UserId, Counters>)
    requires forall u :: ShareOr0(a, u) == ShareOr0(b, u)
    ensures Totals(a) == Totals(b)
  {
    forall f { TotalsSameField(a, b, f); }
    Extensional(Totals(a), Totals(b));
  }

  ghost predicate NonNegative(c: Counters) {
    forall f :: Get(c, f) >= 0
  }

  lemma TotalsNonNegative(shares: map<UserId, Counters>)
    requires forall u <- shares :: NonNegative(shares[u])
    ensures NonNegative(Totals(shares))
  {
    forall f
      ensures Get(Totals(shares), f) >= 0
    {
      forall u <- shares
        ensures Column(f)(shares[u]) >= 0
      {
        assert Get(shares[u], f) >= 0;
      }
      SumBounds(shares, Column(f));
    }
  }
}
