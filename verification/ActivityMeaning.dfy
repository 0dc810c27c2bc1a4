/** What the counters of a day count, and what of them is shown. */
module ActivityMeaning {
  // The recomputation is a sum of shares; here its columns are the sizes of sets of users. A frozen day shows
  // a number of people only from five on, and a number of requests only when enough people made them.

  import opened Options
  import opened MapSums
  import opened Activity
  import opened ActivityLaws
  import opened ActivityFreezing

  predicate CountsPeople(f: Field) {
    f != Attempts && f != Successes
  }

  /** What a user must have done on the day to be counted in a column. */
  predicate Did(user: User, a: Act, day: DayStart, f: Field) {
    match f
    case NewUsers => day <= user.createdAt < day + 86400
    case Product => a.successes + a.console + a.games >= 1
    case Successful => a.successes >= 1
    case Attempted => a.attempts >= 1
    case Console => a.console >= 1
    case Game => a.games >= 1
    case CheckinOnly => a.checkins >= 1 && a.successes + a.console + a.games == 0
    case Attempts => false
    case Successes => false
  }

  /** The users counted: neither administrators nor disabled. */
  function Counted(users: Users, acts: Acts, day: DayStart, f: Field): set<UserId> {
    set u | u in users && !users[u].admin && !users[u].disabled && Did(users[u], ActOf(acts, day, u), day, f)
  }

  lemma {:induction false} SumOfBits<K>(rows: map<K, Counters>, f: Counters -> int)
    requires forall k <- rows :: f(rows[k]) == 0 || f(rows[k]) == 1
    ensures Sum(rows, f) == |set k | k in rows && f(rows[k]) == 1|
    decreases |rows|
  {
    var counted := set k | k in rows && f(rows[k]) == 1;
    if rows == map[] {
      assert counted == {};
    } else {
      var k :| k in rows;
      var rest := rows - {k};
      SumTake(rows, f, k);
      SumOfBits(rest, f);
      assert (set j | j in rest && f(rest[j]) == 1) == counted - {k};
    }
  }

  lemma DayOf(t: int, day: DayStart)
    requires day % 86400 == 0
    ensures UtcDay(t) == day <==> day <= t < day + 86400
  {
    assert day == day / 86400 * 86400;
  }

  lemma ShareIsDid(user: User, a: Act, day: DayStart, f: Field)
    requires day % 86400 == 0 && CountsPeople(f)
    ensures Get(Share(user, a, day), f) == if Did(user, a, day, f) then 1 else 0
  {
    DayOf(user.createdAt, day);
  }

  /** Each people's column is the number of users who did what it counts. */
  lemma ColumnsCountUsers(users: Users, acts: Acts, day: DayStart, f: Field)
    requires day % 86400 == 0 && CountsPeople(f)
    ensures Get(Recomputed(users, acts, day), f) == |Counted(users, acts, day, f)|
  {
    var shares := Shares(users, acts, day);
    forall u <- shares
      ensures Column(f)(shares[u]) == if u in Counted(users, acts, day, f) then 1 else 0
    {
      ShareIsDid(users[u], ActOf(acts, day, u), day, f);
    }
    SumOfMembers(shares, Column(f), Counted(users, acts, day, f));
  }

  lemma SumOfMembers<K>(rows: map<K, Counters>, f: Counters -> int, members: set<K>)
    requires members <= rows.Keys && forall k <- rows :: f(rows[k]) == if k in members then 1 else 0
    ensures Sum(rows, f) == |members|
  {
    SumOfBits(rows, f);
    assert (set k | k in rows && f(rows[k]) == 1) == members;
  }

  /** The rows of the day of the same users. */
  function Rows(users: Users, acts: Acts, day: DayStart): map<UserId, Act> {
    map u | u in users && !users[u].admin && !users[u].disabled :: ActOf(acts, day, u)
  }

  ghost function AttemptsOf(): Act -> int {
    (a: Act) => a.attempts
  }

  ghost function SuccessesOf(): Act -> int {
    (a: Act) => a.successes
  }

  lemma {:induction false} SumThrough<K, V, W>(rows: map<K, V>, images: map<K, W>, f: V -> int, g: W -> int)
    requires rows.Keys == images.Keys && forall k <- rows :: f(rows[k]) == g(images[k])
    ensures Sum(rows, f) == Sum(images, g)
    decreases |rows|
  {
    if rows == map[] {
      assert images == map[];
    } else {
      var k :| k in rows;
      SumTake(rows, f, k);
      SumTake(images, g, k);
      SumThrough(rows - {k}, images - {k}, f, g);
    }
  }

  /** The requests of a day are those of the users counted. */
  lemma AttemptsAreSummed(users: Users, acts: Acts, day: DayStart)
    ensures Recomputed(users, acts, day).attempts == Sum(Rows(users, acts, day), AttemptsOf())
  {
    SumThrough(Shares(users, acts, day), Rows(users, acts, day), Column(Attempts), AttemptsOf());
  }

  lemma SuccessesAreSummed(users: Users, acts: Acts, day: DayStart)
    ensures Recomputed(users, acts, day).successes == Sum(Rows(users, acts, day), SuccessesOf())
  {
    SumThrough(Shares(users, acts, day), Rows(users, acts, day), Column(Successes), SuccessesOf());
  }

  // ---- what is shown ----

  function Shown(p: Published, f: Field): Option<int> {
    match f
    case NewUsers => p.newUsers
    case Product => p.product
    case Successful => p.successful
    case Attempted => p.attempted
    case Console => p.console
    case Game => p.game
    case CheckinOnly => p.checkinOnly
    case Attempts => p.attempts
    case Successes => p.successes
  }

  /** A number below five is withheld, and a number of requests that fewer than five users made. */
  lemma FewerThanFiveAreWithheld(c: Counters, f: Field)
    ensures
      var behind := match f case Attempts => c.attempted case Successes => c.successful case _ => Get(c, f);
      Shown(Suppressed(c), f) == if behind >= 5 then Some(Get(c, f)) else None
  {}

  /** What a day shows that was frozen as it ended. */
  ghost predicate FrozenFrom(end: Db, db: Db, events: seq<Event>, day: DayStart) {
    && EndedWith(end, db, day) && NoLateActivity(events, day) && WithinRetention(Run(db, events), day)
    && end.site[day].Open? && day in Run(db, events).site && Run(db, events).site[day].Frozen?
  }

  lemma FrozenAsRecomputed(end: Db, db: Db, events: seq<Event>, day: DayStart)
    requires FrozenFrom(end, db, events, day)
    ensures Run(db, events).site[day].published == Suppressed(Recomputed(end.users, end.acts, day))
    ensures day % 86400 == 0
  {
    DayIsFrozenAsItEnded(end, db, events, day);
    DayIsMultiple(end.now, day);
  }

  lemma DayIsMultiple(t: int, day: DayStart)
    requires UtcDay(t) == day
    ensures day % 86400 == 0
  {
    assert day == t / 86400 * 86400;
  }

  /**
   So a day that ended in order and was frozen shows, for every column that counts people, how many users did
   it when at least five did, and else nothing.
   */
  lemma FrozenDayShowsPeople(end: Db, db: Db, events: seq<Event>, day: DayStart, f: Field)
    requires FrozenFrom(end, db, events, day) && CountsPeople(f)
    ensures
      var people := |Counted(end.users, end.acts, day, f)|;
      Shown(Run(db, events).site[day].published, f) == if people >= 5 then Some(people) else None
  {
    FrozenAsRecomputed(end, db, events, day);
    FewerThanFiveAreWithheld(Recomputed(end.users, end.acts, day), f);
    ColumnsCountUsers(end.users, end.acts, day, f);
  }

  /** And it shows how many requests there were, or succeeded, only if at least five users made them. */
  lemma FrozenDayShowsRequests(end: Db, db: Db, events: seq<Event>, day: DayStart)
    requires FrozenFrom(end, db, events, day)
    ensures
      var shown, rows := Run(db, events).site[day].published, Rows(end.users, end.acts, day);
      && shown.attempts
         == (if |Counted(end.users, end.acts, day, Attempted)| >= 5 then Some(Sum(rows, AttemptsOf())) else None)
      && shown.successes
         == (if |Counted(end.users, end.acts, day, Successful)| >= 5 then Some(Sum(rows, SuccessesOf())) else None)
  {
    FrozenAsRecomputed(end, db, events, day);
    ColumnsCountUsers(end.users, end.acts, day, Attempted);
    ColumnsCountUsers(end.users, end.acts, day, Successful);
    AttemptsAreSummed(end.users, end.acts, day);
    SuccessesAreSummed(end.users, end.acts, day);
    FewerThanFiveAreWithheld(Recomputed(end.users, end.acts, day), Attempts);
    FewerThanFiveAreWithheld(Recomputed(end.users, end.acts, day), Successes);
  }


  // ---- what the transactions do to the users' own rows ----

  /** Activity is recorded for users that are there and are not administrators; it changes nobody's account. */
  lemma RecordConcerns(db: Db, u: UserId, at: int, d: Act)
    ensures
      var m := RecordActivity(db, u, at, d);
      && m.users == db.users && m.nextUser == db.nextUser && m.now == db.now
      && (u !in db.users || db.users[u].admin ==> m == db)
      && (u in db.users && !db.users[u].admin ==> m.acts == db.acts[(UtcDay(at), u) := ActSum(ActOf(db.acts, UtcDay(at), u), d)])
  {}

  /** It is added to the user's row of its day, and to no other row. */
  lemma RecordMoves(db: Db, u: UserId, at: int, d: Act, v: UserId, day: DayStart)
    requires day % 86400 == 0 && u in db.users && !db.users[u].admin
    ensures ActOf(RecordActivity(db, u, at, d).acts, day, v)
      == if v == u && day <= at < day + 86400 then ActSum(ActOf(db.acts, day, u), d) else ActOf(db.acts, day, v)
  {
    DayOf(at, day);
    RecordConcerns(db, u, at, d);
    UpdatedAct(db.acts, RecordActivity(db, u, at, d).acts, UtcDay(at), u, ActSum(ActOf(db.acts, UtcDay(at), u), d), v, day);
  }

  lemma UpdatedAct(acts: Acts, after: Acts, at: DayStart, u: UserId, a: Act, v: UserId, day: DayStart)
    requires after == acts[(at, u) := a]
    ensures ActOf(after, day, v) == if v == u && day == at then a else ActOf(acts, day, v)
  {}

  /** Adding activity adds up, whatever kind it is. */
  lemma ActSumAdds(a: Act, b: Act)
    ensures
      var s := ActSum(a, b);
      && s.attempts == a.attempts + b.attempts && s.successes == a.successes + b.successes
      && s.console == a.console + b.console && s.checkins == a.checkins + b.checkins && s.games == a.games + b.games
  {}

  lemma RegisterMoves(db: Db)
    ensures
      var m := CreateUser(db);
      && m.users == db.users[db.nextUser := User(false, false, db.now)] && m.nextUser == db.nextUser + 1
      && m.acts == db.acts && m.now == db.now
  {}

  /** Switching a user on or off changes that flag; lifting a ban switches it on, unless it is an administrator's. */
  lemma SwitchMoves(db: Db, u: UserId, disabled: bool)
    ensures
      var m := SetDisabled(db, u, disabled);
      && m.acts == db.acts && m.nextUser == db.nextUser && m.now == db.now
      && m.users == if u in db.users then db.users[u := db.users[u].(disabled := disabled)] else db.users
    ensures Unban(db, u) == if u in db.users && !db.users[u].admin then SetDisabled(db, u, false) else db
  {}

  lemma RemoveMoves(db: Db, u: UserId)
    ensures
      var m := DeleteUser(db, u);
      if u in db.users && !db.users[u].admin
      then m.users == db.users - {u} && m.acts == (map k | k in db.acts && k.1 != u :: db.acts[k])
      else m == db
  {}

  /** Maintenance keeps 400 days, today's included, and no row older than that. */
  lemma MaintenanceKeeps400Days(db: Db, day: DayStart, u: UserId)
    ensures
      var m, oldest := Maintain(db), UtcDay(db.now) - 399 * 86400;
      && m.users == db.users && m.now == db.now
      && ((day, u) in m.acts <==> (day, u) in db.acts && day >= oldest)
      && ((day, u) in m.acts ==> m.acts[(day, u)] == db.acts[(day, u)])
      && (day in m.site <==> day >= oldest && (day in db.site || day == UtcDay(db.now)))
  {}
}
