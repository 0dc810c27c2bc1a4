/** The activity tables as the program has them: updated in place. */
module ActivityStore {
  // Each method is one transaction. Counters are adjusted column by column, a day is rebuilt by a loop
  // over the users, and completed days are frozen by a loop over the days. Each method is proved equal to
  // its step in `Activity`.

  import opened Options
  import opened MapSums
  import opened Activity

  /** The table with the completed days among `done` frozen. */
  ghost function FrozenSoFar(db: Db, done: set<DayStart>): Site {
    map day | day in db.site :: if day in done then Finalised(db).site[day] else db.site[day]
  }

  lemma FreezeOneMore(db: Db, done: set<DayStart>, day: DayStart)
    requires day in db.site && db.site[day].Open? && day < UtcDay(db.now)
    ensures FrozenSoFar(db, done + {day})
         == FrozenSoFar(db, done)[day := Frozen(Suppressed(Recomputed(db.users, db.acts, day)))]
  {}

  lemma AllFrozen(db: Db, done: set<DayStart>)
    requires forall day <- db.site :: db.site[day].Open? && day < UtcDay(db.now) ==> day in done
    ensures FrozenSoFar(db, done) == Finalised(db).site
    ensures FrozenSoFar(db, {}) == db.site
  {}

  /** The rows of the users `seen` so far. */
  ghost function SharesOf(users: Users, acts: Acts, day: DayStart, seen: set<UserId>): map<UserId, Counters> {
    map u | u in users && Included(users[u]) && u in seen :: Share(users[u], ActOf(acts, day, u), day)
  }

  lemma TakeRow(users: Users, acts: Acts, day: DayStart, seen: set<UserId>, u: UserId)
    requires u in users && u !in seen
    ensures
      var share := if Included(users[u]) then Share(users[u], ActOf(acts, day, u), day) else ZERO;
      Totals(SharesOf(users, acts, day, seen + {u})) == Plus(Totals(SharesOf(users, acts, day, seen)), share)
  {
    var more, fewer := SharesOf(users, acts, day, seen + {u}), SharesOf(users, acts, day, seen);
    assert more - {u} == fewer;
    TotalsTake(more, u);
  }

  lemma NoRowsTaken(users: Users, acts: Acts, day: DayStart)
    ensures Totals(SharesOf(users, acts, day, {})) == ZERO
    ensures SharesOf(users, acts, day, users.Keys) == Shares(users, acts, day)
  {
    assert SharesOf(users, acts, day, {}) == map[];
    Extensional(Totals(map[]), ZERO);
  }

  function BoolDelta(before: bool, after: bool): int {
    if !before && after then 1 else if before && !after then -1 else 0
  }

  /** The incrementing update of the row, column by column. */
  function Counted(c: Counters, before: Act, delta: Act): Counters {
    var oldProduct := before.successes > 0 || before.console > 0 || before.games > 0;
    var newProduct := before.successes + delta.successes > 0 || before.console + delta.console > 0 || before.games + delta.games > 0;
    var oldCheckinOnly := before.checkins > 0 && !oldProduct;
    var newCheckinOnly := before.checkins + delta.checkins > 0 && !newProduct;
    c.(attempted := c.attempted + BoolDelta(before.attempts > 0, before.attempts + delta.attempts > 0),
       successful := c.successful + BoolDelta(before.successes > 0, before.successes + delta.successes > 0),
       console := c.console + BoolDelta(before.console > 0, before.console + delta.console > 0),
       game := c.game + BoolDelta(before.games > 0, before.games + delta.games > 0),
       product := c.product + BoolDelta(oldProduct, newProduct),
       checkinOnly := c.checkinOnly + BoolDelta(oldCheckinOnly, newCheckinOnly),
       attempts := c.attempts + delta.attempts, successes := c.successes + delta.successes)
  }

  /** Counting up column by column adds exactly the difference of the user's shares. */
  lemma CountedIsTheDifference(c: Counters, before: Act, delta: Act)
    ensures Counted(c, before, delta) == Plus(c, Minus(ActShare(ActSum(before, delta)), ActShare(before)))
  {}

  lemma OneMoreUser(c: Counters)
    ensures c.(newUsers := c.newUsers + 1) == Plus(c, ZERO.(newUsers := 1))
  {}

  function Max0(n: int): int {
    if n < 0 then 0 else n
  }

  /** The adjusting update of the row, column by column. */
  function Shifted(c: Counters, a: Act, registeredToday: bool, direction: int): Counters {
    var product := IsProduct(a);
    var checkinOnly := a.checkins > 0 && !product;
    Counters(Max0(c.newUsers + if registeredToday then direction else 0), Max0(c.product + direction * Bit(product)),
             Max0(c.successful + direction * Bit(a.successes > 0)), Max0(c.attempted + direction * Bit(a.attempts > 0)),
             Max0(c.console + direction * Bit(a.console > 0)), Max0(c.game + direction * Bit(a.games > 0)),
             Max0(c.checkinOnly + direction * Bit(checkinOnly)), Max0(c.attempts + direction * a.attempts),
             Max0(c.successes + direction * a.successes))
  }

  lemma ShiftedIsTheShare(c: Counters, a: Act, user: User, day: DayStart, direction: int)
    requires direction == 1 || direction == -1
    ensures Shifted(c, a, UtcDay(user.createdAt) == day, direction)
         == Clamped(if direction == 1 then Plus(c, Share(user, a, day)) else Minus(c, Share(user, a, day)))
  {}

  class Store {
    var nextUser: nat
    var users: Users
    var acts: Acts
    var site: Site

    function Tables(now: int): Db
      reads this
    {
      Db(now, nextUser, users, acts, site)
    }

    constructor ()
      ensures forall now :: Tables(now) == Db(now, 1, map[], map[], map[])
    {
      nextUser, users, acts, site := 1, map[], map[], map[];
    }

    method EnsureOpenSiteDay(day: DayStart)
      modifies this`site
      ensures site == EnsureOpen(old(site), day)
    {
      if day !in site {
        site := site[day := Open(ZERO)];
      }
    }

    method RecordActivityAt(now: int, userID: UserId, at: int, delta: Act)
      modifies this`acts, this`site
      ensures Tables(now) == RecordActivity(old(Tables(now)), userID, at, delta)
    {
      if userID !in users || users[userID].admin {
        return;
      }
      var day := UtcDay(at);
      var before := ActOf(acts, day, userID);
      acts := acts[(day, userID) := ActSum(before, delta)];
      if users[userID].disabled {
        return;
      }
      EnsureOpenSiteDay(day);
      if site[day].Open? {
        site := site[day := Open(Counted(site[day].counters, before, delta))];
        CountedIsTheDifference(old(EnsureOpen(site, day))[day].counters, before, delta);
      }
    }

    method Register(now: int) returns (id: UserId)
      modifies this
      ensures Tables(now) == CreateUser(old(Tables(now))) && id == old(nextUser)
    {
      id := nextUser;
      users, nextUser := users[id := User(false, false, now)], nextUser + 1;
      var day := UtcDay(now);
      EnsureOpenSiteDay(day);
      if site[day].Open? {
        var c := site[day].counters;
        OneMoreUser(c);
        site := site[day := Open(c.(newUsers := c.newUsers + 1))];
      }
    }

    /** Takes a user's share of today out of, or into, the open row. */
    method AdjustOpenSiteForUser(now: int, userID: UserId, direction: int)
      requires userID in users && (direction == 1 || direction == -1)
      modifies this`site
      ensures Tables(now) == Adjusted(old(Tables(now)), userID, direction == 1)
    {
      var day := UtcDay(now);
      var a := ActOf(acts, day, userID);
      var registeredToday := UtcDay(users[userID].createdAt) == day;
      EnsureOpenSiteDay(day);
      if site[day].Open? {
        ShiftedIsTheShare(site[day].counters, a, users[userID], day, direction);
        site := site[day := Open(Shifted(site[day].counters, a, registeredToday, direction))];
      }
    }

    /** The aggregate over the users' rows of one day. */
    method Aggregate(day: DayStart) returns (c: Counters)
      ensures c == Recomputed(users, acts, day)
    {
      c := ZERO;
      NoRowsTaken(users, acts, day);
      var unseen := users.Keys;
      ghost var seen: set<UserId> := {};
      while unseen != {}
        invariant seen + unseen == users.Keys && seen !! unseen
        invariant c == Totals(SharesOf(users, acts, day, seen))
        decreases unseen
      {
        var u :| u in unseen;
        TakeRow(users, acts, day, seen, u);
        unseen, seen := unseen - {u}, seen + {u};
        c := Plus(c, if Included(users[u]) then Share(users[u], ActOf(acts, day, u), day) else ZERO);
      }
    }

    method RebuildSiteDay(day: DayStart, finalised: bool)
      modifies this`site
      ensures site == old(site)[day := if finalised then Frozen(Suppressed(Recomputed(users, acts, day)))
                                       else Open(Recomputed(users, acts, day))]
    {
      var c := Aggregate(day);
      site := site[day := if finalised then Frozen(Suppressed(c)) else Open(c)];
    }

    method FinalizeCompletedActivityDays(now: int)
      modifies this`site
      ensures Tables(now) == Finalised(old(Tables(now)))
    {
      ghost var db := Tables(now);
      var days := set day | day in site && site[day].Open? && day < UtcDay(now);
      ghost var all, done: set<DayStart> := days, {};
      AllFrozen(db, all);
      while days != {}
        invariant done + days == all && done !! days
        invariant site == FrozenSoFar(db, done)
        decreases days
      {
        var day :| day in days;
        FreezeOneMore(db, done, day);
        RebuildSiteDay(day, true);
        days, done := days - {day}, done + {day};
      }
    }

    method MaintainActivity(now: int)
      modifies this`site, this`acts
      ensures Tables(now) == Maintain(old(Tables(now)))
    {
      ghost var before := Tables(now);
      FinalizeCompletedActivityDays(now);
      RebuildSiteDay(UtcDay(now), false);
      assert Tables(now) == Rebuilt(Finalised(before));
      DeleteOldDays(now);
    }

    method DeleteOldDays(now: int)
      modifies this`site, this`acts
      ensures Tables(now) == Retained(old(Tables(now)))
    {
      var cutoff := UtcDay(now) - (RETENTION_DAYS - 1) * DAY_SECONDS;
      acts := map k | k in acts && !(k.0 < cutoff) :: acts[k];
      site := map day | day in site && !(day < cutoff) :: site[day];
    }

    method SetUserDisabled(now: int, userID: UserId, disabled: bool)
      modifies this`users, this`site
      ensures Tables(now) == SetDisabled(old(Tables(now)), userID, disabled)
    {
      if userID !in users {
        return;
      }
      var user := users[userID];
      if !user.admin && user.disabled != disabled {
        FinalizeCompletedActivityDays(now);
      }
      users := users[userID := user.(disabled := disabled)];
      if !user.admin && user.disabled != disabled {
        AdjustOpenSiteForUser(now, userID, if disabled then -1 else 1);
      }
    }

    method UnbanUser(now: int, userID: UserId)
      modifies this`users, this`site
      ensures Tables(now) == Unban(old(Tables(now)), userID)
    {
      if userID !in users || users[userID].admin {
        return;
      }
      var wasDisabled := users[userID].disabled;
      if wasDisabled {
        FinalizeCompletedActivityDays(now);
      }
      users := users[userID := users[userID].(disabled := false)];
      if wasDisabled {
        AdjustOpenSiteForUser(now, userID, 1);
      }
    }

    method DeleteActivityOf(now: int, userID: UserId) returns (ok: bool)
      modifies this`users, this`acts, this`site
      ensures Tables(now) == DeleteUser(old(Tables(now)), userID)
      ensures ok <==> old(userID in users && !users[userID].admin)
    {
      if userID !in users || users[userID].admin {
        return false;
      }
      FinalizeCompletedActivityDays(now);
      if !users[userID].disabled {
        AdjustOpenSiteForUser(now, userID, -1);
      }
      acts := map k | k in acts && k.1 != userID :: acts[k];
      users := users - {userID};
      return true;
    }
  }
}
