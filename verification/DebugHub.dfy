/** The life of debug sessions under stale timers. */
module DebugHub {
  // A user has one current session, ended by stop, replacement, shutdown or one of four timers. Stopping
  // a timer does not recall a callback that has already started, so any callback ever armed may still
  // run at any moment.

  import opened Options

  type UserId = nat
  type SessionId = nat

  datatype Reason = NoAttach | Idle | MaxLife | Grace

  /** A timer callback with what it captured when it was armed. */
  datatype Callback = Callback(reason: Reason, user: UserId, session: SessionId, epoch: nat, idleGen: nat)

  /** `closes` and `sendsAfterClose` count what must happen once and never, `told` how often the stream was told of an end. */
  datatype Session = Session(
    user: UserId, active: bool, dryRun: bool, epoch: nat, idleGen: nat, closes: nat, sendsAfterClose: nat, told: nat)

  datatype Hub = Hub(sessions: map<UserId, SessionId>, table: seq<Session>, armed: set<Callback>)

  function Empty(): Hub {
    Hub(map[], [], {})
  }

  // ---- channel operations ----

  function Close(s: Session): Session {
    s.(active := false, closes := s.closes + 1)
  }

  function Send(s: Session): Session {
    if s.closes > 0 then s.(sendsAfterClose := s.sendsAfterClose + 1) else s
  }

  /** The event that tells the stream why its session ends. */
  function TellEnd(s: Session): Session {
    Send(s).(told := s.told + 1)
  }

  // ---- steps ----

  predicate Known(h: Hub, id: SessionId) {
    id < |h.table|
  }

  function Arm(h: Hub, reason: Reason, id: SessionId): Hub
    requires Known(h, id)
  {
    var s := h.table[id];
    h.(armed := h.armed + {Callback(reason, s.user, id, s.epoch, s.idleGen)})
  }

  function ResetIdle(h: Hub, id: SessionId): Hub
    requires Known(h, id)
  {
    var s := h.table[id];
    Arm(h.(table := h.table[id := s.(idleGen := s.idleGen + 1)]), Idle, id)
  }

  /** Closes and removes the current session of a user, telling the stream first when there is something to tell. */
  function EndCurrent(h: Hub, user: UserId, tells: bool): Hub
    requires user in h.sessions && Known(h, h.sessions[user])
  {
    var id := h.sessions[user];
    var s := h.table[id];
    var told := if tells && s.active then TellEnd(s) else s;
    h.(sessions := h.sessions - {user}, table := h.table[id := if s.active then Close(told) else told])
  }

  function Start(h: Hub, user: UserId, dryRun: bool): Hub
    requires user in h.sessions ==> Known(h, h.sessions[user])
  {
    var ended := if user in h.sessions then EndCurrent(h, user, true) else h;
    var id := |ended.table|;
    var created := ended.(
        table := ended.table + [Session(user, true, dryRun, 0, 1, 0, 0, 0)],
        sessions := ended.sessions[user := id]);
    Arm(Arm(Arm(created, NoAttach, id), Idle, id), MaxLife, id)
  }

  function Stop(h: Hub, user: UserId): Hub
    requires user in h.sessions ==> Known(h, h.sessions[user])
  {
    if user in h.sessions then EndCurrent(h, user, false) else h
  }

  predicate HasActive(h: Hub, user: UserId) {
    user in h.sessions && Known(h, h.sessions[user]) && h.table[h.sessions[user]].active
  }

  function Attach(h: Hub, user: UserId): Hub {
    if !HasActive(h, user) then h
    else
      var id := h.sessions[user];
      var s := h.table[id];
      ResetIdle(h.(table := h.table[id := s.(epoch := s.epoch + 1)]), id)
  }

  function SetDryRun(h: Hub, user: UserId, dryRun: bool): Hub {
    if !HasActive(h, user) then h
    else h.(table := h.table[h.sessions[user] := h.table[h.sessions[user]].(dryRun := dryRun)])
  }

  /** The queue's own work is `DebugQueue.PushStep`; here a push is activity, and sends. */
  function Push(h: Hub, user: UserId): Hub {
    if !HasActive(h, user) then h
    else
      var id := h.sessions[user];
      var reset := ResetIdle(h, id);
      reset.(table := reset.table[id := Send(reset.table[id])])
  }

  /** The stream reader of `id`, attached at `epoch`, has gone: the session is kept for a grace period. */
  function CloseAfter(h: Hub, user: UserId, id: SessionId, epoch: nat): Hub {
    if !HasActive(h, user) || h.sessions[user] != id || h.table[id].epoch != epoch then h
    else Arm(h, Grace, id)
  }

  predicate Fires(h: Hub, c: Callback) {
    && HasActive(h, c.user) && h.sessions[c.user] == c.session
    && (c.reason.MaxLife? || h.table[c.session].epoch == c.epoch)
    && (c.reason.Idle? ==> h.table[c.session].idleGen == c.idleGen)
  }

  /** A callback runs: it ends the session it was armed for if nothing has happened since, else does nothing. */
  function Fire(h: Hub, c: Callback): Hub {
    if Fires(h, c) then EndCurrent(h, c.user, !c.reason.Grace?) else h
  }

  /** Every current session is closed and removed. */
  function Shutdown(h: Hub): Hub {
    Hub(map[], seq(|h.table|, i requires 0 <= i < |h.table| =>
           var s := h.table[i];
           if s.user in h.sessions && h.sessions[s.user] == i && s.active then Close(s) else s), h.armed)
  }

  datatype Event =
    | DoStart(user: UserId, dryRun: bool) | DoStop(user: UserId) | DoAttach(user: UserId)
    | DoSetDryRun(user: UserId, dryRun: bool) | DoPush(user: UserId)
    | DoCloseAfter(user: UserId, id: SessionId, epoch: nat)
    | DoFire(c: Callback) | DoShutdown

  /** Only callbacks that were armed can run. */
  function Step(h: Hub, e: Event): Hub
    requires Valid(h)
  {
    match e
    case DoStart(user, dryRun) => Start(h, user, dryRun)
    case DoStop(user) => Stop(h, user)
    case DoAttach(user) => Attach(h, user)
    case DoSetDryRun(user, dryRun) => SetDryRun(h, user, dryRun)
    case DoPush(user) => Push(h, user)
    case DoCloseAfter(user, id, epoch) => CloseAfter(h, user, id, epoch)
    case DoFire(c) => if c in h.armed then Fire(h, c) else h
    case DoShutdown => Shutdown(h)
  }

  // ---- what every step keeps ----

  /** A session is current exactly while it is active, and its channel is closed exactly when it is not. */
  predicate SessionOk(h: Hub, i: SessionId)
    requires Known(h, i)
  {
    var s := h.table[i];
    && s.active == (s.user in h.sessions && h.sessions[s.user] == i)
    && s.closes == (if s.active then 0 else 1)
    && s.sendsAfterClose == 0
  }

  predicate CallbackOk(h: Hub, c: Callback) {
    && Known(h, c.session) && h.table[c.session].user == c.user
    && c.epoch <= h.table[c.session].epoch && c.idleGen <= h.table[c.session].idleGen
  }

  ghost predicate Valid(h: Hub) {
    && (forall u <- h.sessions :: Known(h, h.sessions[u]) && h.table[h.sessions[u]].user == u && h.table[h.sessions[u]].active)
    && (forall i :: 0 <= i < |h.table| ==> SessionOk(h, i))
    && (forall c <- h.armed :: CallbackOk(h, c))
  }

  lemma EndKeepsValid(h: Hub, user: UserId, tells: bool)
    requires Valid(h) && user in h.sessions
    ensures Valid(EndCurrent(h, user, tells))
  {
    forall i | 0 <= i < |h.table|
      ensures SessionOk(EndCurrent(h, user, tells), i)
    {
      assert SessionOk(h, i);
    }
  }

  lemma StartKeepsValid(h: Hub, user: UserId, dryRun: bool)
    requires Valid(h)
    ensures Valid(Start(h, user, dryRun))
  {
    if user in h.sessions { EndKeepsValid(h, user, true); }
    var ended := if user in h.sessions then EndCurrent(h, user, true) else h;
    forall i | 0 <= i < |ended.table|
      ensures SessionOk(Start(h, user, dryRun), i)
    {
      assert SessionOk(ended, i);
    }
  }

  /** An update of a live session that leaves its standing and its channel alone. */
  lemma UpdateKeepsValid(h: Hub, id: SessionId, s: Session, armed: set<Callback>)
    requires Valid(h) && Known(h, id)
    requires var t := h.table[id];
      s.user == t.user && s.active == t.active && s.closes == t.closes && s.sendsAfterClose == t.sendsAfterClose
      && s.epoch >= t.epoch && s.idleGen >= t.idleGen
    requires forall c <- armed :: c in h.armed || (c.session == id && CallbackOk(h.(table := h.table[id := s]), c))
    ensures Valid(h.(table := h.table[id := s], armed := armed))
  {
    var after := h.(table := h.table[id := s], armed := armed);
    forall i | 0 <= i < |h.table|
      ensures SessionOk(after, i)
    {
      assert SessionOk(h, i);
    }
  }

  lemma ArmKeepsValid(h: Hub, reason: Reason, id: SessionId)
    requires Valid(h) && Known(h, id)
    ensures Valid(Arm(h, reason, id))
  {
    var after := Arm(h, reason, id);
    forall i | 0 <= i < |h.table|
      ensures SessionOk(after, i)
    {
      assert SessionOk(h, i);
    }
  }

  lemma AttachKeepsValid(h: Hub, user: UserId)
    requires Valid(h)
    ensures Valid(Attach(h, user))
  {
    if HasActive(h, user) {
      var id := h.sessions[user];
      var s := h.table[id];
      var t := s.(epoch := s.epoch + 1, idleGen := s.idleGen + 1);
      UpdateKeepsValid(h, id, t, h.armed + {Callback(Idle, user, id, t.epoch, t.idleGen)});
      assert Attach(h, user) == h.(table := h.table[id := t], armed := h.armed + {Callback(Idle, user, id, t.epoch, t.idleGen)});
    }
  }

  lemma PushKeepsValid(h: Hub, user: UserId)
    requires Valid(h)
    ensures Valid(Push(h, user))
  {
    if HasActive(h, user) {
      var id := h.sessions[user];
      assert SessionOk(h, id);
      var s := h.table[id];
      var t := s.(idleGen := s.idleGen + 1);
      UpdateKeepsValid(h, id, t, h.armed + {Callback(Idle, user, id, t.epoch, t.idleGen)});
      assert Push(h, user) == h.(table := h.table[id := t], armed := h.armed + {Callback(Idle, user, id, t.epoch, t.idleGen)});
    }
  }

  lemma ShutdownKeepsValid(h: Hub)
    requires Valid(h)
    ensures Valid(Shutdown(h))
    ensures forall i :: 0 <= i < |h.table| ==> Shutdown(h).table[i].closes == 1 && !Shutdown(h).table[i].active
  {
    forall i | 0 <= i < |h.table|
      ensures SessionOk(Shutdown(h), i) && !Shutdown(h).table[i].active
    {
      assert SessionOk(h, i);
    }
  }

  lemma StepKeepsValid(h: Hub, e: Event)
    requires Valid(h)
    ensures Valid(Step(h, e))
  {
    match e
    case DoStart(user, dryRun) => StartKeepsValid(h, user, dryRun);
    case DoStop(user) => if user in h.sessions { EndKeepsValid(h, user, false); }
    case DoAttach(user) => AttachKeepsValid(h, user);
    case DoSetDryRun(user, dryRun) =>
      if HasActive(h, user) { UpdateKeepsValid(h, h.sessions[user], h.table[h.sessions[user]].(dryRun := dryRun), h.armed); }
    case DoPush(user) => PushKeepsValid(h, user);
    case DoCloseAfter(user, id, epoch) =>
      if HasActive(h, user) { ArmKeepsValid(h, Grace, h.sessions[user]); }
    case DoFire(c) => if c in h.armed && Fires(h, c) { EndKeepsValid(h, c.user, !c.reason.Grace?); }
    case DoShutdown => ShutdownKeepsValid(h);
  }

  ghost function Run(h: Hub, events: seq<Event>): Hub
    requires Valid(h)
    decreases |events|
  {
    if events == [] then h
    else
      StepKeepsValid(h, events[0]);
      Run(Step(h, events[0]), events[1..])
  }

  /**
   Over any run from an empty hub every session is current exactly while it is active, its channel
   is closed once when it ends and never before, and nothing is sent on a closed channel.
   */
  lemma {:induction false} RunKeepsValid(h: Hub, events: seq<Event>)
    requires Valid(h)
    ensures Valid(Run(h, events)) && |h.table| <= |Run(h, events).table|
    decreases |events|
  {
    if events != [] {
      StepKeepsValid(h, events[0]);
      RunKeepsValid(Step(h, events[0]), events[1..]);
    }
  }

  lemma ClosedOnceSentNever(events: seq<Event>, id: SessionId)
    requires id < |Run(Empty(), events).table|
    ensures
      var h := Run(Empty(), events);
      var s := h.table[id];
      && s.closes <= 1 && s.sendsAfterClose == 0
      && (s.closes == 0 <==> s.active)
      && (s.active <==> s.user in h.sessions && h.sessions[s.user] == id)
  {
    RunKeepsValid(Empty(), events);
    assert SessionOk(Run(Empty(), events), id);
  }

  // ---- stale callbacks ----

  /** Something has happened since the callback was armed that takes its effect away. */
  predicate Stale(h: Hub, c: Callback) {
    Known(h, c.session) &&
    var s := h.table[c.session];
    !s.active || (!c.reason.MaxLife? && s.epoch > c.epoch) || (c.reason.Idle? && s.idleGen > c.idleGen)
  }

  /** A stale callback does nothing when it runs, and it stays stale for good. */
  lemma StaleDoesNothing(h: Hub, c: Callback)
    requires Valid(h) && Stale(h, c)
    ensures Fire(h, c) == h
  {}

  lemma StaleStaysStale(h: Hub, c: Callback, e: Event)
    requires Valid(h) && Stale(h, c)
    ensures Stale(Step(h, e), c)
  {
    assert SessionOk(h, c.session);
    match e
    case DoStart(user, dryRun) =>
    case DoStop(user) =>
    case DoAttach(user) =>
    case DoSetDryRun(user, dryRun) =>
    case DoPush(user) =>
    case DoCloseAfter(user, id, epoch) =>
    case DoFire(d) =>
    case DoShutdown =>
  }

  /** A callback that is not stale ends its session, and no other one. */
  lemma FreshEndsItsSession(h: Hub, c: Callback)
    requires Valid(h) && c in h.armed && !Stale(h, c)
    ensures Fires(h, c)
    ensures var after := Fire(h, c);
      && !after.table[c.session].active && after.table[c.session].closes == 1
      && forall i :: 0 <= i < |h.table| && i != c.session ==> after.table[i] == h.table[i]
  {
    assert SessionOk(h, c.session) && CallbackOk(h, c);
  }

  /** The stream is told when a timer or a replacement ends its session, but not when the user or the grace period does. */
  lemma EndsAreTold(h: Hub, user: UserId, dryRun: bool, c: Callback)
    requires Valid(h)
    ensures user in h.sessions ==>
        var id := h.sessions[user];
        && Start(h, user, dryRun).table[id].told == h.table[id].told + 1
        && Stop(h, user).table[id].told == h.table[id].told
    ensures c in h.armed && !Stale(h, c) ==>
        Fire(h, c).table[c.session].told == h.table[c.session].told + if c.reason.Grace? then 0 else 1
  {
    if c in h.armed && !Stale(h, c) { FreshEndsItsSession(h, c); }
  }

  /** The end of the latest stream of the current session gives it a period of grace; that of any other changes nothing. */
  lemma GraceIsArmed(h: Hub, user: UserId, id: SessionId, epoch: nat)
    requires Valid(h)
    ensures Step(h, DoCloseAfter(user, id, epoch))
      == if user in h.sessions && h.sessions[user] == id && h.table[id].epoch == epoch
         then h.(armed := h.armed + {Callback(Grace, user, id, epoch, h.table[id].idleGen)}) else h
  {}

  /** A new session is current, active and as asked for; the switch of the dry run changes that and nothing else. */
  lemma StartedAsAsked(h: Hub, user: UserId, dryRun: bool)
    requires Valid(h)
    ensures
      var m, id := Start(h, user, dryRun), |h.table|;
      && m.sessions == h.sessions[user := id] && |m.table| == id + 1
      && m.table[id].user == user && m.table[id].active && m.table[id].dryRun == dryRun
      && (forall i :: 0 <= i < id && (user in h.sessions ==> i != h.sessions[user]) ==> m.table[i] == h.table[i])
    ensures HasActive(h, user) ==>
        var m, id := SetDryRun(h, user, dryRun), h.sessions[user];
        m == h.(table := m.table) && m.table == h.table[id := h.table[id].(dryRun := dryRun)]
    ensures !HasActive(h, user) ==> SetDryRun(h, user, dryRun) == h
  {}

  /** Activity makes every idle callback armed before it stale; attaching also every no-attach and grace callback. */
  lemma ActivityMakesStale(h: Hub, user: UserId, c: Callback)
    requires Valid(h) && HasActive(h, user) && c in h.armed && c.session == h.sessions[user]
    ensures c.reason.Idle? ==> Stale(Push(h, user), c)
    ensures !c.reason.MaxLife? ==> Stale(Attach(h, user), c)
  {
    assert CallbackOk(h, c);
  }

  /** Replacing a session makes every callback of the old one stale. */
  lemma ReplacingMakesStale(h: Hub, user: UserId, dryRun: bool, c: Callback)
    requires Valid(h) && user in h.sessions && c.session == h.sessions[user]
    ensures Stale(Start(h, user, dryRun), c)
  {}

  /** From then on no run lets it do anything. */
  lemma {:induction false} StaleForever(h: Hub, c: Callback, events: seq<Event>)
    requires Valid(h) && Stale(h, c)
    ensures Valid(Run(h, events)) && Stale(Run(h, events), c) && Fire(Run(h, events), c) == Run(h, events)
    decreases |events|
  {
    if events == [] {
      StaleDoesNothing(h, c);
    } else {
      StepKeepsValid(h, events[0]);
      StaleStaysStale(h, c, events[0]);
      StaleForever(Step(h, events[0]), c, events[1..]);
    }
  }

  // ---- no session is left without a timer ----

  /** An active session can still be ended by its current idle callback and by its lifetime. */
  predicate Guarded(h: Hub, i: SessionId)
    requires Known(h, i)
  {
    var s := h.table[i];
    s.active ==> Callback(Idle, s.user, i, s.epoch, s.idleGen) in h.armed && Callback(MaxLife, s.user, i, 0, 1) in h.armed
  }

  ghost predicate AllGuarded(h: Hub) {
    forall i :: 0 <= i < |h.table| ==> Guarded(h, i)
  }

  lemma StepKeepsGuarded(h: Hub, e: Event)
    requires Valid(h) && AllGuarded(h)
    ensures AllGuarded(Step(h, e))
  {
    forall i | 0 <= i < |Step(h, e).table|
      ensures Guarded(Step(h, e), i)
    {
      if i < |h.table| {
        assert Guarded(h, i) && SessionOk(h, i);
      } else {
        assert e.DoStart?;
      }
    }
  }

  /**
   Over any run every active session has two callbacks armed either of which would end it. Here every
   operation gets its locks; `DebugLocks` has the pushes that wait, behind which a callback waits too.
   */
  lemma {:induction false} NoSessionIsForgotten(h: Hub, events: seq<Event>, id: SessionId)
    requires Valid(h) && AllGuarded(h) && id < |Run(h, events).table| && Run(h, events).table[id].active
    ensures
      var final := Run(h, events);
      var s := final.table[id];
      && Fires(final, Callback(Idle, s.user, id, s.epoch, s.idleGen)) && Fires(final, Callback(MaxLife, s.user, id, 0, 1))
      && Callback(Idle, s.user, id, s.epoch, s.idleGen) in final.armed && Callback(MaxLife, s.user, id, 0, 1) in final.armed
    decreases |events|
  {
    if events == [] {
      assert Guarded(h, id) && SessionOk(h, id);
    } else {
      StepKeepsValid(h, events[0]);
      StepKeepsGuarded(h, events[0]);
      NoSessionIsForgotten(Step(h, events[0]), events[1..], id);
    }
  }

  // ---- the hub as an object ----

  class UserDebugHub {
    var sessions: map<UserId, SessionId>
    var table: seq<Session>
    var armed: set<Callback>

    function View(): Hub
      reads this
    {
      Hub(sessions, table, armed)
    }

    constructor ()
      ensures View() == Empty() && Valid(View())
    {
      sessions, table, armed := map[], [], {};
    }

    /** A timer with what its callback captures. */
    method AfterFunc(reason: Reason, id: SessionId, epoch: nat, idleGen: nat)
      requires id < |table|
      modifies this`armed
      ensures armed == old(armed) + {Callback(reason, table[id].user, id, epoch, idleGen)}
    {
      armed := armed + {Callback(reason, table[id].user, id, epoch, idleGen)};
    }

    method ResetIdleTimer(id: SessionId)
      requires id < |table|
      modifies this`table, this`armed
      ensures View() == ResetIdle(old(View()), id)
    {
      var s := table[id];
      table := table[id := s.(idleGen := s.idleGen + 1)];
      AfterFunc(Idle, id, s.epoch, s.idleGen + 1);
    }

    /** A session that is replaced tells its stream and closes it. */
    method CloseReplaced(user: UserId)
      requires Valid(View())
      modifies this`table
      ensures table == if user in sessions then EndCurrent(old(View()), user, true).table else old(table)
    {
      if user in sessions {
        var previous := sessions[user];
        if table[previous].active {
          table := table[previous := Close(TellEnd(table[previous]))];
        }
      }
    }

    method StartSession(user: UserId, dryRun: bool) returns (id: SessionId)
      requires Valid(View())
      modifies this
      ensures View() == Start(old(View()), user, dryRun) && Valid(View())
      ensures id == |old(table)| && id < |table| && sessions == old(sessions)[user := id]
    {
      StartKeepsValid(View(), user, dryRun);
      CloseReplaced(user);
      id := |table|;
      table := table + [Session(user, true, dryRun, 0, 1, 0, 0, 0)];
      AfterFunc(NoAttach, id, 0, 1);
      AfterFunc(Idle, id, 0, 1);
      AfterFunc(MaxLife, id, 0, 1);
      sessions := sessions[user := id];
    }

    method StopSession(user: UserId)
      requires Valid(View())
      modifies this
      ensures View() == Stop(old(View()), user) && Valid(View())
      ensures user !in sessions
    {
      StepKeepsValid(View(), DoStop(user));
      if user in sessions {
        var id := sessions[user];
        if table[id].active {
          table := table[id := Close(table[id])];
        }
        sessions := sessions - {user};
      }
    }

    method AttachStream(user: UserId) returns (r: Option<(SessionId, nat)>)
      requires Valid(View())
      modifies this
      ensures View() == Attach(old(View()), user) && Valid(View())
      ensures r.Some? <==> old(HasActive(View(), user))
      ensures r.Some? ==> user in sessions && r.value.0 == sessions[user] && r.value.1 == table[r.value.0].epoch
    {
      AttachKeepsValid(View(), user);
      if user !in sessions {
        return None;
      }
      var id := sessions[user];
      if !table[id].active {
        return None;
      }
      table := table[id := table[id].(epoch := table[id].epoch + 1)];
      ResetIdleTimer(id);
      return Some((id, table[id].epoch));
    }

    /** What a push does besides the queue: it counts as activity, and sends only while the session is active. */
    method PushEvent(user: UserId) returns (sent: bool)
      requires Valid(View())
      modifies this
      ensures View() == Push(old(View()), user) && Valid(View())
      ensures sent == old(HasActive(View(), user))
    {
      PushKeepsValid(View(), user);
      if user !in sessions {
        return false;
      }
      var id := sessions[user];
      if !table[id].active {
        return false;
      }
      ResetIdleTimer(id);
      table := table[id := Send(table[id])];
      return true;
    }

    method CloseAfterGrace(user: UserId, expected: SessionId, epoch: nat)
      requires Valid(View())
      modifies this
      ensures View() == CloseAfter(old(View()), user, expected, epoch) && Valid(View())
    {
      StepKeepsValid(View(), DoCloseAfter(user, expected, epoch));
      if user !in sessions || sessions[user] != expected {
        return;
      }
      if !table[expected].active || table[expected].epoch != epoch {
        return;
      }
      AfterFunc(Grace, expected, epoch, table[expected].idleGen);
    }

    /** A timer's callback, run at any time after it was armed. */
    method RunCallback(c: Callback)
      requires Valid(View()) && c in armed
      modifies this
      ensures View() == Fire(old(View()), c) && Valid(View())
      ensures old(Stale(View(), c)) ==> View() == old(View())
    {
      StepKeepsValid(View(), DoFire(c));
      if Stale(View(), c) { StaleDoesNothing(View(), c); }
      if c.user !in sessions || sessions[c.user] != c.session {
        return;
      }
      var cur := table[c.session];
      if !cur.active {
        return;
      }
      if !c.reason.MaxLife? && cur.epoch != c.epoch {
        return;
      }
      if c.reason.Idle? && cur.idleGen != c.idleGen {
        return;
      }
      if !c.reason.Grace? {
        cur := TellEnd(cur);
      }
      table := table[c.session := Close(cur)];
      sessions := sessions - {c.user};
    }

    method ShutdownAll()
      requires Valid(View())
      modifies this
      ensures Valid(View()) && sessions == map[] && View() == Shutdown(old(View()))
      ensures forall i :: 0 <= i < |table| ==> table[i].closes == 1 && !table[i].active
    {
      ghost var h := View();
      ShutdownKeepsValid(h);
      NobodyClosedYet(h);
      var users := sessions.Keys;
      while users != {}
        invariant users <= h.sessions.Keys && View() == ClosedButFor(h, users)
        decreases users
      {
        var u :| u in users;
        var id := sessions[u];
        CloseOneMore(h, users, u);
        if table[id].active {
          table := table[id := Close(table[id])];
        }
        sessions := sessions - {u};
        users := users - {u};
      }
    }
  }

  lemma ShutdownIsCloseAll(h: Hub)
    requires Valid(h)
    ensures forall i :: 0 <= i < |h.table| ==>
        && (h.table[i].active ==> h.table[i].user in h.sessions)
        && Shutdown(h).table[i] == if h.table[i].active then Close(h.table[i]) else h.table[i]
  {
    forall i | 0 <= i < |h.table|
      ensures h.table[i].active ==> h.table[i].user in h.sessions && h.sessions[h.table[i].user] == i
    {
      assert SessionOk(h, i);
    }
  }

  /** A shutdown that has still to come to `users`. */
  ghost function ClosedButFor(h: Hub, users: set<UserId>): Hub {
    Hub(map u | u in h.sessions && u in users :: h.sessions[u],
        seq(|h.table|, i requires 0 <= i < |h.table| =>
          if h.table[i].active && h.table[i].user !in users then Close(h.table[i]) else h.table[i]), h.armed)
  }

  lemma CloseOneMore(h: Hub, users: set<UserId>, u: UserId)
    requires Valid(h) && u in users && u in h.sessions
    ensures
      var before, after, id := ClosedButFor(h, users), ClosedButFor(h, users - {u}), h.sessions[u];
      && u in before.sessions && before.sessions[u] == id && Known(before, id) && before.table[id].active
      && after.sessions == before.sessions - {u} && after.table == before.table[id := Close(before.table[id])]
  {
    ClosesJustOne(h, u);
  }

  lemma NobodyClosedYet(h: Hub)
    requires Valid(h)
    ensures ClosedButFor(h, h.sessions.Keys) == h && ClosedButFor(h, {}) == Shutdown(h)
  {
    ShutdownIsCloseAll(h);
    assert ClosedButFor(h, h.sessions.Keys).table == h.table;
    assert ClosedButFor(h, {}).table == Shutdown(h).table;
  }

  lemma ClosesJustOne(h: Hub, user: UserId)
    requires Valid(h) && user in h.sessions
    ensures forall i :: 0 <= i < |h.table| && h.table[i].active && h.table[i].user == user ==> i == h.sessions[user]
  {
    forall i | 0 <= i < |h.table| && h.table[i].active && h.table[i].user == user
      ensures i == h.sessions[user]
    {
      assert SessionOk(h, i);
    }
  }
}
