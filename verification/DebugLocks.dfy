/** The hub and the queues of its sessions together, with their locks. */
module DebugLocks {
  // A push that waits keeps its session's lock, and whoever needs that lock while holding the hub's lock
  // keeps the hub's.

  import opened DebugHub
  import Q = DebugQueue

  /** How the hub's lock is kept by operations that wait: not at all, shared, or so that nobody gets in. */
  datatype HubLock = Free | Shared | Exclusive

  /**
   `queues` are the channels of the sessions, without what is sent at a session's end, after which
   nothing is pushed; `waiting` are the sessions whose lock a waiting push keeps.
   */
  datatype World = World(hub: Hub, queues: seq<Q.Chan>, waiting: set<SessionId>, lock: HubLock)

  type HubEvent = e: Event | !e.DoPush? witness DoShutdown

  datatype Action =
    | Act(e: HubEvent)
    | PushTo(user: UserId, evt: Q.Event, reader: seq<nat>)
    | LookAt(user: UserId)
    | ReadFrom(id: SessionId, k: nat)

  function NewWorld(): World {
    World(Empty(), [], {}, Free)
  }

  // ---- steps ----

  function Current(h: Hub, user: UserId): set<SessionId> {
    if user in h.sessions then {h.sessions[user]} else {}
  }

  /** The sessions whose locks an operation takes. */
  function Locks(h: Hub, e: HubEvent): set<SessionId> {
    match e
    case DoStart(user, _) => Current(h, user)
    case DoStop(user) => Current(h, user)
    case DoAttach(user) => Current(h, user)
    case DoSetDryRun(user, _) => Current(h, user)
    case DoCloseAfter(user, id, _) => Current(h, user) * {id}
    case DoFire(c) => Current(h, c.user) * {c.session}
    case DoShutdown => set user | user in h.sessions :: h.sessions[user]
  }

  predicate SharesHub(e: HubEvent) {
    e.DoAttach? || e.DoSetDryRun?
  }

  predicate LetIn(w: World, e: HubEvent) {
    w.lock.Free? || (SharesHub(e) && w.lock.Shared?)
  }

  predicate Proceeds(w: World, e: HubEvent) {
    LetIn(w, e) && Locks(w.hub, e) !! w.waiting
  }

  /**
   An operation that cannot proceed waits. One that wants the hub to itself keeps everyone out from
   then on, whether it has the hub or is next; setting the dry run gives the hub back first. A
   shutdown may have stopped sessions before it meets a waiting one: those are stops of their own.
   */
  function LockAfter(w: World, e: HubEvent): HubLock {
    if !SharesHub(e) then Exclusive
    else if e.DoAttach? && LetIn(w, e) then Shared
    else w.lock
  }

  function ActStep(w: World, e: HubEvent): World
    requires Valid(w.hub)
  {
    if e.DoFire? && e.c !in w.hub.armed then w
    else if !Proceeds(w, e) then w.(lock := LockAfter(w, e))
    else w.(hub := Step(w.hub, e), queues := if e.DoStart? then w.queues + [Q.Chan([], 0, 0)] else w.queues)
  }

  /** The user has a session whose lock a push can take. */
  predicate PushEnters(w: World, user: UserId) {
    && !w.lock.Exclusive? && HasActive(w.hub, user) && w.hub.sessions[user] !in w.waiting
    && w.hub.sessions[user] < |w.queues|
  }

  /** The push on the queue of the user's session: activity first, then the queue's work. */
  function PushTheQueue(w: World, user: UserId, evt: Q.Event, reader: seq<nat>, n: Q.NoticeBytes): World
    requires WorldOk(w)
  {
    if !PushEnters(w, user) then w
    else
      var id := w.hub.sessions[user];
      var (after, outcome) := Q.PushStep(w.queues[id], evt, n, reader);
      w.(hub := Push(w.hub, user), queues := w.queues[id := after],
         waiting := if outcome.Waiting? then w.waiting + {id} else w.waiting)
  }

  function Next(w: World, a: Action, n: Q.NoticeBytes): World
    requires WorldOk(w)
  {
    match a
    case Act(e) => ActStep(w, e)
    case PushTo(user, evt, reader) => PushTheQueue(w, user, evt, reader, n)
    case LookAt(user) =>
      if !w.lock.Exclusive? && Current(w.hub, user) * w.waiting != {} then w.(lock := Shared) else w
    case ReadFrom(id, k) => if id < |w.queues| then w.(queues := w.queues[id := Q.Read(w.queues[id], k)]) else w
  }

  // ---- what every step keeps ----

  ghost predicate QueuesOk(w: World) {
    && |w.queues| == |w.hub.table|
    && forall i :: 0 <= i < |w.queues| ==> Q.WellFormed(w.queues[i])
  }

  /** Sessions with a waiting push are active, and the hub is kept only because of one. */
  ghost predicate WaitingOk(w: World) {
    && (forall id <- w.waiting :: Known(w.hub, id) && w.hub.table[id].active)
    && (!w.lock.Free? ==> w.waiting != {})
  }

  ghost predicate WorldOk(w: World) {
    Valid(w.hub) && AllGuarded(w.hub) && QueuesOk(w) && WaitingOk(w)
  }

  /** A push that gets its session counts as activity and does to the session's queue what a push does, and to no other's. */
  lemma PushReachesQueue(w: World, user: UserId, evt: Q.Event, reader: seq<nat>, n: Q.NoticeBytes)
    requires WorldOk(w)
    ensures
      var after := Next(w, PushTo(user, evt, reader), n);
      && (!PushEnters(w, user) ==> after == w)
      && (PushEnters(w, user) ==>
            var id := w.hub.sessions[user];
            && after.hub == Push(w.hub, user) && |after.queues| == |w.queues|
            && after.queues[id] == Q.PushStep(w.queues[id], evt, n, reader).0
            && (forall i :: 0 <= i < |w.queues| && i != id ==> after.queues[i] == w.queues[i])
            && (id in after.waiting <==> Q.PushStep(w.queues[id], evt, n, reader).1.Waiting?))
  {}

  /** A reader receives from its own session's queue, whatever waits. */
  lemma ReadsReachQueue(w: World, id: SessionId, k: nat, n: Q.NoticeBytes)
    requires WorldOk(w) && id < |w.queues|
    ensures Next(w, ReadFrom(id, k), n) == w.(queues := w.queues[id := Q.Read(w.queues[id], k)])
  {}

  /** To the hub every step is one of its own, or none: what is proved of its runs holds here too. */
  lemma NextIsHubStep(w: World, a: Action, n: Q.NoticeBytes) returns (events: seq<Event>)
    requires WorldOk(w)
    ensures |events| <= 1 && Next(w, a, n).hub == if events == [] then w.hub else Step(w.hub, events[0])
  {
    match a
    case Act(e) => events := if Next(w, a, n).hub == w.hub then [] else [e];
    case PushTo(user, _, _) => events := if PushEnters(w, user) then [DoPush(user)] else [];
    case LookAt(_) => events := [];
    case ReadFrom(_, _) => events := [];
  }

  /** A session that is not among those an operation locks is as it was afterwards. */
  lemma OthersUntouched(h: Hub, e: HubEvent, id: SessionId)
    requires Valid(h) && Known(h, id) && id !in Locks(h, e)
    ensures Known(Step(h, e), id) && Step(h, e).table[id] == h.table[id]
  {
    assert SessionOk(h, id);
  }

  lemma ActKeepsWaiting(w: World, e: HubEvent)
    requires WorldOk(w)
    ensures WaitingOk(ActStep(w, e))
  {
    var after := ActStep(w, e);
    if !(e.DoFire? && e.c !in w.hub.armed) {
      if Proceeds(w, e) {
        forall id | id in w.waiting
          ensures Known(after.hub, id) && after.hub.table[id].active
        {
          OthersUntouched(w.hub, e, id);
        }
      }
    }
  }

  lemma ActKeepsQueues(w: World, e: HubEvent)
    requires Valid(w.hub) && QueuesOk(w)
    ensures QueuesOk(ActStep(w, e))
  {}

  lemma PushKeepsWaiting(w: World, user: UserId, evt: Q.Event, reader: seq<nat>, n: Q.NoticeBytes)
    requires WorldOk(w)
    ensures QueuesOk(PushTheQueue(w, user, evt, reader, n)) && WaitingOk(PushTheQueue(w, user, evt, reader, n))
  {}

  lemma NextKeepsOk(w: World, a: Action, n: Q.NoticeBytes)
    requires WorldOk(w)
    ensures WorldOk(Next(w, a, n))
  {
    var events := NextIsHubStep(w, a, n);
    if events != [] {
      StepKeepsValid(w.hub, events[0]);
      StepKeepsGuarded(w.hub, events[0]);
    }
    match a
    case Act(e) =>
      ActKeepsWaiting(w, e);
      ActKeepsQueues(w, e);
    case PushTo(user, evt, reader) => PushKeepsWaiting(w, user, evt, reader, n);
    case LookAt(_) =>
    case ReadFrom(_, _) =>
  }

  ghost function Play(w: World, actions: seq<Action>, n: Q.NoticeBytes): (after: World)
    requires WorldOk(w)
    ensures WorldOk(after)
    decreases |actions|
  {
    if actions == [] then w
    else
      NextKeepsOk(w, actions[0], n);
      Play(Next(w, actions[0], n), actions[1..], n)
  }

  lemma NewWorldIsOk()
    ensures WorldOk(NewWorld())
  {}

  /** A run of the whole is a run of the hub, waiting or not: stale callbacks and closed channels stay so. */
  lemma {:induction false} PlayIsHubRun(w: World, actions: seq<Action>, n: Q.NoticeBytes) returns (events: seq<Event>)
    requires WorldOk(w)
    ensures Play(w, actions, n).hub == Run(w.hub, events)
    decreases |actions|
  {
    if actions == [] {
      events := [];
    } else {
      NextKeepsOk(w, actions[0], n);
      var first := NextIsHubStep(w, actions[0], n);
      var rest := PlayIsHubRun(Next(w, actions[0], n), actions[1..], n);
      events := first + rest;
      if first == [] {
        assert events == rest;
      } else {
        assert events[0] == first[0] && events[1..] == rest;
      }
    }
  }

  /** Operations on a session that is not current look at the hub only: they wait for nobody's session and do nothing. */
  lemma StrangersPassBy(w: World, user: UserId, id: SessionId, epoch: nat, c: Callback, n: Q.NoticeBytes)
    requires WorldOk(w) && w.lock.Free?
    ensures !(user in w.hub.sessions && w.hub.sessions[user] == id) ==> Next(w, Act(DoCloseAfter(user, id, epoch)), n) == w
    ensures !(c.user in w.hub.sessions && w.hub.sessions[c.user] == c.session) ==> Next(w, Act(DoFire(c)), n) == w
  {}

  // ---- a waiting push ----

  /** A push can come to wait exactly when it must evict for the bytes of a queue that is not empty. */
  lemma PushCanWaitIff(w: World, user: UserId, evt: Q.Event, n: Q.NoticeBytes)
    requires WorldOk(w) && PushEnters(w, user)
    ensures
      var id := w.hub.sessions[user];
      (exists reader :: id in Next(w, PushTo(user, evt, reader), n).waiting) <==> Q.EvictsForBytes(w.queues[id], evt, n)
  {
    var id := w.hub.sessions[user];
    Q.WaitsIffEvictsForBytes(w.queues[id], evt, n);
    if Q.EvictsForBytes(w.queues[id], evt, n) {
      var reader :| Q.PushStep(w.queues[id], evt, n, reader).1.Waiting?;
      assert id in Next(w, PushTo(user, evt, reader), n).waiting;
    }
  }

  lemma WaitingStays(w: World, a: Action, n: Q.NoticeBytes, id: SessionId)
    requires WorldOk(w) && id in w.waiting
    ensures id in Next(w, a, n).waiting && Known(Next(w, a, n).hub, id) && Next(w, a, n).hub.table[id] == w.hub.table[id]
  {
    assert SessionOk(w.hub, id);
    match a
    case Act(e) => if Proceeds(w, e) { OthersUntouched(w.hub, e, id); }
    case PushTo(_, _, _) =>
    case LookAt(_) =>
    case ReadFrom(_, _) =>
  }

  /** Nothing can be sent to it any more, so it waits for good: its session stays as it is over every run. */
  lemma {:induction false} WaitingIsForGood(w: World, actions: seq<Action>, n: Q.NoticeBytes, id: SessionId)
    requires WorldOk(w) && id in w.waiting
    ensures
      var after := Play(w, actions, n);
      id in after.waiting && Known(after.hub, id) && after.hub.table[id] == w.hub.table[id] && after.hub.table[id].active
    decreases |actions|
  {
    if actions != [] {
      NextKeepsOk(w, actions[0], n);
      WaitingStays(w, actions[0], n, id);
      WaitingIsForGood(Next(w, actions[0], n), actions[1..], n, id);
    }
  }

  /** Once the hub's lock is kept from everyone, no run changes anything but what readers still receive. */
  lemma {:induction false} KeptHubIsForGood(w: World, actions: seq<Action>, n: Q.NoticeBytes)
    requires WorldOk(w) && w.lock.Exclusive?
    ensures
      var after := Play(w, actions, n);
      after.hub == w.hub && after.waiting == w.waiting && after.lock.Exclusive?
    decreases |actions|
  {
    if actions != [] {
      NextKeepsOk(w, actions[0], n);
      KeptHubIsForGood(Next(w, actions[0], n), actions[1..], n);
    }
  }

  /**
   A callback that is not stale ends its session exactly if the hub's lock is free and no push waits
   in the session; behind such a push it keeps the hub from everyone instead.
   */
  lemma CallbackEndsIff(w: World, c: Callback, n: Q.NoticeBytes)
    requires WorldOk(w) && c in w.hub.armed && !Stale(w.hub, c)
    ensures
      var after := Next(w, Act(DoFire(c)), n);
      && Known(after.hub, c.session)
      && (!after.hub.table[c.session].active <==> w.lock.Free? && c.session !in w.waiting)
      && (after.lock.Exclusive? <==> !(w.lock.Free? && c.session !in w.waiting))
  {
    FreshEndsItsSession(w.hub, c);
    assert SessionOk(w.hub, c.session) && CallbackOk(w.hub, c);
  }

  // ---- no session is forgotten while no push waits ----

  /** The callbacks that end an active session: the latest idle timer's, and its lifetime's. */
  function Enders(h: Hub, id: SessionId): set<Callback>
    requires Known(h, id)
  {
    var s := h.table[id];
    {Callback(Idle, s.user, id, s.epoch, s.idleGen), Callback(MaxLife, s.user, id, 0, 1)}
  }

  /** Whether either would end the session if it ran next. */
  ghost predicate WouldEnd(w: World, id: SessionId, n: Q.NoticeBytes)
    requires WorldOk(w) && Known(w.hub, id)
  {
    forall c <- Enders(w.hub, id) ::
      c in w.hub.armed && (var after := Next(w, Act(DoFire(c)), n).hub; Known(after, id) && !after.table[id].active)
  }

  /** At any moment either callback would end an active session exactly if no push waits in it and none has kept the hub. */
  lemma ActiveEndsUnlessKept(w: World, n: Q.NoticeBytes, id: SessionId)
    requires WorldOk(w) && Known(w.hub, id) && w.hub.table[id].active
    ensures WouldEnd(w, id, n) <==> w.lock.Free? && id !in w.waiting
  {
    assert SessionOk(w.hub, id) && Guarded(w.hub, id);
    forall c | c in Enders(w.hub, id)
      ensures var end := Next(w, Act(DoFire(c)), n).hub;
        c in w.hub.armed && Known(end, id) && (!end.table[id].active <==> w.lock.Free? && id !in w.waiting)
    {
      CallbackEndsIff(w, c, n);
    }
    var s := w.hub.table[id];
    assert Callback(MaxLife, s.user, id, 0, 1) in Enders(w.hub, id);
  }

  /** No push of the run comes to evict for the bytes of a queue that is not empty. */
  ghost predicate Roomy(w: World, actions: seq<Action>, n: Q.NoticeBytes)
    requires WorldOk(w)
    decreases |actions|
  {
    actions == [] ||
    (NextKeepsOk(w, actions[0], n);
     && (actions[0].PushTo? && PushEnters(w, actions[0].user) ==>
           !Q.EvictsForBytes(w.queues[w.hub.sessions[actions[0].user]], actions[0].evt, n))
     && Roomy(Next(w, actions[0], n), actions[1..], n))
  }

  /** Then no push waits, and no session is forgotten. */
  lemma {:induction false} RoomyRunForgetsNone(w: World, actions: seq<Action>, n: Q.NoticeBytes)
    requires WorldOk(w) && w.waiting == {} && Roomy(w, actions, n)
    ensures
      var after := Play(w, actions, n);
      && after.waiting == {} && after.lock.Free?
      && forall id: SessionId :: Known(after.hub, id) && after.hub.table[id].active ==> WouldEnd(after, id, n)
    decreases |actions|
  {
    if actions == [] {
      forall id: SessionId | Known(w.hub, id) && w.hub.table[id].active
        ensures WouldEnd(w, id, n)
      {
        ActiveEndsUnlessKept(w, n, id);
      }
    } else {
      NextKeepsOk(w, actions[0], n);
      RoomyStepWaitsNot(w, actions[0], n);
      RoomyRunForgetsNone(Next(w, actions[0], n), actions[1..], n);
    }
  }

  lemma RoomyStepWaitsNot(w: World, a: Action, n: Q.NoticeBytes)
    requires WorldOk(w) && w.waiting == {}
    requires a.PushTo? && PushEnters(w, a.user) ==> !Q.EvictsForBytes(w.queues[w.hub.sessions[a.user]], a.evt, n)
    ensures Next(w, a, n).waiting == {}
  {
    if a.PushTo? && PushEnters(w, a.user) {
      var c := w.queues[w.hub.sessions[a.user]];
      if Q.PushStep(c, a.evt, n, a.reader).1.Waiting? {
        Q.WaitingEvicts(c, a.evt, n, a.reader);
        assert false;
      }
    }
  }
}
