/** The online settlement worker and everything beside it. */
module Settlement {
  // A bounded set of pending ids, a bounded queue of wakeups and one goroutine that settles ids by their
  // durable status. Wakeups, the goroutine and the transactions of other requests interleave; every lock
  // section and every transaction is a step.

  import opened Options
  import opened Charity

  type Rows = map<ReservationId, Status>

  /** What the goroutine is doing. `rest` are the ids of a retry pass still to be visited. */
  datatype Task =
    | Waiting
    | Received(id: ReservationId)
    | Settling(id: ReservationId, phase: Phase, rest: seq<ReservationId>)

  /** An attempt reads the row, then acts on what it read in a later transaction. */
  datatype Phase = Unread | Read(seen: Option<Status>) | Succeeded | Failed

  datatype State = State(
    capacity: nat, pending: map<ReservationId, bool>, queue: seq<ReservationId>, task: Task,
    stopped: bool, rows: Rows, issued: set<ReservationId>)

  function Start(capacity: nat): State {
    State(capacity, map[], [], Waiting, false, map[], {})
  }

  predicate Terminal(s: Status) {
    s.Committed? || s.Released?
  }

  predicate Over(rows: Rows, id: ReservationId) {
    id in rows ==> Terminal(rows[id])
  }

  // ---- the worker's own sections ----

  /** A wakeup is kept unless the worker is stopped or full; a known id is not queued again. */
  function Woken(s: State, id: ReservationId): (State, bool) {
    if id == "" || s.stopped then (s, false)
    else if id in s.pending then (s, true)
    else if |s.pending| >= s.capacity then (s, false)
    else (s.(pending := s.pending[id := true], queue := s.queue + [id]), true)
  }

  function Receive(s: State): State {
    if s.task.Waiting? && s.queue != [] then s.(task := Received(s.queue[0]), queue := s.queue[1..]) else s
  }

  function BeginReceived(s: State): State {
    if !s.task.Received? then s
    else
      var id := s.task.id;
      if id in s.pending && s.pending[id] then
        s.(pending := s.pending[id := false], task := Settling(id, Unread, []))
      else s.(task := Waiting)
  }

  predicate IsListing(s: State, ids: seq<ReservationId>) {
    && (forall i, j :: 0 <= i < j < |ids| ==> ids[i] != ids[j])
    && (forall id <- s.pending :: !s.pending[id] <==> id in ids)
    && (forall id <- ids :: id in s.pending)
  }

  /** A scan tick visits the ids that wait for a retry, in whatever order the map yields. */
  function BeginRetry(s: State, ids: seq<ReservationId>): State {
    if s.task.Waiting? && IsListing(s, ids) && ids != [] then s.(task := Settling(ids[0], Unread, ids[1..])) else s
  }

  function ReadRow(s: State): State {
    if s.task.Settling? && s.task.phase.Unread? then
      var id := s.task.id;
      s.(task := s.task.(phase := Read(if id in s.rows then Some(s.rows[id]) else None)))
    else s
  }

  /** The transition an observed status asks for, against the row as it is by then. */
  function Act(rows: Rows, id: ReservationId, seen: Option<Status>): (Rows, bool) {
    match seen
    case Some(Reserved) =>
      if id !in rows then (rows, false)
      else if rows[id].Reserved? then (rows[id := Released], true)
      else (rows, rows[id].Released?)
    case Some(Dispatched) =>
      if id !in rows then (rows, false)
      else if rows[id].Dispatched? then (rows[id := Committed], true)
      else (rows, rows[id].Committed?)
    case _ => (rows, true)
  }

  function ActOnRow(s: State): State {
    if s.task.Settling? && s.task.phase.Read? then
      var (rows, ok) := Act(s.rows, s.task.id, s.task.phase.seen);
      s.(rows := rows, task := s.task.(phase := if ok then Succeeded else Failed))
    else s
  }

  /** A busy database starts the attempt over; a timeout or another error gives it up. */
  function Interrupt(s: State, giveUp: bool): State {
    if s.task.Settling? && (s.task.phase.Unread? || s.task.phase.Read?) then
      s.(task := s.task.(phase := if giveUp then Failed else Unread))
    else s
  }

  function Finish(s: State): State {
    if s.task.Settling? && (s.task.phase.Succeeded? || s.task.phase.Failed?) then
      var left := if s.task.phase.Succeeded? then s.pending - {s.task.id} else s.pending;
      s.(pending := left,
         task := if s.task.rest == [] || s.stopped then Waiting else Settling(s.task.rest[0], Unread, s.task.rest[1..]))
    else s
  }

  // ---- everything that can happen ----

  datatype Event =
    | EvWake(id: ReservationId)
    | EvReceive | EvBegin | EvRetry(ids: seq<ReservationId>) | EvRead | EvAct | EvInterrupt(giveUp: bool) | EvFinish
    | EvStop
    | EvIssue(id: ReservationId)
    | EvTransition(id: ReservationId, to: Status)
    | EvPurge(id: ReservationId)

  predicate LegalTransition(from: Status, to: Status) {
    (from.Reserved? && (to.Dispatched? || to.Released?)) || (from.Dispatched? && to.Committed?)
  }

  /** Other transactions move rows forward; ids are fresh when issued and woken only after. */
  function Step(s: State, e: Event): State {
    match e
    case EvWake(id) => if id in s.issued then Woken(s, id).0 else s
    case EvReceive => Receive(s)
    case EvBegin => BeginReceived(s)
    case EvRetry(ids) => BeginRetry(s, ids)
    case EvRead => ReadRow(s)
    case EvAct => ActOnRow(s)
    case EvInterrupt(giveUp) => Interrupt(s, giveUp)
    case EvFinish => Finish(s)
    case EvStop => s.(stopped := true)
    case EvIssue(id) => if id in s.issued then s else s.(rows := s.rows[id := Reserved], issued := s.issued + {id})
    case EvTransition(id, to) =>
      if id in s.rows && LegalTransition(s.rows[id], to) then s.(rows := s.rows[id := to]) else s
    case EvPurge(id) => if id in s.rows && Terminal(s.rows[id]) then s.(rows := s.rows - {id}) else s
  }

  function Run(s: State, es: seq<Event>): State
    decreases es
  {
    if es == [] then s else Run(Step(s, es[0]), es[1..])
  }

  // ---- the invariant ----

  function Held(t: Task): set<ReservationId> {
    if t.Received? then {t.id} else {}
  }

  ghost predicate Distinct(ids: seq<ReservationId>) {
    forall i, j :: 0 <= i < j < |ids| ==> ids[i] != ids[j]
  }

  /** Ids marked queued are exactly those in the queue, or just received; each once. */
  ghost predicate QueueOk(s: State) {
    && |s.pending| <= s.capacity
    && Distinct(s.queue)
    && (forall id <- s.queue :: id !in Held(s.task))
    && (forall id <- s.pending :: s.pending[id] <==> id in s.queue || id in Held(s.task))
    && (forall id <- s.queue :: id in s.pending)
    && Held(s.task) <= s.pending.Keys
  }

  ghost predicate TaskOk(s: State) {
    s.task.Settling? ==>
      && Distinct([s.task.id] + s.task.rest)
      && (forall id <- [s.task.id] + s.task.rest :: id in s.pending && !s.pending[id])
      && (s.task.phase.Succeeded? ==> Over(s.rows, s.task.id))
      && (s.task.phase.Read? && s.task.phase.seen.None? ==> s.task.id !in s.rows)
      && (s.task.phase.Read? && s.task.phase.seen.Some? && Terminal(s.task.phase.seen.value) ==> Over(s.rows, s.task.id))
  }

  ghost predicate Valid(s: State) {
    && QueueOk(s) && TaskOk(s)
    && s.rows.Keys <= s.issued && s.pending.Keys <= s.issued
  }

  lemma QueueFits(s: State)
    requires QueueOk(s)
    ensures |s.queue| <= |s.pending|
  {
    var ids := set id <- s.queue;
    SeqSize(s.queue, ids);
    assert ids <= s.pending.Keys;
    SubsetSize(ids, s.pending.Keys);
  }

  lemma {:induction false} SeqSize(q: seq<ReservationId>, ids: set<ReservationId>)
    requires Distinct(q) && ids == set id <- q
    ensures |ids| == |q|
    decreases q
  {
    if q != [] {
      var rest := set id <- q[1..];
      assert ids == rest + {q[0]};
      assert q[0] !in q[1..];
      SeqSize(q[1..], rest);
    }
  }

  lemma {:induction false} SubsetSize(a: set<ReservationId>, b: set<ReservationId>)
    requires a <= b
    ensures |a| <= |b|
  {
    if a != {} {
      var x :| x in a;
      SubsetSize(a - {x}, b - {x});
    }
  }

  /** A new id always finds room in the queue: the branch for a full queue is dead. */
  lemma WakeFindsRoom(s: State)
    requires Valid(s) && |s.pending| < s.capacity
    ensures |s.queue| < s.capacity
  {
    QueueFits(s);
  }

  lemma WakeKeepsValid(s: State, id: ReservationId)
    requires Valid(s) && id in s.issued
    ensures Valid(Woken(s, id).0)
    ensures Woken(s, id).1 ==> id in Woken(s, id).0.pending
  {}

  lemma RetryKeepsValid(s: State, ids: seq<ReservationId>)
    requires Valid(s)
    ensures Valid(BeginRetry(s, ids))
  {
    if ids != [] { assert [ids[0]] + ids[1..] == ids; }
  }

  lemma FinishKeepsValid(s: State)
    requires Valid(s)
    ensures Valid(Finish(s))
  {
    var t := Finish(s);
    if s.task.Settling? && t.task.Settling? && t != s {
      var all := [s.task.id] + s.task.rest;
      assert [t.task.id] + t.task.rest == s.task.rest;
      forall i, j | 0 <= i < j < |s.task.rest|
        ensures s.task.rest[i] != s.task.rest[j]
      {
        assert all[i + 1] == s.task.rest[i] && all[j + 1] == s.task.rest[j];
      }
      forall id <- s.task.rest
        ensures id in t.pending && !t.pending[id]
      {
        var i :| 0 <= i < |s.task.rest| && s.task.rest[i] == id;
        assert all[0] == s.task.id && all[i + 1] == id;
      }
    }
  }

  lemma StepKeepsValid(s: State, e: Event)
    requires Valid(s)
    ensures Valid(Step(s, e))
  {
    match e
    case EvWake(id) => if id in s.issued { WakeKeepsValid(s, id); }
    case EvRetry(ids) => RetryKeepsValid(s, ids);
    case EvFinish => FinishKeepsValid(s);
    case EvReceive => ReceiveKeepsValid(s);
    case EvBegin => BeginKeepsValid(s);
    case EvRead => AttemptKeepsValid(s, e);
    case EvAct => AttemptKeepsValid(s, e);
    case EvInterrupt(_) => AttemptKeepsValid(s, e);
    case _ => OutsideKeepsValid(s, e);
  }

  lemma ReceiveKeepsValid(s: State)
    requires Valid(s)
    ensures Valid(Receive(s))
  {}

  lemma BeginKeepsValid(s: State)
    requires Valid(s)
    ensures Valid(BeginReceived(s))
  {}

  lemma AttemptKeepsValid(s: State, e: Event)
    requires Valid(s) && (e.EvRead? || e.EvAct? || e.EvInterrupt?)
    ensures Valid(Step(s, e))
  {}

  lemma OutsideKeepsValid(s: State, e: Event)
    requires Valid(s) && (e.EvStop? || e.EvIssue? || e.EvTransition? || e.EvPurge?)
    ensures Valid(Step(s, e))
  {}

  /** An id leaves the pending set only when its durable row is settled or gone. */
  lemma LeavesOnlyWhenOver(s: State, e: Event, id: ReservationId)
    requires Valid(s) && id in s.pending && id !in Step(s, e).pending
    ensures e.EvFinish? && Over(s.rows, id)
  {}

  /** Whatever the worker observed earlier, it only moves a row forward. */
  lemma RowsOnlyMoveForward(s: State, e: Event, id: ReservationId)
    requires s.rows.Keys <= s.issued && id in s.rows && id in Step(s, e).rows
    ensures Step(s, e).rows[id] == s.rows[id] || LegalTransition(s.rows[id], Step(s, e).rows[id])
  {}

  /** Over every interleaving from an empty worker the queue and the pending set agree. */
  lemma RunIsValid(capacity: nat, es: seq<Event>)
    ensures Valid(Run(Start(capacity), es))
  {
    RunKeepsValid(Start(capacity), es);
  }

  lemma {:induction false} RunKeepsValid(s: State, es: seq<Event>)
    requires Valid(s)
    ensures Valid(Run(s, es))
    decreases es
  {
    if es != [] {
      StepKeepsValid(s, es[0]);
      RunKeepsValid(Step(s, es[0]), es[1..]);
    }
  }

  /** An id kept by a wakeup is still pending later unless its row has been settled meanwhile. */
  lemma {:induction false} WokenStaysUntilOver(s: State, es: seq<Event>, id: ReservationId)
    requires Valid(s) && id in s.pending
    ensures id in Run(s, es).pending || Over(Run(s, es).rows, id)
    decreases es
  {
    if es != [] {
      var t := Step(s, es[0]);
      StepKeepsValid(s, es[0]);
      if id in t.pending {
        WokenStaysUntilOver(t, es[1..], id);
      } else {
        LeavesOnlyWhenOver(s, es[0], id);
        assert t.rows == s.rows && t.issued == s.issued;
        OverIsForever(t, es[1..], id);
      }
    }
  }

  lemma {:induction false} OverIsForever(s: State, es: seq<Event>, id: ReservationId)
    requires s.rows.Keys <= s.issued && id in s.issued && Over(s.rows, id)
    ensures Over(Run(s, es).rows, id)
    decreases es
  {
    if es != [] {
      var t := Step(s, es[0]);
      assert t.rows.Keys <= t.issued && id in t.issued && Over(t.rows, id) by {
        if id in s.rows && id in t.rows { RowsOnlyMoveForward(s, es[0], id); }
      }
      OverIsForever(t, es[1..], id);
    }
  }

  // ---- the worker as an object ----

  class Worker {
    const capacity: nat
    var pending: map<ReservationId, bool>
    var queue: seq<ReservationId>
    var task: Task
    var stopped: bool

    ghost function View(rows: Rows, issued: set<ReservationId>): State
      reads this
    {
      State(capacity, pending, queue, task, stopped, rows, issued)
    }

    constructor (capacity: nat)
      ensures View(map[], {}) == Start(capacity)
    {
      this.capacity := capacity;
      pending, queue, task, stopped := map[], [], Waiting, false;
    }

    /** Records one best-effort retry. A full set drops the hint; the branch for a full queue is dead. */
    method Wake(id: ReservationId, ghost rows: Rows, ghost issued: set<ReservationId>) returns (kept: bool)
      requires Valid(View(rows, issued)) && id in issued
      modifies this
      ensures (View(rows, issued), kept) == Woken(old(View(rows, issued)), id)
      ensures Valid(View(rows, issued))
    {
      WakeKeepsValid(View(rows, issued), id);
      if id == "" || stopped {
        return false;
      }
      if id in pending {
        return true;
      }
      if |pending| >= capacity {
        return false;
      }
      WakeFindsRoom(View(rows, issued));
      var work := pending[id := false];
      if |queue| < capacity {
        queue := queue + [id];
        work := work[id := true];
        kept := true;
      } else {
        assert false;
        work := work - {id};
        kept := false;
      }
      pending := work;
      assert pending == old(pending)[id := true];
    }

    /** Takes a received id over; a valid worker never receives an id that is not marked queued. */
    method ProcessQueued(ghost rows: Rows, ghost issued: set<ReservationId>)
      requires Valid(View(rows, issued)) && task.Received?
      modifies this
      ensures View(rows, issued) == BeginReceived(old(View(rows, issued)))
      ensures task == Settling(old(task.id), Unread, [])
    {
      var id := task.id;
      var known := id in pending;
      var queued := known && pending[id];
      if queued {
        pending := pending[id := false];
      }
      var next := Settling(id, Unread, []);
      if !known || !queued {
        assert false;
        next := Waiting;
      }
      task := next;
    }

    /** Lists the ids that wait for a retry and starts on the first. */
    method RetryPending(ghost rows: Rows, ghost issued: set<ReservationId>) returns (ids: seq<ReservationId>)
      requires Valid(View(rows, issued)) && task.Waiting?
      modifies this
      ensures IsListing(old(View(rows, issued)), ids)
      ensures View(rows, issued) == BeginRetry(old(View(rows, issued)), ids)
    {
      ids := [];
      var unseen := pending.Keys;
      while unseen != {}
        invariant unseen <= pending.Keys
        invariant Distinct(ids)
        invariant forall id <- ids :: id in pending && id !in unseen
        invariant forall id <- pending :: id !in unseen ==> (!pending[id] <==> id in ids)
        decreases unseen
      {
        var id :| id in unseen;
        if !pending[id] {
          ids := ids + [id];
        }
        unseen := unseen - {id};
      }
      if ids != [] {
        task := Settling(ids[0], Unread, ids[1..]);
      }
    }

    method FinishAttempt(ghost rows: Rows, ghost issued: set<ReservationId>)
      requires Valid(View(rows, issued)) && task.Settling? && (task.phase.Succeeded? || task.phase.Failed?)
      modifies this
      ensures View(rows, issued) == Finish(old(View(rows, issued)))
      ensures Valid(View(rows, issued))
      ensures forall id <- old(pending) :: id in pending || Over(rows, id)
    {
      FinishKeepsValid(View(rows, issued));
      if task.phase.Succeeded? {
        pending := pending - {task.id};
      }
      if task.rest != [] && !stopped {
        task := Settling(task.rest[0], Unread, task.rest[1..]);
      } else {
        task := Waiting;
      }
    }
  }
}
