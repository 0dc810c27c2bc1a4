/** What the settlement worker brings about in the ledger. */
module SettlementEffect {
  // One attempt that nothing disturbs ends the call as its durable status asks, which is what the ledger's
  // own settlement does; and a worker that is left alone settles everything it has been woken for.

  import opened Options
  import opened Charity
  import CharityLaws
  import W = Settlement

  // ---- the worker's rows are the statuses of the ledger ----

  function Statuses(l: Ledger): W.Rows {
    map k | k in l.reservations :: l.reservations[k].status
  }

  function Settled(s: Status): Status {
    match s
    case Reserved => Released
    case Dispatched => Committed
    case Committed => Committed
    case Released => Released
  }

  /**
   What the worker does on what it has seen is the ledger's transaction on the row as it is by then: a
   release for a call seen reserved, a commit for one seen dispatched, with their successes and refusals.
   */
  lemma ActIsTransaction(l: Ledger, id: ReservationId, seen: Status)
    requires CharityLaws.Valid(l) && W.LegalTransition(seen, Settled(seen))
    ensures
      var tx := if seen.Reserved? then Release(l, id, false) else Commit(l, id);
      W.Act(Statuses(l), id, Some(seen)) == (Statuses(tx.after), !tx.entry.Rejected?)
  {
    var tx := if seen.Reserved? then Release(l, id, false) else Commit(l, id);
    assert Statuses(tx.after) == W.Act(Statuses(l), id, Some(seen)).0;
  }

  lemma NothingToDo(l: Ledger, id: ReservationId, seen: Option<Status>)
    requires seen.Some? ==> W.Terminal(seen.value)
    ensures W.Act(Statuses(l), id, seen) == (Statuses(l), true)
  {}

  // ---- one attempt ----

  const ATTEMPT: seq<W.Event> := [W.EvRead, W.EvAct, W.EvFinish]

  lemma AttemptByStep(s: W.State)
    ensures W.Run(s, ATTEMPT) == W.Finish(W.ActOnRow(W.ReadRow(s)))
  {
    var read, acted := W.ReadRow(s), W.ActOnRow(W.ReadRow(s));
    assert ATTEMPT[1..] == [W.EvAct, W.EvFinish] && ATTEMPT[1..][1..] == [W.EvFinish];
    assert W.Run(W.Finish(acted), []) == W.Finish(acted);
    assert W.Run(acted, [W.EvFinish]) == W.Finish(acted);
    assert W.Run(read, [W.EvAct, W.EvFinish]) == W.Run(acted, [W.EvFinish]);
  }

  /** An undisturbed attempt ends its row, whatever its status, and its id is pending no more. */
  lemma AttemptSettles(s: W.State)
    requires s.task.Settling? && s.task.phase.Unread?
    ensures
      var after, id := W.Run(s, ATTEMPT), s.task.id;
      && after.rows == (if id in s.rows then s.rows[id := Settled(s.rows[id])] else s.rows)
      && after.pending == s.pending - {id} && after.queue == s.queue
      && after.task == (if s.task.rest == [] || s.stopped then W.Waiting else W.Settling(s.task.rest[0], W.Unread, s.task.rest[1..]))
      && after.stopped == s.stopped && after.issued == s.issued && after.capacity == s.capacity
  {
    AttemptByStep(s);
  }

  /** And the ledger ends as its own settlement leaves it. */
  lemma AttemptIsSettle(s: W.State, l: Ledger)
    requires CharityLaws.Valid(l) && s.rows == Statuses(l) && s.task.Settling? && s.task.phase.Unread?
    ensures W.Run(s, ATTEMPT).rows == Statuses(Settle(l, s.task.id).after)
    ensures !Settle(l, s.task.id).entry.Rejected?
  {
    var id := s.task.id;
    AttemptSettles(s);
    if id in l.reservations {
      var seen := l.reservations[id].status;
      assert Statuses(l)[id] == seen;
      if W.Terminal(seen) {
        assert Statuses(l)[id := Settled(seen)] == Statuses(l);
      } else {
        ActIsTransaction(l, id, seen);
      }
    }
  }

  // ---- a worker that is left alone ----

  /** A wakeup is kept exactly by a running worker that knows the id already or has room for it. */
  lemma WakeIsKeptIff(s: W.State, id: ReservationId)
    ensures var (after, kept) := W.Woken(s, id);
      && (kept <==> id != "" && !s.stopped && (id in s.pending || |s.pending| < s.capacity))
      && after.pending.Keys == s.pending.Keys + (if kept then {id} else {})
      && after.queue == s.queue + (if kept && id !in s.pending then [id] else [])
      && after.rows == s.rows && after.task == s.task
  {}

  predicate OwnEvent(e: W.Event) {
    e.EvReceive? || e.EvBegin? || e.EvRetry? || e.EvRead? || e.EvAct? || e.EvInterrupt? || e.EvFinish?
  }

  /** How far the task is from its next attempt. */
  function Ahead(t: W.Task): nat {
    match t
    case Waiting => 2
    case Received(_) => 1
    case Settling(_, phase, rest) =>
      match phase
      case Unread => 0
      case Read(_) => 1
      case Succeeded => 0
      case Failed => 3 + |rest|
  }

  /** Rows have only been settled, each as its status asks. */
  ghost predicate OnlySettled(before: W.Rows, after: W.Rows) {
    before.Keys == after.Keys && forall k <- before :: after[k] == before[k] || after[k] == Settled(before[k])
  }

  lemma RunOfSum(s: W.State, a: seq<W.Event>, b: seq<W.Event>)
    ensures W.Run(s, a + b) == W.Run(W.Run(s, a), b)
    decreases |a|
  {
    if a == [] {
      assert a + b == b;
    } else {
      assert (a + b)[0] == a[0] && (a + b)[1..] == a[1..] + b;
      RunOfSum(W.Step(s, a[0]), a[1..], b);
    }
  }

  lemma {:induction false} ListOf(ids: set<ReservationId>) returns (list: seq<ReservationId>)
    ensures W.Distinct(list) && forall id :: id in list <==> id in ids
    decreases ids
  {
    if ids == {} {
      list := [];
    } else {
      var id :| id in ids;
      var rest := ListOf(ids - {id});
      list := [id] + rest;
    }
  }

  /** Ids that only wait for a retry can all be visited by the next scan. */
  lemma RetryBegins(s: W.State) returns (ids: seq<ReservationId>)
    requires W.Valid(s) && s.task.Waiting? && s.queue == [] && |s.pending| > 0
    ensures var after := W.BeginRetry(s, ids);
      after == s.(task := after.task) && after.task.Settling? && after.task.phase.Unread?
  {
    ids := ListOf(s.pending.Keys);
    var any :| any in s.pending.Keys;
    assert any in ids;
  }

  /** What some moves of the worker may do, and that they bring it nearer to having nothing pending. */
  ghost predicate Nearer(s: W.State, after: W.State) {
    && W.Valid(after) && !after.stopped && OnlySettled(s.rows, after.rows)
    && after.pending.Keys <= s.pending.Keys
    && (forall id <- s.pending :: id !in after.pending ==> W.Over(after.rows, id))
    && (|after.pending| < |s.pending| || (|after.pending| == |s.pending| && Ahead(after.task) < Ahead(s.task)))
  }

  lemma AttemptIsNearer(s: W.State)
    requires W.Valid(s) && !s.stopped && s.task.Settling? && s.task.phase.Unread?
    ensures Nearer(s, W.Run(s, ATTEMPT))
  {
    W.RunKeepsValid(s, ATTEMPT);
    AttemptSettles(s);
    assert s.task.id == ([s.task.id] + s.task.rest)[0] && s.task.id in s.pending;
  }

  lemma FinishIsNearer(s: W.State)
    requires W.Valid(s) && !s.stopped && s.task.Settling? && (s.task.phase.Succeeded? || s.task.phase.Failed?)
    ensures Nearer(s, W.Finish(s))
  {
    W.FinishKeepsValid(s);
    assert s.task.id == ([s.task.id] + s.task.rest)[0] && s.task.id in s.pending;
  }

  lemma ReceiveIsNearer(s: W.State)
    requires W.Valid(s) && !s.stopped && ((s.task.Waiting? && s.queue != []) || s.task.Received?)
    ensures Nearer(s, if s.task.Waiting? then W.Receive(s) else W.BeginReceived(s))
  {
    W.ReceiveKeepsValid(s);
    W.BeginKeepsValid(s);
  }

  lemma RetryIsNearer(s: W.State) returns (ids: seq<ReservationId>)
    requires W.Valid(s) && !s.stopped && s.task.Waiting? && s.queue == [] && |s.pending| > 0
    ensures Nearer(s, W.BeginRetry(s, ids))
  {
    ids := RetryBegins(s);
    W.RetryKeepsValid(s, ids);
  }

  lemma RestartIsNearer(s: W.State)
    requires W.Valid(s) && !s.stopped && s.task.Settling? && s.task.phase.Read?
    ensures Nearer(s, W.Interrupt(s, false))
  {
    W.AttemptKeepsValid(s, W.EvInterrupt(false));
  }

  lemma OneMove(s: W.State, e: W.Event)
    ensures W.Run(s, [e]) == W.Step(s, e)
  {
    assert [e][1..] == [];
  }

  /** The worker's next moves: towards an attempt, or a whole attempt. */
  lemma NextMoves(s: W.State) returns (es: seq<W.Event>)
    requires W.Valid(s) && !s.stopped && |s.pending| > 0
    ensures Nearer(s, W.Run(s, es)) && forall e <- es :: OwnEvent(e)
  {
    if s.task.Settling? && s.task.phase.Unread? {
      AttemptIsNearer(s);
      return ATTEMPT;
    }
    var e: W.Event;
    match s.task {
      case Waiting =>
        if s.queue != [] {
          e := W.EvReceive;
          ReceiveIsNearer(s);
        } else {
          var ids := RetryIsNearer(s);
          e := W.EvRetry(ids);
        }
      case Received(_) =>
        e := W.EvBegin;
        ReceiveIsNearer(s);
      case Settling(_, phase, _) =>
        if phase.Read? {
          e := W.EvInterrupt(false);
          RestartIsNearer(s);
        } else {
          e := W.EvFinish;
          FinishIsNearer(s);
        }
    }
    OneMove(s, e);
    return [e];
  }

  /**
   From any state of a running worker its own events alone can settle everything that is pending: then
   nothing is pending, and every id that was has a row that is settled, or none.
   */
  lemma {:induction false} SettlesEverything(s: W.State) returns (es: seq<W.Event>)
    requires W.Valid(s) && !s.stopped
    ensures forall e <- es :: OwnEvent(e)
    ensures var after := W.Run(s, es);
      && after.pending == map[] && OnlySettled(s.rows, after.rows)
      && forall id <- s.pending :: W.Over(after.rows, id)
    decreases |s.pending|, Ahead(s.task)
  {
    if |s.pending| == 0 {
      es := [];
    } else {
      var first := NextMoves(s);
      var mid := W.Run(s, first);
      var rest := SettlesEverything(mid);
      es := first + rest;
      RunOfSum(s, first, rest);
      var after := W.Run(mid, rest);
      forall id <- s.pending
        ensures W.Over(after.rows, id)
      {
        if id !in mid.pending { assert W.Over(mid.rows, id); }
      }
    }
  }


  /** An attempt given up leaves its id pending and its row as it was; the worker goes on with the others. */
  lemma GivenUpStaysPending(s: W.State)
    requires s.task.Settling? && (s.task.phase.Unread? || s.task.phase.Read?)
    ensures
      var after := W.Finish(W.Interrupt(s, true));
      && after.pending == s.pending && after.rows == s.rows && after.queue == s.queue
      && after.task == if s.task.rest == [] || s.stopped then W.Waiting else W.Settling(s.task.rest[0], W.Unread, s.task.rest[1..])
  {}

  /** A new worker runs and has nothing pending; a call issued once is reserved. */
  lemma Beginnings(capacity: nat, s: W.State, id: ReservationId)
    ensures !W.Start(capacity).stopped && W.Start(capacity).pending == map[] && W.Start(capacity).queue == []
    ensures id !in s.issued ==>
        W.Step(s, W.EvIssue(id)) == s.(rows := s.rows[id := Reserved], issued := s.issued + {id})
  {}

  /** A row disappears only once it is settled. */
  lemma RowsGoOnlyWhenOver(s: W.State, e: W.Event, id: ReservationId)
    requires id in s.rows && id !in W.Step(s, e).rows
    ensures e == W.EvPurge(id) && W.Terminal(s.rows[id])
  {}

  /** Others wake the worker for calls, purge settled rows and move the rest forward. */
  lemma OthersMove(s: W.State, id: ReservationId, next: Status)
    requires id in s.rows
    ensures id in s.issued ==> W.Step(s, W.EvWake(id)) == W.Woken(s, id).0
    ensures W.Terminal(s.rows[id]) ==> W.Step(s, W.EvPurge(id)) == s.(rows := s.rows - {id})
    ensures W.LegalTransition(s.rows[id], next) ==> W.Step(s, W.EvTransition(id, next)) == s.(rows := s.rows[id := next])
  {}

  /** A stop is for good, and from then on nothing new is accepted. */
  lemma {:induction false} StopIsForGood(s: W.State, es: seq<W.Event>, id: ReservationId)
    requires s.stopped || (es != [] && es[0].EvStop?)
    ensures W.Run(s, es).stopped && !W.Woken(W.Run(s, es), id).1
    decreases |es|
  {
    if es != [] { StopIsForGood(W.Step(s, es[0]), es[1..], id); }
  }
}
