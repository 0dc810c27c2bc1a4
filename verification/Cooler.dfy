/** The mailer's aggregation window for one kind of event, as interleaved steps. */
module Cooler {
  // Events are added, a timer fires or is stopped, a batch is taken, sent and its window closed, and
  // shutdown may come at any point and any number of times.

  import opened Options

  type Summary = string
  type WindowId = nat

  /** Where a window is: its timer waiting, its callback running, its batch taken, sent, its channel closed. */
  datatype Phase =
    | Armed | Started
    | Sending(batch: seq<Summary>) | Sent(batch: seq<Summary>) | Closed(batch: seq<Summary>)

  /** `closes` counts how often each window's channel was closed; `sends` is every mail sent, in order of sending. */
  datatype State = State(
    items: seq<Summary>, timer: Option<WindowId>, done: Option<WindowId>, windows: seq<Phase>, closes: seq<nat>,
    sends: seq<(WindowId, seq<Summary>)>, accepted: seq<Summary>, stopped: bool)

  function Start(): State {
    State([], None, None, [], [], [], [], false)
  }

  // ---- steps ----

  /** The mailer's gate and the cooler's add: nothing is accepted after the stop. */
  function Add(s: State, summary: Summary): State {
    if s.stopped then s
    else
      var added := s.(items := s.items + [summary], accepted := s.accepted + [summary]);
      if s.timer.Some? then added
      else
        var id := |s.windows|;
        added.(timer := Some(id), done := Some(id), windows := s.windows + [Armed], closes := s.closes + [0])
  }

  /** The timer fires: its callback is under way and the timer can no longer be stopped. */
  function Fire(s: State): State {
    if s.timer.Some? && s.timer.value < |s.windows| && s.windows[s.timer.value].Armed?
    then s.(windows := s.windows[s.timer.value := Started])
    else s
  }

  /** The first critical section of flush, or of a shutdown that stopped the timer. */
  function Take(s: State, w: WindowId): State
    requires w < |s.windows|
  {
    s.(items := [], timer := None, windows := s.windows[w := Sending(s.items)])
  }

  function FlushTake(s: State, w: WindowId): State {
    if w < |s.windows| && s.windows[w].Started? then Take(s, w) else s
  }

  function SendBatch(s: State, w: WindowId): State {
    if w < |s.windows| && s.windows[w].Sending? then
      var batch := s.windows[w].batch;
      s.(windows := s.windows[w := Sent(batch)], sends := if batch == [] then s.sends else s.sends + [(w, batch)])
    else s
  }

  /** The last critical section: the channel is forgotten if it is still the newest, and closed. */
  function Finish(s: State, w: WindowId): State {
    if w < |s.windows| && s.windows[w].Sent? && w < |s.closes| then
      s.(done := if s.done == Some(w) then None else s.done,
         windows := s.windows[w := Closed(s.windows[w].batch)],
         closes := s.closes[w := s.closes[w] + 1])
    else s
  }

  /** Stops the timer if it has not fired, and takes what is buffered; otherwise leaves the running callback to it. */
  function Shutdown(s: State): State {
    if !s.stopped || s.done.None? then s
    else if s.timer.Some? && s.timer.value < |s.windows| && s.windows[s.timer.value].Armed? && s.done.value < |s.windows|
    then Take(s, s.done.value)
    else s
  }

  datatype Event =
    | DoAdd(summary: Summary) | DoFire | DoFlushTake(w: WindowId) | DoSend(w: WindowId) | DoFinish(w: WindowId)
    | DoStop | DoShutdown

  function Step(s: State, e: Event): State {
    match e
    case DoAdd(summary) => Add(s, summary)
    case DoFire => Fire(s)
    case DoFlushTake(w) => FlushTake(s, w)
    case DoSend(w) => SendBatch(s, w)
    case DoFinish(w) => Finish(s, w)
    case DoStop => s.(stopped := true)
    case DoShutdown => Shutdown(s)
  }

  function Run(s: State, events: seq<Event>): State
    decreases |events|
  {
    if events == [] then s else Run(Step(s, events[0]), events[1..])
  }

  // ---- what every step keeps ----

  predicate Open(p: Phase) {
    p.Armed? || p.Started?
  }

  function BatchOf(p: Phase): seq<Summary> {
    if Open(p) then [] else p.batch
  }

  /** The batches of the windows, in order of the windows. */
  function Batches(windows: seq<Phase>): seq<Summary> {
    if windows == [] then [] else Batches(windows[..|windows| - 1]) + BatchOf(windows[|windows| - 1])
  }

  function Last(s: State): int {
    |s.windows| - 1
  }

  /** The timer belongs to the newest window, which is then the only open one, has items, and is the one to wait for. */
  ghost predicate TimerOk(s: State) {
    && |s.closes| == |s.windows|
    && (s.timer.Some? ==> s.timer.value == Last(s) && Open(s.windows[Last(s)]) && s.done == s.timer && s.items != [])
    && (s.timer.None? ==> s.items == [])
    && (forall w :: 0 <= w < |s.windows| && Open(s.windows[w]) ==> s.timer == Some(w))
    && (s.done.Some? ==> s.done.value == Last(s) && !s.windows[Last(s)].Closed?)
  }

  /** Every channel is closed once, at the end of its window. */
  ghost predicate ClosesOk(s: State) {
    && |s.closes| == |s.windows|
    && forall w :: 0 <= w < |s.windows| ==> s.closes[w] == if s.windows[w].Closed? then 1 else 0
  }

  /** Everything accepted is in the batches, in order, or still buffered. */
  ghost predicate NothingLost(s: State) {
    s.accepted == Batches(s.windows) + s.items
  }

  function SendsOf(sends: seq<(WindowId, seq<Summary>)>, w: WindowId): seq<seq<Summary>> {
    if sends == [] then []
    else SendsOf(sends[..|sends| - 1], w) + if sends[|sends| - 1].0 == w then [sends[|sends| - 1].1] else []
  }

  /** A window past sending was sent exactly once, with its batch; no other was sent. */
  ghost predicate SendsOk(s: State) {
    SendsAgree(s.windows, s.sends)
  }

  ghost predicate SendsAgree(windows: seq<Phase>, sends: seq<(WindowId, seq<Summary>)>) {
    && (forall w :: 0 <= w < |windows| && !Open(windows[w]) ==> windows[w].batch != [])
    && (forall w: WindowId :: SendsOf(sends, w) == SentOnce(windows, w))
  }

  function SentOnce(windows: seq<Phase>, w: WindowId): seq<seq<Summary>> {
    if w < |windows| && (windows[w].Sent? || windows[w].Closed?) then [windows[w].batch] else []
  }

  ghost predicate Valid(s: State) {
    TimerOk(s) && ClosesOk(s) && NothingLost(s) && SendsOk(s)
  }

  lemma {:induction false} BatchesUpdate(windows: seq<Phase>, w: nat, p: Phase)
    requires w < |windows| && BatchOf(p) == BatchOf(windows[w])
    ensures Batches(windows[w := p]) == Batches(windows)
  {
    var n := |windows| - 1;
    if w < n {
      assert windows[w := p][..n] == windows[..n][w := p];
      BatchesUpdate(windows[..n], w, p);
    } else {
      assert windows[w := p][..n] == windows[..n];
    }
  }

  lemma BatchesLast(windows: seq<Phase>, p: Phase)
    requires windows != []
    ensures Batches(windows[|windows| - 1 := p]) == Batches(windows[..|windows| - 1]) + BatchOf(p)
  {
    assert windows[|windows| - 1 := p][..|windows| - 1] == windows[..|windows| - 1];
  }

  lemma SendsGrow(sends: seq<(WindowId, seq<Summary>)>, x: (WindowId, seq<Summary>), w: WindowId)
    ensures SendsOf(sends + [x], w) == SendsOf(sends, w) + if x.0 == w then [x.1] else []
  {
    assert (sends + [x])[..|sends|] == sends;
  }

  lemma PhaseKeepsSends(windows: seq<Phase>, sends: seq<(WindowId, seq<Summary>)>, w: WindowId, p: Phase)
    requires SendsAgree(windows, sends) && w < |windows| && (Open(p) || p.batch != [])
    requires SentOnce(windows[w := p], w) == SentOnce(windows, w)
    ensures SendsAgree(windows[w := p], sends)
  {
    forall v: WindowId
      ensures SendsOf(sends, v) == SentOnce(windows[w := p], v)
    {
      assert SendsOf(sends, v) == SentOnce(windows, v);
    }
  }

  /** Until the stop every summary is accepted, at the end of the buffer; a new cooler has not been stopped. */
  lemma AcceptedUntilStopped(s: State, summary: Summary)
    ensures
      var after := Step(s, DoAdd(summary));
      if s.stopped then after == s
      else after.accepted == s.accepted + [summary] && after.items == s.items + [summary] && after.timer.Some?
    ensures !Start().stopped && Start().accepted == [] && Step(s, DoStop) == s.(stopped := true)
  {}

  lemma AddKeepsTimer(s: State, summary: Summary)
    requires TimerOk(s)
    ensures TimerOk(Add(s, summary))
  {}

  lemma AddKeepsCloses(s: State, summary: Summary)
    requires ClosesOk(s)
    ensures ClosesOk(Add(s, summary))
  {}

  lemma AddLosesNothing(s: State, summary: Summary)
    requires NothingLost(s)
    ensures NothingLost(Add(s, summary))
  {
    Regroup(Batches(s.windows), s.items, [summary]);
    assert Batches(s.windows) + [] == Batches(s.windows);
  }

  lemma AddKeepsSends(s: State, summary: Summary)
    requires SendsOk(s)
    ensures SendsOk(Add(s, summary))
  {
    if !s.stopped && s.timer.None? { ArmedKeepsSends(s.windows, s.sends); }
  }

  lemma ArmedKeepsSends(windows: seq<Phase>, sends: seq<(WindowId, seq<Summary>)>)
    requires SendsAgree(windows, sends)
    ensures SendsAgree(windows + [Armed], sends)
  {
    var more := windows + [Armed];
    forall w: WindowId
      ensures SendsOf(sends, w) == SentOnce(more, w)
    {
      assert SendsOf(sends, w) == SentOnce(windows, w);
    }
  }

  lemma AddKeepsValid(s: State, summary: Summary)
    requires Valid(s)
    ensures Valid(Add(s, summary))
  {
    AddKeepsTimer(s, summary);
    AddKeepsCloses(s, summary);
    AddLosesNothing(s, summary);
    AddKeepsSends(s, summary);
  }

  lemma Regroup(a: seq<Summary>, b: seq<Summary>, c: seq<Summary>)
    ensures a + b + c == a + (b + c)
  {}

  lemma FireKeepsValid(s: State)
    requires Valid(s)
    ensures Valid(Fire(s))
  {
    if s.timer.Some? && s.windows[s.timer.value].Armed? {
      BatchesUpdate(s.windows, s.timer.value, Started);
      PhaseKeepsSends(s.windows, s.sends, s.timer.value, Started);
    }
  }

  lemma TakeKeepsValid(s: State, w: WindowId)
    requires Valid(s) && s.timer == Some(w)
    ensures Valid(Take(s, w))
  {
    TakeLosesNothing(s, w);
    PhaseKeepsSends(s.windows, s.sends, w, Sending(s.items));
  }

  lemma TakeLosesNothing(s: State, w: WindowId)
    requires TimerOk(s) && NothingLost(s) && s.timer == Some(w)
    ensures NothingLost(Take(s, w))
  {
    BatchesLast(s.windows, Sending(s.items));
    assert Batches(s.windows[..Last(s)]) + [] == Batches(s.windows[..Last(s)]);
    assert Batches(s.windows) == Batches(s.windows[..Last(s)]);
    assert Batches(s.windows[..Last(s)]) + s.items + [] == Batches(s.windows[..Last(s)]) + s.items;
  }

  lemma SendKeepsSends(s: State, w: WindowId)
    requires SendsOk(s) && w < |s.windows| && s.windows[w].Sending?
    ensures SendsOk(SendBatch(s, w))
  {
    var batch := s.windows[w].batch;
    var after := SendBatch(s, w);
    assert after.sends == s.sends + [(w, batch)] && after.windows == s.windows[w := Sent(batch)];
    forall v: WindowId
      ensures SendsOf(after.sends, v) == SentOnce(after.windows, v)
    {
      SendsGrow(s.sends, (w, batch), v);
      assert SendsOf(s.sends, v) == SentOnce(s.windows, v);
    }
  }

  lemma SendKeepsValid(s: State, w: WindowId)
    requires Valid(s)
    ensures Valid(SendBatch(s, w))
  {
    if w < |s.windows| && s.windows[w].Sending? {
      BatchesUpdate(s.windows, w, Sent(s.windows[w].batch));
      SendKeepsSends(s, w);
    }
  }

  lemma FinishKeepsValid(s: State, w: WindowId)
    requires Valid(s)
    ensures Valid(Finish(s, w))
  {
    if w < |s.windows| && s.windows[w].Sent? {
      BatchesUpdate(s.windows, w, Closed(s.windows[w].batch));
      PhaseKeepsSends(s.windows, s.sends, w, Closed(s.windows[w].batch));
    }
  }

  lemma StepKeepsValid(s: State, e: Event)
    requires Valid(s)
    ensures Valid(Step(s, e))
  {
    match e
    case DoAdd(summary) => AddKeepsValid(s, summary);
    case DoFire => FireKeepsValid(s);
    case DoFlushTake(w) => if w < |s.windows| && s.windows[w].Started? { TakeKeepsValid(s, w); }
    case DoSend(w) => SendKeepsValid(s, w);
    case DoFinish(w) => FinishKeepsValid(s, w);
    case DoStop =>
    case DoShutdown =>
      if s.stopped && s.done.Some? && s.timer.Some? && s.windows[s.timer.value].Armed? { TakeKeepsValid(s, s.done.value); }
  }

  /** Under every interleaving. */
  lemma {:induction false} RunKeepsValid(s: State, events: seq<Event>)
    requires Valid(s)
    ensures Valid(Run(s, events))
    decreases |events|
  {
    if events != [] {
      StepKeepsValid(s, events[0]);
      RunKeepsValid(Step(s, events[0]), events[1..]);
    }
  }

  // ---- when everything has come to rest ----

  /** No timer is set and every window is closed. */
  ghost predicate Settled(s: State) {
    s.timer.None? && forall w :: 0 <= w < |s.windows| ==> s.windows[w].Closed?
  }

  /** Then every accepted summary was in exactly one mail, in order within it, and every channel was closed once. */
  lemma SettledSentEverything(s: State)
    requires Valid(s) && Settled(s)
    ensures s.accepted == Batches(s.windows)
    ensures forall w :: 0 <= w < |s.windows| ==> SendsOf(s.sends, w) == [s.windows[w].batch] && s.closes[w] == 1
  {
    assert Batches(s.windows) + [] == Batches(s.windows);
  }

  /** After the stop nothing more is accepted. */
  lemma {:induction false} StoppedAcceptsNothing(s: State, events: seq<Event>)
    requires s.stopped
    ensures Run(s, events).stopped && Run(s, events).accepted == s.accepted
    decreases |events|
  {
    if events != [] {
      StoppedAcceptsNothing(Step(s, events[0]), events[1..]);
    }
  }

  function Left(p: Phase): nat {
    match p
    case Armed => 4
    case Started => 3
    case Sending(_) => 2
    case Sent(_) => 1
    case Closed(_) => 0
  }

  /** How many steps are left for the windows there are. */
  function Remaining(windows: seq<Phase>): nat {
    if windows == [] then 0 else Remaining(windows[..|windows| - 1]) + Left(windows[|windows| - 1])
  }

  lemma {:induction false} RemainingUpdate(windows: seq<Phase>, w: nat, p: Phase)
    requires w < |windows|
    ensures Remaining(windows[w := p]) == Remaining(windows) - Left(windows[w]) + Left(p)
  {
    var n := |windows| - 1;
    if w < n {
      assert windows[w := p][..n] == windows[..n][w := p];
      RemainingUpdate(windows[..n], w, p);
    } else {
      assert windows[w := p][..n] == windows[..n];
    }
  }

  /** The step a window waits for. */
  function NextStep(s: State, w: WindowId): Event
    requires w < |s.windows|
  {
    match s.windows[w]
    case Armed => DoFire
    case Started => DoFlushTake(w)
    case Sending(_) => DoSend(w)
    case Sent(_) => DoFinish(w)
    case Closed(_) => DoShutdown
  }

  lemma NextStepAdvances(s: State, w: WindowId)
    requires TimerOk(s) && w < |s.windows| && !s.windows[w].Closed?
    ensures
      var after := Step(s, NextStep(s, w));
      after.accepted == s.accepted && Remaining(after.windows) < Remaining(s.windows)
  {
    match s.windows[w]
    case Armed => RemainingUpdate(s.windows, w, Started);
    case Started => RemainingUpdate(s.windows, w, Sending(s.items));
    case Sending(batch) => RemainingUpdate(s.windows, w, Sent(batch));
    case Sent(batch) => RemainingUpdate(s.windows, w, Closed(batch));
    case Closed(_) => assert false;
  }

  /** Every window that is not closed has a step, and it brings the whole nearer to rest. */
  lemma EveryWindowAdvances(s: State, w: WindowId)
    requires Valid(s) && w < |s.windows| && !s.windows[w].Closed?
    ensures
      var after := Step(s, NextStep(s, w));
      Valid(after) && after.accepted == s.accepted && Remaining(after.windows) < Remaining(s.windows)
  {
    StepKeepsValid(s, NextStep(s, w));
    NextStepAdvances(s, w);
  }

  /** No step at all takes a window back or forgets it. */
  lemma StepsNeverGoBack(s: State, e: Event, w: WindowId)
    requires TimerOk(s) && w < |s.windows|
    ensures w < |Step(s, e).windows| && Left(Step(s, e).windows[w]) <= Left(s.windows[w])
  {}

  lemma {:induction false} RemainingShrinks(before: seq<Phase>, after: seq<Phase>)
    requires |after| == |before| && forall w :: 0 <= w < |before| ==> Left(after[w]) <= Left(before[w])
    ensures Remaining(after) <= Remaining(before)
  {
    if before != [] { RemainingShrinks(before[..|before| - 1], after[..|after| - 1]); }
  }

  /** Once stopped no window is added either: no step brings the whole further from rest. */
  lemma StoppedNeverGoesBack(s: State, e: Event)
    requires TimerOk(s) && s.stopped
    ensures |Step(s, e).windows| == |s.windows| && Remaining(Step(s, e).windows) <= Remaining(s.windows)
  {
    forall w | 0 <= w < |s.windows|
      ensures w < |Step(s, e).windows| && Left(Step(s, e).windows[w]) <= Left(s.windows[w])
    {
      StepsNeverGoBack(s, e, w);
    }
    RemainingShrinks(s.windows, Step(s, e).windows);
  }

  /** A shutdown leaves no timer waiting: the newest window is on its way at once. */
  lemma ShutdownLeavesNoTimerWaiting(s: State)
    requires Valid(s) && s.stopped
    ensures |Step(s, DoShutdown).windows| == |s.windows|
    ensures forall w :: 0 <= w < |s.windows| ==> !Step(s, DoShutdown).windows[w].Armed?
  {
    assert Step(s, DoShutdown) == Shutdown(s);
  }

  /** So from any state the windows can all be brought to their close, with everything accepted sent. */
  lemma {:induction false} CanSettle(s: State) returns (events: seq<Event>)
    requires Valid(s)
    ensures Valid(Run(s, events)) && Settled(Run(s, events)) && Run(s, events).accepted == s.accepted
    ensures |events| <= Remaining(s.windows)
    decreases Remaining(s.windows)
  {
    if w :| 0 <= w < |s.windows| && !s.windows[w].Closed? {
      EveryWindowAdvances(s, w);
      var e := NextStep(s, w);
      var rest := CanSettle(Step(s, e));
      events := [e] + rest;
    } else {
      events := [];
    }
  }

  // ---- the cooler as an object ----

  class CoolingWindow {
    var items: seq<Summary>
    var timer: Option<WindowId>
    var done: Option<WindowId>
    var windows: seq<Phase>
    var closes: seq<nat>
    var sends: seq<(WindowId, seq<Summary>)>
    ghost var accepted: seq<Summary>
    var stopped: bool

    ghost function View(): State
      reads this
    {
      State(items, timer, done, windows, closes, sends, accepted, stopped)
    }

    constructor ()
      ensures View() == Start() && Valid(View())
    {
      items, timer, done, windows, closes, sends, accepted, stopped := [], None, None, [], [], [], [], false;
    }

    method AddSummary(summary: Summary)
      requires Valid(View())
      modifies this
      ensures View() == Add(old(View()), summary) && Valid(View())
    {
      AddKeepsValid(View(), summary);
      if stopped {
        return;
      }
      items := items + [summary];
      accepted := accepted + [summary];
      if timer.None? {
        var id := |windows|;
        done := Some(id);
        timer := Some(id);
        windows, closes := windows + [Armed], closes + [0];
      }
    }

    /** Flush up to the send. */
    method BeginFlush(w: WindowId) returns (batch: seq<Summary>)
      requires Valid(View()) && w < |windows| && windows[w].Started?
      modifies this
      ensures View() == FlushTake(old(View()), w) && Valid(View())
      ensures batch == old(items) && batch != []
    {
      TakeKeepsValid(View(), w);
      batch := items;
      items := [];
      timer := None;
      windows := windows[w := Sending(batch)];
    }

    method SendItems(w: WindowId)
      requires Valid(View()) && w < |windows| && windows[w].Sending?
      modifies this
      ensures View() == SendBatch(old(View()), w) && Valid(View())
      ensures sends == old(sends) + [(w, old(windows[w].batch))]
    {
      SendKeepsValid(View(), w);
      var batch := windows[w].batch;
      windows := windows[w := Sent(batch)];
      sends := sends + [(w, batch)];
    }

    method EndFlush(w: WindowId)
      requires Valid(View()) && w < |windows| && windows[w].Sent?
      modifies this
      ensures View() == Finish(old(View()), w) && Valid(View())
      ensures closes == old(closes)[w := 1]
    {
      FinishKeepsValid(View(), w);
      if done == Some(w) {
        done := None;
      }
      windows := windows[w := Closed(windows[w].batch)];
      closes := closes[w := closes[w] + 1];
    }

    /** Returns the window whose channel the caller waits for, or none when there is nothing to wait for. */
    method ShutdownWindow() returns (waits: Option<WindowId>)
      requires Valid(View()) && stopped
      modifies this
      ensures View() == Shutdown(old(View())) && Valid(View())
      ensures waits == old(done)
    {
      StepKeepsValid(View(), DoShutdown);
      if done.None? {
        return None;
      }
      waits := done;
      if timer.Some? && windows[timer.value].Armed? {
        var batch := items;
        items := [];
        timer := None;
        windows := windows[done.value := Sending(batch)];
      }
    }
  }
}
