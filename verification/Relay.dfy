/**
 Relaying an upstream workflow stream as chat-completion frames.

 Text and reasoning chunks become deltas, the end of the workflow a stop or an error frame. When the
 upstream has closed, the relay adds the terminator, or an error frame of its own if the stream was
 cut. A stream that the client has cancelled gets neither.
 */
module Relay {
  import opened Options

  datatype Event =
    | TextChunk(text: string)
    | ReasoningChunk(text: string)
    | WorkflowFinished(status: string, error: string, text: string)
    | UpstreamError(error: string, text: string)
    | Housekeeping

  /** A delta with its parts, an error frame, or the terminator. */
  datatype Frame = Delta(role: bool, content: string, reasoning: string, stop: bool) | ErrorFrame(message: string) | DoneMark

  datatype Conv = Conv(firstChunk: bool, receivedText: bool, done: bool, failed: bool, failMsg: string)

  const FRESH := Conv(true, false, false, false, "")

  predicate Fails(e: Event) {
    e.UpstreamError? || (e.WorkflowFinished? && e.status == "failed")
  }

  predicate Ends(e: Event) {
    e.UpstreamError? || e.WorkflowFinished?
  }

  function FirstOf(a: string, b: string, c: string): string {
    if a != "" then a else if b != "" then b else c
  }

  /** One event: the converter's next state and the frame it produces, if any. */
  function Convert(sanitize: string -> string, c: Conv, e: Event): (Conv, Option<Frame>) {
    match e
    case TextChunk(text) =>
      if text == "" then (c, None)
      else (c.(receivedText := true, firstChunk := false), Some(Delta(c.firstChunk, text, "", false)))
    case ReasoningChunk(text) =>
      if text == "" then (c, None)
      else (c.(firstChunk := false), Some(Delta(c.firstChunk, "", text, false)))
    case WorkflowFinished(status, error, text) =>
      if status == "failed" then
        var msg := FirstOf(error, text, "workflow failed");
        (c.(done := true, failed := true, failMsg := msg), Some(ErrorFrame("[Dify] " + sanitize("workflow failed: " + msg))))
      else (c.(done := true), Some(Delta(false, "", "", true)))
    case UpstreamError(error, text) =>
      var msg := FirstOf(error, text, "upstream error");
      (c.(done := true, failed := true, failMsg := msg), Some(ErrorFrame("[Dify] " + sanitize("workflow failed: " + msg))))
    case Housekeeping => (c, None)
  }

  function Append(frames: seq<Frame>, f: Option<Frame>): seq<Frame> {
    if f.None? then frames else frames + [f.value]
  }

  /** The state and the frames after a sequence of events. */
  function ConvertAll(sanitize: string -> string, events: seq<Event>): (Conv, seq<Frame>) {
    if events == [] then (FRESH, [])
    else
      var (c, frames) := ConvertAll(sanitize, events[..|events| - 1]);
      var (next, frame) := Convert(sanitize, c, events[|events| - 1]);
      (next, Append(frames, frame))
  }

  function Finalize(c: Conv): seq<Frame> {
    if c.done || !c.receivedText then [] else [Delta(false, "", "", true)]
  }

  // ---- what the conversion preserves ----

  /** The non-empty texts the upstream sent, in order. */
  function Texts(events: seq<Event>): seq<string> {
    if events == [] then []
    else
      var last := events[|events| - 1];
      Texts(events[..|events| - 1]) + if last.TextChunk? && last.text != "" then [last.text] else []
  }

  function Reasonings(events: seq<Event>): seq<string> {
    if events == [] then []
    else
      var last := events[|events| - 1];
      Reasonings(events[..|events| - 1]) + if last.ReasoningChunk? && last.text != "" then [last.text] else []
  }

  function Contents(frames: seq<Frame>): seq<string> {
    if frames == [] then []
    else
      var last := frames[|frames| - 1];
      Contents(frames[..|frames| - 1]) + if last.Delta? && last.content != "" then [last.content] else []
  }

  function ReasoningContents(frames: seq<Frame>): seq<string> {
    if frames == [] then []
    else
      var last := frames[|frames| - 1];
      ReasoningContents(frames[..|frames| - 1]) + if last.Delta? && last.reasoning != "" then [last.reasoning] else []
  }

  lemma OneMoreFrame(frames: seq<Frame>, f: Frame)
    ensures Contents(frames + [f]) == Contents(frames) + if f.Delta? && f.content != "" then [f.content] else []
    ensures ReasoningContents(frames + [f])
         == ReasoningContents(frames) + if f.Delta? && f.reasoning != "" then [f.reasoning] else []
  {
    assert (frames + [f])[..|frames|] == frames;
  }

  lemma OneMoreChunk(sanitize: string -> string, c: Conv, frames: seq<Frame>, e: Event)
    ensures
      var after := Append(frames, Convert(sanitize, c, e).1);
      && Contents(after) == Contents(frames) + (if e.TextChunk? && e.text != "" then [e.text] else [])
      && ReasoningContents(after) == ReasoningContents(frames) + if e.ReasoningChunk? && e.text != "" then [e.text] else []
  {
    var frame := Convert(sanitize, c, e).1;
    if frame.Some? { OneMoreFrame(frames, frame.value); }
  }

  /** Content and reasoning deltas are the upstream's chunks, each in order, none added or lost. */
  lemma {:induction false} DeltasAreTheChunks(sanitize: string -> string, events: seq<Event>)
    ensures Contents(ConvertAll(sanitize, events).1) == Texts(events)
    ensures ReasoningContents(ConvertAll(sanitize, events).1) == Reasonings(events)
  {
    if events != [] {
      DeltasAreTheChunks(sanitize, events[..|events| - 1]);
      var (c, frames) := ConvertAll(sanitize, events[..|events| - 1]);
      OneMoreChunk(sanitize, c, frames, events[|events| - 1]);
    }
  }

  predicate Bears(f: Frame) {
    f.Delta? && (f.content != "" || f.reasoning != "")
  }

  /** The role is on the first delta that bears text, and on no other frame. */
  ghost predicate RoleOnFirst(frames: seq<Frame>) {
    forall i :: 0 <= i < |frames| ==>
      (frames[i].Delta? && frames[i].role <==> Bears(frames[i]) && forall j :: 0 <= j < i ==> !Bears(frames[j]))
  }

  ghost predicate NoneBears(frames: seq<Frame>) {
    forall j :: 0 <= j < |frames| ==> !Bears(frames[j])
  }

  lemma {:induction false} RoleIsOnFirstDelta(sanitize: string -> string, events: seq<Event>)
    ensures
      var (c, frames) := ConvertAll(sanitize, events);
      RoleOnFirst(frames) && (c.firstChunk <==> NoneBears(frames))
  {
    if events != [] {
      RoleIsOnFirstDelta(sanitize, events[..|events| - 1]);
      var (c, frames) := ConvertAll(sanitize, events[..|events| - 1]);
      RoleStep(sanitize, c, frames, events[|events| - 1]);
    }
  }

  lemma RoleStep(sanitize: string -> string, c: Conv, frames: seq<Frame>, e: Event)
    requires RoleOnFirst(frames) && (c.firstChunk <==> NoneBears(frames))
    ensures
      var (next, frame) := Convert(sanitize, c, e);
      RoleOnFirst(Append(frames, frame)) && (next.firstChunk <==> NoneBears(Append(frames, frame)))
  {
    var frame := Convert(sanitize, c, e).1;
    if frame.Some? { RoleGrows(frames, frame.value); }
  }

  lemma RoleGrows(frames: seq<Frame>, f: Frame)
    requires RoleOnFirst(frames)
    requires f.Delta? && f.role <==> Bears(f) && NoneBears(frames)
    ensures RoleOnFirst(frames + [f])
    ensures NoneBears(frames + [f]) <==> NoneBears(frames) && !Bears(f)
  {
    var more := frames + [f];
    assert forall j :: 0 <= j < |frames| ==> more[j] == frames[j];
    assert more[|frames|] == f;
  }

  // ---- what the flags and the error frames mean ----

  ghost predicate SomeEvent(events: seq<Event>, p: Event -> bool) {
    exists i :: 0 <= i < |events| && p(events[i])
  }

  ghost predicate HasError(frames: seq<Frame>) {
    exists i :: 0 <= i < |frames| && frames[i].ErrorFrame?
  }

  lemma SomeEventGrows(events: seq<Event>, p: Event -> bool)
    requires events != []
    ensures SomeEvent(events, p) <==> SomeEvent(events[..|events| - 1], p) || p(events[|events| - 1])
  {
    var init := events[..|events| - 1];
    if SomeEvent(init, p) {
      var i :| 0 <= i < |init| && p(init[i]);
      assert events[i] == init[i];
    }
    if SomeEvent(events, p) {
      var i :| 0 <= i < |events| && p(events[i]);
      assert i < |init| ==> init[i] == events[i];
    }
  }

  lemma ErrorGrows(frames: seq<Frame>, f: Option<Frame>)
    ensures HasError(Append(frames, f)) <==> HasError(frames) || (f.Some? && f.value.ErrorFrame?)
    ensures DoneMark in Append(frames, f) <==> DoneMark in frames || f == Some(DoneMark)
  {
    var more := Append(frames, f);
    assert forall i :: 0 <= i < |frames| ==> more[i] == frames[i];
    if f.Some? { assert more[|frames|] == f.value; }
  }

  /** The flags and error frames say exactly what the events were. */
  lemma {:induction false} FlagsMean(sanitize: string -> string, events: seq<Event>)
    ensures
      var (c, frames) := ConvertAll(sanitize, events);
      && (c.failed <==> SomeEvent(events, Fails)) && (c.done <==> SomeEvent(events, Ends))
      && (c.failed <==> HasError(frames)) && DoneMark !in frames
  {
    if events != [] {
      var init, last := events[..|events| - 1], events[|events| - 1];
      FlagsMean(sanitize, init);
      SomeEventGrows(events, Fails);
      SomeEventGrows(events, Ends);
      var (c, frames) := ConvertAll(sanitize, init);
      ErrorGrows(frames, Convert(sanitize, c, last).1);
    }
  }

  // ---- what failures and ends are turned into ----

  /** Why an event fails: what it says, or in default of that a word for it. */
  function Reason(e: Event): string
    requires Fails(e)
  {
    if e.error != "" then e.error
    else if e.text != "" then e.text
    else if e.UpstreamError? then "upstream error" else "workflow failed"
  }

  /** The messages of the failures, in order, sanitised and marked. */
  function Failures(sanitize: string -> string, events: seq<Event>): seq<string> {
    if events == [] then []
    else
      var last := events[|events| - 1];
      Failures(sanitize, events[..|events| - 1])
      + if Fails(last) then ["[Dify] " + sanitize("workflow failed: " + Reason(last))] else []
  }

  function ErrorMessages(frames: seq<Frame>): seq<string> {
    if frames == [] then []
    else
      var last := frames[|frames| - 1];
      ErrorMessages(frames[..|frames| - 1]) + if last.ErrorFrame? then [last.message] else []
  }

  /** How many deltas end the answer. */
  function Stops(frames: seq<Frame>): nat {
    if frames == [] then 0
    else Stops(frames[..|frames| - 1]) + if frames[|frames| - 1].Delta? && frames[|frames| - 1].stop then 1 else 0
  }

  function GoodEnds(events: seq<Event>): nat {
    if events == [] then 0
    else GoodEnds(events[..|events| - 1]) + if events[|events| - 1].WorkflowFinished? && events[|events| - 1].status != "failed" then 1 else 0
  }

  /** The reason of the last failure, if there was one. */
  function LastReason(events: seq<Event>): string {
    if events == [] then ""
    else if Fails(events[|events| - 1]) then Reason(events[|events| - 1])
    else LastReason(events[..|events| - 1])
  }

  lemma OneMoreOutcome(frames: seq<Frame>, f: Frame)
    ensures ErrorMessages(frames + [f]) == ErrorMessages(frames) + if f.ErrorFrame? then [f.message] else []
    ensures Stops(frames + [f]) == Stops(frames) + if f.Delta? && f.stop then 1 else 0
  {
    assert (frames + [f])[..|frames|] == frames;
  }

  lemma OneMoreFailure(sanitize: string -> string, c: Conv, frames: seq<Frame>, e: Event)
    ensures
      var (next, frame) := Convert(sanitize, c, e);
      var after := Append(frames, frame);
      && ErrorMessages(after)
         == ErrorMessages(frames) + (if Fails(e) then ["[Dify] " + sanitize("workflow failed: " + Reason(e))] else [])
      && Stops(after) == Stops(frames) + (if e.WorkflowFinished? && e.status != "failed" then 1 else 0)
      && next.failMsg == (if Fails(e) then Reason(e) else c.failMsg)
      && next.receivedText == (c.receivedText || (e.TextChunk? && e.text != ""))
  {
    var frame := Convert(sanitize, c, e).1;
    if frame.Some? { OneMoreOutcome(frames, frame.value); }
  }

  /**
   Every failure becomes one error frame, with its reason sanitised, and every good end one stop; the
   converter remembers the last reason and whether there was any text.
   */
  lemma {:induction false} OutcomesAreTold(sanitize: string -> string, events: seq<Event>)
    ensures
      var (c, frames) := ConvertAll(sanitize, events);
      && ErrorMessages(frames) == Failures(sanitize, events) && Stops(frames) == GoodEnds(events)
      && c.failMsg == LastReason(events) && (c.receivedText <==> Texts(events) != [])
  {
    if events != [] {
      var init, last := events[..|events| - 1], events[|events| - 1];
      OutcomesAreTold(sanitize, init);
      var (c, frames) := ConvertAll(sanitize, init);
      OneMoreFailure(sanitize, c, frames, last);
    }
  }

  // ---- the relay loop and its ending ----

  datatype Status = Success | UpstreamFailed | StreamCut | ClientCanceled

  /** How a stream that nobody cancelled ends. */
  function Ending(c: Conv, streamErr: Option<string>, sanitize: string -> string): (seq<Frame>, Status) {
    if c.failed then ([], UpstreamFailed)
    else if streamErr.Some? then ([ErrorFrame("[Dify] " + sanitize(streamErr.value))], UpstreamFailed)
    else if !c.done then ([ErrorFrame("[Dify] upstream stream ended unexpectedly")], StreamCut)
    else (Finalize(c) + [DoneMark], Success)
  }

  class StreamConverter {
    const sanitize: string -> string
    var conv: Conv

    constructor (sanitize: string -> string)
      ensures conv == FRESH && this.sanitize == sanitize
    {
      this.sanitize := sanitize;
      conv := FRESH;
    }

    method ConvertEvent(e: Event) returns (frame: Option<Frame>)
      modifies this
      ensures (conv, frame) == Convert(sanitize, old(conv), e)
    {
      match e
      case TextChunk(text) =>
        if text == "" {
          return None;
        }
        var role := conv.firstChunk;
        conv := conv.(receivedText := true);
        conv := conv.(firstChunk := false);
        return Some(Delta(role, text, "", false));
      case ReasoningChunk(text) =>
        if text == "" {
          return None;
        }
        var role := conv.firstChunk;
        conv := conv.(firstChunk := false);
        return Some(Delta(role, "", text, false));
      case WorkflowFinished(status, error, text) =>
        conv := conv.(done := true);
        if status == "failed" {
          var msg := if error != "" then error else text;
          msg := if msg != "" then msg else "workflow failed";
          conv := conv.(failed := true, failMsg := msg);
          return Some(ErrorFrame("[Dify] " + sanitize("workflow failed: " + msg)));
        }
        return Some(Delta(false, "", "", true));
      case UpstreamError(error, text) =>
        var msg := if error != "" then error else text;
        msg := if msg != "" then msg else "upstream error";
        conv := conv.(done := true, failed := true, failMsg := msg);
        return Some(ErrorFrame("[Dify] " + sanitize("workflow failed: " + msg)));
      case Housekeeping =>
        return None;
    }
  }

  /**
   Writes the frames of a committed stream. `cancelAt` is the number of events taken before the
   client's cancellation is seen in the loop, if it is; `canceledLate` that it is seen after it.
   */
  method RelayStream(
      sanitize: string -> string, events: seq<Event>, cancelAt: Option<nat>, canceledLate: bool, streamErr: Option<string>)
      returns (frames: seq<Frame>, status: Status)
    ensures
      var taken := if cancelAt.Some? && cancelAt.value <= |events| then events[..cancelAt.value] else events;
      var canceled := canceledLate || (cancelAt.Some? && cancelAt.value <= |events|);
      var (c, written) := ConvertAll(sanitize, taken);
      if canceled then frames == written && status == ClientCanceled
      else frames == written + Ending(c, streamErr, sanitize).0 && status == Ending(c, streamErr, sanitize).1
  {
    var converter := new StreamConverter(sanitize);
    frames := [];
    var i := 0;
    while i < |events| && cancelAt != Some(i)
      invariant i <= |events| && (cancelAt.Some? ==> i <= cancelAt.value || cancelAt.value > |events|)
      invariant (converter.conv, frames) == ConvertAll(sanitize, events[..i])
      invariant converter.sanitize == sanitize
    {
      assert events[..i + 1][..i] == events[..i];
      var frame := converter.ConvertEvent(events[i]);
      assert ConvertAll(sanitize, events[..i + 1]) == (converter.conv, Append(frames, frame));
      if frame.Some? {
        frames := frames + [frame.value];
      }
      i := i + 1;
    }
    if cancelAt == Some(i) || canceledLate {
      assert i == |events| ==> events[..i] == events;
      return frames, ClientCanceled;
    }
    assert events[..i] == events;
    var c := converter.conv;
    if c.failed {
      return frames, UpstreamFailed;
    } else if streamErr.Some? {
      return frames + [ErrorFrame("[Dify] " + sanitize(streamErr.value))], UpstreamFailed;
    } else if !c.done {
      return frames + [ErrorFrame("[Dify] upstream stream ended unexpectedly")], StreamCut;
    }
    return frames + (Finalize(c) + [DoneMark]), Success;
  }

  // ---- what every relay that was not cancelled ends with ----

  /** Everything a stream writes that nobody cancels. */
  function Written(sanitize: string -> string, events: seq<Event>, streamErr: Option<string>): seq<Frame> {
    var (c, frames) := ConvertAll(sanitize, events);
    frames + Ending(c, streamErr, sanitize).0
  }

  /** Finalize has nothing left to say where the relay calls it. */
  lemma FinalizeAddsNothing(sanitize: string -> string, events: seq<Event>, streamErr: Option<string>)
    ensures
      var c := ConvertAll(sanitize, events).0;
      Ending(c, streamErr, sanitize).1.Success? ==> Finalize(c) == [] && Ending(c, streamErr, sanitize).0 == [DoneMark]
  {}

  /** One terminator at the very end and no error frame; or an error frame and no terminator. */
  lemma EndsInDoneOrError(sanitize: string -> string, events: seq<Event>, streamErr: Option<string>)
    ensures
      var frames := Written(sanitize, events, streamErr);
      var succeeded := Ending(ConvertAll(sanitize, events).0, streamErr, sanitize).1.Success?;
      && (succeeded ==> !HasError(frames) && frames != [] && frames[|frames| - 1] == DoneMark && DoneMark !in frames[..|frames| - 1])
      && (!succeeded ==> HasError(frames) && DoneMark !in frames)
  {
    FlagsMean(sanitize, events);
    FinalizeAddsNothing(sanitize, events, streamErr);
    var (c, written) := ConvertAll(sanitize, events);
    var frames := Written(sanitize, events, streamErr);
    assert forall i :: 0 <= i < |written| ==> frames[i] == written[i];
    if c.failed {
      assert frames == written;
    } else if streamErr.Some? || !c.done {
      assert frames[|written|].ErrorFrame?;
    } else {
      assert frames == written + [DoneMark] && frames[..|frames| - 1] == written;
    }
  }

  /**
   What is written after the events: the terminator on success, and otherwise an error unless one has been
   written already; a transport's error is sanitised, and an end that never came is said to be missing.
   */
  lemma EndingTells(sanitize: string -> string, events: seq<Event>, streamErr: Option<string>)
    ensures
      var (frames, status) := Ending(ConvertAll(sanitize, events).0, streamErr, sanitize);
      if SomeEvent(events, Fails) then frames == [] && status == UpstreamFailed
      else
        match streamErr
        case Some(message) => frames == [ErrorFrame("[Dify] " + sanitize(message))] && status == UpstreamFailed
        case None =>
          if SomeEvent(events, Ends) then frames == [DoneMark] && status == Success
          else frames == [ErrorFrame("[Dify] upstream stream ended unexpectedly")] && status == StreamCut
  {
    FlagsMean(sanitize, events);
  }

  /** The safety net is for text without an end: then it stops the answer, and else it is silent. */
  lemma SafetyNet(sanitize: string -> string, events: seq<Event>)
    ensures Finalize(ConvertAll(sanitize, events).0)
      == if Texts(events) != [] && !SomeEvent(events, Ends) then [Delta(false, "", "", true)] else []
  {
    FlagsMean(sanitize, events);
    OutcomesAreTold(sanitize, events);
  }

  /** Success is exactly: the workflow finished, nothing failed, and the transport reported nothing. */
  lemma SuccessMeans(sanitize: string -> string, events: seq<Event>, streamErr: Option<string>)
    ensures Ending(ConvertAll(sanitize, events).0, streamErr, sanitize).1.Success?
       <==> streamErr.None? && SomeEvent(events, Ends) && !SomeEvent(events, Fails)
  {
    FlagsMean(sanitize, events);
  }
}
