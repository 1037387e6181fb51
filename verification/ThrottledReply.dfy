/** Showing a streamed reply through throttled updates, and what is shown once the stream has ended. */
module ThrottledReply {
  import opened Wrappers
  import opened ThinkTags
  import opened ChatMessages
  import opened ChatHistory
  import opened ChatLive
  import opened ChatFinal

  /** A message on screen; a reply has no segments until its first update. */
  datatype View = View(id: string, content: string, calls: seq<ToolCall>, segments: Option<seq<Segment>>, streaming: bool)

  datatype Patch = Patch(content: Option<string>, calls: Option<seq<ToolCall>>, segments: Option<seq<Segment>>,
                         streaming: Option<bool>)

  const NO_CHANGE := Patch(None, None, None, None)

  function Merge(first: Patch, later: Patch): Patch {
    Patch(OrElse(later.content, first.content), OrElse(later.calls, first.calls),
          OrElse(later.segments, first.segments), OrElse(later.streaming, first.streaming))
  }

  function Patched(v: View, p: Patch): View {
    View(v.id, Or(p.content, v.content), Or(p.calls, v.calls), OrElse(p.segments, v.segments), Or(p.streaming, v.streaming))
  }

  /** Only the reply's own message takes the patch. */
  function PatchAll(views: seq<View>, id: string, p: Patch): (r: seq<View>)
    ensures |r| == |views|
    ensures forall i :: 0 <= i < |views| ==> r[i] == if views[i].id == id then Patched(views[i], p) else views[i]
  {
    seq(|views|, i requires 0 <= i < |views| => if views[i].id == id then Patched(views[i], p) else views[i])
  }

  /** Every patch at once, without throttling. */
  function Immediately(views: seq<View>, id: string, patches: seq<Patch>): seq<View> {
    if patches == [] then views
    else PatchAll(Immediately(views, id, patches[..|patches| - 1]), id, patches[|patches| - 1])
  }

  // ----- The throttle

  datatype Display = Display(views: seq<View>, pending: Option<Patch>, timer: bool)

  datatype Op = Update(patch: Patch) | UpdateNow(patch: Patch) | TimerFires

  function Pend(pending: Option<Patch>, p: Patch): Patch {
    if pending.Some? then Merge(pending.value, p) else p
  }

  function Flush(d: Display, id: string): Display {
    match d.pending
    case None => Display(d.views, None, false)
    case Some(p) => Display(PatchAll(d.views, id, p), None, false)
  }

  /** A timer can fire only while it is set. */
  function OnOp(d: Display, id: string, op: Op): Display {
    match op
    case Update(p) => Display(d.views, Some(Pend(d.pending, p)), true)
    case UpdateNow(p) => Flush(Display(d.views, Some(Pend(d.pending, p)), false), id)
    case TimerFires => if d.timer then Flush(d, id) else d
  }

  function RunOps(d: Display, id: string, ops: seq<Op>): Display {
    if ops == [] then d else OnOp(RunOps(d, id, ops[..|ops| - 1]), id, ops[|ops| - 1])
  }

  function Patches(ops: seq<Op>): seq<Patch> {
    if ops == [] then []
    else
      var last := ops[|ops| - 1];
      var front := Patches(ops[..|ops| - 1]);
      if last.TimerFires? then front else front + [last.patch]
  }

  // ----- Throttling refines immediate updates

  lemma PatchTwice(views: seq<View>, id: string, first: Patch, later: Patch)
    ensures PatchAll(PatchAll(views, id, first), id, later) == PatchAll(views, id, Merge(first, later))
  {}

  lemma ImmediatelySnoc(views: seq<View>, id: string, patches: seq<Patch>, p: Patch)
    ensures Immediately(views, id, patches + [p]) == PatchAll(Immediately(views, id, patches), id, p)
  {
    assert (patches + [p])[..|patches|] == patches;
  }

  /** What is shown is the first shown patches applied, and the pending patch stands for all the others. */
  ghost predicate ShowsPrefix(d: Display, views: seq<View>, id: string, patches: seq<Patch>, shown: nat)
    requires shown <= |patches|
  {
    && d.views == Immediately(views, id, patches[..shown])
    && (d.pending.None? <==> shown == |patches|)
    && (d.pending.Some? ==> PatchAll(d.views, id, d.pending.value) == Immediately(views, id, patches))
    && (d.timer <==> d.pending.Some?)
  }

  /** Under every interleaving of timer firings the screen shows some prefix of the patches, in order. */
  lemma {:induction false} ThrottlingShowsPrefix(views: seq<View>, id: string, ops: seq<Op>) returns (shown: nat)
    ensures shown <= |Patches(ops)|
    ensures ShowsPrefix(RunOps(Display(views, None, false), id, ops), views, id, Patches(ops), shown)
    ensures ops != [] && ops[|ops| - 1].UpdateNow? ==> shown == |Patches(ops)|
  {
    if ops == [] {
      shown := 0;
    } else {
      var front, op := ops[..|ops| - 1], ops[|ops| - 1];
      var before := ThrottlingShowsPrefix(views, id, front);
      var d, patches := RunOps(Display(views, None, false), id, front), Patches(front);
      if op.TimerFires? {
        shown := if d.timer then |patches| else before;
        assert patches[..|patches|] == patches;
      } else {
        shown := if op.Update? then before else |patches| + 1;
        ImmediatelySnoc(views, id, patches, op.patch);
        assert (patches + [op.patch])[..before] == patches[..before];
        assert (patches + [op.patch])[..|patches| + 1] == patches + [op.patch];
        assert patches[..|patches|] == patches;
        if d.pending.Some? {
          PatchTwice(d.views, id, d.pending.value, op.patch);
        }
      }
    }
  }

  /** Right after an immediate update nothing is left out. */
  lemma ImmediateUpdateShowsAll(views: seq<View>, id: string, ops: seq<Op>)
    requires ops != [] && ops[|ops| - 1].UpdateNow?
    ensures RunOps(Display(views, None, false), id, ops) == Display(Immediately(views, id, Patches(ops)), None, false)
  {
    var shown := ThrottlingShowsPrefix(views, id, ops);
    assert Patches(ops)[..shown] == Patches(ops);
  }

  // ----- The reply under construction

  /** The update a stream event asks for, once the event has been taken in. */
  function OpFor(st: LiveState, ev: LiveEvent): Op {
    match ev
    case Delta(_) => Update(Patch(Some(StripThinkTags(st.turn.content)), None, Some(st.turn.segments), None))
    case Whole(_) => Update(Patch(Some(StripThinkTags(st.turn.content)), None, Some(st.turn.segments), None))
    case CallStarted(_, _) => UpdateNow(Patch(None, Some(st.turn.calls), Some(st.turn.segments), None))
    case CallReturned(_, _) => UpdateNow(Patch(None, Some(st.turn.calls), Some(st.turn.segments), None))
    case Done => UpdateNow(NO_CHANGE.(streaming := Some(false)))
    case Failed(message) => UpdateNow(NO_CHANGE.(content := Some("Error: " + message), streaming := Some(false)))
  }

  class Reply {
    const id: string
    var views: seq<View>
    var pendingPatch: Option<Patch>
    var throttleTimer: bool
    var content: string
    var toolCalls: seq<ToolCall>
    var segments: seq<Segment>
    var lastSegmentIsText: bool

    ghost function Shown(): Display
      reads this
    {
      Display(views, pendingPatch, throttleTimer)
    }

    ghost function Built(): LiveState
      reads this
    {
      LiveState(Turn(content, toolCalls, segments), lastSegmentIsText)
    }

    constructor (id: string, views: seq<View>)
      ensures this.id == id && Built() == LIVE_START
      ensures Shown() == Display(views + [View(id, "", [], None, true)], None, false)
    {
      this.id := id;
      this.views := views + [View(id, "", [], None, true)];
      pendingPatch, throttleTimer := None, false;
      content, toolCalls, segments, lastSegmentIsText := "", [], [], false;
    }

    method FlushUpdate()
      modifies this
      ensures Shown() == Flush(old(Shown()), id)
      ensures Built() == old(Built())
    {
      throttleTimer := false;
      if pendingPatch.Some? {
        var patch := pendingPatch.value;
        pendingPatch := None;
        views := PatchAll(views, id, patch);
      }
    }

    method TimerCallback()
      modifies this
      ensures Shown() == OnOp(old(Shown()), id, TimerFires)
      ensures Built() == old(Built())
    {
      if throttleTimer {
        FlushUpdate();
      }
    }

    method UpdateAssistant(patch: Patch)
      modifies this
      ensures Shown() == OnOp(old(Shown()), id, Update(patch))
      ensures Built() == old(Built())
    {
      pendingPatch := Some(if pendingPatch.Some? then Merge(pendingPatch.value, patch) else patch);
      if !throttleTimer {
        throttleTimer := true;
      }
    }

    method UpdateAssistantNow(patch: Patch)
      modifies this
      ensures Shown() == OnOp(old(Shown()), id, UpdateNow(patch))
      ensures Built() == old(Built())
    {
      if throttleTimer {
        throttleTimer := false;
      }
      pendingPatch := Some(if pendingPatch.Some? then Merge(pendingPatch.value, patch) else patch);
      FlushUpdate();
    }

    /** Text joins the last text segment or starts one. */
    method AppendDelta(delta: string)
      modifies this`content, this`segments, this`lastSegmentIsText
      ensures Built() == LiveText(old(Built()), delta)
    {
      content := content + delta;
      if lastSegmentIsText && |segments| > 0 {
        var last := segments[|segments| - 1];
        if last.Text? {
          segments := segments[..|segments| - 1] + [Text(last.content + delta)];
        }
      } else {
        segments := segments + [Text(delta)];
        lastSegmentIsText := true;
      }
    }

    method OnStreamEvent(ev: LiveEvent)
      modifies this
      ensures Built() == OnLive(old(Built()), ev)
      ensures Shown() == OnOp(old(Shown()), id, OpFor(Built(), ev))
    {
      match ev {
        case Delta(delta) =>
          AppendDelta(delta);
          UpdateAssistant(Patch(Some(StripThinkTags(content)), None, Some(segments), None));
        case Whole(full) =>
          if full != "" {
            content := full;
            segments := [Text(full)];
            lastSegmentIsText := true;
          }
          UpdateAssistant(Patch(Some(StripThinkTags(content)), None, Some(segments), None));
        case CallStarted(tool, input) =>
          var call := ToolCall(tool, input, None);
          toolCalls := toolCalls + [call];
          segments := segments + [Call(call)];
          lastSegmentIsText := false;
          UpdateAssistantNow(Patch(None, Some(toolCalls), Some(segments), None));
        case CallReturned(tool, output) =>
          toolCalls := CloseLast(toolCalls, tool, output);
          segments := CloseAllOpen(segments, tool, output);
          UpdateAssistantNow(Patch(None, Some(toolCalls), Some(segments), None));
        case Done =>
          UpdateAssistantNow(NO_CHANGE.(streaming := Some(false)));
        case Failed(message) =>
          UpdateAssistantNow(NO_CHANGE.(content := Some("Error: " + message), streaming := Some(false)));
      }
    }
  }

  // ----- What the finished reply shows

  const STOP := UpdateNow(NO_CHANGE.(streaming := Some(false)))

  /** The updates a stream asks for, in order. */
  function OpsOf(stream: seq<LiveEvent>): seq<Op> {
    if stream == [] then []
    else OpsOf(stream[..|stream| - 1]) + [OpFor(StreamState(LIVE_START, stream), stream[|stream| - 1])]
  }

  /** A restored turn as the finished live display words it: reasoning hidden, no longer streaming. */
  function Finished(id: string, t: Turn): View {
    View(id, StripThinkTags(t.content), t.calls, Some(t.segments), false)
  }

  function FreshReply(id: string): View {
    View(id, "", [], None, true)
  }

  predicate Ends(ev: LiveEvent) {
    ev.Done? || ev.Failed?
  }

  /** The text shown is that of the last event that sets it: the reply so far, or an error message. */
  function ShownContent(stream: seq<LiveEvent>): string {
    if stream == [] then ""
    else
      match stream[|stream| - 1]
      case Delta(_) => StripThinkTags(StreamState(LIVE_START, stream).turn.content)
      case Whole(_) => StripThinkTags(StreamState(LIVE_START, stream).turn.content)
      case Failed(message) => "Error: " + message
      case _ => ShownContent(stream[..|stream| - 1])
  }

  /** The reply as an immediate display shows it: calls and segments as built, streaming until an end was announced. */
  function ReplyAfter(id: string, stream: seq<LiveEvent>): View {
    var t := StreamState(LIVE_START, stream).turn;
    View(id, ShownContent(stream), t.calls,
         if forall ev :: ev in stream ==> Ends(ev) then None else Some(t.segments),
         forall ev :: ev in stream ==> !Ends(ev))
  }

  lemma PatchesSnoc(ops: seq<Op>, op: Op)
    ensures Patches(ops + [op]) == if op.TimerFires? then Patches(ops) else Patches(ops) + [op.patch]
  {
    assert (ops + [op])[..|ops|] == ops;
  }

  lemma PatchLast(views: seq<View>, v: View, p: Patch)
    requires forall other :: other in views ==> other.id != v.id
    ensures PatchAll(views + [v], v.id, p) == views + [Patched(v, p)]
  {}

  /** What the update for one event makes of a view that shows the calls built so far. */
  lemma PatchedFields(v: View, before: LiveState, ev: LiveEvent)
    requires v.calls == before.turn.calls
    ensures var after := OnLive(before, ev);
            var shown := Patched(v, OpFor(after, ev).patch);
            && shown.id == v.id && shown.calls == after.turn.calls
            && shown.segments == (if Ends(ev) then v.segments else Some(after.turn.segments))
            && shown.streaming == (v.streaming && !Ends(ev))
            && shown.content == match ev
                 case Delta(_) => StripThinkTags(after.turn.content)
                 case Whole(_) => StripThinkTags(after.turn.content)
                 case Failed(message) => "Error: " + message
                 case _ => v.content
    ensures Ends(ev) ==> OnLive(before, ev) == before
  {}

  lemma AllEndSnoc(stream: seq<LiveEvent>, last: LiveEvent)
    ensures (forall ev :: ev in stream + [last] ==> Ends(ev)) <==> (forall ev :: ev in stream ==> Ends(ev)) && Ends(last)
    ensures (forall ev :: ev in stream + [last] ==> !Ends(ev)) <==> (forall ev :: ev in stream ==> !Ends(ev)) && !Ends(last)
  {
    assert last in stream + [last];
    assert forall ev :: ev in stream ==> ev in stream + [last];
  }

  lemma OneMoreUpdate(id: string, front: seq<LiveEvent>, last: LiveEvent)
    ensures var op := OpFor(StreamState(LIVE_START, front + [last]), last);
            && OpsOf(front + [last]) == OpsOf(front) + [op]
            && Patched(ReplyAfter(id, front), op.patch) == ReplyAfter(id, front + [last])
  {
    assert (front + [last])[..|front|] == front;
    StreamStateSnoc(LIVE_START, front, last);
    PatchedFields(ReplyAfter(id, front), StreamState(LIVE_START, front), last);
    AllEndSnoc(front, last);
  }

  lemma {:induction false} ImmediateReply(views: seq<View>, id: string, stream: seq<LiveEvent>)
    requires forall v :: v in views ==> v.id != id
    ensures Immediately(views + [FreshReply(id)], id, Patches(OpsOf(stream))) == views + [ReplyAfter(id, stream)]
  {
    if stream != [] {
      var front, last := stream[..|stream| - 1], stream[|stream| - 1];
      assert stream == front + [last];
      ImmediateReply(views, id, front);
      OneMoreUpdate(id, front, last);
      var op := OpFor(StreamState(LIVE_START, stream), last);
      PatchesSnoc(OpsOf(front), op);
      ImmediatelySnoc(views + [FreshReply(id)], id, Patches(OpsOf(front)), op.patch);
      PatchLast(views, ReplyAfter(id, front), op.patch);
    }
  }

  /** The same updates with timers firing anywhere in between. */
  function WithoutTimers(ops: seq<Op>): seq<Op> {
    if ops == [] then []
    else
      var front := WithoutTimers(ops[..|ops| - 1]);
      if ops[|ops| - 1].TimerFires? then front else front + [ops[|ops| - 1]]
  }

  lemma {:induction false} TimersAddNoPatch(ops: seq<Op>)
    ensures Patches(WithoutTimers(ops)) == Patches(ops)
  {
    if ops != [] {
      TimersAddNoPatch(ops[..|ops| - 1]);
      PatchesSnoc(WithoutTimers(ops[..|ops| - 1]), ops[|ops| - 1]);
    }
  }

  /** At the end of any stream, however the timers fired, the screen shows the whole reply and nothing is pending. */
  lemma EndOfStreamShowsReply(views: seq<View>, id: string, stream: seq<LiveEvent>, ops: seq<Op>)
    requires forall v :: v in views ==> v.id != id
    requires WithoutTimers(ops) == OpsOf(stream)
    ensures RunOps(Display(views + [FreshReply(id)], None, false), id, ops + [STOP])
         == Display(views + [ReplyAfter(id, stream).(streaming := false)], None, false)
  {
    ImmediateUpdateShowsAll(views + [FreshReply(id)], id, ops + [STOP]);
    PatchesSnoc(ops, STOP);
    TimersAddNoPatch(ops);
    ImmediateReply(views, id, stream);
    ImmediatelySnoc(views + [FreshReply(id)], id, Patches(ops), STOP.patch);
    PatchLast(views, ReplyAfter(id, stream), STOP.patch);
  }

  // ----- The finished reply of a turn

  lemma NothingToStrip()
    ensures StripThinkTags("") == ""
  {}

  /** Without an end or an error, the text shown is the reply so far. */
  lemma {:induction false} ShownIsReply(stream: seq<LiveEvent>)
    requires forall ev :: ev in stream ==> !Ends(ev)
    ensures ShownContent(stream) == StripThinkTags(StreamState(LIVE_START, stream).turn.content)
  {
    if stream == [] {
      NothingToStrip();
    } else {
      var front, last := stream[..|stream| - 1], stream[|stream| - 1];
      assert stream == front + [last];
      AllEndSnoc(front, last);
      ShownIsReply(front);
    }
  }

  lemma {:induction false} TurnsDoNotEnd(events: seq<Event>)
    ensures forall ev :: ev in StreamOf(events) ==> !Ends(ev)
  {
    if events != [] {
      var front, ev := StreamOf(events[..|events| - 1]), Streamed(events[|events| - 1]);
      TurnsDoNotEnd(events[..|events| - 1]);
      if ev.Some? {
        AllEndSnoc(front, ev.value);
      }
    }
  }

  lemma {:induction false} SameContent(events: seq<Event>)
    ensures LiveAfter(events).turn.content == RestoredAfter(events).content
  {
    if events != [] {
      SameContent(events[..|events| - 1]);
      LiveFlag(events[..|events| - 1]);
    }
  }

  lemma DoneShows(id: string, stream: seq<LiveEvent>)
    ensures ReplyAfter(id, stream + [Done]) == ReplyAfter(id, stream).(streaming := false)
  {
    OneMoreUpdate(id, stream, Done);
  }

  lemma {:induction false} DoneAddsNothing(id: string, stream: seq<LiveEvent>, tail: seq<LiveEvent>)
    requires forall i :: 0 <= i < |tail| ==> tail[i] == Done
    ensures ReplyAfter(id, stream + tail).(streaming := false) == ReplyAfter(id, stream).(streaming := false)
    decreases |tail|
  {
    if tail == [] {
      assert stream + tail == stream;
    } else {
      var front := tail[..|tail| - 1];
      assert stream + tail == (stream + front) + [Done];
      DoneAddsNothing(id, stream, front);
      DoneShows(id, stream + front);
    }
  }

  lemma {:induction false} TurnReply(id: string, events: seq<Event>, tail: seq<LiveEvent>)
    requires StreamOf(events) != [] && forall i :: 0 <= i < |tail| ==> tail[i] == Done
    ensures ReplyAfter(id, StreamOf(events) + tail).(streaming := false) == Finished(id, LiveAfter(events).turn)
  {
    DoneAddsNothing(id, StreamOf(events), tail);
    TurnsDoNotEnd(events);
    ShownIsReply(StreamOf(events));
    StreamOfTurn(events);
    assert StreamOf(events)[0] in StreamOf(events);
  }

  /**
   The finished reply of a turn is on screen as the restored one, with reasoning hidden and no other message changed,
   exactly when every tool call of the turn is settled.
   */
  lemma {:induction false} FinishedReplyMatchesRestoredIff(views: seq<View>, id: string, events: seq<Event>,
                                                           tail: seq<LiveEvent>, ops: seq<Op>)
    requires forall v :: v in views ==> v.id != id
    requires forall ev :: ev in events ==> WithinTurn(ev)
    requires StreamOf(events) != [] && forall i :: 0 <= i < |tail| ==> tail[i] == Done
    requires WithoutTimers(ops) == OpsOf(StreamOf(events) + tail)
    ensures RunOps(Display(views + [FreshReply(id)], None, false), id, ops + [STOP])
         == Display(views + [Finished(id, RestoredAfter(events))], None, false)
       <==> AllSettled(events)
  {
    EndOfStreamShowsReply(views, id, StreamOf(events) + tail, ops);
    TurnReply(id, events, tail);
    SameContent(events);
    FinalAgreesIff(events);
    var live, restored := Finished(id, LiveAfter(events).turn), Finished(id, RestoredAfter(events));
    assert (views + [live])[|views|] == live && (views + [restored])[|views|] == restored;
  }

  // ----- The restored counterpart

  predicate Speaks(ev: Event) {
    ev.AssistantText? || ev.ToolCalled?
  }

  lemma {:induction false} TurnRestored(events: seq<Event>)
    requires forall ev :: ev in events ==> WithinTurn(ev)
    ensures RunEvents(START, events).messages == []
    ensures match RunEvents(START, events).current
            case None => RestoredAfter(events) == EMPTY_TURN && forall ev :: ev in events ==> !Speaks(ev)
            case Some(open) => open.turn == RestoredAfter(events)
  {
    if events != [] {
      var front, last := events[..|events| - 1], events[|events| - 1];
      assert events == front + [last];
      assert last in events && WithinTurn(last);
      TurnRestored(front);
      RunEventsJoins(START, front, [last]);
      assert RunEvents(START, events) == OnEvent(RunEvents(START, front), last);
      if last.ToolReturned? {
        assert AddResult(EMPTY_TURN, last.tool, last.output) == EMPTY_TURN;
      }
    }
  }

  /** Restoring a turn in which the assistant said or did something gives one grouped message. */
  lemma TurnIsOneMessage(events: seq<Event>) returns (id: string)
    requires forall ev :: ev in events ==> WithinTurn(ev)
    requires exists ev :: ev in events && Speaks(ev)
    ensures MessagesOf(events) == [Grouped(id, RestoredAfter(events))]
  {
    TurnRestored(events);
    id := RunEvents(START, events).current.value.id;
  }
}
