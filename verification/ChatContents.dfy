/** What a restored and a streamed reply hold, told from the events alone: text, calls, outputs and their order. */
module ChatContents {
  import opened Wrappers
  import opened ChatMessages
  import opened ChatHistory
  import opened ChatLive
  import opened ThrottledReply

  // ----- Which call a result closes

  /** A result goes to the open call of its tool with no open one after it; if none is open, it goes nowhere. */
  lemma {:induction false} ResultClosesLatest(calls: seq<ToolCall>, tool: string, output: string) returns (i: nat)
    ensures if exists j :: 0 <= j < |calls| && calls[j].tool == tool && calls[j].output == None
            then && i < |calls| && calls[i].tool == tool && calls[i].output == None
                 && (forall j :: i < j < |calls| && calls[j].tool == tool ==> calls[j].output != None)
                 && CloseLatest(calls, tool, output) == calls[i := ToolCall(tool, calls[i].input, Some(output))]
            else CloseLatest(calls, tool, output) == calls
  {
    i := 0;
    if calls != [] {
      var front, last := calls[..|calls| - 1], calls[|calls| - 1];
      assert calls == front + [last];
      if IsOpen(last, tool) {
        i := |front|;
      } else {
        i := ResultClosesLatest(front, tool, output);
      }
    }
  }

  // ----- A restored turn

  datatype Request = Request(tool: string, input: string)

  /** The texts of a turn's events, joined. */
  function Texts(events: seq<Event>): string {
    if events == [] then ""
    else (if events[0].AssistantText? then events[0].content else "") + Texts(events[1..])
  }

  function Asked(events: seq<Event>): seq<Request> {
    if events == [] then []
    else (if events[0].ToolCalled? then [Request(events[0].tool, events[0].input)] else []) + Asked(events[1..])
  }

  function RequestsOf(calls: seq<ToolCall>): (r: seq<Request>)
    ensures |r| == |calls| && forall i :: 0 <= i < |calls| ==> r[i] == Request(calls[i].tool, calls[i].input)
  {
    seq(|calls|, i requires 0 <= i < |calls| => Request(calls[i].tool, calls[i].input))
  }

  lemma {:induction false} OneMoreEvent(events: seq<Event>, ev: Event)
    ensures Texts(events + [ev]) == Texts(events) + (if ev.AssistantText? then ev.content else "")
    ensures Asked(events + [ev]) == Asked(events) + (if ev.ToolCalled? then [Request(ev.tool, ev.input)] else [])
  {
    if events == [] {
      assert [] + [ev] == [ev] && [ev][1..] == [];
    } else {
      assert (events + [ev])[1..] == events[1..] + [ev];
      OneMoreEvent(events[1..], ev);
    }
  }

  lemma ClosingKeepsRequests(calls: seq<ToolCall>, tool: string, output: string)
    ensures RequestsOf(CloseLatest(calls, tool, output)) == RequestsOf(calls)
  {
    var i := ResultClosesLatest(calls, tool, output);
  }

  /** A restored turn has all the text of its events, and one call for each call event, in order. */
  lemma {:induction false} RestoredTurnHolds(events: seq<Event>)
    ensures RestoredAfter(events).content == Texts(events)
    ensures RequestsOf(RestoredAfter(events).calls) == Asked(events)
  {
    if events != [] {
      var front, last := events[..|events| - 1], events[|events| - 1];
      assert events == front + [last];
      RestoredTurnHolds(front);
      OneMoreEvent(front, last);
      if last.ToolReturned? {
        ClosingKeepsRequests(RestoredAfter(front).calls, last.tool, last.output);
      }
    }
  }

  // ----- Where a call stands among the text

  /** The i-th segment is this call, with this text and this many calls before it. */
  ghost predicate StandsAt(segments: seq<Segment>, i: nat, request: Request, text: string, earlier: nat) {
    && i < |segments| && segments[i].Call?
    && Request(segments[i].toolCall.tool, segments[i].toolCall.input) == request
    && TextOf(segments[..i]) == text && |CallsOf(segments[..i])| == earlier
  }

  lemma {:induction false} ClosingKeepsPrefix(segments: seq<Segment>, i: nat, tool: string, output: string)
    requires i <= |segments|
    ensures TextOf(CloseLatestSegment(segments, tool, output)[..i]) == TextOf(segments[..i])
    ensures |CallsOf(CloseLatestSegment(segments, tool, output)[..i])| == |CallsOf(segments[..i])|
    decreases |segments|
  {
    var closed := CloseLatestSegment(segments, tool, output);
    if i == |segments| {
      assert closed[..i] == closed && segments[..i] == segments;
      CloseLatestCommutes(segments, tool, output);
    } else {
      var front := segments[..|segments| - 1];
      assert segments[..i] == front[..i];
      if IsOpenSegment(segments[|segments| - 1], tool) {
        assert closed[..i] == front[..i];
      } else {
        assert closed[..i] == CloseLatestSegment(front, tool, output)[..i];
        ClosingKeepsPrefix(front, i, tool, output);
      }
    }
  }

  lemma {:induction false} ClosingKeepsCall(segments: seq<Segment>, i: nat, tool: string, output: string)
    requires i < |segments| && segments[i].Call?
    ensures var closed := CloseLatestSegment(segments, tool, output)[i];
            closed.Call? && closed.toolCall.tool == segments[i].toolCall.tool
            && closed.toolCall.input == segments[i].toolCall.input
    decreases |segments|
  {
    if i < |segments| - 1 {
      ClosingKeepsCall(segments[..|segments| - 1], i, tool, output);
    }
  }

  lemma StaysThroughEvent(t: Turn, ev: Event, i: nat, request: Request, text: string, earlier: nat)
    requires StandsAt(t.segments, i, request, text, earlier)
    ensures StandsAt(OnTurn(t, ev).segments, i, request, text, earlier)
  {
    var segments := OnTurn(t, ev).segments;
    if ev.ToolReturned? && OpenCount(t.calls, ev.tool) > 0 {
      ClosingKeepsPrefix(t.segments, i, ev.tool, ev.output);
      ClosingKeepsCall(t.segments, i, ev.tool, ev.output);
    } else {
      assert segments[i] == t.segments[i] && segments[..i] == t.segments[..i];
    }
  }

  /** Every call stands after all the text and all the calls that came before it. */
  lemma {:induction false} CallStandsInPlace(events: seq<Event>, n: nat) returns (i: nat)
    requires n < |events| && events[n].ToolCalled?
    ensures StandsAt(RestoredAfter(events).segments, i, Request(events[n].tool, events[n].input), Texts(events[..n]),
                     |Asked(events[..n])|)
    decreases |events|
  {
    var front, last := events[..|events| - 1], events[|events| - 1];
    var before := RestoredAfter(front);
    if n < |front| {
      i := CallStandsInPlace(front, n);
      assert front[..n] == events[..n];
      StaysThroughEvent(before, last, i, Request(events[n].tool, events[n].input), Texts(events[..n]), |Asked(events[..n])|);
    } else {
      i := |before.segments|;
      RestoredIsCoherent(front);
      RestoredTurnHolds(front);
      assert RestoredAfter(events).segments[..i] == before.segments;
    }
  }

  // ----- Which message a turn becomes

  lemma {:induction false} SpokenBy(events: seq<Event>, k: nat)
    requires forall ev :: ev in events ==> WithinTurn(ev)
    requires k < |events| && Speaks(events[k]) && forall j :: 0 <= j < k ==> !Speaks(events[j])
    ensures RunEvents(START, events).current.Some? && RunEvents(START, events).current.value.id == events[k].id
    decreases |events|
  {
    var front, last := events[..|events| - 1], events[|events| - 1];
    assert events == front + [last] && last in events;
    RunEventsJoins(START, front, [last]);
    assert RunEvents(START, events) == OnEvent(RunEvents(START, front), last);
    if k < |front| {
      assert forall ev :: ev in front ==> ev in events;
      SpokenBy(front, k);
    } else {
      TurnRestored(front);
      if RunEvents(START, front).current.Some? {
        SilentTurn(front);
      }
    }
  }

  lemma {:induction false} SilentTurn(events: seq<Event>)
    requires forall ev :: ev in events ==> WithinTurn(ev) && !Speaks(ev)
    ensures RunEvents(START, events) == START
  {
    if events != [] {
      var front, last := events[..|events| - 1], events[|events| - 1];
      assert events == front + [last] && last in events;
      RunEventsJoins(START, front, [last]);
      SilentTurn(front);
    }
  }

  /** The message of a turn carries the identifier of its first text or call; without one the turn leaves no message. */
  lemma TurnMessage(events: seq<Event>, k: nat)
    requires forall ev :: ev in events ==> WithinTurn(ev)
    requires k <= |events| && forall j :: 0 <= j < k ==> !Speaks(events[j])
    requires k < |events| ==> Speaks(events[k])
    ensures MessagesOf(events) == if k < |events| then [Grouped(events[k].id, RestoredAfter(events))] else []
  {
    if k < |events| {
      SpokenBy(events, k);
      TurnRestored(events);
    } else {
      SilentTurn(events);
    }
  }

  // ----- A streamed reply

  function TextIn(ev: LiveEvent): string {
    if ev.Delta? then ev.content else ""
  }

  function RequestIn(ev: LiveEvent): seq<Request> {
    if ev.CallStarted? then [Request(ev.tool, ev.input)] else []
  }

  function Deltas(stream: seq<LiveEvent>): string {
    if stream == [] then "" else TextIn(stream[0]) + Deltas(stream[1..])
  }

  function Started(stream: seq<LiveEvent>): seq<Request> {
    if stream == [] then [] else RequestIn(stream[0]) + Started(stream[1..])
  }

  lemma {:induction false} OneMoreDelta(stream: seq<LiveEvent>, ev: LiveEvent)
    ensures Deltas(stream + [ev]) == Deltas(stream) + TextIn(ev)
  {
    if stream == [] {
      assert [] + [ev] == [ev] && [ev][1..] == [];
    } else {
      assert (stream + [ev])[1..] == stream[1..] + [ev];
      OneMoreDelta(stream[1..], ev);
      Regroup(TextIn(stream[0]), Deltas(stream[1..]), TextIn(ev));
    }
  }

  lemma {:induction false} OneMoreStarted(stream: seq<LiveEvent>, ev: LiveEvent)
    ensures Started(stream + [ev]) == Started(stream) + RequestIn(ev)
  {
    if stream == [] {
      assert [] + [ev] == [ev] && [ev][1..] == [];
    } else {
      assert (stream + [ev])[1..] == stream[1..] + [ev];
      OneMoreStarted(stream[1..], ev);
      Regroup(RequestIn(stream[0]), Started(stream[1..]), RequestIn(ev));
    }
  }

  /** A message sent whole, which takes the place of all text and segments before it; an empty one changes nothing. */
  predicate Replaces(ev: LiveEvent) {
    ev.Whole? && ev.content != ""
  }

  lemma {:induction false} ClosingAllKeeps(segments: seq<Segment>, tool: string, output: string)
    ensures TextOf(CloseAllOpen(segments, tool, output)) == TextOf(segments)
    ensures RequestsOf(CallsOf(CloseAllOpen(segments, tool, output))) == RequestsOf(CallsOf(segments))
  {
    if segments != [] {
      var front, last := segments[..|segments| - 1], segments[|segments| - 1];
      assert segments == front + [last];
      ClosingAllKeeps(front, tool, output);
      CallsSnoc(front, last);
      CallsSnoc(CloseAllOpen(front, tool, output), if IsOpenSegment(last, tool) then CloseSegment(last, output) else last);
    }
  }

  /** The reply tells its text twice alike, and holds what was streamed since the text was last replaced. */
  ghost predicate Holds(t: Turn, text: string, all: seq<Request>, since: seq<Request>) {
    && t.content == text && TextOf(t.segments) == text
    && RequestsOf(t.calls) == all && RequestsOf(CallsOf(t.segments)) == since
  }

  lemma WholeHolds(full: string)
    ensures TextOf([Text(full)]) == full && RequestsOf(CallsOf([Text(full)])) == []
  {
    CallsSnoc([], Text(full));
    assert [] + [Text(full)] == [Text(full)];
  }

  lemma TextHolds(st: LiveState, delta: string, text: string, all: seq<Request>, since: seq<Request>)
    requires Holds(st.turn, text, all, since) && (st.lastIsText <==> EndsWithText(st.turn.segments))
    ensures Holds(LiveText(st, delta).turn, text + delta, all, since)
  {
    LiveTextAppends(st, delta);
    AppendTextContent(st.turn.segments, delta);
  }

  lemma CallHolds(t: Turn, tool: string, input: string, text: string, all: seq<Request>, since: seq<Request>)
    requires Holds(t, text, all, since)
    ensures Holds(AddCall(t, tool, input), text, all + [Request(tool, input)], since + [Request(tool, input)])
  {
    CallsSnoc(t.segments, Call(ToolCall(tool, input, None)));
  }

  lemma ResultHolds(t: Turn, tool: string, output: string, text: string, all: seq<Request>, since: seq<Request>)
    requires Holds(t, text, all, since)
    ensures Holds(LiveResult(t, tool, output), text, all, since)
  {
    ClosingAllKeeps(t.segments, tool, output);
  }

  lemma StillHolds(st: LiveState, ev: LiveEvent, text: string, all: seq<Request>, since: seq<Request>)
    requires Holds(st.turn, text, all, since) && (st.lastIsText <==> EndsWithText(st.turn.segments))
    ensures if Replaces(ev) then Holds(OnLive(st, ev).turn, ev.content, all, [])
            else Holds(OnLive(st, ev).turn, text + TextIn(ev), all + RequestIn(ev), since + RequestIn(ev))
  {
    assert text + "" == text && all + [] == all && since + [] == since;
    match ev
    case Delta(content) => TextHolds(st, content, text, all, since);
    case Whole(full) => WholeHolds(full);
    case CallStarted(tool, input) => CallHolds(st.turn, tool, input, text, all, since);
    case CallReturned(tool, output) => ResultHolds(st.turn, tool, output, text, all, since);
    case _ =>
  }

  /** From a reply that holds this, through events that do not replace it. */
  lemma {:induction false} SinceHolds(from: LiveState, since: seq<LiveEvent>, text: string, all: seq<Request>, seen: seq<Request>)
    requires Holds(from.turn, text, all, seen) && (from.lastIsText <==> EndsWithText(from.turn.segments))
    requires forall ev :: ev in since ==> !Replaces(ev)
    ensures StreamState(from, since).lastIsText <==> EndsWithText(StreamState(from, since).turn.segments)
    ensures Holds(StreamState(from, since).turn, text + Deltas(since), all + Started(since), seen + Started(since))
  {
    if since == [] {
      assert text + "" == text && all + [] == all && seen + [] == seen;
    } else {
      var front, last := since[..|since| - 1], since[|since| - 1];
      assert since == front + [last] && last in since;
      SinceHolds(from, front, text, all, seen);
      var st := StreamState(from, front);
      StillHolds(st, last, text + Deltas(front), all + Started(front), seen + Started(front));
      FlagTracksText(st, last);
      OneMoreDelta(front, last);
      OneMoreStarted(front, last);
      Regroup(text, Deltas(front), TextIn(last));
      Regroup(all, Started(front), RequestIn(last));
      Regroup(seen, Started(front), RequestIn(last));
    }
  }

  lemma CallsNext(st: LiveState, ev: LiveEvent)
    ensures RequestsOf(OnLive(st, ev).turn.calls) == RequestsOf(st.turn.calls) + RequestIn(ev)
  {}

  lemma {:induction false} AllStarted(stream: seq<LiveEvent>)
    ensures RequestsOf(StreamState(LIVE_START, stream).turn.calls) == Started(stream)
  {
    if stream != [] {
      var front, last := stream[..|stream| - 1], stream[|stream| - 1];
      assert stream == front + [last];
      AllStarted(front);
      OneMoreStarted(front, last);
      CallsNext(StreamState(LIVE_START, front), last);
    }
  }

  /** A reply that was never replaced holds all deltas and all calls that were streamed. */
  lemma StreamedReplyHolds(stream: seq<LiveEvent>)
    requires forall ev :: ev in stream ==> !Replaces(ev)
    ensures Holds(StreamState(LIVE_START, stream).turn, Deltas(stream), Started(stream), Started(stream))
  {
    SinceHolds(LIVE_START, stream, "", [], []);
    assert "" + Deltas(stream) == Deltas(stream) && [] + Started(stream) == Started(stream);
  }

  /** A replaced reply holds that text and the deltas since, and all its calls; its segments show only the calls since. */
  lemma ReplacedReplyHolds(before: seq<LiveEvent>, full: string, since: seq<LiveEvent>)
    requires full != "" && forall ev :: ev in since ==> !Replaces(ev)
    ensures Holds(StreamState(LIVE_START, before + [Whole(full)] + since).turn, full + Deltas(since),
                  Started(before) + Started(since), Started(since))
  {
    var from := StreamState(LIVE_START, before + [Whole(full)]);
    StreamStateSnoc(LIVE_START, before, Whole(full));
    AllStarted(before);
    WholeHolds(full);
    SinceHolds(from, since, full, Started(before), []);
    StreamStateJoins(LIVE_START, before + [Whole(full)], since);
    assert [] + Started(since) == Started(since);
  }

  // ----- What is shown at once

  /** Calls, results, the end and errors are on screen as soon as they are taken in; text may wait for the timer. */
  lemma EventShownAtOnce(views: seq<View>, id: string, stream: seq<LiveEvent>, ops: seq<Op>)
    requires forall v :: v in views ==> v.id != id
    requires stream != [] && ops != [] && WithoutTimers(ops) == OpsOf(stream) && !ops[|ops| - 1].TimerFires?
    ensures var d, last := RunOps(Display(views + [FreshReply(id)], None, false), id, ops), stream[|stream| - 1];
            if last.Delta? || last.Whole? then d.pending.Some? && d.timer
            else d == Display(views + [ReplyAfter(id, stream)], None, false)
  {
    var front, last := stream[..|stream| - 1], stream[|stream| - 1];
    var op := OpFor(StreamState(LIVE_START, stream), last);
    SameLast(WithoutTimers(ops[..|ops| - 1]), ops[|ops| - 1], OpsOf(front), op);
    if op.UpdateNow? {
      TimersAddNoPatch(ops);
      ImmediateUpdateShowsAll(views + [FreshReply(id)], id, ops);
      ImmediateReply(views, id, stream);
    }
  }

  lemma SameLast<T>(a: seq<T>, x: T, b: seq<T>, y: T)
    requires a + [x] == b + [y]
    ensures x == y
  {
    assert (a + [x])[|a + [x]| - 1] == x && (b + [y])[|b + [y]| - 1] == y;
  }
}
