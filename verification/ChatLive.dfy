/** The live reducer of a streamed reply, and when it builds what restoring the same events builds. */
module ChatLive {
  import opened Wrappers
  import opened ChatMessages
  import opened ChatHistory

  datatype LiveEvent =
    | Delta(content: string)
    | Whole(content: string)
    | CallStarted(tool: string, input: string)
    | CallReturned(tool: string, output: string)
    | Done
    | Failed(content: string)

  datatype LiveState = LiveState(turn: Turn, lastIsText: bool)

  const LIVE_START := LiveState(EMPTY_TURN, false)

  /** Only the last call can receive a result, and an earlier output of it is overwritten. */
  function CloseLast(calls: seq<ToolCall>, tool: string, output: string): seq<ToolCall> {
    if calls != [] && calls[|calls| - 1].tool == tool
    then calls[..|calls| - 1] + [Close(calls[|calls| - 1], output)]
    else calls
  }

  /** Every open segment of the tool receives it. */
  function CloseAllOpen(segments: seq<Segment>, tool: string, output: string): seq<Segment> {
    if segments == [] then []
    else
      var last := segments[|segments| - 1];
      CloseAllOpen(segments[..|segments| - 1], tool, output)
        + [if IsOpenSegment(last, tool) then CloseSegment(last, output) else last]
  }

  function LiveResult(t: Turn, tool: string, output: string): Turn {
    Turn(t.content, CloseLast(t.calls, tool, output), CloseAllOpen(t.segments, tool, output))
  }

  function LiveText(st: LiveState, delta: string): LiveState {
    var segs := st.turn.segments;
    var content := st.turn.content + delta;
    if st.lastIsText && |segs| > 0 then
      if segs[|segs| - 1].Text?
      then st.(turn := Turn(content, st.turn.calls, segs[..|segs| - 1] + [Text(segs[|segs| - 1].content + delta)]))
      else st.(turn := Turn(content, st.turn.calls, segs))
    else LiveState(Turn(content, st.turn.calls, segs + [Text(delta)]), true)
  }

  function OnLive(st: LiveState, ev: LiveEvent): LiveState {
    match ev
    case Delta(content) => LiveText(st, content)
    case Whole(full) => if full == "" then st else LiveState(Turn(full, st.turn.calls, [Text(full)]), true)
    case CallStarted(tool, input) => LiveState(AddCall(st.turn, tool, input), false)
    case CallReturned(tool, output) => st.(turn := LiveResult(st.turn, tool, output))
    case Done => st
    case Failed(_) => st
  }

  // ----- One turn, live and restored

  /** The stream event that reports a stored event of an assistant turn. */
  function Streamed(ev: Event): Option<LiveEvent> {
    match ev
    case AssistantText(_, content) => Some(Delta(content))
    case ToolCalled(_, tool, input) => Some(CallStarted(tool, input))
    case ToolReturned(_, tool, output) => Some(CallReturned(tool, output))
    case _ => None
  }

  predicate WithinTurn(ev: Event) {
    !ev.UserMessage? && !ev.SystemNote?
  }

  /** Events without a stream counterpart leave the live reply alone. */
  function LiveNext(st: LiveState, ev: Event): LiveState {
    match Streamed(ev)
    case None => st
    case Some(streamed) => OnLive(st, streamed)
  }

  function LiveAfter(events: seq<Event>): LiveState {
    if events == [] then LIVE_START else LiveNext(LiveAfter(events[..|events| - 1]), events[|events| - 1])
  }

  function RestoredAfter(events: seq<Event>): Turn {
    if events == [] then EMPTY_TURN
    else OnTurn(RestoredAfter(events[..|events| - 1]), events[|events| - 1])
  }

  /** What a result must find for both reducers to do the same with it. */
  predicate ResultFits(calls: seq<ToolCall>, tool: string, output: string) {
    var named := calls != [] && calls[|calls| - 1].tool == tool;
    if OpenCount(calls, tool) == 0
    then !named || calls[|calls| - 1].output == Some(output)
    else OpenCount(calls, tool) == 1 && named && calls[|calls| - 1].output == None
  }

  predicate Fits(calls: seq<ToolCall>, ev: Event) {
    ev.ToolReturned? ==> ResultFits(calls, ev.tool, ev.output)
  }

  // ----- One result

  lemma {:induction false} OpenSegmentsClosed(segments: seq<Segment>, tool: string, output: string)
    ensures OpenCount(CallsOf(CloseAllOpen(segments, tool, output)), tool) == 0
    ensures OpenCount(CallsOf(segments), tool) == 0 ==> CloseAllOpen(segments, tool, output) == segments
    ensures OpenCount(CallsOf(segments), tool) == 1 ==>
              CloseAllOpen(segments, tool, output) == CloseLatestSegment(segments, tool, output)
  {
    if segments != [] {
      var front, last := segments[..|segments| - 1], segments[|segments| - 1];
      assert segments == front + [last];
      var last' := if IsOpenSegment(last, tool) then CloseSegment(last, output) else last;
      CallsSnoc(front, last);
      CallsSnoc(CloseAllOpen(front, tool, output), last');
      if last.Call? {
        CloseLatestSnoc(CallsOf(front), last.toolCall, tool, output);
        CloseLatestSnoc(CallsOf(CloseAllOpen(front, tool, output)), last'.toolCall, tool, output);
      }
      OpenSegmentsClosed(front, tool, output);
    }
  }

  lemma {:induction false} LatestClosedOnce(calls: seq<ToolCall>, tool: string, output: string)
    ensures OpenCount(CloseLatest(calls, tool, output), tool)
         == if OpenCount(calls, tool) == 0 then 0 else OpenCount(calls, tool) - 1
  {
    if calls != [] {
      var front, last := calls[..|calls| - 1], calls[|calls| - 1];
      assert calls == front + [last];
      CloseLatestSnoc(front, last, tool, output);
      if IsOpen(last, tool) {
        CloseLatestSnoc(front, Close(last, output), tool, output);
      } else {
        LatestClosedOnce(front, tool, output);
        CloseLatestSnoc(CloseLatest(front, tool, output), last, tool, output);
      }
    }
  }

  /** The segments agree exactly when at most one call of the tool is open. */
  lemma SegmentsAgreeIff(segments: seq<Segment>, tool: string, output: string)
    ensures CloseAllOpen(segments, tool, output) == CloseLatestSegment(segments, tool, output)
       <==> OpenCount(CallsOf(segments), tool) <= 1
  {
    OpenSegmentsClosed(segments, tool, output);
    CloseLatestCommutes(segments, tool, output);
    LatestClosedOnce(CallsOf(segments), tool, output);
    if OpenCount(CallsOf(segments), tool) == 0 {
      NothingToClose(CallsOf(segments), tool, output);
      NoSegmentToClose(segments, tool, output);
    }
  }

  lemma {:induction false} NoSegmentToClose(segments: seq<Segment>, tool: string, output: string)
    requires OpenCount(CallsOf(segments), tool) == 0
    ensures CloseLatestSegment(segments, tool, output) == segments
  {
    if segments != [] {
      var front, last := segments[..|segments| - 1], segments[|segments| - 1];
      assert segments == front + [last];
      CallsSnoc(front, last);
      if last.Call? {
        CloseLatestSnoc(CallsOf(front), last.toolCall, tool, output);
      }
      NoSegmentToClose(front, tool, output);
    }
  }

  /** The call lists agree exactly when the result goes to the last call in both, or to none. */
  lemma CallsAgreeIff(calls: seq<ToolCall>, tool: string, output: string)
    ensures CloseLast(calls, tool, output) == CloseLatest(calls, tool, output)
       <==> || calls == []
            || IsOpen(calls[|calls| - 1], tool)
            || (OpenCount(calls, tool) == 0
                && (calls[|calls| - 1].tool == tool ==> calls[|calls| - 1].output == Some(output)))
  {
    if calls != [] {
      var front, last := calls[..|calls| - 1], calls[|calls| - 1];
      assert calls == front + [last];
      CloseLatestSnoc(front, last, tool, output);
      LatestClosedOnce(front, tool, output);
      if OpenCount(front, tool) == 0 {
        NothingToClose(front, tool, output);
      }
      if !IsOpen(last, tool) {
        assert CloseLatest(calls, tool, output)[..|front|] == CloseLatest(front, tool, output);
        assert CloseLast(calls, tool, output)[..|front|] == front;
      }
    }
  }

  /** On a coherent turn, one result is handled alike exactly when it fits. */
  lemma ResultHandledAlikeIff(t: Turn, tool: string, output: string)
    requires Coherent(t)
    ensures LiveResult(t, tool, output) == AddResult(t, tool, output) <==> ResultFits(t.calls, tool, output)
  {
    SegmentsAgreeIff(t.segments, tool, output);
    CallsAgreeIff(t.calls, tool, output);
    OpenSegmentsClosed(t.segments, tool, output);
    if OpenCount(t.calls, tool) > 0 && t.calls != [] {
      var front, last := t.calls[..|t.calls| - 1], t.calls[|t.calls| - 1];
      assert t.calls == front + [last];
    }
  }

  // ----- Whole turns

  lemma {:induction false} RestoredIsCoherent(events: seq<Event>)
    ensures Coherent(RestoredAfter(events))
  {
    if events != [] {
      RestoredIsCoherent(events[..|events| - 1]);
      TurnStaysCoherent(RestoredAfter(events[..|events| - 1]), events[|events| - 1]);
    }
  }

  lemma {:induction false} CloseAllKeepsKinds(segments: seq<Segment>, tool: string, output: string)
    ensures |CloseAllOpen(segments, tool, output)| == |segments|
    ensures EndsWithText(CloseAllOpen(segments, tool, output)) <==> EndsWithText(segments)
  {
    if segments != [] {
      CloseAllKeepsKinds(segments[..|segments| - 1], tool, output);
    }
  }

  /** The flag the reducer keeps says what it is named after, at every point of every stream. */
  lemma FlagTracksText(st: LiveState, ev: LiveEvent)
    requires st.lastIsText <==> EndsWithText(st.turn.segments)
    ensures OnLive(st, ev).lastIsText <==> EndsWithText(OnLive(st, ev).turn.segments)
  {
    if ev.CallReturned? {
      CloseAllKeepsKinds(st.turn.segments, ev.tool, ev.output);
    }
  }

  /** With a true flag, the reducer appends text as the mapper does. */
  lemma LiveTextAppends(st: LiveState, delta: string)
    requires st.lastIsText <==> EndsWithText(st.turn.segments)
    ensures LiveText(st, delta) == LiveState(AddText(st.turn, delta), true)
  {}

  lemma {:induction false} LiveFlag(events: seq<Event>)
    ensures LiveAfter(events).lastIsText <==> EndsWithText(LiveAfter(events).turn.segments)
  {
    if events != [] {
      LiveFlag(events[..|events| - 1]);
      var ev := Streamed(events[|events| - 1]);
      if ev.Some? {
        FlagTracksText(LiveAfter(events[..|events| - 1]), ev.value);
      }
    }
  }

  // ----- Whole streams

  function StreamState(from: LiveState, stream: seq<LiveEvent>): LiveState {
    if stream == [] then from else OnLive(StreamState(from, stream[..|stream| - 1]), stream[|stream| - 1])
  }

  lemma StreamStateSnoc(from: LiveState, stream: seq<LiveEvent>, ev: LiveEvent)
    ensures StreamState(from, stream + [ev]) == OnLive(StreamState(from, stream), ev)
  {
    assert (stream + [ev])[..|stream|] == stream;
  }

  lemma {:induction false} StreamStateJoins(from: LiveState, a: seq<LiveEvent>, b: seq<LiveEvent>)
    ensures StreamState(from, a + b) == StreamState(StreamState(from, a), b)
    decreases |b|
  {
    if b == [] {
      assert a + b == a;
    } else {
      var front, last := b[..|b| - 1], b[|b| - 1];
      assert a + b == (a + front) + [last];
      StreamStateJoins(from, a, front);
      StreamStateSnoc(from, a + front, last);
    }
  }

  lemma {:induction false} StreamFlag(stream: seq<LiveEvent>)
    ensures StreamState(LIVE_START, stream).lastIsText <==> EndsWithText(StreamState(LIVE_START, stream).turn.segments)
  {
    if stream != [] {
      StreamFlag(stream[..|stream| - 1]);
      FlagTracksText(StreamState(LIVE_START, stream[..|stream| - 1]), stream[|stream| - 1]);
    }
  }

  lemma TwoDeltas(st: LiveState, a: string, b: string)
    requires st.lastIsText <==> EndsWithText(st.turn.segments)
    ensures OnLive(OnLive(st, Delta(a)), Delta(b)) == OnLive(st, Delta(a + b))
  {
    LiveTextAppends(st, a);
    FlagTracksText(st, Delta(a));
    LiveTextAppends(OnLive(st, Delta(a)), b);
    LiveTextAppends(st, a + b);
    AddTextTwice(st.turn, a, b);
  }

  /** Cutting a streamed text delta in two, anywhere in any stream, does not show. */
  lemma SplittingDeltaIsInvisible(before: seq<LiveEvent>, a: string, b: string, after: seq<LiveEvent>)
    ensures StreamState(LIVE_START, before + [Delta(a), Delta(b)] + after)
         == StreamState(LIVE_START, before + [Delta(a + b)] + after)
  {
    var st := StreamState(LIVE_START, before);
    StreamFlag(before);
    TwoDeltas(st, a, b);
    assert before + [Delta(a), Delta(b)] == (before + [Delta(a)]) + [Delta(b)];
    StreamStateSnoc(LIVE_START, before, Delta(a));
    StreamStateSnoc(LIVE_START, before + [Delta(a)], Delta(b));
    StreamStateSnoc(LIVE_START, before, Delta(a + b));
    StreamStateJoins(LIVE_START, before + [Delta(a), Delta(b)], after);
    StreamStateJoins(LIVE_START, before + [Delta(a + b)], after);
  }

  /** The stream that reports the events of a turn. */
  function StreamOf(events: seq<Event>): seq<LiveEvent> {
    if events == [] then []
    else
      var front, ev := StreamOf(events[..|events| - 1]), Streamed(events[|events| - 1]);
      if ev.None? then front else front + [ev.value]
  }

  lemma {:induction false} StreamOfTurn(events: seq<Event>)
    ensures StreamState(LIVE_START, StreamOf(events)) == LiveAfter(events)
  {
    if events != [] {
      var front, ev := events[..|events| - 1], Streamed(events[|events| - 1]);
      StreamOfTurn(front);
      if ev.Some? {
        StreamStateSnoc(LIVE_START, StreamOf(front), ev.value);
      }
    }
  }

  // ----- Live and restored at every moment

  ghost predicate AgreesAt(events: seq<Event>, n: nat)
    requires n <= |events|
  {
    LiveAfter(events[..n]).turn == RestoredAfter(events[..n])
  }

  ghost predicate FitsAt(events: seq<Event>, n: nat)
    requires n < |events|
  {
    Fits(RestoredAfter(events[..n]).calls, events[n])
  }

  lemma StepAgreesIff(events: seq<Event>, n: nat)
    requires n < |events| && WithinTurn(events[n]) && AgreesAt(events, n)
    ensures AgreesAt(events, n + 1) <==> FitsAt(events, n)
  {
    assert events[..n + 1][..n] == events[..n];
    LiveFlag(events[..n]);
    RestoredIsCoherent(events[..n]);
    if events[n].ToolReturned? {
      var t := RestoredAfter(events[..n]);
      ResultHandledAlikeIff(t, events[n].tool, events[n].output);
    }
  }

  /**
   The reply shown while streaming and the reply restored from its events are the same at every moment
   exactly when every tool result fits the calls before it.
   */
  lemma LiveAgreesThroughoutIff(events: seq<Event>)
    requires forall ev :: ev in events ==> WithinTurn(ev)
    ensures (forall n :: 0 <= n <= |events| ==> AgreesAt(events, n))
       <==> (forall n :: 0 <= n < |events| ==> FitsAt(events, n))
  {
    if forall n :: 0 <= n <= |events| ==> AgreesAt(events, n) {
      forall n | 0 <= n < |events| ensures FitsAt(events, n) {
        StepAgreesIff(events, n);
      }
    }
    if forall n :: 0 <= n < |events| ==> FitsAt(events, n) {
      forall n | 0 <= n <= |events| ensures AgreesAt(events, n) {
        FittingAgrees(events, n);
      }
    }
  }

  lemma {:induction false} FittingAgrees(events: seq<Event>, n: nat)
    requires n <= |events|
    requires forall ev :: ev in events ==> WithinTurn(ev)
    requires forall k :: 0 <= k < n ==> FitsAt(events, k)
    ensures AgreesAt(events, n)
  {
    if n > 0 {
      FittingAgrees(events, n - 1);
      StepAgreesIff(events, n - 1);
    } else {
      assert events[..0] == [];
    }
  }

  lemma AfterOneMore(events: seq<Event>, ev: Event)
    ensures RestoredAfter(events + [ev]) == OnTurn(RestoredAfter(events), ev)
    ensures LiveAfter(events + [ev]) == LiveNext(LiveAfter(events), ev)
  {
    assert (events + [ev])[..|events|] == events;
  }

  /** Naming the most recent call, still open, is not enough: an earlier open call of the tool gets the output too. */
  lemma EarlierOpenCallDiverges(t: Turn, tool: string, output: string)
    requires Coherent(t) && t.calls != [] && IsOpen(t.calls[|t.calls| - 1], tool)
    requires OpenCount(t.calls[..|t.calls| - 1], tool) > 0
    ensures LiveResult(t, tool, output) != AddResult(t, tool, output)
  {
    ResultHandledAlikeIff(t, tool, output);
  }

  lemma TwoCalls(a: Event, b: Event)
    requires a.ToolCalled? && b.ToolCalled?
    ensures RestoredAfter([a] + [b]).calls == [ToolCall(a.tool, a.input, None), ToolCall(b.tool, b.input, None)]
    ensures LiveAfter([a] + [b]).turn == RestoredAfter([a] + [b])
  {
    AfterOneMore([], a);
    assert [] + [a] == [a];
    AfterOneMore([a], b);
  }

  lemma OneOpen(call: ToolCall)
    requires call.output == None
    ensures OpenCount([call], call.tool) == 1
  {
    CloseLatestSnoc([], call, call.tool, "");
    assert [] + [call] == [call];
  }

  /** Two calls of one tool, then the result of the second. */
  lemma TwoOpenCallsDiverge(a: Event, b: Event, result: Event)
    requires a.ToolCalled? && b.ToolCalled? && result.ToolReturned? && a.tool == b.tool == result.tool
    ensures LiveAfter([a] + [b]).turn == RestoredAfter([a] + [b])
    ensures LiveAfter([a] + [b] + [result]).turn != RestoredAfter([a] + [b] + [result])
  {
    var t := RestoredAfter([a] + [b]);
    TwoCalls(a, b);
    AfterOneMore([a] + [b], result);
    RestoredIsCoherent([a] + [b]);
    OneOpen(ToolCall(a.tool, a.input, None));
    assert t.calls[..1] == [ToolCall(a.tool, a.input, None)];
    EarlierOpenCallDiverges(t, result.tool, result.output);
  }
}
