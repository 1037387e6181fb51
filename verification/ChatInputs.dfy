/**
 A stream and the stored events word a tool call's input differently. Neither reducer looks at it, so the
 comparison of live and restored replies holds with inputs left out.
 */
module ChatInputs {
  import opened Wrappers
  import opened ChatMessages
  import opened ChatHistory
  import opened ChatLive
  import opened ChatFinal

  function EraseCall(c: ToolCall): ToolCall {
    c.(input := "")
  }

  function EraseCalls(calls: seq<ToolCall>): (r: seq<ToolCall>)
    ensures |r| == |calls|
  {
    if calls == [] then [] else EraseCalls(calls[..|calls| - 1]) + [EraseCall(calls[|calls| - 1])]
  }

  function EraseSegment(s: Segment): Segment {
    if s.Call? then Call(EraseCall(s.toolCall)) else s
  }

  function EraseSegments(segments: seq<Segment>): (r: seq<Segment>)
    ensures |r| == |segments|
  {
    if segments == [] then [] else EraseSegments(segments[..|segments| - 1]) + [EraseSegment(segments[|segments| - 1])]
  }

  function EraseTurn(t: Turn): Turn {
    Turn(t.content, EraseCalls(t.calls), EraseSegments(t.segments))
  }

  function EraseEvent(ev: Event): Event {
    if ev.ToolCalled? then ev.(input := "") else ev
  }

  function EraseEvents(events: seq<Event>): (r: seq<Event>)
    ensures |r| == |events| && forall i :: 0 <= i < |events| ==> r[i] == EraseEvent(events[i])
  {
    seq(|events|, i requires 0 <= i < |events| => EraseEvent(events[i]))
  }

  lemma EraseCallsSnoc(front: seq<ToolCall>, last: ToolCall)
    ensures EraseCalls(front + [last]) == EraseCalls(front) + [EraseCall(last)]
  {
    assert (front + [last])[..|front|] == front;
  }

  lemma EraseSegmentsSnoc(front: seq<Segment>, last: Segment)
    ensures EraseSegments(front + [last]) == EraseSegments(front) + [EraseSegment(last)]
  {
    assert (front + [last])[..|front|] == front;
  }

  lemma {:induction false} EraseThenClose(calls: seq<ToolCall>, tool: string, output: string)
    ensures OpenCount(EraseCalls(calls), tool) == OpenCount(calls, tool)
    ensures CloseLatest(EraseCalls(calls), tool, output) == EraseCalls(CloseLatest(calls, tool, output))
    ensures CloseLast(EraseCalls(calls), tool, output) == EraseCalls(CloseLast(calls, tool, output))
  {
    if calls != [] {
      var front, last := calls[..|calls| - 1], calls[|calls| - 1];
      assert calls == front + [last];
      EraseThenClose(front, tool, output);
      CloseLatestSnoc(front, last, tool, output);
      CloseLatestSnoc(EraseCalls(front), EraseCall(last), tool, output);
      EraseCallsSnoc(front, Close(last, output));
      EraseCallsSnoc(CloseLatest(front, tool, output), last);
    }
  }

  lemma {:induction false} EraseThenCloseSegments(segments: seq<Segment>, tool: string, output: string)
    ensures CloseLatestSegment(EraseSegments(segments), tool, output) == EraseSegments(CloseLatestSegment(segments, tool, output))
    ensures CloseAllOpen(EraseSegments(segments), tool, output) == EraseSegments(CloseAllOpen(segments, tool, output))
  {
    if segments != [] {
      var front, last := segments[..|segments| - 1], segments[|segments| - 1];
      EraseThenCloseSegments(front, tool, output);
      if IsOpenSegment(last, tool) {
        EraseSegmentsSnoc(front, CloseSegment(last, output));
        EraseSegmentsSnoc(CloseAllOpen(front, tool, output), CloseSegment(last, output));
      } else {
        EraseSegmentsSnoc(CloseAllOpen(front, tool, output), last);
      }
      EraseSegmentsSnoc(CloseLatestSegment(front, tool, output), last);
    }
  }

  lemma EraseThenAppend(t: Turn, delta: string, tool: string, input: string)
    ensures AppendText(EraseSegments(t.segments), delta) == EraseSegments(AppendText(t.segments, delta))
    ensures EndsWithText(EraseSegments(t.segments)) <==> EndsWithText(t.segments)
    ensures AddCall(EraseTurn(t), tool, "") == EraseTurn(AddCall(t, tool, input))
  {
    var call := ToolCall(tool, input, None);
    EraseCallsSnoc(t.calls, call);
    EraseSegmentsSnoc(t.segments, Call(call));
    EraseSegmentsSnoc(t.segments, Text(delta));
    if EndsWithText(t.segments) {
      var front, last := t.segments[..|t.segments| - 1], t.segments[|t.segments| - 1];
      EraseSegmentsSnoc(front, Text(last.content + delta));
    }
  }

  lemma ErasedPrefix(events: seq<Event>, n: nat)
    requires n <= |events|
    ensures EraseEvents(events)[..n] == EraseEvents(events[..n])
  {}

  lemma ErasedSnoc(front: seq<Event>, ev: Event)
    ensures EraseEvents(front + [ev]) == EraseEvents(front) + [EraseEvent(ev)]
  {}

  lemma RestoredStepIgnoresInput(t: Turn, ev: Event)
    ensures EraseTurn(OnTurn(t, ev)) == OnTurn(EraseTurn(t), EraseEvent(ev))
  {
    match ev
    case AssistantText(_, content) => EraseThenAppend(t, content, "", "");
    case ToolCalled(_, tool, input) => EraseThenAppend(t, "", tool, input);
    case ToolReturned(_, tool, output) =>
      EraseThenClose(t.calls, tool, output);
      EraseThenCloseSegments(t.segments, tool, output);
    case _ =>
  }

  lemma {:induction false} RestoringIgnoresInputs(events: seq<Event>)
    ensures EraseTurn(RestoredAfter(events)) == RestoredAfter(EraseEvents(events))
  {
    if events != [] {
      var front, ev := events[..|events| - 1], events[|events| - 1];
      assert events == front + [ev];
      RestoringIgnoresInputs(front);
      RestoredStepIgnoresInput(RestoredAfter(front), ev);
      ErasedSnoc(front, ev);
      AfterOneMore(EraseEvents(front), EraseEvent(ev));
    }
  }

  function EraseState(st: LiveState): LiveState {
    LiveState(EraseTurn(st.turn), st.lastIsText)
  }

  lemma StreamedTextErases(st: LiveState, delta: string)
    requires st.lastIsText <==> EndsWithText(st.turn.segments)
    ensures EraseState(LiveText(st, delta)) == LiveText(EraseState(st), delta)
  {
    EraseThenAppend(st.turn, delta, "", "");
    LiveTextAppends(st, delta);
    LiveTextAppends(EraseState(st), delta);
  }

  lemma StreamedCallErases(t: Turn, tool: string, input: string)
    ensures EraseTurn(AddCall(t, tool, input)) == AddCall(EraseTurn(t), tool, "")
  {
    EraseThenAppend(t, "", tool, input);
  }

  lemma StreamedResultErases(t: Turn, tool: string, output: string)
    ensures EraseTurn(LiveResult(t, tool, output)) == LiveResult(EraseTurn(t), tool, output)
  {
    EraseThenClose(t.calls, tool, output);
    EraseThenCloseSegments(t.segments, tool, output);
  }

  lemma StreamedStepIgnoresInput(st: LiveState, ev: Event)
    requires st.lastIsText <==> EndsWithText(st.turn.segments)
    ensures EraseState(LiveNext(st, ev)) == LiveNext(EraseState(st), EraseEvent(ev))
  {
    match ev
    case AssistantText(_, content) => StreamedTextErases(st, content);
    case ToolCalled(_, tool, input) => StreamedCallErases(st.turn, tool, input);
    case ToolReturned(_, tool, output) => StreamedResultErases(st.turn, tool, output);
    case _ =>
  }

  lemma {:induction false} StreamingIgnoresInputs(events: seq<Event>)
    ensures EraseState(LiveAfter(events)) == LiveAfter(EraseEvents(events))
  {
    if events != [] {
      var front, ev := events[..|events| - 1], events[|events| - 1];
      assert events == front + [ev];
      StreamingIgnoresInputs(front);
      LiveFlag(front);
      StreamedStepIgnoresInput(LiveAfter(front), ev);
      ErasedSnoc(front, ev);
      AfterOneMore(EraseEvents(front), EraseEvent(ev));
    }
  }

  /** The replies agree in raw text, segments and calls, inputs left out. */
  ghost predicate SameReplyAt(streamed: seq<Event>, stored: seq<Event>, n: nat)
    requires n <= |streamed| == |stored|
  {
    EraseTurn(LiveAfter(streamed[..n]).turn) == EraseTurn(RestoredAfter(stored[..n]))
  }

  lemma SameReplyIff(streamed: seq<Event>, stored: seq<Event>, n: nat)
    requires EraseEvents(streamed) == EraseEvents(stored) && n <= |streamed| == |stored|
    ensures SameReplyAt(streamed, stored, n) <==> AgreesAt(EraseEvents(stored), n)
  {
    ErasedPrefix(streamed, n);
    ErasedPrefix(stored, n);
    StreamingIgnoresInputs(streamed[..n]);
    RestoringIgnoresInputs(stored[..n]);
  }

  lemma FitIgnoresInputs(calls: seq<ToolCall>, tool: string, output: string)
    ensures ResultFits(EraseCalls(calls), tool, output) <==> ResultFits(calls, tool, output)
  {
    EraseThenClose(calls, tool, output);
  }

  lemma FittingIgnoresInputs(events: seq<Event>, n: nat)
    requires n < |events|
    ensures FitsAt(EraseEvents(events), n) <==> FitsAt(events, n)
  {
    ErasedPrefix(events, n);
    RestoringIgnoresInputs(events[..n]);
    if events[n].ToolReturned? {
      FitIgnoresInputs(RestoredAfter(events[..n]).calls, events[n].tool, events[n].output);
    }
  }

  /**
   Stream and store report the same turn with inputs worded differently: the replies built from them are the
   same at every moment exactly when every stored result fits the calls before it.
   */
  lemma RepliesAgreeThroughoutIff(streamed: seq<Event>, stored: seq<Event>)
    requires |streamed| == |stored| && EraseEvents(streamed) == EraseEvents(stored)
    requires forall ev :: ev in stored ==> WithinTurn(ev)
    ensures (forall n :: 0 <= n <= |stored| ==> SameReplyAt(streamed, stored, n))
       <==> (forall n :: 0 <= n < |stored| ==> FitsAt(stored, n))
  {
    LiveAgreesThroughoutIff(EraseEvents(stored));
    forall n | 0 <= n <= |stored|
      ensures SameReplyAt(streamed, stored, n) <==> AgreesAt(EraseEvents(stored), n)
    {
      SameReplyIff(streamed, stored, n);
    }
    forall n | 0 <= n < |stored|
      ensures FitsAt(EraseEvents(stored), n) <==> FitsAt(stored, n)
    {
      FittingIgnoresInputs(stored, n);
    }
  }

  // ----- The finished reply

  lemma {:induction false} ResultsIgnoreInputs(events: seq<Event>, tool: string)
    ensures FirstResult(EraseEvents(events), tool) == FirstResult(events, tool)
    ensures LastBeforeCall(EraseEvents(events), tool) == LastBeforeCall(events, tool)
    ensures HasCall(EraseEvents(events)) <==> HasCall(events)
  {
    if events != [] {
      var front, last := events[..|events| - 1], events[|events| - 1];
      assert events == front + [last];
      ErasedSnoc(front, last);
      ResultsIgnoreInputs(front, tool);
      FirstResultSnoc(EraseEvents(front), EraseEvent(last), tool);
      LastBeforeCallSnoc(EraseEvents(front), EraseEvent(last), tool);
      LastBeforeCallSnoc(front, last, tool);
    }
  }

  lemma SettlingIgnoresInputs(events: seq<Event>)
    ensures AllSettled(EraseEvents(events)) <==> AllSettled(events)
  {
    forall i | 0 <= i < |events| && events[i].ToolCalled?
      ensures Settled(EraseEvents(events), i) <==> Settled(events, i)
    {
      assert EraseEvents(events)[i + 1..] == EraseEvents(events[i + 1..]);
      ResultsIgnoreInputs(events[i + 1..], events[i].tool);
    }
    assert forall i :: 0 <= i < |events| ==> (Settled(EraseEvents(events), i) <==> Settled(events, i));
  }

  /** With inputs worded differently, the finished reply is the restored one exactly when every call is settled. */
  lemma FinalRepliesAgreeIff(streamed: seq<Event>, stored: seq<Event>)
    requires EraseEvents(streamed) == EraseEvents(stored)
    requires forall ev :: ev in stored ==> WithinTurn(ev)
    ensures EraseTurn(LiveAfter(streamed).turn) == EraseTurn(RestoredAfter(stored)) <==> AllSettled(stored)
  {
    StreamingIgnoresInputs(streamed);
    RestoringIgnoresInputs(stored);
    SettlingIgnoresInputs(stored);
    forall ev | ev in EraseEvents(stored)
      ensures WithinTurn(ev)
    {
      var i :| 0 <= i < |stored| && EraseEvents(stored)[i] == ev;
      assert stored[i] in stored;
    }
    FinalAgreesIff(EraseEvents(stored));
  }
}
