/** When the finished reply of a stream is the restored one, whatever the two showed in between. */
module ChatFinal {
  import opened Wrappers
  import opened ChatMessages
  import opened ChatHistory
  import opened ChatLive

  // ----- The condition, read off the events

  predicate Answers(ev: Event, tool: string) {
    ev.ToolReturned? && ev.tool == tool
  }

  predicate HasCall(events: seq<Event>) {
    exists ev :: ev in events && ev.ToolCalled?
  }

  /** The output of the first result of a tool. */
  function FirstResult(events: seq<Event>, tool: string): Option<string> {
    if events == [] then None
    else
      var before, last := FirstResult(events[..|events| - 1], tool), events[|events| - 1];
      if before.None? && Answers(last, tool) then Some(last.output) else before
  }

  /** The output of the last result of a tool before the next call of any tool. */
  function LastBeforeCall(events: seq<Event>, tool: string): Option<string> {
    if events == [] then None
    else
      var front, last := events[..|events| - 1], events[|events| - 1];
      if Answers(last, tool) && !HasCall(front) then Some(last.output) else LastBeforeCall(front, tool)
  }

  /**
   No later result names the call's tool; or the first one comes before the next call, and the last one before the
   next call carries the same output.
   */
  predicate Settled(events: seq<Event>, i: nat)
    requires i < |events|
  {
    events[i].ToolCalled? ==>
      FirstResult(events[i + 1..], events[i].tool) == LastBeforeCall(events[i + 1..], events[i].tool)
  }

  lemma FirstResultSnoc(events: seq<Event>, ev: Event, tool: string)
    ensures FirstResult(events + [ev], tool)
         == if FirstResult(events, tool).None? && Answers(ev, tool) then Some(ev.output) else FirstResult(events, tool)
  {
    assert (events + [ev])[..|events|] == events;
  }

  lemma LastBeforeCallSnoc(events: seq<Event>, ev: Event, tool: string)
    ensures LastBeforeCall(events + [ev], tool)
         == if Answers(ev, tool) && !HasCall(events) then Some(ev.output) else LastBeforeCall(events, tool)
    ensures HasCall(events + [ev]) <==> HasCall(events) || ev.ToolCalled?
  {
    assert (events + [ev])[..|events|] == events;
  }

  // ----- What becomes of each call

  /** A call, where it was made, and the outputs of the two results that matter to it. */
  datatype Made = Made(at: nat, tool: string, input: string, first: Option<string>, last: Option<string>)

  function AnsweredAt(m: Made, newest: bool, tool: string, output: string): Made {
    if m.tool != tool then m
    else m.(first := if m.first.None? then Some(output) else m.first, last := if newest then Some(output) else m.last)
  }

  function Answered(log: seq<Made>, tool: string, output: string): seq<Made> {
    seq(|log|, j requires 0 <= j < |log| => AnsweredAt(log[j], j == |log| - 1, tool, output))
  }

  function LogNext(log: seq<Made>, at: nat, ev: Event): seq<Made> {
    match ev
    case ToolCalled(_, tool, input) => log + [Made(at, tool, input, None, None)]
    case ToolReturned(_, tool, output) => Answered(log, tool, output)
    case _ => log
  }

  function Log(events: seq<Event>): seq<Made> {
    if events == [] then []
    else LogNext(Log(events[..|events| - 1]), |events| - 1, events[|events| - 1])
  }

  /** What later events say of a call. */
  ghost predicate Tells(later: seq<Event>, m: Made, newest: bool) {
    && m.first == FirstResult(later, m.tool) && m.last == LastBeforeCall(later, m.tool)
    && (newest <==> !HasCall(later))
  }

  ghost predicate Means(events: seq<Event>, m: Made, newest: bool) {
    && m.at < |events| && events[m.at].ToolCalled? && events[m.at].tool == m.tool
    && Tells(events[m.at + 1..], m, newest)
  }

  lemma TellsNext(later: seq<Event>, ev: Event, m: Made, newest: bool)
    requires Tells(later, m, newest)
    ensures Tells(later + [ev], if ev.ToolReturned? then AnsweredAt(m, newest, ev.tool, ev.output) else m,
                  newest && !ev.ToolCalled?)
  {
    FirstResultSnoc(later, ev, m.tool);
    LastBeforeCallSnoc(later, ev, m.tool);
  }

  lemma AfterSnoc(front: seq<Event>, ev: Event, i: nat)
    requires i < |front|
    ensures (front + [ev])[i] == front[i] && (front + [ev])[i + 1..] == front[i + 1..] + [ev]
  {}

  lemma MeansNext(front: seq<Event>, ev: Event, m: Made, newest: bool)
    requires Means(front, m, newest)
    ensures var m' := if ev.ToolReturned? then AnsweredAt(m, newest, ev.tool, ev.output) else m;
            Means(front + [ev], m', newest && !ev.ToolCalled?)
  {
    AfterSnoc(front, ev, m.at);
    TellsNext(front[m.at + 1..], ev, m, newest);
  }

  lemma {:induction false} LogMeans(events: seq<Event>, j: nat)
    requires j < |Log(events)|
    ensures Means(events, Log(events)[j], j == |Log(events)| - 1)
    decreases |events|
  {
    var front, ev := events[..|events| - 1], events[|events| - 1];
    assert events == front + [ev];
    if j < |Log(front)| {
      LogMeans(front, j);
      MeansNext(front, ev, Log(front)[j], j == |Log(front)| - 1);
    } else {
      assert events[|front| + 1..] == [];
    }
  }

  lemma {:induction false} LogCovers(events: seq<Event>, i: nat) returns (j: nat)
    requires i < |events| && events[i].ToolCalled?
    ensures j < |Log(events)| && Log(events)[j].at == i
    decreases |events|
  {
    var front := events[..|events| - 1];
    if i < |front| {
      j := LogCovers(front, i);
    } else {
      j := |Log(front)|;
    }
  }

  // ----- The live reply

  function FirstCalls(log: seq<Made>): seq<ToolCall> {
    seq(|log|, j requires 0 <= j < |log| => ToolCall(log[j].tool, log[j].input, log[j].first))
  }

  function LastCalls(log: seq<Made>): seq<ToolCall> {
    seq(|log|, j requires 0 <= j < |log| => ToolCall(log[j].tool, log[j].input, log[j].last))
  }

  function CloseAllCalls(calls: seq<ToolCall>, tool: string, output: string): seq<ToolCall> {
    seq(|calls|, j requires 0 <= j < |calls| => if IsOpen(calls[j], tool) then Close(calls[j], output) else calls[j])
  }

  lemma {:induction false} CloseAllCommutes(segments: seq<Segment>, tool: string, output: string)
    ensures CallsOf(CloseAllOpen(segments, tool, output)) == CloseAllCalls(CallsOf(segments), tool, output)
  {
    if segments != [] {
      var front, last := segments[..|segments| - 1], segments[|segments| - 1];
      assert segments == front + [last];
      CloseAllCommutes(front, tool, output);
      CallsSnoc(front, last);
      CallsSnoc(CloseAllOpen(front, tool, output), if IsOpenSegment(last, tool) then CloseSegment(last, output) else last);
      if last.Call? {
        CloseAllCallsSnoc(CallsOf(front), last.toolCall, tool, output);
      }
    }
  }

  lemma CloseAllCallsSnoc(front: seq<ToolCall>, last: ToolCall, tool: string, output: string)
    ensures CloseAllCalls(front + [last], tool, output)
         == CloseAllCalls(front, tool, output) + [if IsOpen(last, tool) then Close(last, output) else last]
  {}

  lemma AnsweredCalls(log: seq<Made>, tool: string, output: string)
    ensures LastCalls(Answered(log, tool, output)) == CloseLast(LastCalls(log), tool, output)
    ensures FirstCalls(Answered(log, tool, output)) == CloseAllCalls(FirstCalls(log), tool, output)
  {}

  lemma CallsNext(log: seq<Made>, m: Made)
    ensures LastCalls(log + [m]) == LastCalls(log) + [ToolCall(m.tool, m.input, m.last)]
    ensures FirstCalls(log + [m]) == FirstCalls(log) + [ToolCall(m.tool, m.input, m.first)]
  {}

  /** The list of calls keeps each call's last result before the next call, the segments its first result. */
  ghost predicate Tracks(log: seq<Made>, t: Turn) {
    t.calls == LastCalls(log) && CallsOf(t.segments) == FirstCalls(log)
  }

  lemma TracksText(log: seq<Made>, st: LiveState, content: string)
    requires Tracks(log, st.turn) && (st.lastIsText <==> EndsWithText(st.turn.segments))
    ensures Tracks(log, LiveText(st, content).turn)
  {
    LiveTextAppends(st, content);
    AppendTextContent(st.turn.segments, content);
  }

  lemma TracksCall(log: seq<Made>, at: nat, t: Turn, tool: string, input: string)
    requires Tracks(log, t)
    ensures Tracks(log + [Made(at, tool, input, None, None)], AddCall(t, tool, input))
  {
    CallsSnoc(t.segments, Call(ToolCall(tool, input, None)));
    CallsNext(log, Made(at, tool, input, None, None));
  }

  lemma TracksResult(log: seq<Made>, t: Turn, tool: string, output: string)
    requires Tracks(log, t)
    ensures Tracks(Answered(log, tool, output), LiveResult(t, tool, output))
  {
    CloseAllCommutes(t.segments, tool, output);
    AnsweredCalls(log, tool, output);
  }

  lemma TracksNext(log: seq<Made>, at: nat, st: LiveState, ev: Event)
    requires Tracks(log, st.turn) && (st.lastIsText <==> EndsWithText(st.turn.segments))
    ensures Tracks(LogNext(log, at, ev), LiveNext(st, ev).turn)
  {
    match ev
    case AssistantText(_, content) => TracksText(log, st, content);
    case ToolCalled(_, tool, input) => TracksCall(log, at, st.turn, tool, input);
    case ToolReturned(_, tool, output) => TracksResult(log, st.turn, tool, output);
    case _ =>
  }

  lemma {:induction false} LiveLog(events: seq<Event>)
    ensures Tracks(Log(events), LiveAfter(events).turn)
  {
    if events != [] {
      var front, ev := events[..|events| - 1], events[|events| - 1];
      LiveLog(front);
      LiveFlag(front);
      TracksNext(Log(front), |front|, LiveAfter(front), ev);
    }
  }

  // ----- Settled calls keep the segments alike

  /** Every open call of the tool is the newest call. */
  ghost predicate OnlyNewestOpen(calls: seq<ToolCall>, tool: string) {
    forall j :: 0 <= j < |calls| && IsOpen(calls[j], tool) ==> j == |calls| - 1
  }

  lemma {:induction false} NoneOpen(calls: seq<ToolCall>, tool: string)
    requires forall j :: 0 <= j < |calls| ==> !IsOpen(calls[j], tool)
    ensures OpenCount(calls, tool) == 0
  {
    if calls != [] {
      NoneOpen(calls[..|calls| - 1], tool);
    }
  }

  lemma OnlyNewestCount(calls: seq<ToolCall>, tool: string)
    requires OnlyNewestOpen(calls, tool)
    ensures OpenCount(calls, tool) <= 1
  {
    if calls != [] {
      NoneOpen(calls[..|calls| - 1], tool);
    }
  }

  lemma PrefixFirst(events: seq<Event>, n: nat, tool: string)
    requires n < |events| && FirstResult(events[..n], tool).None? && Answers(events[n], tool)
    ensures FirstResult(events[..n + 1], tool).Some?
  {
    assert events[..n + 1] == events[..n] + [events[n]];
    FirstResultSnoc(events[..n], events[n], tool);
  }

  lemma {:induction false} FirstResultStays(events: seq<Event>, n: nat, tool: string)
    requires n <= |events| && FirstResult(events[..n], tool).Some?
    ensures FirstResult(events, tool) == FirstResult(events[..n], tool)
    decreases |events|
  {
    if n == |events| {
      assert events[..n] == events;
    } else {
      var front := events[..|events| - 1];
      assert front[..n] == events[..n];
      FirstResultStays(front, n, tool);
    }
  }

  /** Where a call is followed by a result before the next call, there is no call before its first result. */
  lemma {:induction false} NoCallBefore(events: seq<Event>, n: nat, tool: string)
    requires n <= |events| && FirstResult(events[..n], tool).None? && LastBeforeCall(events, tool).Some?
    ensures !HasCall(events[..n])
    decreases |events|
  {
    if n == |events| {
      assert events[..n] == events;
      NoResultAtAll(events, tool);
    } else {
      var front, last := events[..|events| - 1], events[|events| - 1];
      assert front[..n] == events[..n];
      if Answers(last, tool) && !HasCall(front) {
        assert forall ev :: ev in events[..n] ==> ev in front;
      } else {
        NoCallBefore(front, n, tool);
      }
    }
  }

  lemma {:induction false} NoResultAtAll(events: seq<Event>, tool: string)
    ensures FirstResult(events, tool).None? ==> LastBeforeCall(events, tool).None?
  {
    if events != [] {
      NoResultAtAll(events[..|events| - 1], tool);
    }
  }

  /** When a result of a tool arrives, a settled call of it that is still open is the newest call. */
  lemma OpenIsNewest(events: seq<Event>, n: nat, j: nat)
    requires n < |events| && events[n].ToolReturned? && j < |Log(events[..n])|
    requires Log(events[..n])[j].tool == events[n].tool && Log(events[..n])[j].first.None?
    requires Log(events[..n])[j].at < n && Settled(events, Log(events[..n])[j].at)
    ensures j == |Log(events[..n])| - 1
  {
    var at := Log(events[..n])[j].at;
    LogMeans(events[..n], j);
    Between(events, at, n);
    NoCallBeforeResult(events[at + 1..], n - at - 1, events[n].tool);
  }

  lemma Between<T>(s: seq<T>, i: nat, n: nat)
    requires i < n < |s|
    ensures s[..n][i] == s[i] && s[..n][i + 1..] == s[i + 1..][..n - i - 1] && s[i + 1..][n - i - 1] == s[n]
  {}

  /** A call whose first result is the one at n has no other call before that, if it is settled. */
  lemma NoCallBeforeResult(later: seq<Event>, n: nat, tool: string)
    requires n < |later| && Answers(later[n], tool) && FirstResult(later[..n], tool).None?
    requires FirstResult(later, tool) == LastBeforeCall(later, tool)
    ensures !HasCall(later[..n])
  {
    PrefixFirst(later, n, tool);
    FirstResultStays(later, n + 1, tool);
    NoCallBefore(later, n, tool);
  }

  ghost predicate AllSettled(events: seq<Event>) {
    forall i :: 0 <= i < |events| ==> Settled(events, i)
  }

  lemma SettledResultClosesOne(events: seq<Event>, n: nat)
    requires AllSettled(events) && n < |events| && events[n].ToolReturned?
    ensures OpenCount(CallsOf(LiveAfter(events[..n]).turn.segments), events[n].tool) <= 1
  {
    LiveLog(events[..n]);
    var log, calls := Log(events[..n]), CallsOf(LiveAfter(events[..n]).turn.segments);
    forall j | 0 <= j < |calls| && IsOpen(calls[j], events[n].tool)
      ensures j == |calls| - 1
    {
      LogMeans(events[..n], j);
      OpenIsNewest(events, n, j);
    }
    OnlyNewestCount(calls, events[n].tool);
  }

  ghost predicate SameSegments(live: Turn, restored: Turn) {
    live.content == restored.content && live.segments == restored.segments
  }

  /** With all calls settled, content and segments agree at every moment. */
  lemma {:induction false} SegmentsAgree(events: seq<Event>, n: nat)
    requires n <= |events| && AllSettled(events) && forall ev :: ev in events ==> WithinTurn(ev)
    ensures SameSegments(LiveAfter(events[..n]).turn, RestoredAfter(events[..n]))
  {
    if n == 0 {
      assert events[..0] == [];
    } else {
      var k := n - 1;
      SegmentsAgree(events, k);
      assert events[..n] == events[..k] + [events[k]];
      AfterOneMore(events[..k], events[k]);
      LiveFlag(events[..k]);
      if events[k].ToolReturned? {
        SettledResultClosesOne(events, k);
        ResultKeepsSegments(events[..k], events[k].tool, events[k].output);
      } else {
        OthersKeepSegments(LiveAfter(events[..k]), RestoredAfter(events[..k]), events[k]);
      }
    }
  }

  lemma OthersKeepSegments(st: LiveState, t: Turn, ev: Event)
    requires SameSegments(st.turn, t) && (st.lastIsText <==> EndsWithText(st.turn.segments))
    requires WithinTurn(ev) && !ev.ToolReturned?
    ensures SameSegments(LiveNext(st, ev).turn, OnTurn(t, ev))
  {}

  lemma ResultKeepsSegments(events: seq<Event>, tool: string, output: string)
    requires SameSegments(LiveAfter(events).turn, RestoredAfter(events))
    requires OpenCount(CallsOf(LiveAfter(events).turn.segments), tool) <= 1
    ensures SameSegments(LiveResult(LiveAfter(events).turn, tool, output), AddResult(RestoredAfter(events), tool, output))
  {
    var t := RestoredAfter(events);
    RestoredIsCoherent(events);
    SegmentsAgreeIff(t.segments, tool, output);
    if OpenCount(t.calls, tool) == 0 {
      NoSegmentToClose(t.segments, tool, output);
    }
  }

  // ----- The finished reply

  lemma SettledCalls(events: seq<Event>)
    ensures LastCalls(Log(events)) == FirstCalls(Log(events)) <==> AllSettled(events)
  {
    var log := Log(events);
    if LastCalls(log) == FirstCalls(log) {
      forall i | 0 <= i < |events| && events[i].ToolCalled?
        ensures Settled(events, i)
      {
        var j := LogCovers(events, i);
        LogMeans(events, j);
        assert LastCalls(log)[j] == FirstCalls(log)[j];
      }
    }
    if AllSettled(events) {
      forall j | 0 <= j < |log|
        ensures log[j].first == log[j].last
      {
        LogMeans(events, j);
        assert Settled(events, log[j].at);
      }
    }
  }

  /** The finished reply is the restored one exactly when every call is settled; in between the two may have differed. */
  lemma FinalAgreesIff(events: seq<Event>)
    requires forall ev :: ev in events ==> WithinTurn(ev)
    ensures LiveAfter(events).turn == RestoredAfter(events) <==> AllSettled(events)
  {
    LiveLog(events);
    RestoredIsCoherent(events);
    SettledCalls(events);
    if AllSettled(events) {
      SegmentsAgree(events, |events|);
      assert events[..|events|] == events;
    }
  }

  lemma OneCallSettled(call: Event, results: seq<Event>)
    requires call.ToolCalled? && forall ev :: ev in results ==> ev.ToolReturned?
    ensures AllSettled([call] + results) <==> FirstResult(results, call.tool) == LastBeforeCall(results, call.tool)
  {
    var events := [call] + results;
    assert events[1..] == results;
    assert Settled(events, 0) <==> FirstResult(results, call.tool) == LastBeforeCall(results, call.tool);
    forall i | 0 < i < |events|
      ensures Settled(events, i)
    {
      assert events[i] in results;
    }
  }

  lemma ResultsOf(earlier: seq<Event>, last: Event, tool: string, first: string)
    requires forall ev :: ev in earlier ==> ev.ToolReturned?
    requires Answers(last, tool) && FirstResult(earlier, tool) == Some(first)
    ensures FirstResult(earlier + [last], tool) == Some(first) && LastBeforeCall(earlier + [last], tool) == Some(last.output)
  {
    FirstResultSnoc(earlier, last, tool);
    LastBeforeCallSnoc(earlier, last, tool);
  }

  /** Three results of one call, the third repeating the first: the replies differ after the second and end alike. */
  lemma DivergesThenAgrees(tool: string, input: string, a: string, b: string)
    requires a != b
    ensures var call, first := ToolCalled("1", tool, input), ToolReturned("2", tool, a);
            var second, third := ToolReturned("3", tool, b), ToolReturned("4", tool, a);
            && LiveAfter([call] + [first, second]).turn != RestoredAfter([call] + [first, second])
            && LiveAfter([call] + [first, second, third]).turn == RestoredAfter([call] + [first, second, third])
  {
    var call, first := ToolCalled("1", tool, input), ToolReturned("2", tool, a);
    var second, third := ToolReturned("3", tool, b), ToolReturned("4", tool, a);
    FirstResultSnoc([], first, tool);
    assert [] + [first] == [first] && [first] + [second] == [first, second];
    ResultsOf([first], second, tool, a);
    assert [first, second] + [third] == [first, second, third];
    ResultsOf([first, second], third, tool, a);
    OneCallSettled(call, [first, second]);
    OneCallSettled(call, [first, second, third]);
    FinalAgreesIff([call] + [first, second]);
    FinalAgreesIff([call] + [first, second, third]);
  }
}
