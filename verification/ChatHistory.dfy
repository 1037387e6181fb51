/** Restoring a conversation: stored events become the messages to render. */
module ChatHistory {
  import opened Wrappers
  import opened ChatMessages

  datatype Event =
    | UserMessage(id: string, content: string)
    | AssistantText(id: string, content: string)
    | ToolCalled(id: string, tool: string, input: string)
    | ToolReturned(id: string, tool: string, output: string)
    | Reasoning(id: string)
    | SystemNote(id: string, content: string)

  datatype Role = User | Assistant

  /** A message of its own, or an assistant turn grouped from several events. */
  datatype Message = Plain(id: string, role: Role, content: string) | Grouped(id: string, turn: Turn)

  datatype Open = Open(id: string, turn: Turn)

  datatype State = State(messages: seq<Message>, current: Option<Open>)

  const START := State([], None)

  // ----- One event

  function AddText(t: Turn, delta: string): Turn {
    Turn(t.content + delta, t.calls, AppendText(t.segments, delta))
  }

  function AddCall(t: Turn, tool: string, input: string): Turn {
    var call := ToolCall(tool, input, None);
    Turn(t.content, t.calls + [call], t.segments + [Call(call)])
  }

  function AddResult(t: Turn, tool: string, output: string): Turn {
    Turn(t.content,
         CloseLatest(t.calls, tool, output),
         if OpenCount(t.calls, tool) > 0 then CloseLatestSegment(t.segments, tool, output) else t.segments)
  }

  function OnTurn(t: Turn, ev: Event): Turn {
    match ev
    case AssistantText(_, content) => AddText(t, content)
    case ToolCalled(_, tool, input) => AddCall(t, tool, input)
    case ToolReturned(_, tool, output) => AddResult(t, tool, output)
    case _ => t
  }

  function Flushed(st: State): seq<Message> {
    match st.current
    case None => st.messages
    case Some(open) => st.messages + [Grouped(open.id, open.turn)]
  }

  function Ensured(st: State, id: string): Open {
    match st.current
    case None => Open(id, EMPTY_TURN)
    case Some(open) => open
  }

  function OnEvent(st: State, ev: Event): State {
    match ev
    case UserMessage(id, content) => State(Flushed(st) + [Plain(id, User, content)], None)
    case SystemNote(id, content) => State(Flushed(st) + [Plain(id, Assistant, content)], None)
    case Reasoning(_) => st
    case ToolReturned(_, _, _) =>
      if st.current.None? then st
      else st.(current := Some(Open(st.current.value.id, OnTurn(st.current.value.turn, ev))))
    case _ =>
      var open := Ensured(st, ev.id);
      st.(current := Some(Open(open.id, OnTurn(open.turn, ev))))
  }

  function RunEvents(st: State, events: seq<Event>): State
    decreases |events|
  {
    if events == [] then st else RunEvents(OnEvent(st, events[0]), events[1..])
  }

  function MessagesOf(events: seq<Event>): seq<Message> {
    Flushed(RunEvents(START, events))
  }

  lemma {:induction false} RunEventsJoins(st: State, a: seq<Event>, b: seq<Event>)
    ensures RunEvents(st, a + b) == RunEvents(RunEvents(st, a), b)
    decreases |a|
  {
    if a == [] {
      assert a + b == b;
    } else {
      assert (a + b)[0] == a[0] && (a + b)[1..] == a[1..] + b;
      RunEventsJoins(OnEvent(st, a[0]), a[1..], b);
    }
  }

  // ----- The mapper

  /** One step of the backward scan. */
  lemma ScanCall(calls: seq<ToolCall>, i: nat, tool: string, output: string)
    requires i < |calls|
    ensures CloseLatest(calls[..i + 1], tool, output) + calls[i + 1..]
         == if IsOpen(calls[i], tool) then calls[i := Close(calls[i], output)]
            else CloseLatest(calls[..i], tool, output) + calls[i..]
    ensures OpenCount(calls[..i + 1], tool) == OpenCount(calls[..i], tool) + if IsOpen(calls[i], tool) then 1 else 0
  {
    assert calls[..i + 1] == calls[..i] + [calls[i]];
    CloseLatestSnoc(calls[..i], calls[i], tool, output);
    assert [calls[i]] + calls[i + 1..] == calls[i..];
  }

  method CloseLatestCall(calls: seq<ToolCall>, tool: string, output: string)
    returns (updated: seq<ToolCall>, matched: bool)
    ensures updated == CloseLatest(calls, tool, output)
    ensures matched <==> OpenCount(calls, tool) > 0
  {
    updated, matched := calls, false;
    var i := |calls|;
    assert calls[..i] == calls && calls[i..] == [];
    while i > 0
      invariant 0 <= i <= |calls|
      invariant CloseLatest(calls, tool, output) == CloseLatest(calls[..i], tool, output) + calls[i..]
      invariant OpenCount(calls, tool) == OpenCount(calls[..i], tool)
    {
      i := i - 1;
      var existing := calls[i];
      ScanCall(calls, i, tool, output);
      if IsOpen(existing, tool) {
        updated := calls[i := Close(existing, output)];
        matched := true;
        return;
      }
    }
  }

  method CloseLatestIn(segments: seq<Segment>, tool: string, output: string) returns (updated: seq<Segment>)
    ensures updated == CloseLatestSegment(segments, tool, output)
  {
    var i := |segments|;
    assert segments[..i] == segments && segments[i..] == [];
    while i > 0
      invariant 0 <= i <= |segments|
      invariant CloseLatestSegment(segments, tool, output) == CloseLatestSegment(segments[..i], tool, output) + segments[i..]
    {
      i := i - 1;
      assert segments[..i + 1][..i] == segments[..i];
      if IsOpenSegment(segments[i], tool) {
        return segments[i := CloseSegment(segments[i], output)];
      }
    }
    return segments;
  }

  method MapEventsToMessages(events: seq<Event>) returns (messages: seq<Message>)
    ensures messages == MessagesOf(events)
  {
    messages := [];
    var current: Option<Open> := None;
    var lastSegmentIsText := false;
    for i := 0 to |events|
      invariant State(messages, current) == RunEvents(START, events[..i])
      invariant current.Some? ==> (lastSegmentIsText <==> EndsWithText(current.value.turn.segments))
    {
      var ev := events[i];
      assert events[..i + 1] == events[..i] + [ev];
      RunEventsJoins(START, events[..i], [ev]);
      if (ev.AssistantText? || ev.ToolCalled?) && current.None? {
        current := Some(Open(ev.id, EMPTY_TURN));
        lastSegmentIsText := false;
      }
      match ev {
        case UserMessage(id, content) =>
          messages := Flushed(State(messages, current)) + [Plain(id, User, content)];
          current, lastSegmentIsText := None, false;
        case AssistantText(_, delta) =>
          var t, segs := current.value.turn, current.value.turn.segments;
          if lastSegmentIsText && |segs| > 0 && segs[|segs| - 1].Text? {
            segs := segs[..|segs| - 1] + [Text(segs[|segs| - 1].content + delta)];
          } else {
            segs := segs + [Text(delta)];
            lastSegmentIsText := true;
          }
          current := Some(Open(current.value.id, Turn(t.content + delta, t.calls, segs)));
        case ToolCalled(_, tool, input) =>
          current := Some(Open(current.value.id, AddCall(current.value.turn, tool, input)));
          lastSegmentIsText := false;
        case ToolReturned(_, tool, output) =>
          if current.Some? {
            var t := current.value.turn;
            var calls, matched := CloseLatestCall(t.calls, tool, output);
            var segs := t.segments;
            if matched {
              CloseLatestKeepsKinds(segs, tool, output);
              segs := CloseLatestIn(segs, tool, output);
            }
            current := Some(Open(current.value.id, Turn(t.content, calls, segs)));
          }
        case Reasoning(_) =>
        case SystemNote(id, content) =>
          messages := Flushed(State(messages, current)) + [Plain(id, Assistant, content)];
          current, lastSegmentIsText := None, false;
      }
    }
    assert events[..|events|] == events;
    return Flushed(State(messages, current));
  }

  // ----- Every grouped message is coherent

  ghost predicate CoherentState(st: State) {
    && (forall m :: m in st.messages && m.Grouped? ==> Coherent(m.turn))
    && (st.current.Some? ==> Coherent(st.current.value.turn))
  }

  lemma TurnStaysCoherent(t: Turn, ev: Event)
    requires Coherent(t)
    ensures Coherent(OnTurn(t, ev))
  {
    match ev
    case AssistantText(_, content) =>
      AppendTextKeeps(t.segments, content);
      AppendTextContent(t.segments, content);
    case ToolCalled(_, tool, input) => AppendCallKeeps(t.segments, ToolCall(tool, input, None));
    case ToolReturned(_, tool, output) =>
      if OpenCount(t.calls, tool) > 0 {
        CloseLatestCommutes(t.segments, tool, output);
        CloseLatestKeepsKinds(t.segments, tool, output);
      } else {
        NothingToClose(t.calls, tool, output);
      }
    case _ =>
  }

  lemma {:induction false} RunStaysCoherent(st: State, events: seq<Event>)
    requires CoherentState(st)
    ensures CoherentState(RunEvents(st, events))
    decreases |events|
  {
    if events != [] {
      TurnStaysCoherent(Ensured(st, "").turn, events[0]);
      RunStaysCoherent(OnEvent(st, events[0]), events[1..]);
    }
  }

  /** In every restored conversation, text, calls and outputs of a grouped message agree with its segments. */
  lemma GroupedMessagesAreCoherent(events: seq<Event>, m: Message)
    requires m in MessagesOf(events) && m.Grouped?
    ensures m.turn.content == TextOf(m.turn.segments)
    ensures m.turn.calls == CallsOf(m.turn.segments)
    ensures NoAdjacentText(m.turn.segments)
  {
    RunStaysCoherent(START, events);
  }

  // ----- The mapping splits at messages that stand alone

  function StandsAlone(ev: Event): Option<Message> {
    match ev
    case UserMessage(id, content) => Some(Plain(id, User, content))
    case SystemNote(id, content) => Some(Plain(id, Assistant, content))
    case _ => None
  }

  lemma {:induction false} EarlierMessagesUntouched(earlier: seq<Message>, st: State, events: seq<Event>)
    ensures RunEvents(State(earlier + st.messages, st.current), events)
         == State(earlier + RunEvents(st, events).messages, RunEvents(st, events).current)
    decreases |events|
  {
    if events != [] {
      var prefixed := State(earlier + st.messages, st.current);
      assert Flushed(prefixed) == earlier + Flushed(st);
      if StandsAlone(events[0]).Some? {
        var alone := [StandsAlone(events[0]).value];
        assert earlier + (Flushed(st) + alone) == (earlier + Flushed(st)) + alone;
      }
      EarlierMessagesUntouched(earlier, OnEvent(st, events[0]), events[1..]);
    }
  }

  /** A user or system event is a boundary: what stands before and after it is mapped separately. */
  lemma MappingSplitsAtBoundary(before: seq<Event>, boundary: Event, after: seq<Event>)
    requires StandsAlone(boundary).Some?
    ensures MessagesOf(before + [boundary] + after)
         == MessagesOf(before) + [StandsAlone(boundary).value] + MessagesOf(after)
  {
    RunEventsJoins(START, before + [boundary], after);
    RunEventsJoins(START, before, [boundary]);
    var earlier := MessagesOf(before) + [StandsAlone(boundary).value];
    assert RunEvents(START, before + [boundary]) == State(earlier, None);
    assert earlier + [] == earlier;
    EarlierMessagesUntouched(earlier, START, after);
    var rest := RunEvents(START, after);
    assert Flushed(State(earlier + rest.messages, rest.current)) == earlier + Flushed(rest);
  }

  // ----- Text may arrive in any pieces

  lemma AddTextTwice(t: Turn, a: string, b: string)
    ensures AddText(AddText(t, a), b) == AddText(t, a + b)
  {
    assert (t.content + a) + b == t.content + (a + b);
    var once := AppendText(t.segments, a);
    assert EndsWithText(once);
    if EndsWithText(t.segments) {
      var old_ := t.segments[|t.segments| - 1].content;
      assert (old_ + a) + b == old_ + (a + b);
      assert once[..|once| - 1] == t.segments[..|t.segments| - 1];
    } else {
      assert once[..|once| - 1] == t.segments;
    }
  }

  /** Cutting a text event in two, whatever identifier the second half gets, does not show. */
  lemma SplittingTextIsInvisible(before: seq<Event>, id: string, later: string, a: string, b: string, after: seq<Event>)
    ensures MessagesOf(before + [AssistantText(id, a + b)] + after)
         == MessagesOf(before + [AssistantText(id, a), AssistantText(later, b)] + after)
  {
    var whole, halves := [AssistantText(id, a + b)], [AssistantText(id, a), AssistantText(later, b)];
    RunEventsJoins(START, before + whole, after);
    RunEventsJoins(START, before, whole);
    RunEventsJoins(START, before + halves, after);
    RunEventsJoins(START, before, halves);
    var st := RunEvents(START, before);
    AddTextTwice(Ensured(st, id).turn, a, b);
    assert halves == [AssistantText(id, a)] + [AssistantText(later, b)];
    RunEventsJoins(st, [AssistantText(id, a)], [AssistantText(later, b)]);
  }
}
