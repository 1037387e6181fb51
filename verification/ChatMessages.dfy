/** Chat messages as the admin panel renders them: text interleaved with tool calls. */
module ChatMessages {
  import opened Wrappers

  datatype ToolCall = ToolCall(tool: string, input: string, output: Option<string>)

  datatype Segment = Text(content: string) | Call(toolCall: ToolCall)

  /** What one assistant turn has accumulated. */
  datatype Turn = Turn(content: string, calls: seq<ToolCall>, segments: seq<Segment>)

  const EMPTY_TURN := Turn("", [], [])

  predicate IsOpen(c: ToolCall, tool: string) {
    c.tool == tool && c.output == None
  }

  predicate IsOpenSegment(s: Segment, tool: string) {
    s.Call? && IsOpen(s.toolCall, tool)
  }

  function Close(c: ToolCall, output: string): ToolCall {
    c.(output := Some(output))
  }

  function CloseSegment(s: Segment, output: string): Segment
    requires s.Call?
  {
    Call(Close(s.toolCall, output))
  }

  // ----- Views of a segment list

  /** The tool calls among the segments, in order. */
  function CallsOf(segments: seq<Segment>): seq<ToolCall> {
    if segments == [] then []
    else
      var last := segments[|segments| - 1];
      var calls := CallsOf(segments[..|segments| - 1]);
      if last.Call? then calls + [last.toolCall] else calls
  }

  function TextOf(segments: seq<Segment>): string {
    if segments == [] then ""
    else
      var last := segments[|segments| - 1];
      var text := TextOf(segments[..|segments| - 1]);
      if last.Text? then text + last.content else text
  }

  predicate EndsWithText(segments: seq<Segment>) {
    segments != [] && segments[|segments| - 1].Text?
  }

  ghost predicate NoAdjacentText(segments: seq<Segment>) {
    forall i :: 0 < i < |segments| ==> segments[i - 1].Call? || segments[i].Call?
  }

  /** Text joins a text segment that is still last; otherwise it starts a segment of its own. */
  function AppendText(segments: seq<Segment>, delta: string): seq<Segment> {
    if EndsWithText(segments)
    then segments[..|segments| - 1] + [Text(segments[|segments| - 1].content + delta)]
    else segments + [Text(delta)]
  }

  /** The content, the calls and the segments tell one story, with no text segment split in two. */
  ghost predicate Coherent(t: Turn) {
    t.content == TextOf(t.segments) && t.calls == CallsOf(t.segments) && NoAdjacentText(t.segments)
  }

  // ----- Closing tool calls

  /** The most recent open call of a tool gets the output. */
  function CloseLatest(calls: seq<ToolCall>, tool: string, output: string): (r: seq<ToolCall>)
    ensures |r| == |calls|
  {
    if calls == [] then []
    else
      var front, last := calls[..|calls| - 1], calls[|calls| - 1];
      if IsOpen(last, tool) then front + [Close(last, output)] else CloseLatest(front, tool, output) + [last]
  }

  function CloseLatestSegment(segments: seq<Segment>, tool: string, output: string): (r: seq<Segment>)
    ensures |r| == |segments|
  {
    if segments == [] then []
    else
      var front, last := segments[..|segments| - 1], segments[|segments| - 1];
      if IsOpenSegment(last, tool) then front + [CloseSegment(last, output)]
      else CloseLatestSegment(front, tool, output) + [last]
  }

  function OpenCount(calls: seq<ToolCall>, tool: string): nat {
    if calls == [] then 0
    else OpenCount(calls[..|calls| - 1], tool) + if IsOpen(calls[|calls| - 1], tool) then 1 else 0
  }

  lemma CallsSnoc(front: seq<Segment>, last: Segment)
    ensures CallsOf(front + [last]) == if last.Call? then CallsOf(front) + [last.toolCall] else CallsOf(front)
    ensures TextOf(front + [last]) == if last.Text? then TextOf(front) + last.content else TextOf(front)
  {
    assert (front + [last])[..|front|] == front;
  }

  lemma CloseLatestSnoc(front: seq<ToolCall>, last: ToolCall, tool: string, output: string)
    ensures CloseLatest(front + [last], tool, output)
         == if IsOpen(last, tool) then front + [Close(last, output)] else CloseLatest(front, tool, output) + [last]
    ensures OpenCount(front + [last], tool) == OpenCount(front, tool) + if IsOpen(last, tool) then 1 else 0
  {
    assert (front + [last])[..|front|] == front;
  }

  /** Closing a call among the segments closes the same call in the list of calls, and leaves the text alone. */
  lemma {:induction false} CloseLatestCommutes(segments: seq<Segment>, tool: string, output: string)
    ensures CallsOf(CloseLatestSegment(segments, tool, output)) == CloseLatest(CallsOf(segments), tool, output)
    ensures TextOf(CloseLatestSegment(segments, tool, output)) == TextOf(segments)
  {
    if segments != [] {
      var front, last := segments[..|segments| - 1], segments[|segments| - 1];
      assert segments == front + [last];
      CallsSnoc(front, last);
      if last.Call? {
        CloseLatestSnoc(CallsOf(front), last.toolCall, tool, output);
      }
      if IsOpenSegment(last, tool) {
        CallsSnoc(front, CloseSegment(last, output));
      } else {
        CloseLatestCommutes(front, tool, output);
        CallsSnoc(CloseLatestSegment(front, tool, output), last);
      }
    }
  }

  lemma {:induction false} CloseLatestKeepsKinds(segments: seq<Segment>, tool: string, output: string)
    ensures forall i :: 0 <= i < |segments| ==> (CloseLatestSegment(segments, tool, output)[i].Text? <==> segments[i].Text?)
  {
    if segments != [] {
      CloseLatestKeepsKinds(segments[..|segments| - 1], tool, output);
    }
  }

  lemma Regroup<T>(a: seq<T>, b: seq<T>, c: seq<T>)
    ensures (a + b) + c == a + (b + c)
  {}

  lemma AppendTextContent(segments: seq<Segment>, delta: string)
    ensures TextOf(AppendText(segments, delta)) == TextOf(segments) + delta
    ensures CallsOf(AppendText(segments, delta)) == CallsOf(segments)
  {
    if EndsWithText(segments) {
      var front, last := segments[..|segments| - 1], segments[|segments| - 1];
      assert segments == front + [last];
      CallsSnoc(front, last);
      CallsSnoc(front, Text(last.content + delta));
      Regroup(TextOf(front), last.content, delta);
    } else {
      CallsSnoc(segments, Text(delta));
    }
  }

  lemma AppendTextKeeps(segments: seq<Segment>, delta: string)
    requires NoAdjacentText(segments)
    ensures NoAdjacentText(AppendText(segments, delta)) && EndsWithText(AppendText(segments, delta))
  {}

  lemma AppendCallKeeps(segments: seq<Segment>, call: ToolCall)
    requires NoAdjacentText(segments)
    ensures NoAdjacentText(segments + [Call(call)]) && !EndsWithText(segments + [Call(call)])
    ensures TextOf(segments + [Call(call)]) == TextOf(segments)
    ensures CallsOf(segments + [Call(call)]) == CallsOf(segments) + [call]
  {
    CallsSnoc(segments, Call(call));
  }

  lemma {:induction false} NothingToClose(calls: seq<ToolCall>, tool: string, output: string)
    requires OpenCount(calls, tool) == 0
    ensures CloseLatest(calls, tool, output) == calls
  {
    if calls != [] {
      var front, last := calls[..|calls| - 1], calls[|calls| - 1];
      assert calls == front + [last];
      CloseLatestSnoc(front, last, tool, output);
      NothingToClose(front, tool, output);
    }
  }
}
