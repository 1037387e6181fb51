/**
 Reading a chat event stream: the widget's and the admin panel's incremental readers of the text/event-stream
 subset they accept (sections 9.2.5 and 9.2.6 of the WHATWG HTML Living Standard).
 */
module EventStream {
  import opened Wrappers
  import opened Strings

  /** An event name and the data line dispatched under it. */
  datatype Frame = Frame(event: string, data: string)

  datatype Reader = Widget | Admin

  /**
   What becomes of data lines: which texts parse as JSON, and under which event name handling a text throws, as
   reading a member of null does.
   */
  datatype Judge = Judge(parses: string -> bool, throws: (string, string) -> bool)

  /** What one complete line does: the event name carried on, the frame handled, if any, and whether reading ends. */
  datatype LineEffect = LineEffect(event: string, handled: Option<Frame>, stops: bool)

  datatype SseLine = EventLine(event: string) | DataLine(data: string) | OtherLine

  function ParseSseLine(line: string): SseLine {
    if "event: " <= line then EventLine(Trim(line[7..]))
    else if "data: " <= line then DataLine(line[6..])
    else OtherLine
  }

  function Dispatched(judge: Judge, event: string, data: string): LineEffect {
    if judge.throws(event, data) then LineEffect(event, None, true)
    else LineEffect("", Some(Frame(event, data)), false)
  }

  /** The widget forgets the event name after any data line and at blank lines. */
  function WidgetLine(judge: Judge, event: string, line: string): LineEffect {
    match ParseSseLine(line)
    case EventLine(name) => LineEffect(name, None, false)
    case DataLine(data) => if judge.parses(data) then Dispatched(judge, event, data) else LineEffect("", None, false)
    case OtherLine => LineEffect(if Trim(line) == "" then "" else event, None, false)
  }

  /** The admin panel forgets it only after data that parses. */
  function AdminLine(judge: Judge, event: string, line: string): LineEffect {
    match ParseSseLine(line)
    case EventLine(name) => LineEffect(name, None, false)
    case DataLine(data) => if judge.parses(data) then Dispatched(judge, event, data) else LineEffect(event, None, false)
    case OtherLine => LineEffect(event, None, false)
  }

  /** How a reader treats lines. */
  function Steps(reader: Reader, judge: Judge): (string, string) -> LineEffect {
    (event, line) =>
      match reader
      case Widget => WidgetLine(judge, event, line)
      case Admin => AdminLine(judge, event, line)
  }

  function Optional<T>(o: Option<T>): seq<T> {
    match o
    case None => []
    case Some(x) => [x]
  }

  /** How far reading has come: the event name carried on, the frames handled, and whether a handler threw. */
  datatype Pass = Pass(event: string, frames: seq<Frame>, stopped: bool)

  const START := Pass("", [], false)

  /** A line read after a handler threw has no effect. */
  function Advance(step: (string, string) -> LineEffect, pass: Pass, line: string): Pass {
    if pass.stopped then pass
    else
      var effect := step(pass.event, line);
      Pass(effect.event, pass.frames + Optional(effect.handled), effect.stops)
  }

  /** One pass over complete lines. */
  function OnePass(step: (string, string) -> LineEffect, from: Pass, lines: seq<string>): Pass {
    if lines == [] then from
    else Advance(step, OnePass(step, from, lines[..|lines| - 1]), lines[|lines| - 1])
  }

  /** The lines of a text that a line feed ends; an unfinished last line is never read. */
  function CompleteLines(text: string): seq<string> {
    SplitLines(text).lines
  }

  function ReadText(reader: Reader, judge: Judge, text: string): Pass {
    OnePass(Steps(reader, judge), START, CompleteLines(text))
  }

  lemma OnePassSnoc(step: (string, string) -> LineEffect, from: Pass, lines: seq<string>, line: string)
    ensures OnePass(step, from, lines + [line]) == Advance(step, OnePass(step, from, lines), line)
  {
    assert (lines + [line])[..|lines|] == lines;
  }

  lemma OnePassNext(step: (string, string) -> LineEffect, from: Pass, lines: seq<string>, i: nat)
    requires i < |lines|
    ensures OnePass(step, from, lines[..i + 1]) == Advance(step, OnePass(step, from, lines[..i]), lines[i])
  {
    assert lines[..i + 1] == lines[..i] + [lines[i]];
    OnePassSnoc(step, from, lines[..i], lines[i]);
  }

  lemma {:induction false} OnePassJoins(step: (string, string) -> LineEffect, from: Pass, a: seq<string>, b: seq<string>)
    ensures OnePass(step, from, a + b) == OnePass(step, OnePass(step, from, a), b)
    decreases |b|
  {
    if b == [] {
      assert a + b == a;
    } else {
      var front, last := b[..|b| - 1], b[|b| - 1];
      assert a + b == (a + front) + [last];
      OnePassJoins(step, from, a, front);
      OnePassSnoc(step, from, a + front, last);
    }
  }

  lemma {:induction false} StoppedStays(step: (string, string) -> LineEffect, from: Pass, lines: seq<string>)
    requires from.stopped
    ensures OnePass(step, from, lines) == from
  {
    if lines != [] {
      StoppedStays(step, from, lines[..|lines| - 1]);
    }
  }

  lemma StoppedAt(step: (string, string) -> LineEffect, from: Pass, lines: seq<string>, i: nat)
    requires i <= |lines| && OnePass(step, from, lines[..i]).stopped
    ensures OnePass(step, from, lines) == OnePass(step, from, lines[..i])
  {
    assert lines[..i] + lines[i..] == lines;
    OnePassJoins(step, from, lines[..i], lines[i..]);
    StoppedStays(step, OnePass(step, from, lines[..i]), lines[i..]);
  }

  /** Reading the next chunk continues the pass from the unfinished line. */
  lemma ChunkContinues(reader: Reader, judge: Judge, text: string, chunk: string)
    ensures var pieces := SplitLines(SplitLines(text).rest + chunk);
            && ReadText(reader, judge, text + chunk)
               == OnePass(Steps(reader, judge), ReadText(reader, judge, text), pieces.lines)
            && SplitLines(text + chunk).rest == pieces.rest
  {
    SplitResumes(text, chunk);
    var pieces := SplitLines(SplitLines(text).rest + chunk);
    assert CompleteLines(text + chunk) == CompleteLines(text) + pieces.lines;
    OnePassJoins(Steps(reader, judge), START, CompleteLines(text), pieces.lines);
  }

  method ReadWidgetLines(judge: Judge, pass: Pass, lines: seq<string>) returns (next: Pass)
    requires !pass.stopped
    ensures next == OnePass(Steps(Widget, judge), pass, lines)
  {
    next := pass;
    for i := 0 to |lines|
      invariant !next.stopped && next == OnePass(Steps(Widget, judge), pass, lines[..i])
    {
      OnePassNext(Steps(Widget, judge), pass, lines, i);
      if "event: " <= lines[i] {
        next := next.(event := Trim(lines[i][7..]));
      } else if "data: " <= lines[i] {
        var data := lines[i][6..];
        if judge.parses(data) {
          if judge.throws(next.event, data) {
            next := next.(stopped := true);
            StoppedAt(Steps(Widget, judge), pass, lines, i + 1);
            return;
          }
          next := next.(frames := next.frames + [Frame(next.event, data)]);
        }
        next := next.(event := "");
      } else if Trim(lines[i]) == "" {
        next := next.(event := "");
      }
    }
    assert lines[..|lines|] == lines;
  }

  /** The result depends on the text alone, not on how it arrives in chunks; a handler that throws ends the reading. */
  method ReadWidgetStream(judge: Judge, chunks: seq<string>) returns (pass: Pass)
    ensures pass == ReadText(Widget, judge, Concat(chunks))
  {
    pass := START;
    var buffer := "";
    for c := 0 to |chunks|
      invariant buffer == SplitLines(Concat(chunks[..c])).rest
      invariant !pass.stopped && pass == ReadText(Widget, judge, Concat(chunks[..c]))
    {
      NextChunk(chunks, c);
      ChunkContinues(Widget, judge, Concat(chunks[..c]), chunks[c]);
      var pieces := SplitLines(buffer + chunks[c]);
      buffer := pieces.rest;
      pass := ReadWidgetLines(judge, pass, pieces.lines);
      if pass.stopped {
        StoppedEarly(Widget, judge, chunks, c + 1);
        return;
      }
    }
    assert chunks[..|chunks|] == chunks;
  }

  lemma NextChunk(chunks: seq<string>, c: nat)
    requires c < |chunks|
    ensures Concat(chunks[..c + 1]) == Concat(chunks[..c]) + chunks[c]
  {
    assert chunks[..c + 1] == chunks[..c] + [chunks[c]];
    ConcatSnoc(chunks[..c], chunks[c]);
  }

  /** What arrives after a handler threw makes no difference. */
  lemma {:induction false} StoppedEarly(reader: Reader, judge: Judge, chunks: seq<string>, c: nat)
    requires c <= |chunks| && ReadText(reader, judge, Concat(chunks[..c])).stopped
    ensures ReadText(reader, judge, Concat(chunks)) == ReadText(reader, judge, Concat(chunks[..c]))
    decreases |chunks| - c
  {
    if c == |chunks| {
      assert chunks[..c] == chunks;
    } else {
      NextChunk(chunks, c);
      ChunkContinues(reader, judge, Concat(chunks[..c]), chunks[c]);
      StoppedStays(Steps(reader, judge), ReadText(reader, judge, Concat(chunks[..c])),
                   SplitLines(SplitLines(Concat(chunks[..c])).rest + chunks[c]).lines);
      StoppedEarly(reader, judge, chunks, c + 1);
    }
  }

  method ReadAdminLines(judge: Judge, pass: Pass, lines: seq<string>) returns (next: Pass)
    requires !pass.stopped
    ensures next == OnePass(Steps(Admin, judge), pass, lines)
  {
    next := pass;
    for i := 0 to |lines|
      invariant !next.stopped && next == OnePass(Steps(Admin, judge), pass, lines[..i])
    {
      OnePassNext(Steps(Admin, judge), pass, lines, i);
      match ParseSseLine(lines[i]) {
        case EventLine(name) =>
          next := next.(event := name);
        case DataLine(data) =>
          if judge.parses(data) {
            if judge.throws(next.event, data) {
              next := next.(stopped := true);
              StoppedAt(Steps(Admin, judge), pass, lines, i + 1);
              return;
            }
            next := Pass("", next.frames + [Frame(next.event, data)], false);
          }
        case OtherLine =>
      }
    }
    assert lines[..|lines|] == lines;
  }

  /** The admin panel's reader, with the same independence of chunking. */
  method ReadAdminStream(judge: Judge, chunks: seq<string>) returns (pass: Pass)
    ensures pass == ReadText(Admin, judge, Concat(chunks))
  {
    pass := START;
    var buffer := "";
    for c := 0 to |chunks|
      invariant buffer == SplitLines(Concat(chunks[..c])).rest
      invariant !pass.stopped && pass == ReadText(Admin, judge, Concat(chunks[..c]))
    {
      NextChunk(chunks, c);
      ChunkContinues(Admin, judge, Concat(chunks[..c]), chunks[c]);
      var pieces := SplitLines(buffer + chunks[c]);
      buffer := pieces.rest;
      pass := ReadAdminLines(judge, pass, pieces.lines);
      if pass.stopped {
        StoppedEarly(Admin, judge, chunks, c + 1);
        return;
      }
    }
    assert chunks[..|chunks|] == chunks;
  }

  // ----- Printed streams

  /** A frame that the line format can carry: no line feed inside. */
  predicate Printable(f: Frame) {
    '\n' !in f.event && '\n' !in f.data
  }

  /** A frame as it is read, without white space around its name. */
  function Trimmed(f: Frame): Frame {
    f.(event := Trim(f.event))
  }

  function PrintFrame(f: Frame): string {
    "event: " + f.event + "\n" + "data: " + f.data + "\n" + "\n"
  }

  function Print(frames: seq<Frame>): string {
    if frames == [] then "" else PrintFrame(frames[0]) + Print(frames[1..])
  }

  /** The frames whose data parses, under their trimmed names, up to one whose handler throws. */
  function Received(judge: Judge, frames: seq<Frame>): seq<Frame> {
    if frames == [] then []
    else
      var f := Trimmed(frames[0]);
      if !judge.parses(f.data) then Received(judge, frames[1..])
      else if judge.throws(f.event, f.data) then []
      else [f] + Received(judge, frames[1..])
  }

  lemma PrintedFrameLines(f: Frame, rest: string)
    requires Printable(f)
    ensures CompleteLines(PrintFrame(f) + rest)
         == ["event: " + f.event, "data: " + f.data, ""] + CompleteLines(rest)
  {
    var e, d := "event: " + f.event, "data: " + f.data;
    var tail := "" + "\n" + rest;
    assert PrintFrame(f) + rest == e + "\n" + (d + "\n" + tail);
    SplitOneLine(e, d + "\n" + tail);
    SplitOneLine(d, tail);
    SplitOneLine("", rest);
  }

  lemma PrintedNameParses(name: string)
    ensures ParseSseLine("event: " + name) == EventLine(Trim(name))
  {
    assert ("event: " + name)[7..] == name;
  }

  lemma PrintedDataParses(data: string)
    ensures ParseSseLine("data: " + data) == DataLine(data)
  {
    var d := "data: " + data;
    assert d[6..] == data && d[0] != "event: "[0];
  }

  /** A line names an event exactly when it starts with the field name, a colon and a space; likewise for data. */
  lemma EventLineIff(line: string)
    ensures ParseSseLine(line).EventLine? <==> exists name :: line == "event: " + name
    ensures forall name :: line == "event: " + name ==> ParseSseLine(line) == EventLine(Trim(name))
  {
    if "event: " <= line {
      assert line == "event: " + line[7..];
    }
    forall name | line == "event: " + name
      ensures ParseSseLine(line) == EventLine(Trim(name))
    {
      PrintedNameParses(name);
    }
  }

  lemma DataLineIff(line: string, data: string)
    ensures ParseSseLine(line) == DataLine(data) <==> line == "data: " + data
  {
    if "data: " <= line {
      assert line == "data: " + line[6..];
    }
    if line == "data: " + data {
      PrintedDataParses(data);
    }
  }

  lemma NameRead(reader: Reader, judge: Judge, from: Pass, name: string)
    requires !from.stopped
    ensures Advance(Steps(reader, judge), from, "event: " + name) == Pass(Trim(name), from.frames, false)
  {
    PrintedNameParses(name);
    assert from.frames + [] == from.frames;
  }

  lemma DataRead(reader: Reader, judge: Judge, from: Pass, data: string)
    requires !from.stopped
    ensures var next := Advance(Steps(reader, judge), from, "data: " + data);
            && next.stopped == (judge.parses(data) && judge.throws(from.event, data))
            && next.frames == from.frames + if judge.parses(data) && !next.stopped then [Frame(from.event, data)] else []
  {
    PrintedDataParses(data);
  }

  lemma BlankRead(reader: Reader, judge: Judge, from: Pass)
    ensures Advance(Steps(reader, judge), from, "").frames == from.frames
    ensures Advance(Steps(reader, judge), from, "").stopped == from.stopped
  {
    assert from.frames + [] == from.frames;
  }

  /** Whatever name a reader still carries, a printed frame is dispatched under its own name, trimmed. */
  lemma FrameRead(reader: Reader, judge: Judge, from: Pass, f: Frame)
    requires Printable(f) && !from.stopped
    ensures var next := OnePass(Steps(reader, judge), from, ["event: " + f.event, "data: " + f.data, ""]);
            && next.stopped == (judge.parses(f.data) && judge.throws(Trim(f.event), f.data))
            && next.frames == from.frames + if judge.parses(f.data) && !next.stopped then [Trimmed(f)] else []
  {
    var step := Steps(reader, judge);
    var e, d := "event: " + f.event, "data: " + f.data;
    OnePassOfThree(step, from, e, d, "");
    NameRead(reader, judge, from, f.event);
    DataRead(reader, judge, Pass(Trim(f.event), from.frames, false), f.data);
    BlankRead(reader, judge, Advance(step, Pass(Trim(f.event), from.frames, false), d));
  }

  lemma OnePassOfThree(step: (string, string) -> LineEffect, from: Pass, a: string, b: string, c: string)
    ensures OnePass(step, from, [a, b, c]) == Advance(step, Advance(step, Advance(step, from, a), b), c)
  {
    OnePassSnoc(step, from, [], a);
    assert [] + [a] == [a];
    OnePassSnoc(step, from, [a], b);
    assert [a] + [b] == [a, b];
    OnePassSnoc(step, from, [a, b], c);
    assert [a, b] + [c] == [a, b, c];
  }

  lemma {:induction false} PrintedStreamContinues(reader: Reader, judge: Judge, from: Pass, frames: seq<Frame>)
    requires !from.stopped && forall f :: f in frames ==> Printable(f)
    ensures OnePass(Steps(reader, judge), from, CompleteLines(Print(frames))).frames == from.frames + Received(judge, frames)
    decreases |frames|
  {
    if frames == [] {
      assert from.frames + [] == from.frames;
    } else {
      var f, rest := frames[0], Print(frames[1..]);
      PrintedFrameLines(f, rest);
      var head := ["event: " + f.event, "data: " + f.data, ""];
      OnePassJoins(Steps(reader, judge), from, head, CompleteLines(rest));
      FrameRead(reader, judge, from, f);
      var next := OnePass(Steps(reader, judge), from, head);
      if next.stopped {
        StoppedStays(Steps(reader, judge), next, CompleteLines(rest));
      } else {
        PrintedStreamContinues(reader, judge, next, frames[1..]);
        var read, more := Trimmed(f), Received(judge, frames[1..]);
        assert from.frames + [read] + more == from.frames + ([read] + more);
        assert from.frames + [] == from.frames;
      }
    }
  }

  /** Both readers return exactly the printed frames whose data parses, until a handler throws. */
  lemma PrintedStreamReadsBack(reader: Reader, judge: Judge, frames: seq<Frame>)
    requires forall f :: f in frames ==> Printable(f)
    ensures ReadText(reader, judge, Print(frames)).frames == Received(judge, frames)
  {
    PrintedStreamContinues(reader, judge, START, frames);
    assert [] + Received(judge, frames) == Received(judge, frames);
  }

  lemma {:induction false} AllReceived(judge: Judge, frames: seq<Frame>)
    requires forall f :: f in frames ==> Trim(f.event) == f.event && judge.parses(f.data) && !judge.throws(f.event, f.data)
    ensures Received(judge, frames) == frames
  {
    if frames != [] {
      AllReceived(judge, frames[1..]);
    }
  }

  /** However the text is cut into chunks, reading a printed stream gives the frames back. */
  lemma AnyChunkingReadsBack(reader: Reader, judge: Judge, frames: seq<Frame>, chunks: seq<string>)
    requires forall f :: f in frames ==> Printable(f) && Trim(f.event) == f.event
    requires forall f :: f in frames ==> judge.parses(f.data) && !judge.throws(f.event, f.data)
    requires Concat(chunks) == Print(frames)
    ensures ReadText(reader, judge, Concat(chunks)).frames == frames
  {
    PrintedStreamReadsBack(reader, judge, frames);
    AllReceived(judge, frames);
  }
}
