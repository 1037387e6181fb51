/** When the widget's and the admin panel's stream readers handle the same frames, for every sequence of lines. */
module ReadersCompared {
  import opened Strings
  import opened EventStream

  /** What a line is to the readers; the last three are handled by neither. */
  datatype Kind = Name(event: string) | Parsed(data: string) | Unparsed | Blank | Ignored

  function KindOf(parses: string -> bool, line: string): Kind {
    match ParseSseLine(line)
    case EventLine(name) => Name(name)
    case DataLine(data) => if parses(data) then Parsed(data) else Unparsed
    case OtherLine => if Trim(line) == "" then Blank else Ignored
  }

  function Kinds(parses: string -> bool, lines: seq<string>): (kinds: seq<Kind>)
    ensures |kinds| == |lines|
  {
    if lines == [] then [] else Kinds(parses, lines[..|lines| - 1]) + [KindOf(parses, lines[|lines| - 1])]
  }

  /** What one line does to a reader that has not ended. */
  function AfterKind(reader: Reader, throws: (string, string) -> bool, pass: Pass, kind: Kind): Pass {
    match kind
    case Name(event) => pass.(event := event)
    case Parsed(data) =>
      if throws(pass.event, data) then pass.(stopped := true)
      else Pass("", pass.frames + [Frame(pass.event, data)], false)
    case Ignored => pass
    case _ => if reader.Widget? then pass.(event := "") else pass
  }

  function ReadKinds(reader: Reader, throws: (string, string) -> bool, kinds: seq<Kind>): Pass {
    if kinds == [] then START
    else
      var before := ReadKinds(reader, throws, kinds[..|kinds| - 1]);
      if before.stopped then before else AfterKind(reader, throws, before, kinds[|kinds| - 1])
  }

  function PassOf(reader: Reader, judge: Judge, lines: seq<string>): Pass {
    OnePass(Steps(reader, judge), START, lines)
  }

  lemma AdvanceByKind(reader: Reader, judge: Judge, pass: Pass, line: string)
    requires !pass.stopped
    ensures Advance(Steps(reader, judge), pass, line) == AfterKind(reader, judge.throws, pass, KindOf(judge.parses, line))
  {
    assert pass.frames + [] == pass.frames;
  }

  lemma {:induction false} ReadsByKind(reader: Reader, judge: Judge, lines: seq<string>)
    ensures PassOf(reader, judge, lines) == ReadKinds(reader, judge.throws, Kinds(judge.parses, lines))
  {
    if lines != [] {
      var front, last := lines[..|lines| - 1], lines[|lines| - 1];
      ReadsByKind(reader, judge, front);
      assert Kinds(judge.parses, lines)[..|front|] == Kinds(judge.parses, front);
      if !PassOf(reader, judge, front).stopped {
        AdvanceByKind(reader, judge, PassOf(reader, judge, front), last);
      }
    }
  }

  // ----- Stray lines

  predicate OnlyWidgetForgets(kind: Kind) {
    kind.Unparsed? || kind.Blank?
  }

  /** After such a line neither reader carries the name it had before. */
  predicate Renames(kind: Kind) {
    kind.Name? || kind.Parsed?
  }

  /** The event name that data on the next line would be dispatched under, if nothing forgot it in between. */
  function NameBefore(kinds: seq<Kind>): string {
    if kinds == [] then ""
    else
      match kinds[|kinds| - 1]
      case Name(event) => event
      case Parsed(_) => ""
      case _ => NameBefore(kinds[..|kinds| - 1])
  }

  /** A blank line or unparsable data stands after the last name, which is not empty, and before the next line. */
  predicate Stray(kinds: seq<Kind>) {
    if kinds == [] || Renames(kinds[|kinds| - 1]) then false
    else Stray(kinds[..|kinds| - 1]) || (NameBefore(kinds) != "" && OnlyWidgetForgets(kinds[|kinds| - 1]))
  }

  /** Spelled out: a name, later a line only the widget forgets at, and no other name or data after the first. */
  lemma {:induction false} StrayMeans(kinds: seq<Kind>) returns (i: nat, k: nat)
    requires Stray(kinds)
    ensures i < k < |kinds| && kinds[i].Name? && kinds[i].event != "" && OnlyWidgetForgets(kinds[k])
    ensures forall m :: i < m < |kinds| ==> !Renames(kinds[m])
  {
    var front := kinds[..|kinds| - 1];
    if Stray(front) {
      i, k := StrayMeans(front);
    } else {
      i := NameStands(front);
      k := |front|;
    }
  }

  lemma {:induction false} NameStands(kinds: seq<Kind>) returns (i: nat)
    requires NameBefore(kinds) != ""
    ensures i < |kinds| && kinds[i] == Name(NameBefore(kinds))
    ensures forall m :: i < m < |kinds| ==> !Renames(kinds[m])
  {
    if kinds[|kinds| - 1].Name? {
      i := |kinds| - 1;
    } else {
      i := NameStands(kinds[..|kinds| - 1]);
    }
  }

  lemma {:induction false} StrayIf(kinds: seq<Kind>, i: nat, k: nat)
    requires i < k < |kinds| && kinds[i].Name? && kinds[i].event != "" && OnlyWidgetForgets(kinds[k])
    requires forall m :: i < m < |kinds| ==> !Renames(kinds[m])
    ensures Stray(kinds)
  {
    var front := kinds[..|kinds| - 1];
    if k < |front| {
      StrayIf(front, i, k);
    } else {
      NameCarries(kinds, i);
    }
  }

  lemma {:induction false} NameCarries(kinds: seq<Kind>, i: nat)
    requires i < |kinds| && kinds[i].Name? && forall m :: i < m < |kinds| ==> !Renames(kinds[m])
    ensures NameBefore(kinds) == kinds[i].event
  {
    if i < |kinds| - 1 {
      NameCarries(kinds[..|kinds| - 1], i);
    }
  }

  // ----- The comparison

  /** What a reader reads a data line under: the admin panel its name, the widget that or nothing. */
  function NameFor(reader: Reader, kinds: seq<Kind>): string {
    if reader.Widget? && Stray(kinds) then "" else NameBefore(kinds)
  }

  /** At data on line n both handlers throw, or neither does and no stray line separates it from its name. */
  predicate Alike(widget: (string, string) -> bool, admin: (string, string) -> bool, kinds: seq<Kind>, n: nat)
    requires n < |kinds|
  {
    kinds[n].Parsed? ==>
      if admin(NameBefore(kinds[..n]), kinds[n].data) then widget(NameFor(Widget, kinds[..n]), kinds[n].data)
      else !widget(NameFor(Widget, kinds[..n]), kinds[n].data) && !Stray(kinds[..n])
  }

  /** Before line n a handler of both readers threw. */
  predicate Ended(admin: (string, string) -> bool, kinds: seq<Kind>, n: nat)
    requires n <= |kinds|
  {
    exists j :: 0 <= j < n && kinds[j].Parsed? && admin(NameBefore(kinds[..j]), kinds[j].data)
  }

  lemma {:induction false} CarriesName(reader: Reader, throws: (string, string) -> bool, kinds: seq<Kind>)
    requires !ReadKinds(reader, throws, kinds).stopped
    ensures ReadKinds(reader, throws, kinds).event == NameFor(reader, kinds)
  {
    if kinds != [] {
      CarriesName(reader, throws, kinds[..|kinds| - 1]);
      StrayNeedsName(kinds[..|kinds| - 1]);
      StrayNeedsName(kinds);
    }
  }

  lemma {:induction false} StrayNeedsName(kinds: seq<Kind>)
    ensures Stray(kinds) ==> NameBefore(kinds) != ""
  {
    if kinds != [] {
      StrayNeedsName(kinds[..|kinds| - 1]);
    }
  }

  lemma ReadNext(reader: Reader, throws: (string, string) -> bool, kinds: seq<Kind>, n: nat)
    requires n < |kinds|
    ensures var before := ReadKinds(reader, throws, kinds[..n]);
            ReadKinds(reader, throws, kinds[..n + 1])
            == if before.stopped then before else AfterKind(reader, throws, before, kinds[n])
  {
    assert kinds[..n + 1][..n] == kinds[..n];
  }

  /** The frames differ already, or one reader has ended with fewer frames than the other has. */
  ghost predicate Apart(w: Pass, a: Pass) {
    || (exists i :: 0 <= i < |w.frames| && i < |a.frames| && w.frames[i] != a.frames[i])
    || (w.stopped && |w.frames| < |a.frames|)
    || (a.stopped && |a.frames| < |w.frames|)
  }

  lemma ApartStays(w: Pass, a: Pass, w': Pass, a': Pass)
    requires Apart(w, a) && w.frames <= w'.frames && a.frames <= a'.frames
    requires (w.stopped ==> w' == w) && (a.stopped ==> a' == a)
    ensures Apart(w', a')
  {
    if i :| 0 <= i < |w.frames| && i < |a.frames| && w.frames[i] != a.frames[i] {
      assert w'.frames[i] == w.frames[i] && a'.frames[i] == a.frames[i];
    }
  }

  /** Read alike so far. */
  predicate InStep(w: Pass, a: Pass) {
    w.frames == a.frames && w.stopped == a.stopped
  }

  /** One line, read by readers in step that have not ended. */
  lemma OneKind(widget: (string, string) -> bool, admin: (string, string) -> bool, kinds: seq<Kind>, n: nat, w: Pass, a: Pass)
    requires n < |kinds| && InStep(w, a) && !w.stopped
    requires w.event == NameFor(Widget, kinds[..n]) && a.event == NameBefore(kinds[..n])
    ensures var w', a' := AfterKind(Widget, widget, w, kinds[n]), AfterKind(Admin, admin, a, kinds[n]);
            && (if Alike(widget, admin, kinds, n) then InStep(w', a') else Apart(w', a'))
            && (Alike(widget, admin, kinds, n) && w'.stopped ==> kinds[n].Parsed? && admin(a.event, kinds[n].data))
  {
    if kinds[n].Parsed? {
      var data := kinds[n].data;
      StrayNeedsName(kinds[..n]);
      assert (w.frames + [Frame(w.event, data)])[|w.frames|] == Frame(w.event, data);
      assert (a.frames + [Frame(a.event, data)])[|a.frames|] == Frame(a.event, data);
    }
  }

  ghost predicate AlikeUpTo(widget: (string, string) -> bool, admin: (string, string) -> bool, kinds: seq<Kind>, n: nat)
    requires n <= |kinds|
  {
    forall j :: 0 <= j < n && !Ended(admin, kinds, j) ==> Alike(widget, admin, kinds, j)
  }

  /** After n lines the readers are in step if all data was alike until they ended, and apart for good otherwise. */
  lemma {:induction false} InStepOrApart(widget: (string, string) -> bool, admin: (string, string) -> bool,
                                         kinds: seq<Kind>, n: nat)
    requires n <= |kinds|
    ensures var w, a := ReadKinds(Widget, widget, kinds[..n]), ReadKinds(Admin, admin, kinds[..n]);
            if AlikeUpTo(widget, admin, kinds, n) then InStep(w, a) && (a.stopped <==> Ended(admin, kinds, n))
            else Apart(w, a)
  {
    if n > 0 {
      var k := n - 1;
      var w, a := ReadKinds(Widget, widget, kinds[..k]), ReadKinds(Admin, admin, kinds[..k]);
      InStepOrApart(widget, admin, kinds, k);
      ReadNext(Widget, widget, kinds, k);
      ReadNext(Admin, admin, kinds, k);
      if !AlikeUpTo(widget, admin, kinds, k) {
        ApartStays(w, a, ReadKinds(Widget, widget, kinds[..n]), ReadKinds(Admin, admin, kinds[..n]));
      } else if !w.stopped {
        CarriesName(Widget, widget, kinds[..k]);
        CarriesName(Admin, admin, kinds[..k]);
        OneKind(widget, admin, kinds, k, w, a);
      }
    }
  }

  /** The readers handle the same frames exactly when, until a handler throws for both, all data lines are alike. */
  lemma SameFramesIff(parses: string -> bool, widget: (string, string) -> bool, admin: (string, string) -> bool,
                      lines: seq<string>)
    ensures var kinds := Kinds(parses, lines);
            PassOf(Widget, Judge(parses, widget), lines).frames == PassOf(Admin, Judge(parses, admin), lines).frames
            <==> forall n :: 0 <= n < |kinds| && !Ended(admin, kinds, n) ==> Alike(widget, admin, kinds, n)
  {
    var kinds := Kinds(parses, lines);
    ReadsByKind(Widget, Judge(parses, widget), lines);
    ReadsByKind(Admin, Judge(parses, admin), lines);
    InStepOrApart(widget, admin, kinds, |kinds|);
    assert kinds[..|kinds|] == kinds;
  }

  /**
   When no handler throws, the readers handle the same frames exactly when no blank line and no unparsable data
   stands between an event name and the data dispatched under it.
   */
  lemma SameFramesIffNoneStray(parses: string -> bool, widget: (string, string) -> bool, admin: (string, string) -> bool,
                               lines: seq<string>)
    requires forall event, data :: !widget(event, data)
    requires forall event, data :: !admin(event, data)
    ensures var kinds := Kinds(parses, lines);
            PassOf(Widget, Judge(parses, widget), lines).frames == PassOf(Admin, Judge(parses, admin), lines).frames
            <==> forall n :: 0 <= n < |kinds| && kinds[n].Parsed? ==> !Stray(kinds[..n])
  {
    SameFramesIff(parses, widget, admin, lines);
    var kinds := Kinds(parses, lines);
    forall n | 0 <= n < |kinds|
      ensures Alike(widget, admin, kinds, n) <==> (kinds[n].Parsed? ==> !Stray(kinds[..n]))
      ensures !Ended(admin, kinds, n)
    {}
  }

  /** A blank line between name and data: the widget handles the data under no name, the admin panel under its name. */
  lemma BlankLineDiffers(parses: string -> bool, widget: (string, string) -> bool, admin: (string, string) -> bool,
                         name: string, data: string)
    requires name != "" && Trim(name) == name && parses(data) && !widget("", data) && !admin(name, data)
    ensures var lines := ["event: " + name, "", "data: " + data];
            && PassOf(Widget, Judge(parses, widget), lines).frames == [Frame("", data)]
            && PassOf(Admin, Judge(parses, admin), lines).frames == [Frame(name, data)]
  {
    AcrossBlank(Widget, Judge(parses, widget), name, data);
    AcrossBlank(Admin, Judge(parses, admin), name, data);
  }

  lemma AcrossBlank(reader: Reader, judge: Judge, name: string, data: string)
    requires Trim(name) == name && judge.parses(data)
    requires !judge.throws(if reader.Widget? then "" else name, data)
    ensures PassOf(reader, judge, ["event: " + name, "", "data: " + data]).frames
         == [Frame(if reader.Widget? then "" else name, data)]
  {
    var step := Steps(reader, judge);
    OnePassOfThree(step, START, "event: " + name, "", "data: " + data);
    NameRead(reader, judge, START, name);
    var named := Pass(name, [], false);
    AdvanceByKind(reader, judge, named, "");
    assert KindOf(judge.parses, "") == Blank;
    DataRead(reader, judge, Advance(step, named, ""), data);
  }
}
