/** The widget's text engine: escaping for HTML, and turning lines into paragraphs and bullet lists. */
module WidgetMarkdown {
  import opened Strings

  // ----- Escaping

  function ReplaceAll(s: string, c: char, entity: string): string {
    if s == "" then "" else (if s[0] == c then entity else [s[0]]) + ReplaceAll(s[1..], c, entity)
  }

  /** The ampersand first, so that the entities written later are not escaped again. */
  function EscapeHtml(text: string): string {
    ReplaceAll(ReplaceAll(ReplaceAll(ReplaceAll(text, '&', "&amp;"), '<', "&lt;"), '>', "&gt;"), '"', "&quot;")
  }

  function Entity(c: char): string {
    if c == '&' then "&amp;" else if c == '<' then "&lt;" else if c == '>' then "&gt;" else if c == '"' then "&quot;" else [c]
  }

  /** Every character replaced by its entity, all at once. */
  function EscapeEach(text: string): string {
    if text == "" then "" else Entity(text[0]) + EscapeEach(text[1..])
  }

  function Unescape(html: string): string
    decreases |html|
  {
    if html == "" then ""
    else if "&amp;" <= html then "&" + Unescape(html[5..])
    else if "&lt;" <= html then "<" + Unescape(html[4..])
    else if "&gt;" <= html then ">" + Unescape(html[4..])
    else if "&quot;" <= html then "\"" + Unescape(html[6..])
    else [html[0]] + Unescape(html[1..])
  }

  lemma {:induction false} ReplaceAllJoins(a: string, b: string, c: char, entity: string)
    ensures ReplaceAll(a + b, c, entity) == ReplaceAll(a, c, entity) + ReplaceAll(b, c, entity)
  {
    if a == "" {
      assert a + b == b;
    } else {
      assert (a + b)[1..] == a[1..] + b;
      ReplaceAllJoins(a[1..], b, c, entity);
    }
  }

  lemma {:induction false} ReplaceAbsent(s: string, c: char, entity: string)
    requires c !in s
    ensures ReplaceAll(s, c, entity) == s
  {
    if s != "" {
      ReplaceAbsent(s[1..], c, entity);
    }
  }

  lemma ReplaceOne(c: char, entity: string)
    ensures ReplaceAll([c], c, entity) == entity
  {
    assert [c][1..] == "";
  }

  lemma EscapeJoins(a: string, b: string)
    ensures EscapeHtml(a + b) == EscapeHtml(a) + EscapeHtml(b)
  {
    ReplaceAllJoins(a, b, '&', "&amp;");
    var a1, b1 := ReplaceAll(a, '&', "&amp;"), ReplaceAll(b, '&', "&amp;");
    ReplaceAllJoins(a1, b1, '<', "&lt;");
    var a2, b2 := ReplaceAll(a1, '<', "&lt;"), ReplaceAll(b1, '<', "&lt;");
    ReplaceAllJoins(a2, b2, '>', "&gt;");
    ReplaceAllJoins(ReplaceAll(a2, '>', "&gt;"), ReplaceAll(b2, '>', "&gt;"), '"', "&quot;");
  }

  /** An entity survives the replacements that follow when none of their characters is in it. */
  lemma ReplacedThenKept(c: char, entity: string)
    requires '<' !in entity && '>' !in entity && '"' !in entity
    ensures ReplaceAll(ReplaceAll(ReplaceAll(ReplaceAll([c], c, entity), '<', "&lt;"), '>', "&gt;"), '"', "&quot;") == entity
  {
    ReplaceOne(c, entity);
    ReplaceAbsent(entity, '<', "&lt;");
    ReplaceAbsent(entity, '>', "&gt;");
    ReplaceAbsent(entity, '"', "&quot;");
  }

  lemma EscapeLess(c: char)
    requires c == '<'
    ensures EscapeHtml([c]) == "&lt;"
  {
    var e := "&lt;";
    ReplaceAbsent([c], '&', "&amp;");
    ReplaceOne(c, e);
    ReplaceAbsent(e, '>', "&gt;");
    ReplaceAbsent(e, '"', "&quot;");
  }

  lemma EscapeGreater(c: char)
    requires c == '>'
    ensures EscapeHtml([c]) == "&gt;"
  {
    var e := "&gt;";
    ReplaceAbsent([c], '&', "&amp;");
    ReplaceAbsent([c], '<', "&lt;");
    ReplaceOne(c, e);
    ReplaceAbsent(e, '"', "&quot;");
  }

  lemma EscapeOther(c: char)
    requires c !in "&<>"
    ensures EscapeHtml([c]) == Entity(c)
  {
    ReplaceAbsent([c], '&', "&amp;");
    ReplaceAbsent([c], '<', "&lt;");
    ReplaceAbsent([c], '>', "&gt;");
    if c == '"' {
      ReplaceOne(c, "&quot;");
    } else {
      ReplaceAbsent([c], '"', "&quot;");
    }
  }

  lemma EscapeOne(c: char)
    ensures EscapeHtml([c]) == Entity(c)
  {
    if c == '&' {
      ReplacedThenKept(c, "&amp;");
    } else if c == '<' {
      EscapeLess(c);
    } else if c == '>' {
      EscapeGreater(c);
    } else {
      EscapeOther(c);
    }
  }

  /** Four replacements in sequence are one simultaneous substitution. */
  lemma {:induction false} SequentialIsSimultaneous(text: string)
    ensures EscapeHtml(text) == EscapeEach(text)
  {
    if text != "" {
      assert text == [text[0]] + text[1..];
      EscapeJoins([text[0]], text[1..]);
      EscapeOne(text[0]);
      SequentialIsSimultaneous(text[1..]);
    }
  }

  lemma DiffersAt(prefix: string, s: string, k: nat)
    requires k < |prefix| && k < |s| && prefix[k] != s[k]
    ensures !(prefix <= s)
  {}

  lemma UnescapeEntity(c: char, rest: string)
    ensures Unescape(Entity(c) + rest) == [c] + Unescape(rest)
  {
    var html := Entity(c) + rest;
    assert html[|Entity(c)|..] == rest;
    if c == '&' {
      assert "&amp;" <= html;
    } else if c == '<' {
      DiffersAt("&amp;", html, 1);
      assert "&lt;" <= html;
    } else if c == '>' {
      DiffersAt("&amp;", html, 1);
      DiffersAt("&lt;", html, 1);
      assert "&gt;" <= html;
    } else if c == '"' {
      DiffersAt("&amp;", html, 1);
      DiffersAt("&lt;", html, 1);
      DiffersAt("&gt;", html, 1);
      assert "&quot;" <= html;
    } else {
      DiffersAt("&amp;", html, 0);
      DiffersAt("&lt;", html, 0);
      DiffersAt("&gt;", html, 0);
      DiffersAt("&quot;", html, 0);
    }
  }

  /** No text is lost in escaping: reading the entities back gives it again. */
  lemma {:induction false} EscapeReadsBack(text: string)
    ensures Unescape(EscapeHtml(text)) == text
  {
    SequentialIsSimultaneous(text);
    if text != "" {
      EscapeReadsBack(text[1..]);
      SequentialIsSimultaneous(text[1..]);
      UnescapeEntity(text[0], EscapeEach(text[1..]));
    }
  }

  lemma {:induction false} EachLeavesNo(c: char, text: string)
    requires c == '<' || c == '>' || c == '"'
    ensures c !in EscapeEach(text)
  {
    if text != "" {
      EachLeavesNo(c, text[1..]);
      assert c !in Entity(text[0]);
    }
  }

  lemma EscapeLeavesNoMarkup(text: string)
    ensures '<' !in EscapeHtml(text) && '>' !in EscapeHtml(text) && '"' !in EscapeHtml(text)
  {
    SequentialIsSimultaneous(text);
    EachLeavesNo('<', text);
    EachLeavesNo('>', text);
    EachLeavesNo('"', text);
  }

  // ----- Lines

  /** What is pushed for the output: list markers, and lines in one of three forms. */
  datatype Piece = OpenList | CloseList | Item(text: string) | Verbatim(line: string) | Paragraph(line: string)

  /** What a line is taken for. */
  datatype Line = PreLine(text: string) | ItemLine(item: string) | BlankLine | TextLine(text: string)

  predicate StartsWith(s: string, prefix: string) {
    prefix <= s
  }

  predicate EndsWith(s: string, suffix: string) {
    |suffix| <= |s| && s[|s| - |suffix|..] == suffix
  }

  function Classify(line: string): Line {
    var trimmed := Trim(line);
    if StartsWith(trimmed, "<pre>") || EndsWith(trimmed, "</pre>") then PreLine(line)
    else if |trimmed| >= 2 && trimmed[0] in "-*" && IsSpace(trimmed[1]) then ItemLine(TrimStart(trimmed[1..]))
    else if trimmed == "" then BlankLine
    else TextLine(line)
  }

  /** The line itself in the output, without list markers; a blank line leaves nothing. */
  function Own(line: Line): seq<Piece> {
    match line
    case PreLine(text) => [Verbatim(text)]
    case ItemLine(item) => [Item(item)]
    case BlankLine => []
    case TextLine(text) => [Paragraph(text)]
  }

  function AllOwn(lines: seq<Line>): seq<Piece> {
    if lines == [] then [] else Own(lines[0]) + AllOwn(lines[1..])
  }

  /** How many items the lines begin with, up to the first line of another kind. */
  function RunLength(lines: seq<Line>): (n: nat)
    ensures n <= |lines| && (n < |lines| ==> !lines[n].ItemLine?)
    ensures forall i :: 0 <= i < n ==> lines[i].ItemLine?
  {
    if lines == [] || !lines[0].ItemLine? then 0 else 1 + RunLength(lines[1..])
  }

  /** One list around every maximal run of items, every other line by itself. */
  function Layout(lines: seq<Line>): seq<Piece>
    decreases |lines|
  {
    if lines == [] then []
    else
      var n := RunLength(lines);
      if n == 0 then Own(lines[0]) + Layout(lines[1..])
      else [OpenList] + AllOwn(lines[..n]) + [CloseList] + Layout(lines[n..])
  }

  /** The marker pushed on the way into or out of a list. */
  function Mark(from: bool, to: bool): seq<Piece> {
    if from == to then [] else if to then [OpenList] else [CloseList]
  }

  /** What is pushed for the rest of the lines, met inside or outside a list. */
  function Pushed(inList: bool, lines: seq<Line>): seq<Piece>
    decreases |lines|
  {
    if lines == [] then Mark(inList, false)
    else Mark(inList, lines[0].ItemLine?) + Own(lines[0]) + Pushed(lines[0].ItemLine?, lines[1..])
  }

  lemma PushedFrom(inList: bool, line: Line, rest: seq<Line>)
    ensures Pushed(inList, [line] + rest) == Mark(inList, line.ItemLine?) + Own(line) + Pushed(line.ItemLine?, rest)
  {
    assert ([line] + rest)[1..] == rest;
  }

  /** One turn of the loop: a marker if the list begins or ends here, then the line itself, if it leaves anything. */
  lemma PushLine(result: seq<Piece>, inList: bool, line: Line, rest: seq<Line>)
    ensures var marked := if inList == line.ItemLine? then result else result + Mark(inList, line.ItemLine?);
            var next := if line.BlankLine? then marked else marked + Own(line);
            result + Pushed(inList, [line] + rest) == next + Pushed(line.ItemLine?, rest)
  {
    PushedFrom(inList, line, rest);
    LeftFirst(result, Mark(inList, line.ItemLine?), Own(line), Pushed(line.ItemLine?, rest));
    assert result + [] == result;
    var marked := result + Mark(inList, line.ItemLine?);
    assert marked + [] == marked;
  }

  lemma {:induction false} PushedInside(lines: seq<Line>, n: nat)
    requires n == RunLength(lines)
    ensures Pushed(true, lines) == AllOwn(lines[..n]) + [CloseList] + Pushed(false, lines[n..])
    decreases |lines|
  {
    if n == 0 {
      assert lines[..0] == [];
      assert lines[0..] == lines;
    } else {
      PushedInside(lines[1..], n - 1);
      TailSlices(lines, n);
      var own := AllOwn(lines[1..n]);
      assert AllOwn(lines[..n]) == Own(lines[0]) + own;
      assert [] + Own(lines[0]) == Own(lines[0]);
      LeftFirst(Own(lines[0]), own, [CloseList], Pushed(false, lines[n..]));
    }
  }

  lemma TailSlices<T>(s: seq<T>, n: nat)
    requires 0 < n <= |s|
    ensures s[..n][1..] == s[1..n] == s[1..][..n - 1] && s[n..] == s[1..][n - 1..]
  {}

  lemma OpensList(lines: seq<Line>)
    requires lines != [] && lines[0].ItemLine?
    ensures Pushed(false, lines) == [OpenList] + Pushed(true, lines)
  {}

  /** Keeping one flag lays the lines out as taking maximal runs of items does. */
  lemma {:induction false} PushedIsLayout(lines: seq<Line>)
    ensures Pushed(false, lines) == Layout(lines)
    decreases |lines|
  {
    if lines != [] {
      var n := RunLength(lines);
      if n == 0 {
        PushedIsLayout(lines[1..]);
        assert [] + Own(lines[0]) == Own(lines[0]);
      } else {
        PushedIsLayout(lines[n..]);
        PushedInside(lines, n);
        OpensList(lines);
        LeftFirst([OpenList], AllOwn(lines[..n]), [CloseList], Layout(lines[n..]));
      }
    }
  }

  lemma LeftFirst(a: seq<Piece>, b: seq<Piece>, c: seq<Piece>, d: seq<Piece>)
    ensures a + (b + c + d) == a + b + c + d
  {}

  function ClassifyAll(lines: seq<string>): (classified: seq<Line>) {
    if lines == [] then [] else [Classify(lines[0])] + ClassifyAll(lines[1..])
  }

  lemma ClassifyFrom(lines: seq<string>, i: nat)
    requires i < |lines|
    ensures ClassifyAll(lines[i..]) == [Classify(lines[i])] + ClassifyAll(lines[i + 1..])
  {
    assert lines[i..][1..] == lines[i + 1..];
  }

  method ProcessLines(lines: seq<string>) returns (result: seq<Piece>)
    ensures result == Layout(ClassifyAll(lines))
  {
    result := [];
    var inList := false;
    assert lines[0..] == lines;
    for i := 0 to |lines|
      invariant result + Pushed(inList, ClassifyAll(lines[i..])) == Pushed(false, ClassifyAll(lines))
    {
      ClassifyFrom(lines, i);
      var line := Classify(lines[i]);
      PushLine(result, inList, line, ClassifyAll(lines[i + 1..]));
      if line.ItemLine? {
        if !inList {
          result := result + [OpenList];
          inList := true;
        }
        result := result + [Item(line.item)];
      } else {
        if inList {
          result := result + [CloseList];
          inList := false;
        }
        if line.PreLine? {
          result := result + [Verbatim(line.text)];
        } else if line.TextLine? {
          result := result + [Paragraph(line.text)];
        }
      }
    }
    assert lines[|lines|..] == [];
    if inList {
      result := result + [CloseList];
    }
    PushedIsLayout(ClassifyAll(lines));
  }

  // ----- What the layout keeps

  datatype Position = Outside | JustOpened | Inside

  /** List markers strictly alternate and end closed, no list is empty, and items stand in lists and nothing else does. */
  predicate WellNested(at: Position, pieces: seq<Piece>)
    decreases |pieces|
  {
    if pieces == [] then at.Outside?
    else
      match pieces[0]
      case OpenList => at.Outside? && WellNested(JustOpened, pieces[1..])
      case CloseList => at.Inside? && WellNested(Outside, pieces[1..])
      case Item(_) => !at.Outside? && WellNested(Inside, pieces[1..])
      case _ => at.Outside? && WellNested(Outside, pieces[1..])
  }

  lemma WellNestedFrom(at: Position, piece: Piece, tail: seq<Piece>)
    ensures WellNested(at, [piece] + tail)
       <==> match piece
            case OpenList => at.Outside? && WellNested(JustOpened, tail)
            case CloseList => at.Inside? && WellNested(Outside, tail)
            case Item(_) => !at.Outside? && WellNested(Inside, tail)
            case _ => at.Outside? && WellNested(Outside, tail)
  {
    assert ([piece] + tail)[1..] == tail;
  }

  /** Marker and line together keep the nesting, whether or not the text was inside a list before. */
  lemma LineWellNested(inList: bool, line: Line, tail: seq<Piece>)
    requires WellNested(if line.ItemLine? then Inside else Outside, tail)
    ensures WellNested(if inList then Inside else Outside, Mark(inList, line.ItemLine?) + Own(line) + tail)
  {
    var mark, own := Mark(inList, line.ItemLine?), Own(line);
    if own != [] {
      WellNestedFrom(Outside, own[0], tail);
      WellNestedFrom(JustOpened, own[0], tail);
      WellNestedFrom(Inside, own[0], tail);
      assert own + tail == [own[0]] + tail;
    } else {
      assert own + tail == tail;
    }
    if mark != [] {
      WellNestedFrom(if inList then Inside else Outside, mark[0], own + tail);
      assert mark + own + tail == [mark[0]] + (own + tail);
    } else {
      assert mark + own + tail == own + tail;
    }
  }

  lemma {:induction false} PushedWellNested(inList: bool, lines: seq<Line>)
    ensures WellNested(if inList then Inside else Outside, Pushed(inList, lines))
    decreases |lines|
  {
    if lines == [] {
      WellNestedFrom(Inside, CloseList, []);
      assert [CloseList] + [] == [CloseList];
    } else {
      PushedWellNested(lines[0].ItemLine?, lines[1..]);
      LineWellNested(inList, lines[0], Pushed(lines[0].ItemLine?, lines[1..]));
    }
  }

  /** Lists are properly delimited, whatever the text. */
  lemma LayoutIsWellNested(lines: seq<Line>)
    ensures WellNested(Outside, Layout(lines))
  {
    PushedWellNested(false, lines);
    PushedIsLayout(lines);
  }

  /** The output without its list markers. */
  function Content(pieces: seq<Piece>): seq<Piece> {
    if pieces == [] then []
    else (if pieces[0].OpenList? || pieces[0].CloseList? then [] else [pieces[0]]) + Content(pieces[1..])
  }

  lemma {:induction false} ContentJoins(a: seq<Piece>, b: seq<Piece>)
    ensures Content(a + b) == Content(a) + Content(b)
  {
    if a == [] {
      assert a + b == b;
    } else {
      assert (a + b)[1..] == a[1..] + b;
      ContentJoins(a[1..], b);
    }
  }

  lemma ContentOfLine(inList: bool, line: Line)
    ensures Content(Mark(inList, line.ItemLine?)) == [] && Content(Own(line)) == Own(line)
  {
    assert forall piece: Piece {:trigger Content([piece])} :: [piece][1..] == [];
  }

  lemma {:induction false} PushedContent(inList: bool, lines: seq<Line>)
    ensures Content(Pushed(inList, lines)) == AllOwn(lines)
    decreases |lines|
  {
    if lines == [] {
      ContentOfLine(inList, BlankLine);
    } else {
      var mark, own := Mark(inList, lines[0].ItemLine?), Own(lines[0]);
      PushedContent(lines[0].ItemLine?, lines[1..]);
      ContentOfLine(inList, lines[0]);
      ContentJoins(mark + own, Pushed(lines[0].ItemLine?, lines[1..]));
      ContentJoins(mark, own);
    }
  }

  /** No line that is not blank is lost, doubled or moved. */
  lemma LayoutKeepsLines(lines: seq<Line>)
    ensures Content(Layout(lines)) == AllOwn(lines)
  {
    PushedContent(false, lines);
    PushedIsLayout(lines);
  }

  // ----- What each line leaves

  /** A dash or a star, white space, and the item. */
  predicate IsItem(trimmed: string, marker: char, space: string, item: string) {
    && (marker == '-' || marker == '*') && space != "" && AllSpace(space)
    && (item == "" || !IsSpace(item[0])) && trimmed == [marker] + space + item
  }

  lemma {:induction false} SpaceIsTrimmed(space: string, item: string)
    requires AllSpace(space) && (item == "" || !IsSpace(item[0]))
    ensures TrimStart(space + item) == item
  {
    if space == "" {
      assert space + item == item;
    } else {
      assert (space + item)[1..] == space[1..] + item;
      SpaceIsTrimmed(space[1..], item);
    }
  }

  predicate LooksLikeItem(trimmed: string) {
    |trimmed| >= 2 && (trimmed[0] == '-' || trimmed[0] == '*') && IsSpace(trimmed[1])
  }

  lemma ItemParts(trimmed: string) returns (space: string)
    requires LooksLikeItem(trimmed)
    ensures IsItem(trimmed, trimmed[0], space, TrimStart(trimmed[1..]))
  {
    var rest := trimmed[1..];
    var k := TrimStartCuts(rest);
    assert rest[0] == trimmed[1];
    space := rest[..k];
    assert trimmed == [trimmed[0]] + rest && rest == rest[..k] + rest[k..];
  }

  lemma PartsOfItem(trimmed: string, marker: char, space: string, item: string)
    requires IsItem(trimmed, marker, space, item)
    ensures LooksLikeItem(trimmed) && TrimStart(trimmed[1..]) == item
  {
    SpaceIsTrimmed(space, item);
    assert trimmed[1..] == space + item;
    assert trimmed[1] == space[0];
  }

  /** What a line leaves in the output, told by its trimmed text. */
  lemma LineLeaves(line: string)
    ensures var trimmed, own := Trim(line), Own(Classify(line));
            if StartsWith(trimmed, "<pre>") || EndsWith(trimmed, "</pre>") then own == [Verbatim(line)]
            else if exists m, space, item :: IsItem(trimmed, m, space, item)
            then forall m, space, item :: IsItem(trimmed, m, space, item) ==> own == [Item(item)]
            else own == if trimmed == "" then [] else [Paragraph(line)]
  {
    var trimmed := Trim(line);
    if LooksLikeItem(trimmed) {
      var space := ItemParts(trimmed);
    }
    forall m, space, item | IsItem(trimmed, m, space, item)
      ensures LooksLikeItem(trimmed) && TrimStart(trimmed[1..]) == item
    {
      PartsOfItem(trimmed, m, space, item);
    }
  }
}
