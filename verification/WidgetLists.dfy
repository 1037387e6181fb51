/** Where the list markers of the widget's layout stand, line by line. */
module WidgetLists {
  import opened WidgetMarkdown

  predicate EndsInList(inList: bool, lines: seq<Line>) {
    if lines == [] then inList else lines[|lines| - 1].ItemLine?
  }

  /** What is pushed for the first lines, before it is known whether the list goes on. */
  function PushedSoFar(inList: bool, lines: seq<Line>): seq<Piece>
    decreases |lines|
  {
    if lines == [] then []
    else Mark(inList, lines[0].ItemLine?) + Own(lines[0]) + PushedSoFar(lines[0].ItemLine?, lines[1..])
  }

  lemma {:induction false} PushedJoins(inList: bool, before: seq<Line>, rest: seq<Line>)
    ensures Pushed(inList, before + rest) == PushedSoFar(inList, before) + Pushed(EndsInList(inList, before), rest)
    decreases |before|
  {
    if before == [] {
      assert before + rest == rest;
    } else {
      assert (before + rest)[1..] == before[1..] + rest;
      PushedJoins(before[0].ItemLine?, before[1..], rest);
    }
  }

  lemma {:induction false} SoFarContent(inList: bool, lines: seq<Line>)
    ensures Content(PushedSoFar(inList, lines)) == AllOwn(lines)
    decreases |lines|
  {
    if lines != [] {
      var mark, own := Mark(inList, lines[0].ItemLine?), Own(lines[0]);
      SoFarContent(lines[0].ItemLine?, lines[1..]);
      ContentOfLine(inList, lines[0]);
      ContentJoins(mark + own, PushedSoFar(lines[0].ItemLine?, lines[1..]));
      ContentJoins(mark, own);
    }
  }

  lemma Regrouped(a: seq<Piece>, b: seq<Piece>, c: seq<Piece>, d: seq<Piece>, e: seq<Piece>, f: seq<Piece>)
    ensures a + (b + c + (d + e + f)) == (a + b) + (c + d + e) + f
  {}

  lemma PushedFromTwo(inList: bool, x: Line, y: Line, after: seq<Line>)
    ensures Pushed(inList, [x] + ([y] + after))
         == Mark(inList, x.ItemLine?) + Own(x) + (Mark(x.ItemLine?, y.ItemLine?) + Own(y) + Pushed(y.ItemLine?, after))
  {
    PushedFrom(inList, x, [y] + after);
    PushedFrom(x.ItemLine?, y, after);
  }

  function Marker(x: Line, y: Line): seq<Piece> {
    if x.ItemLine? && !y.ItemLine? then [CloseList] else if !x.ItemLine? && y.ItemLine? then [OpenList] else []
  }

  /**
   Between two lines stands one marker if exactly one of them is an item, and nothing otherwise: items that follow each
   other share a list, and every other line, a blank one too, ends it.
   */
  lemma MarkersBetween(before: seq<Line>, x: Line, y: Line, after: seq<Line>) returns (p: seq<Piece>, q: seq<Piece>)
    ensures Layout(before + ([x] + ([y] + after))) == p + (Own(x) + Marker(x, y) + Own(y)) + q
    ensures Content(p) == AllOwn(before) && Content(q) == AllOwn(after)
  {
    var inList := EndsInList(false, before);
    var a, b := PushedSoFar(false, before), Mark(inList, x.ItemLine?);
    p, q := a + b, Pushed(y.ItemLine?, after);
    PushedIsLayout(before + ([x] + ([y] + after)));
    PushedJoins(false, before, [x] + ([y] + after));
    PushedFromTwo(inList, x, y, after);
    Regrouped(a, b, Own(x), Marker(x, y), Own(y), q);
    SoFarContent(false, before);
    ContentJoins(a, b);
    ContentOfLine(inList, x);
    PushedContent(y.ItemLine?, after);
  }
}
