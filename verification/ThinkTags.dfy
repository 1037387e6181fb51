/** Hiding the reasoning blocks of streamed model output. */
module ThinkTags {
  import opened Wrappers
  import opened Strings

  const OPEN_TAG := "<think>"
  const CLOSE_TAG := "</think>"

  /** Where a pattern first occurs. */
  function Find(s: string, pattern: string): (r: Option<nat>)
    ensures r.Some? ==> r.value + |pattern| <= |s|
  {
    if pattern <= s then Some(0)
    else if s == "" then None
    else match Find(s[1..], pattern)
      case None => None
      case Some(i) => Some(i + 1)
  }

  predicate Contains(s: string, pattern: string) {
    Find(s, pattern).Some?
  }

  function AfterFirst(s: string, pattern: string): (r: Option<string>)
    ensures r.Some? ==> |r.value| + |pattern| <= |s|
  {
    match Find(s, pattern)
    case None => None
    case Some(i) => Some(s[i + |pattern|..])
  }

  /** The texts around a closed block, if there is one. */
  datatype Around = NoBlock | Outside(before: string, after: string)

  function Between(s: string, i: nat, after: Option<string>): Around
    requires i <= |s|
  {
    match after
    case None => NoBlock
    case Some(rest) => Outside(s[..i], rest)
  }

  /** The first closed block ends at the first closing tag after its opening tag. */
  function AroundFirstBlock(s: string, open: string, close: string): (r: Around)
    requires |open| > 0
    ensures r.Outside? ==> |r.after| < |s|
  {
    match Find(s, open)
    case None => NoBlock
    case Some(i) => Between(s, i, AfterFirst(s[i + |open|..], close))
  }

  /** Every closed block goes, scanning on after its end. */
  function RemoveBlocks(s: string, open: string, close: string): string
    requires |open| > 0
    decreases |s|
  {
    match AroundFirstBlock(s, open, close)
    case NoBlock => s
    case Outside(before, after) => before + RemoveBlocks(after, open, close)
  }

  /** A block still open runs to the end of the text. */
  function CutUnclosed(s: string, open: string): string {
    match Find(s, open)
    case None => s
    case Some(i) => s[..i]
  }

  function StripThinkTags(raw: string): string {
    TrimStart(CutUnclosed(RemoveBlocks(raw, OPEN_TAG, CLOSE_TAG), OPEN_TAG))
  }

  // ----- No tag survives

  lemma {:induction false} NoneBeforeFirst(s: string, pattern: string)
    requires Contains(s, pattern) && |pattern| > 0
    ensures !Contains(s[..Find(s, pattern).value], pattern)
  {
    var i := Find(s, pattern).value;
    if i > 0 {
      NoneBeforeFirst(s[1..], pattern);
      assert s[..i][1..] == s[1..][..i - 1];
      assert pattern <= s[..i] ==> pattern <= s;
    }
  }

  lemma {:induction false} TrimmingAddsNothing(s: string, pattern: string)
    requires !Contains(s, pattern)
    ensures !Contains(TrimStart(s), pattern)
  {
    if s != "" && IsSpace(s[0]) {
      TrimmingAddsNothing(s[1..], pattern);
    }
  }

  lemma CutLeavesNoTag(s: string, open: string)
    requires |open| > 0
    ensures !Contains(TrimStart(CutUnclosed(s, open)), open)
  {
    if Contains(s, open) {
      NoneBeforeFirst(s, open);
    }
    TrimmingAddsNothing(CutUnclosed(s, open), open);
  }

  /** Whatever the input, even when removing a block joins the pieces of a new tag. */
  lemma StripLeavesNoTag(raw: string)
    ensures !Contains(StripThinkTags(raw), OPEN_TAG)
  {
    CutLeavesNoTag(RemoveBlocks(raw, OPEN_TAG, CLOSE_TAG), OPEN_TAG);
  }

  /** Without a tag, stripping only trims the start. */
  lemma StripKeepsTagless(s: string)
    requires !Contains(s, OPEN_TAG)
    ensures StripThinkTags(s) == TrimStart(s)
  {}

  lemma {:induction false} TrimStartTwice(s: string)
    ensures TrimStart(TrimStart(s)) == TrimStart(s)
  {
    if s != "" && IsSpace(s[0]) {
      TrimStartTwice(s[1..]);
    }
  }

  lemma StripIsIdempotent(raw: string)
    ensures StripThinkTags(StripThinkTags(raw)) == StripThinkTags(raw)
  {
    StripLeavesNoTag(raw);
    StripKeepsTagless(StripThinkTags(raw));
    TrimStartTwice(CutUnclosed(RemoveBlocks(raw, OPEN_TAG, CLOSE_TAG), OPEN_TAG));
  }

  // ----- Closed blocks go exactly

  /** A tag starts with its only '<'. */
  ghost predicate IsTag(tag: string) {
    |tag| > 0 && tag[0] == '<' && forall i :: 0 < i < |tag| ==> tag[i] != '<'
  }

  /** A reasoning block and the visible text that follows it. */
  datatype Block = Block(hidden: string, visible: string)

  function WithBlocks(blocks: seq<Block>, open: string, close: string): string {
    if blocks == [] then ""
    else open + (blocks[0].hidden + close + (blocks[0].visible + WithBlocks(blocks[1..], open, close)))
  }

  function VisibleText(blocks: seq<Block>): string {
    if blocks == [] then "" else blocks[0].visible + VisibleText(blocks[1..])
  }

  /** Text before a tag never completes an occurrence with it. */
  lemma {:induction false} FirstTagAt(before: string, tag: string, after: string)
    requires IsTag(tag) && !Contains(before, tag)
    ensures Find(before + (tag + after), tag) == Some(|before|)
  {
    var s := before + (tag + after);
    if before == "" {
      assert s == tag + after;
    } else {
      assert s[1..] == before[1..] + (tag + after);
      FirstTagAt(before[1..], tag, after);
      assert s[|before|] == '<';
      if |tag| <= |before| {
        assert s[..|tag|] == before[..|tag|];
      }
      assert !(tag <= s);
    }
  }

  lemma AfterFirstTwo(a: string, b: string, c: string)
    ensures (a + (b + c))[..|a|] == a && (a + (b + c))[|a| + |b|..] == c
  {}

  lemma FirstBlockFound(first: string, hidden: string, next: string, open: string, close: string)
    requires IsTag(open) && IsTag(close)
    requires !Contains(first, open) && !Contains(hidden, close)
    ensures AroundFirstBlock(first + (open + (hidden + (close + next))), open, close) == Outside(first, next)
  {
    var tail := hidden + (close + next);
    FirstTagAt(first, open, tail);
    FirstTagAt(hidden, close, next);
    AfterFirstTwo(first, open, tail);
    AfterFirstTwo(hidden, close, next);
  }

  lemma {:induction false} BlocksGo(first: string, blocks: seq<Block>, open: string, close: string)
    requires IsTag(open) && IsTag(close) && !Contains(first, open)
    requires forall b :: b in blocks ==> !Contains(b.hidden, close) && !Contains(b.visible, open)
    ensures RemoveBlocks(first + WithBlocks(blocks, open, close), open, close) == first + VisibleText(blocks)
    decreases |blocks|
  {
    if blocks == [] {
      assert first + "" == first;
    } else {
      var b, next := blocks[0], blocks[0].visible + WithBlocks(blocks[1..], open, close);
      assert b.hidden + close + next == b.hidden + (close + next);
      FirstBlockFound(first, b.hidden, next, open, close);
      BlocksGo(b.visible, blocks[1..], open, close);
    }
  }

  /**
   Output made of visible text and closed blocks loses the blocks and nothing else, unless visible pieces that met
   spell an opening tag: from there on everything goes.
   */
  lemma ClosedBlocksGoExactly(first: string, blocks: seq<Block>)
    requires !Contains(first, OPEN_TAG)
    requires forall b :: b in blocks ==> !Contains(b.hidden, CLOSE_TAG) && !Contains(b.visible, OPEN_TAG)
    ensures var visible := first + VisibleText(blocks);
            StripThinkTags(first + WithBlocks(blocks, OPEN_TAG, CLOSE_TAG))
            == TrimStart(if Contains(visible, OPEN_TAG) then visible[..Find(visible, OPEN_TAG).value] else visible)
  {
    BlocksGo(first, blocks, OPEN_TAG, CLOSE_TAG);
  }

  // ----- An open block adds nothing

  lemma {:induction false} FoundAlready(s: string, more: string, pattern: string)
    requires Contains(s, pattern)
    ensures Find(s + more, pattern) == Find(s, pattern)
  {
    if pattern <= s {
      assert pattern <= s + more;
    } else {
      assert (s + more)[1..] == s[1..] + more;
      FoundAlready(s[1..], more, pattern);
      assert |pattern| <= |s|;
      assert (s + more)[..|pattern|] == s[..|pattern|];
    }
  }

  /** Joining two texts, neither with the tag, makes no tag if the second starts as a tag does. */
  lemma {:induction false} JoinMakesNoTag(a: string, b: string, tag: string)
    requires IsTag(tag) && !Contains(a, tag) && !Contains(b, tag) && |b| > 0 && b[0] == '<'
    ensures !Contains(a + b, tag)
  {
    if a == "" {
      assert a + b == b;
    } else {
      assert (a + b)[1..] == a[1..] + b;
      JoinMakesNoTag(a[1..], b, tag);
      assert (a + b)[|a|] == '<';
      if |tag| <= |a| {
        assert (a + b)[..|tag|] == a[..|tag|];
      }
    }
  }

  /** The two tags are told apart by their second characters. */
  ghost predicate TagPair(open: string, close: string) {
    IsTag(open) && IsTag(close) && |open| > 1 && |close| > 1 && open[1] != close[1]
  }

  lemma {:induction false} OpenTagIsNoCloseTag(open: string, tail: string, close: string, k: nat)
    requires TagPair(open, close) && k <= |open| && !Contains(tail, close)
    ensures !Contains(open[k..] + tail, close)
    decreases |open| - k
  {
    var s := open[k..] + tail;
    if k == |open| {
      assert s == tail;
    } else {
      assert s[1..] == open[k + 1..] + tail;
      OpenTagIsNoCloseTag(open, tail, close, k + 1);
      assert s[0] == open[k];
      assert k == 0 ==> s[1] == open[1];
      assert !(close <= s);
    }
  }

  lemma SliceBeforeEnd(s: string, end: string, k: nat)
    requires k <= |s|
    ensures (s + end)[..k] == s[..k] && (s + end)[k..] == s[k..] + end
  {}

  function LongerBy(after: Option<string>, end: string): Option<string> {
    match after
    case None => None
    case Some(rest) => Some(rest + end)
  }

  lemma OpenBlockAfterTag(rest: string, tail: string, open: string, close: string)
    requires TagPair(open, close) && !Contains(tail, close)
    ensures AfterFirst(rest + (open + tail), close) == LongerBy(AfterFirst(rest, close), open + tail)
  {
    if Contains(rest, close) {
      FoundAlready(rest, open + tail, close);
      SliceBeforeEnd(rest, open + tail, Find(rest, close).value + |close|);
    } else {
      OpenTagIsNoCloseTag(open, tail, close, 0);
      assert open[0..] == open;
      JoinMakesNoTag(rest, open + tail, close);
    }
  }

  lemma AroundAt(s: string, open: string, close: string, i: nat)
    requires |open| > 0 && Find(s, open) == Some(i)
    ensures AroundFirstBlock(s, open, close) == Between(s, i, AfterFirst(s[i + |open|..], close))
  {}

  function Appended(around: Around, end: string): Around {
    match around
    case NoBlock => NoBlock
    case Outside(before, after) => Outside(before, after + end)
  }

  lemma BetweenAppended(s: string, end: string, i: nat, after: Option<string>)
    requires i <= |s|
    ensures Between(s + end, i, LongerBy(after, end)) == Appended(Between(s, i, after), end)
  {
    SliceBeforeEnd(s, end, i);
  }

  lemma AroundAfterTag(raw: string, tail: string, open: string, close: string, i: nat)
    requires TagPair(open, close) && !Contains(tail, close) && Find(raw, open) == Some(i)
    ensures AroundFirstBlock(raw + (open + tail), open, close) == Appended(AroundFirstBlock(raw, open, close), open + tail)
  {
    var end := open + tail;
    FoundAlready(raw, end, open);
    AroundAt(raw, open, close, i);
    AroundAt(raw + end, open, close, i);
    SliceBeforeEnd(raw, end, i + |open|);
    OpenBlockAfterTag(raw[i + |open|..], tail, open, close);
    BetweenAppended(raw, end, i, AfterFirst(raw[i + |open|..], close));
  }

  /** An open block at the end is none of the closed ones. */
  lemma AroundWithOpenBlock(raw: string, tail: string, open: string, close: string)
    requires TagPair(open, close) && !Contains(tail, close)
    ensures AroundFirstBlock(raw + (open + tail), open, close) == Appended(AroundFirstBlock(raw, open, close), open + tail)
  {
    if Contains(raw, open) {
      AroundAfterTag(raw, tail, open, close, Find(raw, open).value);
    } else {
      FirstTagAt(raw, open, tail);
      AfterFirstTwo(raw, open, tail);
      AroundAt(raw + (open + tail), open, close, |raw|);
    }
  }

  lemma {:induction false} OpenBlockStays(raw: string, tail: string, open: string, close: string)
    requires TagPair(open, close) && !Contains(tail, close)
    ensures RemoveBlocks(raw + (open + tail), open, close) == RemoveBlocks(raw, open, close) + (open + tail)
    decreases |raw|
  {
    AroundWithOpenBlock(raw, tail, open, close);
    match AroundFirstBlock(raw, open, close)
    case NoBlock =>
    case Outside(before, after) => OpenBlockStays(after, tail, open, close);
  }

  lemma CutIgnoresOpenBlock(s: string, open: string, tail: string)
    requires IsTag(open)
    ensures CutUnclosed(s + (open + tail), open) == CutUnclosed(s, open)
  {
    if Contains(s, open) {
      FoundAlready(s, open + tail, open);
      assert (s + (open + tail))[..Find(s, open).value] == s[..Find(s, open).value];
    } else {
      FirstTagAt(s, open, tail);
      AfterFirstTwo(s, open, tail);
    }
  }

  /** While a block is open its reasoning adds nothing to what is shown, whatever came before it. */
  lemma OpenBlockAddsNothing(raw: string, tail: string)
    requires !Contains(tail, CLOSE_TAG)
    ensures StripThinkTags(raw + (OPEN_TAG + tail)) == StripThinkTags(raw)
  {
    OpenBlockStays(raw, tail, OPEN_TAG, CLOSE_TAG);
    CutIgnoresOpenBlock(RemoveBlocks(raw, OPEN_TAG, CLOSE_TAG), OPEN_TAG, tail);
  }
}
