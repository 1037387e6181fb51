/** String operations as the browser runtime defines them. */
module Strings {

  /** White space and line terminators, the characters that trimming removes. */
  predicate IsSpace(c: char) {
    || c in "\t\n\r \U{0B}\U{0C}\U{A0}\U{1680}\U{2028}\U{2029}\U{202F}\U{205F}\U{3000}\U{FEFF}"
    || '\U{2000}' <= c <= '\U{200A}'
  }

  function TrimStart(s: string): string {
    if s != "" && IsSpace(s[0]) then TrimStart(s[1..]) else s
  }

  function TrimEnd(s: string): string {
    if s != "" && IsSpace(s[|s| - 1]) then TrimEnd(s[..|s| - 1]) else s
  }

  function Trim(s: string): string {
    TrimEnd(TrimStart(s))
  }

  predicate AllSpace(s: string) {
    forall i :: 0 <= i < |s| ==> IsSpace(s[i])
  }

  lemma {:induction false} TrimStartCuts(s: string) returns (k: nat)
    ensures k <= |s| && TrimStart(s) == s[k..] && forall i :: 0 <= i < k ==> IsSpace(s[i])
    ensures k < |s| ==> !IsSpace(s[k])
  {
    k := 0;
    if s != "" && IsSpace(s[0]) {
      var rest := s[1..];
      var cut := TrimStartCuts(rest);
      k := cut + 1;
      assert forall i :: 0 < i < |s| ==> s[i] == rest[i - 1];
    }
  }

  lemma {:induction false} TrimEndCuts(s: string) returns (k: nat)
    ensures k <= |s| && TrimEnd(s) == s[..k] && forall i :: k <= i < |s| ==> IsSpace(s[i])
    ensures k > 0 ==> !IsSpace(s[k - 1])
  {
    k := |s|;
    if s != "" && IsSpace(s[|s| - 1]) {
      var front := s[..|s| - 1];
      k := TrimEndCuts(front);
      assert forall i :: 0 <= i < |front| ==> s[i] == front[i];
    }
  }

  /** Trimming takes white space off both ends, and leaves none there. */
  lemma TrimCuts(s: string) returns (j: nat, k: nat)
    ensures j <= k <= |s| && Trim(s) == s[j..k]
    ensures (forall i :: 0 <= i < j ==> IsSpace(s[i])) && (forall i :: k <= i < |s| ==> IsSpace(s[i]))
    ensures j < k ==> !IsSpace(s[j]) && !IsSpace(s[k - 1])
  {
    var rest := TrimStart(s);
    j := TrimStartCuts(s);
    var cut := TrimEndCuts(rest);
    k := j + cut;
    assert forall i :: j <= i < |s| ==> s[i] == rest[i - j];
  }

  function Concat(parts: seq<string>): string {
    if parts == [] then "" else parts[0] + Concat(parts[1..])
  }

  /** The lines a text has completed so far and what follows the last line feed. */
  datatype Pieces = Pieces(lines: seq<string>, rest: string)

  function SplitLines(text: string): Pieces {
    if text == "" then Pieces([], "")
    else
      var p := SplitLines(text[..|text| - 1]);
      var c := text[|text| - 1];
      if c == '\n' then Pieces(p.lines + [p.rest], "") else Pieces(p.lines, p.rest + [c])
  }

  lemma {:induction false} NoLineFeedNoSplit(text: string)
    requires '\n' !in text
    ensures SplitLines(text) == Pieces([], text)
  {
    if text != "" {
      NoLineFeedNoSplit(text[..|text| - 1]);
    }
  }

  lemma {:induction false} RestHasNoLineFeed(text: string)
    ensures '\n' !in SplitLines(text).rest
  {
    if text != "" {
      RestHasNoLineFeed(text[..|text| - 1]);
    }
  }

  /** Splitting may stop anywhere and resume from the unfinished line. */
  lemma {:induction false} SplitResumes(a: string, b: string)
    ensures var first := SplitLines(a);
            var second := SplitLines(first.rest + b);
            SplitLines(a + b) == Pieces(first.lines + second.lines, second.rest)
    decreases |b|
  {
    var rest := SplitLines(a).rest;
    if b == "" {
      assert a + b == a && rest + b == rest;
      RestHasNoLineFeed(a);
      NoLineFeedNoSplit(rest);
    } else {
      assert (a + b)[..|a + b| - 1] == a + b[..|b| - 1];
      assert (rest + b)[..|rest + b| - 1] == rest + b[..|b| - 1];
      SplitResumes(a, b[..|b| - 1]);
    }
  }

  lemma SplitOneLine(line: string, rest: string)
    requires '\n' !in line
    ensures SplitLines(line + "\n" + rest) == Pieces([line] + SplitLines(rest).lines, SplitLines(rest).rest)
  {
    NoLineFeedNoSplit(line);
    assert (line + "\n")[..|line|] == line;
    assert SplitLines(line + "\n") == Pieces([line], "");
    SplitResumes(line + "\n", rest);
    assert "" + rest == rest;
  }

  lemma {:induction false} ConcatSnoc(parts: seq<string>, last: string)
    ensures Concat(parts + [last]) == Concat(parts) + last
  {
    if parts == [] {
      assert parts + [last] == [last];
      assert [last][1..] == [];
    } else {
      assert (parts + [last])[1..] == parts[1..] + [last];
      ConcatSnoc(parts[1..], last);
    }
  }
}
