/** Row identifiers as text: the standard form, the spellings the database also reads, and the one it writes. */
module Identifiers {
  import opened Wrappers

  predicate IsHexDigit(c: char) {
    '0' <= c <= '9' || 'a' <= c <= 'f' || 'A' <= c <= 'F'
  }

  /** Canonical 8-4-4-4-12 hexadecimal form, in either letter case. */
  predicate IsUuid(s: string) {
    && |s| == 36
    && forall i :: 0 <= i < 36 ==> if i in {8, 13, 18, 23} then s[i] == '-' else IsHexDigit(s[i])
  }

  predicate IsUpper(c: char) {
    'A' <= c <= 'Z'
  }

  function LowerChar(c: char): char {
    if IsUpper(c) then (c as int + 32) as char else c
  }

  function Lower(s: string): (r: string)
    ensures |r| == |s| && forall i :: 0 <= i < |s| ==> r[i] == LowerChar(s[i])
  {
    seq(|s|, i requires 0 <= i < |s| => LowerChar(s[i]))
  }

  /** The form in which the database returns identifiers. */
  predicate IsStored(s: string) {
    IsUuid(s) && forall i :: 0 <= i < 36 ==> !IsUpper(s[i])
  }

  // ----- What the database reads

  predicate AllHex(s: string) {
    forall i :: 0 <= i < |s| ==> IsHexDigit(s[i])
  }

  /** The digits of n groups of four, with or without a hyphen between groups. */
  function Groups(s: string, n: nat): (r: Option<string>)
    ensures r.Some? ==> |r.value| == 4 * n && AllHex(r.value)
  {
    if n == 0 then (if s == "" then Some("") else None)
    else if |s| < 4 || !AllHex(s[..4]) then None
    else
      var rest := if n > 1 && |s| > 4 && s[4] == '-' then s[5..] else s[4..];
      match Groups(rest, n - 1)
      case None => None
      case Some(digits) => Some(s[..4] + digits)
  }

  function Hyphenated(digits: string): string
    requires |digits| == 32
  {
    digits[..8] + "-" + digits[8..12] + "-" + digits[12..16] + "-" + digits[16..20] + "-" + digits[20..]
  }

  predicate Braced(text: string) {
    |text| >= 2 && text[0] == '{' && text[|text| - 1] == '}'
  }

  function Unbraced(text: string): string {
    if Braced(text) then text[1..|text| - 1] else text
  }

  /** The stored form of a text that the database reads as an identifier; braces may surround the groups. */
  function StoredForm(text: string): Option<string> {
    if IsUuid(text) then Some(Lower(text))
    else match Groups(Unbraced(text), 8)
      case None => None
      case Some(digits) => Some(Lower(Hyphenated(digits)))
  }

  lemma LowerIsStored(s: string)
    requires IsUuid(s)
    ensures IsStored(Lower(s))
  {
    forall i | 0 <= i < 36
      ensures !IsUpper(Lower(s)[i])
      ensures if i in {8, 13, 18, 23} then Lower(s)[i] == '-' else IsHexDigit(Lower(s)[i])
    {
      assert Lower(s)[i] == LowerChar(s[i]);
    }
  }

  lemma HyphenatedIsUuid(digits: string)
    requires |digits| == 32 && AllHex(digits)
    ensures IsUuid(Hyphenated(digits))
  {
    var s := Hyphenated(digits);
    forall i | 0 <= i < 36
      ensures if i in {8, 13, 18, 23} then s[i] == '-' else IsHexDigit(s[i])
    {
      assert s[i] == if i < 8 then digits[i] else if i == 8 then '-' else if i < 13 then digits[i - 1]
                     else if i == 13 then '-' else if i < 18 then digits[i - 2] else if i == 18 then '-'
                     else if i < 23 then digits[i - 3] else if i == 23 then '-' else digits[i - 4];
    }
  }

  lemma StoredFormIsStored(text: string)
    requires StoredForm(text).Some?
    ensures IsStored(StoredForm(text).value)
  {
    if IsUuid(text) {
      LowerIsStored(text);
    } else {
      var digits := Groups(Unbraced(text), 8).value;
      HyphenatedIsUuid(digits);
      LowerIsStored(Hyphenated(digits));
    }
  }

  /** A stored identifier is its own stored form, and no other text in standard form is. */
  lemma OwnFormIff(s: string)
    requires IsUuid(s)
    ensures StoredForm(s) == Some(s) <==> IsStored(s)
  {
    if IsStored(s) {
      assert Lower(s) == s;
    } else {
      LowerIsStored(s);
    }
  }

  /** Thirty-two digits, or any multiple of four, with a hyphen after those groups of four that are marked. */
  function Written(digits: string, hyphens: seq<bool>): string
    requires |digits| == 4 * (|hyphens| + 1)
  {
    if hyphens == [] then digits
    else digits[..4] + (if hyphens[0] then "-" else "") + Written(digits[4..], hyphens[1..])
  }

  lemma {:induction false} WrittenIsRead(digits: string, hyphens: seq<bool>)
    requires |digits| == 4 * (|hyphens| + 1) && AllHex(digits)
    ensures |Written(digits, hyphens)| >= 4 && Written(digits, hyphens)[..4] == digits[..4]
    ensures Groups(Written(digits, hyphens), |hyphens| + 1) == Some(digits)
  {
    var s := Written(digits, hyphens);
    if hyphens == [] {
      assert s[4..] == "";
      assert s[..4] + "" == digits;
    } else {
      var rest := Written(digits[4..], hyphens[1..]);
      WrittenIsRead(digits[4..], hyphens[1..]);
      assert rest[0] == rest[..4][0] == digits[4];
      assert s[..4] == digits[..4];
      assert s == digits[..4] + (if hyphens[0] then "-" else "") + rest;
      assert if hyphens[0] then s[4] == '-' && s[5..] == rest else s[4] == digits[4] && s[4..] == rest;
      assert digits[..4] + digits[4..] == digits;
    }
  }

  lemma {:induction false} ReadIsWritten(s: string, n: nat) returns (hyphens: seq<bool>)
    requires n > 0 && Groups(s, n).Some?
    ensures |hyphens| == n - 1 && s == Written(Groups(s, n).value, hyphens)
  {
    if n == 1 {
      hyphens := [];
      assert s == s[..4] + "";
    } else {
      var hyphen := |s| > 4 && s[4] == '-';
      var rest := if hyphen then s[5..] else s[4..];
      var more := ReadIsWritten(rest, n - 1);
      hyphens := [hyphen] + more;
      var digits := Groups(s, n).value;
      assert digits[..4] == s[..4] && digits[4..] == Groups(rest, n - 1).value;
      assert hyphens[1..] == more;
      assert s == s[..4] + (if hyphen then "-" else "") + rest;
    }
  }

  /** A spelling other than the standard form: hyphens between any groups of four digits, braces around it or not. */
  predicate OtherSpelling(s: string, digits: string, hyphens: seq<bool>, braced: bool) {
    && !IsUuid(s) && |digits| == 32 && AllHex(digits) && |hyphens| == 7
    && s == if braced then "{" + Written(digits, hyphens) + "}" else Written(digits, hyphens)
  }

  lemma OtherSpellingIsRead(s: string, digits: string, hyphens: seq<bool>, braced: bool)
    requires OtherSpelling(s, digits, hyphens, braced)
    ensures StoredForm(s) == Some(Lower(Hyphenated(digits)))
  {
    WrittenIsRead(digits, hyphens);
    if braced {
      assert Unbraced(s) == Written(digits, hyphens);
    } else {
      assert s[0] == digits[..4][0] && IsHexDigit(s[0]);
    }
  }

  lemma ReadIsOtherSpelling(s: string) returns (digits: string, hyphens: seq<bool>)
    requires !IsUuid(s) && StoredForm(s).Some?
    ensures OtherSpelling(s, digits, hyphens, Braced(s))
  {
    var inner := Unbraced(s);
    digits := Groups(inner, 8).value;
    hyphens := ReadIsWritten(inner, 8);
    assert s == if Braced(s) then "{" + inner + "}" else inner;
  }

  /** Apart from the standard form, the database reads exactly these spellings, as the identifier with the same digits. */
  lemma StoredFormIff(s: string, id: string)
    requires !IsUuid(s)
    ensures StoredForm(s) == Some(id)
       <==> exists digits, hyphens, braced :: OtherSpelling(s, digits, hyphens, braced) && id == Lower(Hyphenated(digits))
  {
    if StoredForm(s).Some? {
      var digits, hyphens := ReadIsOtherSpelling(s);
      OtherSpellingIsRead(s, digits, hyphens, Braced(s));
    }
    if digits, hyphens, braced :| OtherSpelling(s, digits, hyphens, braced) && id == Lower(Hyphenated(digits)) {
      OtherSpellingIsRead(s, digits, hyphens, braced);
    }
  }

  // ----- Lookups by text

  datatype Lookup = Found(id: string) | Missing | Malformed

  /** Text the database cannot read as an identifier is an error rather than a row not found. */
  function Locate<R>(rows: map<string, R>, text: string): Lookup {
    match StoredForm(text)
    case None => Malformed
    case Some(id) => if id in rows then Found(id) else Missing
  }

  lemma LocateStored<R>(rows: map<string, R>, id: string)
    requires IsStored(id)
    ensures Locate(rows, id) == if id in rows then Found(id) else Missing
  {
    OwnFormIff(id);
  }

  /** An example of a stored identifier for every lower-case digit, and of its upper-case spelling. */
  function Repeated(c: char): (s: string)
    ensures |s| == 36
    ensures IsHexDigit(c) ==> IsUuid(s)
    ensures IsHexDigit(c) && !IsUpper(c) ==> IsStored(s)
  {
    seq(36, i requires 0 <= i < 36 => if i in {8, 13, 18, 23} then '-' else c)
  }

  lemma RepeatedSpellings(c: char, d: char)
    requires IsHexDigit(c) && IsHexDigit(d)
    ensures Lower(Repeated(c)) == Repeated(LowerChar(c))
    ensures c != d ==> Repeated(c) != Repeated(d)
  {
    assert Repeated(c)[0] == c && Repeated(d)[0] == d;
    forall i | 0 <= i < 36
      ensures Lower(Repeated(c))[i] == Repeated(LowerChar(c))[i]
    {}
  }
}
