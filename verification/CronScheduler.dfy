/** The scheduler's presets: printing a cron expression from the pickers, and recognising it again. */
module CronScheduler {
  import opened Wrappers
  import opened Strings

  // ----- Splitting at white space

  function Fields(s: string): (fields: seq<string>)
    ensures fields != []
  {
    if s == "" then [""]
    else
      var rest := Fields(s[1..]);
      if !IsSpace(s[0]) then [[s[0]] + rest[0]] + rest[1..]
      else if |s| > 1 && IsSpace(s[1]) then rest
      else [""] + rest
  }

  predicate NoSpace(s: string) {
    forall c :: c in s ==> !IsSpace(c)
  }

  predicate Solid(s: string) {
    s != "" && NoSpace(s)
  }

  predicate AllSolid(fields: seq<string>) {
    forall i :: 0 <= i < |fields| ==> Solid(fields[i])
  }

  function Joined(fields: seq<string>): string {
    if fields == [] then ""
    else if |fields| == 1 then fields[0]
    else fields[0] + " " + Joined(fields[1..])
  }

  /** A word run into the first field. */
  function Prefixed(word: string, fields: seq<string>): seq<string>
    requires fields != []
  {
    [word + fields[0]] + fields[1..]
  }

  lemma PrefixedTwice(first: string, second: string, fields: seq<string>)
    requires fields != []
    ensures Prefixed(first, Prefixed(second, fields)) == Prefixed(first + second, fields)
  {
    assert first + (second + fields[0]) == first + second + fields[0];
  }

  lemma FieldsOfChar(c: char, s: string)
    requires !IsSpace(c)
    ensures Fields([c] + s) == Prefixed([c], Fields(s))
  {
    assert ([c] + s)[1..] == s;
  }

  lemma {:induction false} FieldsOfWord(word: string, rest: string)
    requires NoSpace(word)
    ensures Fields(word + rest) == Prefixed(word, Fields(rest))
  {
    if word == "" {
      assert word + rest == rest && word + Fields(rest)[0] == Fields(rest)[0];
    } else {
      var c, word' := word[0], word[1..];
      assert word == [c] + word' && NoSpace(word');
      FieldsOfWord(word', rest);
      FieldsOfChar(c, word' + rest);
      PrefixedTwice([c], word', Fields(rest));
      assert word + rest == [c] + (word' + rest);
    }
  }

  lemma FieldsAfterSpace(rest: string)
    requires rest != "" && !IsSpace(rest[0])
    ensures Fields(" " + rest) == [""] + Fields(rest)
  {
    var s := " " + rest;
    assert s[1..] == rest && s[1] == rest[0];
  }

  /** Joining fields by one space and splitting at white space are inverse, for fields that hold none. */
  lemma {:induction false} FieldsOfJoined(fields: seq<string>)
    requires fields != [] && AllSolid(fields)
    ensures Fields(Joined(fields)) == fields
    ensures Solid(Joined(fields)[..1]) && Solid(Joined(fields)[|Joined(fields)| - 1..])
    decreases |fields|
  {
    var word := fields[0];
    if |fields| == 1 {
      assert word + "" == word;
      FieldsOfWord(word, "");
    } else {
      var rest := Joined(fields[1..]);
      FieldsOfJoined(fields[1..]);
      FieldsAfterSpace(rest);
      FieldsOfWord(word, " " + rest);
      assert word + " " + rest == word + (" " + rest);
      assert word + "" == word;
      assert Joined(fields)[..1] == word[..1];
      assert Joined(fields)[|Joined(fields)| - 1..] == rest[|rest| - 1..];
    }
  }

  lemma JoinedIsTrimmed(fields: seq<string>)
    requires fields != [] && AllSolid(fields)
    ensures Fields(Trim(Joined(fields))) == fields && Trim(Joined(fields)) == Joined(fields) != ""
  {
    FieldsOfJoined(fields);
    var s := Joined(fields);
    assert s[..1][0] == s[0] && s[|s| - 1..][0] == s[|s| - 1];
  }

  // ----- Numbers

  predicate IsDigit(c: char) {
    '0' <= c <= '9'
  }

  predicate AllDigits(s: string) {
    forall c :: c in s ==> IsDigit(c)
  }

  predicate Digits(s: string) {
    s != "" && AllDigits(s)
  }

  function Decimal(n: nat): (s: string)
    ensures Digits(s)
  {
    if n < 10 then [('0' as int + n) as char] else Decimal(n / 10) + [('0' as int + n % 10) as char]
  }

  function Value(digits: string): nat
    requires AllDigits(digits)
  {
    if digits == "" then 0
    else
      assert IsDigit(digits[|digits| - 1]);
      Value(digits[..|digits| - 1]) * 10 + (digits[|digits| - 1] as int - '0' as int)
  }

  function DigitPrefix(s: string): (digits: string)
    ensures AllDigits(digits)
  {
    if s == "" || !IsDigit(s[0]) then "" else [s[0]] + DigitPrefix(s[1..])
  }

  /** Decimal parsing that stops at the first character it cannot use; nothing is not a number. */
  function ParseInt(s: string): Option<int> {
    var t := TrimStart(s);
    var signed := t != "" && t[0] in "+-";
    var digits := DigitPrefix(if signed then t[1..] else t);
    var magnitude: int := Value(digits);
    if digits == "" then None else Some(if signed && t[0] == '-' then -magnitude else magnitude)
  }

  function Show(n: Option<int>): string {
    match n
    case None => "NaN"
    case Some(v) => if v < 0 then "-" + Decimal(-v) else Decimal(v)
  }

  function PadStart(s: string): (padded: string)
    ensures |padded| >= 2
    decreases 2 - |s|
  {
    if |s| >= 2 then s else PadStart("0" + s)
  }

  lemma {:induction false} DecimalReadsBack(n: nat)
    ensures Value(Decimal(n)) == n
  {
    var s := Decimal(n);
    if n >= 10 {
      DecimalReadsBack(n / 10);
      assert s[..|s| - 1] == Decimal(n / 10);
    } else {
      assert s[..0] == "";
    }
  }

  lemma {:induction false} LeadingZero(digits: string)
    requires AllDigits(digits)
    ensures AllDigits("0" + digits) && Value("0" + digits) == Value(digits)
  {
    var s := "0" + digits;
    if digits == "" {
      assert s[..0] == "";
    } else {
      LeadingZero(digits[..|digits| - 1]);
      assert s[..|s| - 1] == "0" + digits[..|digits| - 1];
    }
  }

  lemma {:induction false} PrefixOfDigits(digits: string)
    requires AllDigits(digits)
    ensures DigitPrefix(digits) == digits
  {
    if digits != "" {
      PrefixOfDigits(digits[1..]);
    }
  }

  lemma ParseDigits(digits: string)
    requires Digits(digits)
    ensures ParseInt(digits) == Some(Value(digits))
  {
    PrefixOfDigits(digits);
    assert IsDigit(digits[0]);
  }

  lemma {:induction false} PaddingIsHarmless(digits: string)
    requires Digits(digits)
    ensures ParseInt(PadStart(digits)) == ParseInt(digits)
    decreases 2 - |digits|
  {
    if |digits| < 2 {
      LeadingZero(digits);
      ParseDigits(digits);
      ParseDigits("0" + digits);
      PaddingIsHarmless("0" + digits);
    }
  }

  // ----- Validity

  predicate IsRange(s: string) {
    Digits(s) || exists k :: 0 <= k < |s| && s[k] == '-' && Digits(s[..k]) && Digits(s[k + 1..])
  }

  predicate IsRangeList(s: string)
    decreases |s|
  {
    IsRange(s) || exists k :: 0 <= k < |s| && s[k] == ',' && IsRange(s[..k]) && IsRangeList(s[k + 1..])
  }

  predicate ValidField(s: string) {
    || s == "*"
    || (|s| > 2 && s[0] == '*' && s[1] == '/' && Digits(s[2..]))
    || IsRangeList(s)
  }

  predicate IsValidCron(expr: string) {
    var parts := Fields(Trim(expr));
    |parts| == 5 && forall i :: 0 <= i < 5 ==> ValidField(parts[i])
  }

  lemma RangeStartsWithDigit(s: string)
    requires IsRange(s)
    ensures s != "" && IsDigit(s[0])
  {
    if !Digits(s) {
      var k :| 0 <= k < |s| && s[k] == '-' && Digits(s[..k]) && Digits(s[k + 1..]);
      assert s[..k][0] == s[0];
    }
  }

  lemma ValidFieldStart(s: string)
    requires ValidField(s)
    ensures s != "" && (s[0] == '*' || IsDigit(s[0]))
  {
    if IsRange(s) {
      RangeStartsWithDigit(s);
    } else if IsRangeList(s) {
      var k :| 0 <= k < |s| && s[k] == ',' && IsRange(s[..k]) && IsRangeList(s[k + 1..]);
      RangeStartsWithDigit(s[..k]);
      assert s[..k][0] == s[0];
    }
  }

  predicate IsNatural(n: Option<int>) {
    n.Some? && n.value >= 0
  }

  /** A printed number is a cron field exactly when it is a number and not negative. */
  lemma ShownIsValidIff(n: Option<int>)
    ensures ValidField(Show(n)) <==> IsNatural(n)
    ensures Solid(Show(n)) && Show(n)[0] != '*'
  {
    var s := Show(n);
    if IsNatural(n) {
      assert Digits(s) && IsDigit(s[0]);
    } else if ValidField(s) {
      ValidFieldStart(s);
    }
    forall c | c in s
      ensures !IsSpace(c)
    {
      assert IsDigit(c) || c in "NaN-";
    }
  }

  // ----- The presets

  /** A preset's template is given by its white-space separated fields. */
  datatype Preset = Preset(name: string, fields: seq<string>, hasTimePicker: bool, hasMinutePicker: bool)

  function Fixed(name: string, minute: string): Preset {
    Preset(name, [minute, "*", "*", "*", "*"], false, false)
  }

  function AtTime(name: string, weekday: string): Preset {
    Preset(name, ["0", "9", "*", "*", weekday], true, false)
  }

  const CUSTOM := "Custom"

  const CRON_PRESETS: seq<Preset> := [
    Fixed("Every 5 minutes", "*/5"),
    Fixed("Every 15 minutes", "*/15"),
    Fixed("Every 30 minutes", "*/30"),
    Preset("Every hour", ["0", "*", "*", "*", "*"], false, true),
    AtTime("Every day", "*"),
    AtTime("Every weekday (Mon-Fri)", "1-5"),
    AtTime("Every Monday", "1"),
    AtTime("Every Tuesday", "2"),
    AtTime("Every Wednesday", "3"),
    AtTime("Every Thursday", "4"),
    AtTime("Every Friday", "5"),
    AtTime("Every Saturday", "6"),
    AtTime("Every Sunday", "0"),
    Preset(CUSTOM, [""], false, false)
  ]

  /** Whether a preset recognises an expression of five fields. */
  predicate Matches(p: Preset, cron: string) {
    var parts := Fields(Trim(cron));
    && p.name != CUSTOM && |p.fields| == 5 && |parts| == 5
    && (p.hasTimePicker ==> p.fields[2] == parts[2] && p.fields[3] == parts[3] && p.fields[4] == parts[4])
    && (!p.hasTimePicker && p.hasMinutePicker ==>
          parts[1] == "*" && p.fields[2] == parts[2] && p.fields[3] == parts[3] && p.fields[4] == parts[4])
    && (!p.hasTimePicker && !p.hasMinutePicker ==> Joined(p.fields) == Trim(cron))
  }

  function FirstMatch(presets: seq<Preset>, cron: string): Option<Preset> {
    if presets == [] then None
    else if Matches(presets[0], cron) then Some(presets[0])
    else FirstMatch(presets[1..], cron)
  }

  function FindPresetForCron(cron: string): Option<Preset> {
    if cron == "" || |Fields(Trim(cron))| != 5 then None else FirstMatch(CRON_PRESETS, cron)
  }

  datatype Time = Time(hour: string, minute: string)

  function ExtractTime(cron: string): Time {
    var parts := Fields(Trim(cron));
    Time(if |parts| > 1 then parts[1] else "9", parts[0])
  }

  /** The fields of the expression that a preset and the two pickers stand for. */
  function BuiltFields(p: Preset, hour: string, minute: string): seq<string>
    requires |p.fields| == 5
  {
    if p.hasTimePicker then [Show(ParseInt(minute)), Show(ParseInt(hour)), p.fields[2], p.fields[3], p.fields[4]]
    else if p.hasMinutePicker then [Show(ParseInt(minute)), "*", "*", "*", "*"]
    else p.fields
  }

  function BuildCron(p: Preset, hour: string, minute: string, rawInput: string): string
    requires p.name == CUSTOM || |p.fields| == 5
  {
    if p.name == CUSTOM then rawInput else Joined(BuiltFields(p, hour, minute))
  }

  // ----- The table

  /** What the proofs need to know of a preset that can be chosen. */
  predicate WellFormed(p: Preset) {
    && |p.fields| == 5 && AllSolid(p.fields) && p.name != CUSTOM
    && p.fields[2] == "*" && p.fields[3] == "*"
    && ValidField(p.fields[0]) && ValidField(p.fields[4])
    && !(p.hasTimePicker && p.hasMinutePicker)
    && (!p.hasTimePicker ==> p.fields[1] == "*" && p.fields[4] == "*")
    && (!p.hasTimePicker && !p.hasMinutePicker ==> p.fields[0][0] == '*')
  }

  /** The earlier preset cannot be taken for the later one. */
  predicate Distinguishable(earlier: Preset, later: Preset)
    requires WellFormed(earlier) && WellFormed(later)
  {
    && (earlier.hasTimePicker ==> later.hasTimePicker && later.fields[4] != earlier.fields[4])
    && (earlier.hasMinutePicker ==> later.hasTimePicker)
    && (!earlier.hasTimePicker && !earlier.hasMinutePicker && !later.hasTimePicker && !later.hasMinutePicker ==>
          later.fields[0] != earlier.fields[0])
  }

  /** The presets up to the custom one are well formed, and none hides a later one. */
  predicate GoodTable(presets: seq<Preset>) {
    && presets != []
    && (forall k :: 0 <= k < |presets| - 1 ==> WellFormed(presets[k]))
    && (forall j, k :: 0 <= j < k < |presets| - 1 ==> Distinguishable(presets[j], presets[k]))
    && presets[|presets| - 1].name == CUSTOM
  }

  lemma PrintableIsSolid(s: string)
    requires s != "" && forall i :: 0 <= i < |s| ==> '!' <= s[i] <= '~'
    ensures Solid(s)
  {}

  lemma FixedWellFormed(name: string, minute: string)
    requires name != CUSTOM && |minute| > 2 && minute[0] == '*' && minute[1] == '/' && Digits(minute[2..])
    ensures WellFormed(Fixed(name, minute))
  {
    forall i | 0 <= i < |minute|
      ensures '!' <= minute[i] <= '~'
    {
      assert i >= 2 ==> minute[2..][i - 2] == minute[i] && IsDigit(minute[i]);
    }
    PrintableIsSolid(minute);
    PrintableIsSolid("*");
  }

  lemma AtTimeWellFormed(name: string, weekday: string)
    requires name != CUSTOM && Solid(weekday) && ValidField(weekday)
    ensures WellFormed(AtTime(name, weekday))
  {
    PrintableIsSolid("*");
    PrintableIsSolid("0");
    PrintableIsSolid("9");
    assert IsDigit("0"[0]);
  }

  lemma OnDayWellFormed(name: string, day: char)
    requires name != CUSTOM && IsDigit(day)
    ensures WellFormed(AtTime(name, [day]))
  {
    PrintableIsSolid([day]);
    AtTimeWellFormed(name, [day]);
  }

  lemma OnWeekdaysWellFormed(name: string)
    requires name != CUSTOM
    ensures WellFormed(AtTime(name, "1-5"))
  {
    var days := "1-5";
    PrintableIsSolid(days);
    assert days[..1] == "1" && days[2..] == "5";
    assert IsRange(days);
    AtTimeWellFormed(name, days);
  }

  lemma HourlyWellFormed(name: string)
    requires name != CUSTOM
    ensures WellFormed(Preset(name, ["0", "*", "*", "*", "*"], false, true))
  {
    PrintableIsSolid("*");
    PrintableIsSolid("0");
    assert IsDigit("0"[0]);
  }

  /** A number that tells the weekdays of the time presets apart, and the intervals of the fixed ones. */
  function Code(field: string): int {
    if |field| == 1 then field[0] as int else if |field| > 2 then field[2] as int - 100 else 0
  }

  function CodeAt(k: nat): int {
    if k == 0 then '5' as int - 100
    else if k == 1 then '1' as int - 100
    else if k == 2 then '3' as int - 100
    else if k == 4 then '*' as int
    else if k == 5 then '5' as int - 100
    else if k < 12 then '1' as int + k - 6
    else '0' as int
  }

  lemma FixedEntry(k: nat)
    requires k < 3
    ensures WellFormed(CRON_PRESETS[k]) && Code(CRON_PRESETS[k].fields[0]) == CodeAt(k)
    ensures !CRON_PRESETS[k].hasTimePicker && !CRON_PRESETS[k].hasMinutePicker
  {
    if k == 0 {
      FixedWellFormed("Every 5 minutes", "*/5");
    } else if k == 1 {
      FixedWellFormed("Every 15 minutes", "*/15");
    } else {
      FixedWellFormed("Every 30 minutes", "*/30");
    }
  }

  lemma TimedEntry(k: nat)
    requires 4 <= k < 8
    ensures WellFormed(CRON_PRESETS[k]) && Code(CRON_PRESETS[k].fields[4]) == CodeAt(k)
    ensures CRON_PRESETS[k].hasTimePicker
  {
    if k == 4 {
      PrintableIsSolid("*");
      AtTimeWellFormed("Every day", "*");
    } else if k == 5 {
      OnWeekdaysWellFormed("Every weekday (Mon-Fri)");
    } else if k == 6 {
      OnDayWellFormed("Every Monday", '1');
    } else {
      OnDayWellFormed("Every Tuesday", '2');
    }
  }

  lemma LaterTimedEntry(k: nat)
    requires 8 <= k < 13
    ensures WellFormed(CRON_PRESETS[k]) && Code(CRON_PRESETS[k].fields[4]) == CodeAt(k)
    ensures CRON_PRESETS[k].hasTimePicker
  {
    if k == 8 {
      OnDayWellFormed("Every Wednesday", '3');
    } else if k == 9 {
      OnDayWellFormed("Every Thursday", '4');
    } else if k == 10 {
      OnDayWellFormed("Every Friday", '5');
    } else if k == 11 {
      OnDayWellFormed("Every Saturday", '6');
    } else {
      OnDayWellFormed("Every Sunday", '0');
    }
  }

  lemma TableEntry(k: nat)
    requires k < 13
    ensures WellFormed(CRON_PRESETS[k])
    ensures CRON_PRESETS[k].hasTimePicker <==> k >= 4
    ensures CRON_PRESETS[k].hasMinutePicker <==> k == 3
    ensures k != 3 ==> Code(if k < 3 then CRON_PRESETS[k].fields[0] else CRON_PRESETS[k].fields[4]) == CodeAt(k)
  {
    if k < 3 {
      FixedEntry(k);
    } else if k == 3 {
      HourlyWellFormed("Every hour");
    } else if k < 8 {
      TimedEntry(k);
    } else {
      LaterTimedEntry(k);
    }
  }

  lemma TableIsGood()
    ensures GoodTable(CRON_PRESETS)
  {
    forall k | 0 <= k < 13
      ensures WellFormed(CRON_PRESETS[k])
    {
      TableEntry(k);
    }
    forall j, k | 0 <= j < k < 13
      ensures Distinguishable(CRON_PRESETS[j], CRON_PRESETS[k])
    {
      TableEntry(j);
      TableEntry(k);
    }
  }

  // ----- Printing and recognising

  lemma BuiltReadsBack(p: Preset, hour: string, minute: string, rawInput: string)
    requires WellFormed(p)
    ensures var cron := BuildCron(p, hour, minute, rawInput);
            cron != "" && Trim(cron) == cron && Fields(cron) == BuiltFields(p, hour, minute)
  {
    ShownIsValidIff(ParseInt(hour));
    ShownIsValidIff(ParseInt(minute));
    JoinedIsTrimmed(BuiltFields(p, hour, minute));
  }

  lemma NotTakenFor(earlier: Preset, later: Preset, hour: string, minute: string, rawInput: string)
    requires WellFormed(earlier) && WellFormed(later) && Distinguishable(earlier, later)
    ensures !Matches(earlier, BuildCron(later, hour, minute, rawInput))
  {
    BuiltReadsBack(later, hour, minute, rawInput);
    ShownIsValidIff(ParseInt(hour));
    ShownIsValidIff(ParseInt(minute));
    FieldsOfJoined(earlier.fields);
  }

  lemma {:induction false} FirstMatchIs(presets: seq<Preset>, cron: string, k: nat)
    requires k < |presets|
    requires Matches(presets[k], cron) && forall j :: 0 <= j < k ==> !Matches(presets[j], cron)
    ensures FirstMatch(presets, cron) == Some(presets[k])
  {
    if k > 0 {
      var rest := presets[1..];
      assert !Matches(presets[0], cron) && rest[k - 1] == presets[k];
      assert forall j :: 0 <= j < k - 1 ==> rest[j] == presets[j + 1];
      FirstMatchIs(rest, cron, k - 1);
    }
  }

  lemma BuiltIsFoundIn(presets: seq<Preset>, k: nat, hour: string, minute: string, rawInput: string)
    requires GoodTable(presets) && k < |presets| - 1
    ensures var cron := BuildCron(presets[k], hour, minute, rawInput);
            cron != "" && |Fields(Trim(cron))| == 5 && FirstMatch(presets, cron) == Some(presets[k])
  {
    var p := presets[k];
    var cron := BuildCron(p, hour, minute, rawInput);
    BuiltReadsBack(p, hour, minute, rawInput);
    forall j | 0 <= j < k
      ensures !Matches(presets[j], cron)
    {
      NotTakenFor(presets[j], p, hour, minute, rawInput);
    }
    FirstMatchIs(presets, cron, k);
  }

  /** Whatever the pickers hold, the expression printed for a preset is recognised as that preset. */
  lemma BuiltIsFound(k: nat, hour: string, minute: string, rawInput: string)
    requires k < |CRON_PRESETS| - 1
    ensures FindPresetForCron(BuildCron(CRON_PRESETS[k], hour, minute, rawInput)) == Some(CRON_PRESETS[k])
  {
    TableIsGood();
    BuiltIsFoundIn(CRON_PRESETS, k, hour, minute, rawInput);
  }

  lemma BuiltFieldsValidIff(p: Preset, hour: string, minute: string)
    requires WellFormed(p)
    ensures var parts := BuiltFields(p, hour, minute);
            var usable := && (p.hasTimePicker ==> IsNatural(ParseInt(hour)))
                          && (p.hasTimePicker || p.hasMinutePicker ==> IsNatural(ParseInt(minute)));
            (forall i :: 0 <= i < 5 ==> ValidField(parts[i])) <==> usable
  {
    ShownIsValidIff(ParseInt(hour));
    ShownIsValidIff(ParseInt(minute));
    var parts := BuiltFields(p, hour, minute);
    assert ValidField("*");
    AllFive(parts);
  }

  lemma AllFive(parts: seq<string>)
    requires |parts| == 5
    ensures (forall i :: 0 <= i < 5 ==> ValidField(parts[i]))
       <==> ValidField(parts[0]) && ValidField(parts[1]) && ValidField(parts[2]) && ValidField(parts[3]) && ValidField(parts[4])
  {}

  /** It is a valid expression exactly when every picker the preset offers holds a number that is not negative. */
  lemma BuiltIsValidIff(k: nat, hour: string, minute: string, rawInput: string)
    requires k < |CRON_PRESETS| - 1
    ensures var p := CRON_PRESETS[k];
            var usable := && (p.hasTimePicker ==> IsNatural(ParseInt(hour)))
                          && (p.hasTimePicker || p.hasMinutePicker ==> IsNatural(ParseInt(minute)));
            IsValidCron(BuildCron(p, hour, minute, rawInput)) <==> usable
  {
    TableEntry(k);
    ValidIffUsable(CRON_PRESETS[k], hour, minute, rawInput);
  }

  lemma ValidIffUsable(p: Preset, hour: string, minute: string, rawInput: string)
    requires WellFormed(p)
    ensures var usable := && (p.hasTimePicker ==> IsNatural(ParseInt(hour)))
                          && (p.hasTimePicker || p.hasMinutePicker ==> IsNatural(ParseInt(minute)));
            IsValidCron(BuildCron(p, hour, minute, rawInput)) <==> usable
  {
    BuiltReadsBack(p, hour, minute, rawInput);
    BuiltFieldsValidIff(p, hour, minute);
  }

  /** Clearing the time input prints an expression that is not valid. */
  lemma ClearedTimeIsInvalid(k: nat, rawInput: string)
    requires k < |CRON_PRESETS| - 1 && CRON_PRESETS[k].hasTimePicker
    ensures !IsValidCron(BuildCron(CRON_PRESETS[k], "", "00", rawInput))
  {
    BuiltIsValidIff(k, "", "00", rawInput);
  }

  /** What the pickers are set to from an expression stands for the numbers it was printed from. */
  lemma ExtractRecovers(k: nat, hour: nat, minute: nat, rawInput: string)
    requires k < |CRON_PRESETS| - 1
    ensures var p := CRON_PRESETS[k];
            var time := ExtractTime(BuildCron(p, Decimal(hour), Decimal(minute), rawInput));
            && (p.hasTimePicker ==> time.hour == Decimal(hour) && ParseInt(PadStart(time.hour)) == Some(hour))
            && (p.hasTimePicker || p.hasMinutePicker ==>
                  time.minute == Decimal(minute) && ParseInt(PadStart(time.minute)) == Some(minute))
  {
    TableEntry(k);
    BuiltReadsBack(CRON_PRESETS[k], Decimal(hour), Decimal(minute), rawInput);
    ParseDecimal(hour);
    ParseDecimal(minute);
  }

  lemma ParseDecimal(n: nat)
    ensures ParseInt(Decimal(n)) == Some(n) && ParseInt(PadStart(Decimal(n))) == Some(n)
  {
    ParseDigits(Decimal(n));
    DecimalReadsBack(n);
    PaddingIsHarmless(Decimal(n));
  }

  /** Reading a printed expression into padded pickers and printing it again gives it back. */
  lemma PickersRoundTrip(k: nat, hour: nat, minute: nat, rawInput: string)
    requires k < |CRON_PRESETS| - 1
    ensures var cron := BuildCron(CRON_PRESETS[k], Decimal(hour), Decimal(minute), rawInput);
            var time := ExtractTime(cron);
            BuildCron(CRON_PRESETS[k], PadStart(time.hour), PadStart(time.minute), rawInput) == cron
  {
    ExtractRecovers(k, hour, minute, rawInput);
    ParseDecimal(hour);
    ParseDecimal(minute);
    TableEntry(k);
  }

  /** A preset is found only for expressions that differ from its own in nothing but the numbers its pickers hold. */
  lemma FoundRebuilds(cron: string, hour: nat, minute: nat, rawInput: string)
    requires FindPresetForCron(cron).Some?
    requires var p, parts := FindPresetForCron(cron).value, Fields(Trim(cron));
             && |parts| == 5
             && (p.hasTimePicker || p.hasMinutePicker ==> parts[0] == Decimal(minute))
             && (p.hasTimePicker ==> parts[1] == Decimal(hour))
    ensures var p, time := FindPresetForCron(cron).value, ExtractTime(cron);
            && p in CRON_PRESETS && p.name != CUSTOM && |p.fields| == 5
            && Fields(Trim(BuildCron(p, PadStart(time.hour), PadStart(time.minute), rawInput))) == Fields(Trim(cron))
  {
    var k := FirstMatchListed(CRON_PRESETS, cron);
    var p, time := CRON_PRESETS[k], ExtractTime(cron);
    TableEntry(k);
    ParseDecimal(hour);
    ParseDecimal(minute);
    BuiltReadsBack(p, PadStart(time.hour), PadStart(time.minute), rawInput);
    MatchedFields(p, cron);
    RebuiltFields(p, Fields(Trim(cron)), hour, minute, PadStart(time.hour), PadStart(time.minute));
  }

  lemma RebuiltFields(p: Preset, parts: seq<string>, hour: nat, minute: nat, h: string, m: string)
    requires WellFormed(p) && |parts| == 5
    requires p.hasTimePicker || p.hasMinutePicker ==> parts[0] == Decimal(minute) && ParseInt(m) == Some(minute)
    requires p.hasTimePicker ==> parts[1] == Decimal(hour) && ParseInt(h) == Some(hour)
    requires parts[2] == p.fields[2] && parts[3] == p.fields[3] && parts[4] == p.fields[4]
    requires !p.hasTimePicker ==> parts[1] == p.fields[1]
    requires !p.hasTimePicker && !p.hasMinutePicker ==> parts[0] == p.fields[0]
    ensures BuiltFields(p, h, m) == parts
  {
    var built := BuiltFields(p, h, m);
    assert built[0] == parts[0] && built[1] == parts[1] && built[2] == parts[2] && built[3] == parts[3] && built[4] == parts[4];
  }

  lemma {:induction false} FirstMatchListed(presets: seq<Preset>, cron: string) returns (k: nat)
    requires FirstMatch(presets, cron).Some?
    ensures k < |presets| && FirstMatch(presets, cron) == Some(presets[k]) && Matches(presets[k], cron)
  {
    if Matches(presets[0], cron) {
      k := 0;
    } else {
      var i := FirstMatchListed(presets[1..], cron);
      k := i + 1;
    }
  }

  lemma MatchedFields(p: Preset, cron: string)
    requires WellFormed(p) && Matches(p, cron)
    ensures var parts := Fields(Trim(cron));
            && |parts| == 5 && parts[2] == p.fields[2] && parts[3] == p.fields[3] && parts[4] == p.fields[4]
            && (!p.hasTimePicker ==> parts[1] == p.fields[1])
            && (!p.hasTimePicker && !p.hasMinutePicker ==> parts[0] == p.fields[0])
  {
    FieldsOfJoined(p.fields);
  }

  // ----- Lists of ranges

  function Commas(ranges: seq<string>): string {
    if ranges == [] then "" else if |ranges| == 1 then ranges[0] else ranges[0] + "," + Commas(ranges[1..])
  }

  lemma {:induction false} CommasAreAList(ranges: seq<string>)
    requires ranges != [] && forall r :: r in ranges ==> IsRange(r)
    ensures IsRangeList(Commas(ranges))
  {
    if |ranges| > 1 {
      var s, k := Commas(ranges), |ranges[0]|;
      CommasAreAList(ranges[1..]);
      assert s[..k] == ranges[0] && s[k] == ',' && s[k + 1..] == Commas(ranges[1..]);
    }
  }

  lemma CommasOneMore(s: string, k: nat, rest: seq<string>)
    requires k < |s| && s[k] == ',' && rest != [] && s[k + 1..] == Commas(rest)
    ensures s == Commas([s[..k]] + rest)
  {
    assert ([s[..k]] + rest)[1..] == rest;
    assert s == s[..k] + "," + s[k + 1..];
  }

  lemma {:induction false} ListHasCommas(s: string) returns (ranges: seq<string>)
    requires IsRangeList(s)
    ensures ranges != [] && (forall r :: r in ranges ==> IsRange(r)) && s == Commas(ranges)
    decreases |s|
  {
    if IsRange(s) {
      ranges := [s];
    } else {
      var k :| 0 <= k < |s| && s[k] == ',' && IsRange(s[..k]) && IsRangeList(s[k + 1..]);
      var rest := ListHasCommas(s[k + 1..]);
      CommasOneMore(s, k, rest);
      ranges := [s[..k]] + rest;
    }
  }

  /** The fields beside the starred ones are the lists of numbers and of ranges, separated by single commas. */
  lemma RangeListIff(s: string)
    ensures IsRangeList(s) <==> exists ranges :: ranges != [] && (forall r :: r in ranges ==> IsRange(r)) && s == Commas(ranges)
  {
    if IsRangeList(s) {
      var ranges := ListHasCommas(s);
    }
    if ranges :| ranges != [] && (forall r :: r in ranges ==> IsRange(r)) && s == Commas(ranges) {
      CommasAreAList(ranges);
    }
  }

  lemma DashedIsRange(a: string, b: string)
    requires Digits(a) && Digits(b)
    ensures IsRange(a + "-" + b)
  {
    var s := a + "-" + b;
    assert s[..|a|] == a && s[|a|] == '-' && s[|a| + 1..] == b;
  }

  lemma RangeIsDashed(s: string) returns (a: string, b: string)
    requires IsRange(s) && !Digits(s)
    ensures Digits(a) && Digits(b) && s == a + "-" + b
  {
    var k :| 0 <= k < |s| && s[k] == '-' && Digits(s[..k]) && Digits(s[k + 1..]);
    a, b := s[..k], s[k + 1..];
  }

  lemma RangeIff(s: string)
    ensures IsRange(s) <==> Digits(s) || exists a, b :: Digits(a) && Digits(b) && s == a + "-" + b
  {
    if !Digits(s) && IsRange(s) {
      var a, b := RangeIsDashed(s);
    }
    if a, b :| Digits(a) && Digits(b) && s == a + "-" + b {
      DashedIsRange(a, b);
    }
  }
}
