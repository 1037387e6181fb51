/** Cron expressions in words: what the sentence under the scheduler says of the expressions its presets print. */
module CronWords {
  import opened Wrappers
  import opened Strings
  import opened CronScheduler

  // ----- The sentence

  function DayName(weekday: string): Option<string> {
    if weekday == "0" || weekday == "7" then Some("Sunday")
    else if weekday == "1" then Some("Monday")
    else if weekday == "2" then Some("Tuesday")
    else if weekday == "3" then Some("Wednesday")
    else if weekday == "4" then Some("Thursday")
    else if weekday == "5" then Some("Friday")
    else if weekday == "6" then Some("Saturday")
    else None
  }

  /** The time on a twelve-hour clock; what is not a number is shown as such. */
  function ClockTime(hour: Option<int>, minute: Option<int>): string {
    var afternoon := hour.Some? && hour.value >= 12;
    var shown := if hour == Some(0) then Some(12) else if hour.Some? && hour.value > 12 then Some(hour.value - 12) else hour;
    Show(shown) + ":" + PadStart(Show(minute)) + (if afternoon then " PM" else " AM")
  }

  /** On which days an expression with a fixed time runs. */
  function Days(weekday: string): Option<string> {
    if weekday == "*" then Some("day")
    else if weekday == "1-5" then Some("weekday (Mon-Fri)")
    else DayName(weekday)
  }

  const RUNS_EVERY := "Runs every "

  /** The sentence for an expression of five fields. */
  function Sentence(cron: string, minute: string, hour: string, weekday: string): string {
    if "*/" <= minute && hour == "*" then RUNS_EVERY + (minute[2..] + " minutes")
    else if hour == "*" && '*' !in minute then RUNS_EVERY + "hour" + (" at :" + PadStart(minute))
    else if '*' !in hour && '*' !in minute && Days(weekday).Some? then
      RUNS_EVERY + Days(weekday).value + (" at " + ClockTime(ParseInt(hour), ParseInt(minute)))
    else "Cron: " + cron
  }

  function CronToHuman(cron: string): string {
    var parts := Fields(Trim(cron));
    if cron == "" || Trim(cron) == "" then ""
    else if |parts| != 5 then "Invalid cron expression"
    else Sentence(cron, parts[0], parts[1], parts[4])
  }

  // ----- Printed numbers

  lemma NothingReadsAsNothing()
    ensures ParseInt("NaN") == None
  {
    var s := "NaN";
    assert s[0] == 'N';
    assert TrimStart(s) == s && DigitPrefix(s) == "";
  }

  lemma NegativeReadsBack(digits: string)
    requires Digits(digits)
    ensures var magnitude: int := Value(digits); ParseInt("-" + digits) == Some(-magnitude)
  {
    var s := "-" + digits;
    assert s[0] == '-' && s[1..] == digits;
    assert TrimStart(s) == s;
    PrefixOfDigits(digits);
  }

  /** A printed number is read back, and so is what is printed for no number. */
  lemma ShownReadsBack(n: Option<int>)
    ensures ParseInt(Show(n)) == n
  {
    if n.None? {
      NothingReadsAsNothing();
    } else {
      var magnitude := if n.value < 0 then -n.value else n.value;
      DecimalReadsBack(magnitude);
      ParseDigits(Decimal(magnitude));
      NegativeReadsBack(Decimal(magnitude));
    }
  }

  lemma ShownHasNoStar(n: Option<int>)
    ensures '*' !in Show(n) && Show(n) != "*" && !("*/" <= Show(n))
  {
    ShownIsValidIff(n);
    forall c | c in Show(n)
      ensures c != '*'
    {
      assert IsDigit(c) || c in "NaN-";
    }
  }

  /** A shorter text is padded with zeros to two characters, any other is left alone. */
  lemma PadStartIs(s: string)
    ensures PadStart(s) == (if |s| == 0 then "00" else if |s| == 1 then ['0', s[0]] else s)
  {
    if |s| == 0 {
      assert "0" + s == "0" && "0" + "0" == "00";
    } else if |s| == 1 {
      assert "0" + s == ['0', s[0]];
    }
  }

  /** An hour of the day is shown as its number on a clock face, with the half of the day it is in. */
  lemma TwelveHours(hour: nat, minute: nat) returns (face: nat)
    requires hour < 24
    ensures 1 <= face <= 12 && (hour == face || hour == face + 12 || (face == 12 && hour == 0))
    ensures ClockTime(Some(hour), Some(minute))
         == Decimal(face) + ":" + PadStart(Decimal(minute)) + (if hour < 12 then " AM" else " PM")
  {
    face := if hour == 0 then 12 else if hour > 12 then hour - 12 else hour;
  }

  // ----- What the presets are called

  /** What a preset's label says after its first word, and what the sentence adds to that. */
  function Phrase(p: Preset): string
    requires |p.fields| == 5
  {
    if p.hasTimePicker then (if Days(p.fields[4]).Some? then Days(p.fields[4]).value else "")
    else if p.hasMinutePicker then "hour"
    else if "*/" <= p.fields[0] then p.fields[0][2..] + " minutes"
    else ""
  }

  function Addition(p: Preset, hour: string, minute: string): string {
    if p.hasTimePicker then " at " + ClockTime(ParseInt(hour), ParseInt(minute))
    else if p.hasMinutePicker then " at :" + PadStart(Show(ParseInt(minute)))
    else ""
  }

  /** The label is "Every" and the phrase. */
  predicate WellNamed(p: Preset) {
    |p.fields| == 5 && p.name == "Every " + Phrase(p) && Phrase(p) != ""
  }

  lemma FixedNamed(name: string, minute: string, interval: string)
    requires name == "Every " + (interval + " minutes") && minute == "*/" + interval
    ensures WellNamed(Fixed(name, minute))
  {
    assert minute[2..] == interval;
  }

  lemma IntervalNamed(k: nat)
    requires k < 3
    ensures WellNamed(CRON_PRESETS[k])
  {
    if k == 0 {
      FixedNamed("Every 5 minutes", "*/5", "5");
    } else if k == 1 {
      FixedNamed("Every 15 minutes", "*/15", "15");
    } else {
      FixedNamed("Every 30 minutes", "*/30", "30");
    }
  }

  lemma DailyNamed(k: nat)
    requires 3 <= k < 6
    ensures WellNamed(CRON_PRESETS[k])
  {
    if k == 3 {
      assert "Every " + "hour" == "Every hour";
    } else if k == 4 {
      assert "Every " + "day" == "Every day";
    } else {
      assert "Every " + "weekday (Mon-Fri)" == "Every weekday (Mon-Fri)";
    }
  }

  lemma EarlyWeekNamed(k: nat)
    requires 6 <= k < 9
    ensures WellNamed(CRON_PRESETS[k])
  {
    if k == 6 {
      assert "Every " + "Monday" == "Every Monday";
    } else if k == 7 {
      assert "Every " + "Tuesday" == "Every Tuesday";
    } else {
      assert "Every " + "Wednesday" == "Every Wednesday";
    }
  }

  lemma LateWeekNamed(k: nat)
    requires 9 <= k < 13
    ensures WellNamed(CRON_PRESETS[k])
  {
    if k == 9 {
      assert "Every " + "Thursday" == "Every Thursday";
    } else if k == 10 {
      assert "Every " + "Friday" == "Every Friday";
    } else if k == 11 {
      assert "Every " + "Saturday" == "Every Saturday";
    } else {
      assert "Every " + "Sunday" == "Every Sunday";
    }
  }

  // ----- The sentence says what the label says

  lemma SentenceOfFixed(p: Preset, cron: string)
    requires WellFormed(p) && WellNamed(p) && !p.hasTimePicker && !p.hasMinutePicker
    ensures Sentence(cron, p.fields[0], p.fields[1], p.fields[4]) == RUNS_EVERY + Phrase(p)
  {}

  lemma SentenceOfHourly(minute: Option<int>, cron: string, weekday: string)
    ensures Sentence(cron, Show(minute), "*", weekday) == RUNS_EVERY + "hour" + (" at :" + PadStart(Show(minute)))
  {
    ShownHasNoStar(minute);
  }

  lemma SentenceOfTimed(hour: Option<int>, minute: Option<int>, cron: string, weekday: string)
    requires Days(weekday).Some?
    ensures Sentence(cron, Show(minute), Show(hour), weekday)
         == RUNS_EVERY + Days(weekday).value + (" at " + ClockTime(hour, minute))
  {
    ShownHasNoStar(minute);
    ShownHasNoStar(hour);
    ShownReadsBack(minute);
    ShownReadsBack(hour);
  }

  lemma SentenceOf(p: Preset, hour: string, minute: string, rawInput: string)
    requires WellFormed(p) && WellNamed(p)
    ensures CronToHuman(BuildCron(p, hour, minute, rawInput)) == RUNS_EVERY + Phrase(p) + Addition(p, hour, minute)
  {
    var cron := BuildCron(p, hour, minute, rawInput);
    BuiltReadsBack(p, hour, minute, rawInput);
    if p.hasTimePicker {
      SentenceOfTimed(ParseInt(hour), ParseInt(minute), cron, p.fields[4]);
    } else if p.hasMinutePicker {
      SentenceOfHourly(ParseInt(minute), cron, "*");
    } else {
      SentenceOfFixed(p, cron);
    }
  }

  /** The sentence for a printed expression says what the label of its preset says, and when; whatever the pickers hold. */
  lemma SentenceSaysLabel(k: nat, hour: string, minute: string, rawInput: string)
    requires k < |CRON_PRESETS| - 1
    ensures var p := CRON_PRESETS[k];
            && |p.fields| == 5 && p.name == "Every " + Phrase(p) && Phrase(p) != ""
            && CronToHuman(BuildCron(p, hour, minute, rawInput)) == RUNS_EVERY + Phrase(p) + Addition(p, hour, minute)
  {
    TableEntry(k);
    if k < 3 {
      IntervalNamed(k);
    } else if k < 6 {
      DailyNamed(k);
    } else if k < 9 {
      EarlyWeekNamed(k);
    } else {
      LateWeekNamed(k);
    }
    SentenceOf(CRON_PRESETS[k], hour, minute, rawInput);
  }
}
