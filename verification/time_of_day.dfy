/** Times of day as text: the `HH:MM` pattern of the appointment schemas and
    the minute arithmetic `t.split(':').map(Number)` → `h * 60 + m` that the
    end-after-start rule and the duration display share. */
module TimeOfDay {
  import opened Wrappers
  import opened Text

  /** The pattern `^([0-1]?[0-9]|2[0-3]):[0-5][0-9]$`: one hour digit, or two
      with a leading 0/1, or 20-23; a colon; minutes 00-59. */
  predicate IsTime(s: string) {
    || (|s| == 4 && IsDigit(s[0]) && s[1] == ':' && '0' <= s[2] <= '5' && IsDigit(s[3]))
    || (|s| == 5 && (('0' <= s[0] <= '1' && IsDigit(s[1])) || (s[0] == '2' && '0' <= s[1] <= '3'))
        && s[2] == ':' && '0' <= s[3] <= '5' && IsDigit(s[4]))
  }

  /** The text of hour `h` and minute `m`: "H:MM" or, with `padHour`, "HH:MM". */
  function TimeText(h: nat, m: nat, padHour: bool): string
    requires h < 24 && m < 60 && (padHour || h < 10)
  {
    (if padHour then [DigitChar(h / 10), DigitChar(h % 10)] else [DigitChar(h)])
    + ":" + [DigitChar(m / 10), DigitChar(m % 10)]
  }

  ghost predicate IsTimeText(s: string) {
    exists h: nat, m: nat, padHour: bool :: h < 24 && m < 60 && (padHour || h < 10) && s == TimeText(h, m, padHour)
  }

  /** The pattern accepts exactly the texts of the hours 0-23 and minutes
      0-59, with or without a leading zero on a one-digit hour. */
  lemma TimePatternMeaning(s: string)
    ensures IsTime(s) <==> IsTimeText(s)
  {
    if IsTime(s) {
      PatternGivesText(s);
    }
    if IsTimeText(s) {
      var h: nat, m: nat, padHour: bool :| h < 24 && m < 60 && (padHour || h < 10) && s == TimeText(h, m, padHour);
      TextMatchesPattern(h, m, padHour);
    }
  }

  lemma PatternGivesText(s: string)
    requires IsTime(s)
    ensures IsTimeText(s)
  {
    if |s| == 4 {
      var h, m := DigitValue(s[0]), DigitValue(s[2]) * 10 + DigitValue(s[3]);
      assert s == TimeText(h, m, false);
    } else {
      var h, m := DigitValue(s[0]) * 10 + DigitValue(s[1]), DigitValue(s[3]) * 10 + DigitValue(s[4]);
      assert s == TimeText(h, m, true);
    }
  }

  lemma TextMatchesPattern(h: nat, m: nat, padHour: bool)
    requires h < 24 && m < 60 && (padHour || h < 10)
    ensures IsTime(TimeText(h, m, padHour))
  {
  }

  lemma TimeExamples()
    ensures IsTime("9:05") && IsTime("09:05") && IsTime("23:59") && IsTime("0:00")
    ensures !IsTime("24:00") && !IsTime("9:60") && !IsTime("9:5") && !IsTime("123:00")
  {
  }

  /** `Number(part)` on a part made of decimal digits (the empty part reads as
      0); any other part is treated as `NaN`, shown as `None`. */
  function NumberOf(part: string): Option<int> {
    if AllDigits(part) then Some(DigitsValue(part)) else None
  }

  /** `const p = t.split(':').map(Number); p[0] * 60 + p[1]`; `None` when the
      result is `NaN` (no second part, or a part that is not a number). */
  function MinutesOf(t: string): Option<int> {
    match AfterFirst(t, ':')
    case None => None
    case Some(rest) =>
      match (NumberOf(BeforeFirst(t, ':')), NumberOf(BeforeFirst(rest, ':')))
      case (Some(h), Some(m)) => Some(h * 60 + m)
      case _ => None
  }

  /** Reading the minutes of a rendered time gives back `h * 60 + m`. */
  lemma MinutesOfTimeText(h: nat, m: nat, padHour: bool)
    requires h < 24 && m < 60 && (padHour || h < 10)
    ensures MinutesOf(TimeText(h, m, padHour)) == Some(h * 60 + m)
  {
    var t := TimeText(h, m, padHour);
    var hourText := if padHour then [DigitChar(h / 10), DigitChar(h % 10)] else [DigitChar(h)];
    var minuteText := [DigitChar(m / 10), DigitChar(m % 10)];
    assert t == hourText + [':'] + minuteText;
    assert BeforeFirst(t, ':') == hourText by {
      BeforeFirstOfConcat(hourText, minuteText);
    }
    assert AfterFirst(t, ':') == Some(minuteText) by {
      BeforeFirstOfConcat(hourText, minuteText);
    }
    assert BeforeFirst(minuteText, ':') == minuteText;
    TwoDigits(m);
    if padHour {
      TwoDigits(h);
    } else {
      assert DigitsValue(hourText) == h by {
        assert hourText[..0] == [];
      }
    }
  }

  /** The two digits of a number below 100 read back as that number. */
  lemma TwoDigits(n: nat)
    requires n < 100
    ensures AllDigits([DigitChar(n / 10), DigitChar(n % 10)])
    ensures DigitsValue([DigitChar(n / 10), DigitChar(n % 10)]) == n
  {
    var d := [DigitChar(n / 10), DigitChar(n % 10)];
    assert d[..1] == [DigitChar(n / 10)];
    assert d[..1][..0] == [];
    assert DigitsValue(d[..1]) == n / 10;
    assert DigitValue(d[1]) == n % 10;
  }

  lemma {:induction false} BeforeFirstOfConcat(a: string, b: string)
    requires ':' !in a
    ensures BeforeFirst(a + [':'] + b, ':') == a
    ensures AfterFirst(a + [':'] + b, ':') == Some(b)
  {
    if a != [] {
      assert (a + [':'] + b)[1..] == a[1..] + [':'] + b;
      BeforeFirstOfConcat(a[1..], b);
    }
  }

  /** Hour 24 with valid minutes: the pattern refuses it, yet the minute
      arithmetic reads it as `24 * 60 + m`, past every valid time. */
  lemma HourTwentyFour(m: nat)
    requires m < 60
    ensures var t := "24:" + [DigitChar(m / 10), DigitChar(m % 10)];
      !IsTime(t) && MinutesOf(t) == Some(24 * 60 + m)
  {
    var minuteText := [DigitChar(m / 10), DigitChar(m % 10)];
    var t := "24:" + minuteText;
    assert t == [DigitChar(24 / 10), DigitChar(24 % 10)] + [':'] + minuteText;
    BeforeFirstOfConcat([DigitChar(24 / 10), DigitChar(24 % 10)], minuteText);
    assert BeforeFirst(minuteText, ':') == minuteText;
    TwoDigits(24);
    TwoDigits(m);
  }

  /** The minute of the day a text matching the pattern names, read off its
      digit positions. */
  function ClockMinutes(s: string): nat
    requires IsTime(s)
  {
    if |s| == 4 then DigitValue(s[0]) * 60 + DigitValue(s[2]) * 10 + DigitValue(s[3])
    else (DigitValue(s[0]) * 10 + DigitValue(s[1])) * 60 + DigitValue(s[3]) * 10 + DigitValue(s[4])
  }

  /** On texts the pattern accepts, the split-and-convert arithmetic gives
      the minute of the day, below 24 * 60. */
  lemma MinutesOfPattern(s: string)
    requires IsTime(s)
    ensures MinutesOf(s) == Some(ClockMinutes(s))
    ensures ClockMinutes(s) < 24 * 60
  {
    if |s| == 4 {
      ShortTimeMinutes(s);
    } else {
      LongTimeMinutes(s);
    }
  }

  lemma ShortTimeMinutes(s: string)
    requires IsTime(s) && |s| == 4
    ensures MinutesOf(s) == Some(DigitValue(s[0]) * 60 + DigitValue(s[2]) * 10 + DigitValue(s[3]))
  {
    var h, m := DigitValue(s[0]), DigitValue(s[2]) * 10 + DigitValue(s[3]);
    assert s == TimeText(h, m, false);
    MinutesOfTimeText(h, m, false);
  }

  lemma LongTimeMinutes(s: string)
    requires IsTime(s) && |s| == 5
    ensures MinutesOf(s) == Some((DigitValue(s[0]) * 10 + DigitValue(s[1])) * 60 + DigitValue(s[3]) * 10 + DigitValue(s[4]))
  {
    var h, m := DigitValue(s[0]) * 10 + DigitValue(s[1]), DigitValue(s[3]) * 10 + DigitValue(s[4]);
    assert s == TimeText(h, m, true);
    MinutesOfTimeText(h, m, true);
  }

  /** Every text the pattern accepts reads as a minute of the day in [0, 1439]. */
  lemma MinutesOfValidTime(t: string)
    requires IsTime(t)
    ensures MinutesOf(t).Some? && 0 <= MinutesOf(t).value < 24 * 60
  {
    TimePatternMeaning(t);
    var h: nat, m: nat, padHour: bool :| h < 24 && m < 60 && (padHour || h < 10) && t == TimeText(h, m, padHour);
    MinutesOfTimeText(h, m, padHour);
  }
}
