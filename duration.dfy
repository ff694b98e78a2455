/** Display form of a video's length: `VideoProcessor._format_duration`. */
module Duration {
  import opened Wrappers
  import opened Decimal

  const UNKNOWN := "Unknown"

  /**
   * The duration string shown for `seconds`. A missing value or 0 (both falsy in Python)
   * gives "Unknown"; otherwise hours, minutes and seconds come from floor division and
   * modulo (which agree with Dafny's `/` and `%` for these positive divisors), shown as
   * "HH:MM:SS" when there is at least one hour and "MM:SS" otherwise.
   */
  function FormatDuration(seconds: Option<int>): (r: string)
    ensures r == UNKNOWN <==> seconds.None? || seconds.value == 0
    ensures r != UNKNOWN ==> ':' in r
  {
    if seconds.None? || seconds.value == 0 then UNKNOWN
    else
      var s := seconds.value;
      var hours, minutes, secs := s / 3600, (s % 3600) / 60, s % 60;
      if hours > 0 then Pad2(hours) + ":" + Pad2(minutes) + ":" + Pad2(secs)
      else Pad2(minutes) + ":" + Pad2(secs)
  }

  /** The pieces of `s` between colons, as Python's `s.split(":")` gives them. */
  function Fields(s: string): (r: seq<string>)
    ensures |r| >= 1
  {
    if s == [] then [""]
    else
      var rest := Fields(s[1..]);
      if s[0] == ':' then [""] + rest else [[s[0]] + rest[0]] + rest[1..]
  }

  /** The number of seconds a "MM:SS" or "HH:MM:SS" string denotes; the reader of a duration string. */
  function ParseClock(t: string): Option<int>
  {
    var f := Fields(t);
    if |f| == 2 && AllDigits(f[0]) && AllDigits(f[1]) then
      Some(ParseNat(f[0]) * 60 + ParseNat(f[1]))
    else if |f| == 3 && AllDigits(f[0]) && AllDigits(f[1]) && AllDigits(f[2]) then
      Some(ParseNat(f[0]) * 3600 + ParseNat(f[1]) * 60 + ParseNat(f[2]))
    else None
  }

  lemma {:induction false} FieldsNoColon(x: string)
    requires ':' !in x
    ensures Fields(x) == [x]
  {
    if x != [] {
      FieldsNoColon(x[1..]);
      assert [x[0]] + x[1..] == x;
    }
  }

  lemma {:induction false} FieldsJoin(x: string, y: string)
    requires ':' !in x
    ensures Fields(x + ":" + y) == [x] + Fields(y)
  {
    if x == [] {
      assert (x + ":" + y)[1..] == y;
    } else {
      assert (x + ":" + y)[1..] == x[1..] + ":" + y;
      FieldsJoin(x[1..], y);
      assert [x[0]] + x[1..] == x;
    }
  }

  lemma DigitsHaveNoColon(s: string)
    requires AllDigits(s)
    ensures ':' !in s
  {
  }

  /** Floor division by 3600 and 60 splits a duration into hours, minutes and seconds. */
  lemma ClockArithmetic(s: int)
    ensures 0 <= (s % 3600) / 60 < 60 && 0 <= s % 60 < 60
    ensures (s / 3600) * 3600 + ((s % 3600) / 60) * 60 + s % 60 == s
    ensures s / 3600 > 0 <==> s >= 3600
  {
    var r := s % 3600;
    assert s == (s / 3600) * 3600 + r;
    assert r == (r / 60) * 60 + r % 60;
    assert s - r == (s / 3600) * 60 * 60;
    assert (s - r) % 60 == 0;
    assert r % 60 == s % 60;
  }

  /** "MM:SS" with zero-padded fields reads back as the seconds it shows. */
  lemma ShortClockRoundTrip(minutes: nat, secs: nat)
    ensures ParseClock(Pad2(minutes) + ":" + Pad2(secs)) == Some(minutes * 60 + secs)
    ensures Fields(Pad2(minutes) + ":" + Pad2(secs)) == [Pad2(minutes), Pad2(secs)]
  {
    var m, x := Pad2(minutes), Pad2(secs);
    ParsePad2(minutes);
    ParsePad2(secs);
    DigitsHaveNoColon(m);
    DigitsHaveNoColon(x);
    FieldsNoColon(x);
    FieldsJoin(m, x);
    assert Fields(m + ":" + x) == [m, x];
  }

  /** "HH:MM:SS" with zero-padded fields reads back as the seconds it shows. */
  lemma LongClockRoundTrip(hours: nat, minutes: nat, secs: nat)
    ensures ParseClock(Pad2(hours) + ":" + Pad2(minutes) + ":" + Pad2(secs)) == Some(hours * 3600 + minutes * 60 + secs)
    ensures Fields(Pad2(hours) + ":" + Pad2(minutes) + ":" + Pad2(secs)) == [Pad2(hours), Pad2(minutes), Pad2(secs)]
  {
    ShortClockRoundTrip(minutes, secs);
    ParsePad2(hours);
    DigitsHaveNoColon(Pad2(hours));
    assert Pad2(hours) + ":" + Pad2(minutes) + ":" + Pad2(secs)
        == Pad2(hours) + ":" + (Pad2(minutes) + ":" + Pad2(secs));
    FieldsJoin(Pad2(hours), Pad2(minutes) + ":" + Pad2(secs));
  }

  /**
   * For a positive duration the display string loses nothing: reading it back gives the
   * number of seconds. It has three fields exactly when the duration reaches one hour; the
   * last two are the two-digit minutes and seconds, both below 60, and the hours field, when
   * there is one, has at least two digits and a leading zero only when it has exactly two.
   */
  lemma DurationRoundTrip(s: int)
    requires s > 0
    ensures ParseClock(FormatDuration(Some(s))) == Some(s)
    ensures var f := Fields(FormatDuration(Some(s)));
      && |f| == (if s < 3600 then 2 else 3)
      && |f[|f| - 2]| == 2 && AllDigits(f[|f| - 2]) && ParseNat(f[|f| - 2]) == (s % 3600) / 60 < 60
      && |f[|f| - 1]| == 2 && AllDigits(f[|f| - 1]) && ParseNat(f[|f| - 1]) == s % 60 < 60
      && (s >= 3600 ==> |f[0]| >= 2 && AllDigits(f[0]) && ParseNat(f[0]) == s / 3600)
      && (s >= 3600 ==> |f[0]| == 2 || f[0][0] != '0')
  {
    var hours, minutes, secs := s / 3600, (s % 3600) / 60, s % 60;
    ClockArithmetic(s);
    ParsePad2(minutes);
    ParsePad2(secs);
    if hours > 0 {
      assert FormatDuration(Some(s)) == Pad2(hours) + ":" + Pad2(minutes) + ":" + Pad2(secs);
      LongClockRoundTrip(hours, minutes, secs);
      ParsePad2(hours);
      assert s >= 3600;
    } else {
      assert FormatDuration(Some(s)) == Pad2(minutes) + ":" + Pad2(secs);
      ShortClockRoundTrip(minutes, secs);
      assert hours == 0 && s < 3600;
    }
  }

  /** Under a minute: "00:45". */
  lemma DurationExampleSeconds()
    ensures FormatDuration(Some(45)) == "00:45"
  {
    assert Pad2(45) == "45";
  }

  /** Just over an hour: "01:01:01". */
  lemma DurationExampleHour()
    ensures FormatDuration(Some(3661)) == "01:01:01"
  {
    assert Pad2(1) == "01";
  }

  /** A missing duration and a zero duration are both "Unknown". */
  lemma DurationExampleUnknown()
    ensures FormatDuration(Some(0)) == UNKNOWN && FormatDuration(None) == UNKNOWN
  {
  }

  /** A negative value, which Python's floor division turns into "59:55". */
  lemma DurationExampleNegative()
    ensures FormatDuration(Some(-5)) == "59:55"
  {
    assert Pad2(59) == "59" by { assert NatToString(5) == "5"; }
    assert Pad2(55) == "55" by { assert NatToString(5) == "5"; }
  }
}
