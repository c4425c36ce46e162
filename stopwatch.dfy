/**
 * `StopWatchFormat`: a duration as a countdown clock, `[-][H:][M:]SS`.
 *
 * The duration is given in nanoseconds, as Go's `time.Duration` is, so that
 * the truncation of fractional seconds shows. The Go code works on float
 * seconds; on whole nanoseconds its `/`, `math.Mod` and `int(...)` steps are
 * exact, which is the reading taken here.
 */
module Stopwatch {
  import opened Base
  import opened Text

  const NanosPerSecond: int := 1000000000

  /** Whole seconds in the magnitude of `ns` (the fraction is dropped). */
  function WholeSeconds(ns: int): nat
  {
    (if ns < 0 then -ns else ns) / NanosPerSecond
  }

  function SignText(ns: int): string
  {
    if ns < 0 then "-" else ""
  }

  /** The hours group, present from one hour on. */
  function HoursText(sec: nat): string
  {
    if sec >= 3600 then NatText(sec / 3600) + ":" else ""
  }

  /** The minutes group of `r` seconds within the hour: padded unless nothing precedes it. */
  function MinutesText(lead: string, r: nat): string
  {
    if r < 60 then ""
    else if lead == [] then NatText(r / 60) + ":"
    else Pad2(r / 60) + ":"
  }

  /**
   * The clock text: a `-` for a negative duration; the whole hours and `:`
   * from one hour on; the minutes within the hour and `:` when there is at
   * least one, zero padded unless something precedes them; then the seconds
   * within the minute, zero padded.
   */
  function ClockText(ns: int): string
  {
    ClockFace(SignText(ns), WholeSeconds(ns))
  }

  /** The clock text of `sec` whole seconds after the sign text `sign`. */
  function ClockFace(sign: string, sec: nat): string
  {
    var lead := sign + HoursText(sec);
    lead + MinutesText(lead, sec % 3600) + Pad2(sec % 3600 % 60)
  }

  /** `StopWatchFormat(dur)`: the output built group by group, as the Go code appends to `out`. */
  method StopWatchFormat(ns: int) returns (out: string)
    ensures out == ClockText(ns)
  {
    ghost var whole := WholeSeconds(ns);
    out := "";
    if ns < 0 {
      out := out + "-";
    }
    var sec: int := if ns < 0 then -ns else ns;
    SplitSeconds(sec);
    if sec >= 3600 * NanosPerSecond {
      var hours := sec / (3600 * NanosPerSecond);
      sec := sec % (3600 * NanosPerSecond);
      out := out + NatText(hours) + ":";
    }
    ghost var lead := out;
    ghost var r := whole % 3600;
    assert lead == SignText(ns) + HoursText(whole);
    assert 0 <= sec && sec / NanosPerSecond == r;
    SplitMinutes(sec);
    if sec >= 60 * NanosPerSecond {
      var mins := sec / (60 * NanosPerSecond);
      sec := sec % (60 * NanosPerSecond);
      if |out| == 0 {
        out := out + NatText(mins) + ":";
      } else {
        out := out + Pad2(mins) + ":";
      }
    }
    assert out == lead + MinutesText(lead, r);
    assert sec / NanosPerSecond == r % 60;
    out := out + Pad2(sec / NanosPerSecond);
  }

  // ---------------------------------------------------------------------------
  // Arithmetic on nested divisions
  // ---------------------------------------------------------------------------

  /** Dividing by `b * c` is dividing by `b`, then by `c`; the remainders nest likewise. */
  lemma NestedDiv(a: int, b: int, c: int)
    requires a >= 0 && b > 0 && c > 0
    ensures a / (b * c) == a / b / c
    ensures a % (b * c) / b == a / b % c
  {
    var q, r := a / b, a % b;
    var q2, r2 := q / c, q % c;
    assert a == q * b + r;
    assert q == q2 * c + r2;
    Regroup(q2, r2, b, c);
    assert a == q2 * (b * c) + (r2 * b + r);
    ScaledRemainder(r2, r, b, c);
    DivUnique(a, b * c, q2, r2 * b + r);
    DivUnique(r2 * b + r, b, r2, r);
  }

  /** `(q2 * c + r2) * b` regrouped around `b * c`. */
  lemma Regroup(q2: int, r2: int, b: int, c: int)
    ensures (q2 * c + r2) * b == q2 * (b * c) + r2 * b
  {
  }

  /** A remainder below `c`, scaled by `b`, plus one below `b`, stays below `b * c`. */
  lemma ScaledRemainder(r2: int, r: int, b: int, c: int)
    requires 0 <= r2 < c && 0 <= r < b
    ensures 0 <= r2 * b + r < b * c
  {
    assert r2 * b <= (c - 1) * b == c * b - b;
  }

  lemma NestedMod(a: int, b: int, c: int)
    requires a >= 0 && b > 0 && c > 0
    ensures a % (b * c) / b == a / b % c
  {
    NestedDiv(a, b, c);
  }

  /** The hours, and the seconds within the hour, of `a` nanoseconds. */
  lemma SplitSeconds(a: int)
    requires a >= 0
    ensures a / (3600 * NanosPerSecond) == a / NanosPerSecond / 3600
    ensures a % (3600 * NanosPerSecond) / NanosPerSecond == a / NanosPerSecond % 3600
    ensures a >= 3600 * NanosPerSecond <==> a / NanosPerSecond >= 3600
    ensures a < 3600 * NanosPerSecond ==> a / NanosPerSecond == a / NanosPerSecond % 3600
  {
    NestedDiv(a, NanosPerSecond, 3600);
    assert 3600 * NanosPerSecond == NanosPerSecond * 3600;
  }

  /** The minutes, and the seconds within the minute, of `a` nanoseconds. */
  lemma SplitMinutes(a: int)
    requires a >= 0
    ensures a / (60 * NanosPerSecond) == a / NanosPerSecond / 60
    ensures a % (60 * NanosPerSecond) / NanosPerSecond == a / NanosPerSecond % 60
    ensures a >= 60 * NanosPerSecond <==> a / NanosPerSecond >= 60
    ensures a < 60 * NanosPerSecond ==> a / NanosPerSecond == a / NanosPerSecond % 60
  {
    NestedDiv(a, NanosPerSecond, 60);
    assert 60 * NanosPerSecond == NanosPerSecond * 60;
  }

  // ---------------------------------------------------------------------------
  // Properties of the clock text
  // ---------------------------------------------------------------------------

  lemma UnsignedStartsWithDigit(ns: int)
    ensures var t := ClockText(ns); |t| >= 2 && (ns < 0 ==> t[0] == '-') && (ns >= 0 ==> IsDigit(t[0]))
  {
  }

  /** The text starts with `-` exactly when the duration is negative, even below one second. */
  lemma ClockSign(ns: int)
    ensures ClockText(ns) != [] && (ClockText(ns)[0] == '-' <==> ns < 0)
  {
    UnsignedStartsWithDigit(ns);
  }

  lemma NoColonInDigits(s: string)
    requires forall i :: 0 <= i < |s| ==> IsDigit(s[i])
    ensures multiset(s)[':'] == 0
  {
    assert ':' !in s;
  }

  /**
   * One `:` follows the hours when there is at least one hour, and one the
   * minutes when the seconds within the hour reach a minute: so a minute
   * group disappears whenever the hour has just turned.
   */
  lemma ClockColons(ns: int)
    ensures var sec := WholeSeconds(ns);
      multiset(ClockText(ns))[':'] ==
        (if sec >= 3600 then 1 else 0) + (if sec % 3600 >= 60 then 1 else 0)
  {
    var sec := WholeSeconds(ns);
    var r := sec % 3600;
    NoColonInDigits(NatText(sec / 3600));
    NoColonInDigits(NatText(r / 60));
    NoColonInDigits(Pad2(r / 60));
    NoColonInDigits(Pad2(r % 60));
  }

  /** From one hour on, the text opens with the whole hours, unpadded and unbounded. */
  lemma ClockHours(ns: int)
    requires WholeSeconds(ns) >= 3600
    ensures (if ns < 0 then "-" else "") + NatText(WholeSeconds(ns) / 3600) + ":" <= ClockText(ns)
  {
  }

  /**
   * The minutes group follows the sign and the hours. It is there only when
   * the seconds within the hour reach a minute, and it is zero padded exactly
   * when something precedes it: a `-` or the hours.
   */
  lemma ClockMinutesGroup(ns: int)
    ensures var sec := WholeSeconds(ns); var m := sec % 3600 / 60;
      var lead := SignText(ns) + HoursText(sec);
      ClockText(ns) ==
        lead +
        (if sec % 3600 < 60 then ""
         else if ns < 0 || sec >= 3600 then Pad2(m) + ":"
         else NatText(m) + ":") +
        Pad2(sec % 60)
  {
    var sec := WholeSeconds(ns);
    var lead := SignText(ns) + HoursText(sec);
    assert lead == [] <==> !(ns < 0 || sec >= 3600);
    assert sec % 3600 % 60 == sec % 60 by {
      DivUnique(sec, 60, 60 * (sec / 3600) + sec % 3600 / 60, sec % 3600 % 60);
    }
  }

  /** The text always closes with the two digits of the seconds within the minute. */
  lemma ClockSeconds(ns: int)
    ensures var t := ClockText(ns); var s := WholeSeconds(ns) % 60;
      |t| >= 2 && t[|t| - 2] == DigitChar(s / 10) && t[|t| - 1] == DigitChar(s % 10)
  {
    var sec := WholeSeconds(ns);
    assert sec % 3600 % 60 == sec % 60;
  }

  /** Fractions of a second are truncated, not rounded. */
  lemma ClockTruncates(k: nat, f: int)
    requires 0 <= f < NanosPerSecond
    ensures ClockText(k * NanosPerSecond + f) == ClockText(k * NanosPerSecond)
  {
    DivUnique(k * NanosPerSecond + f, NanosPerSecond, k, f);
    DivUnique(k * NanosPerSecond, NanosPerSecond, k, 0);
  }

  /** A whole number of seconds, in nanoseconds, shows that number of seconds. */
  lemma SecondsOf(k: int)
    ensures WholeSeconds(k * NanosPerSecond) == if k < 0 then -k else k
  {
    if k < 0 {
      assert -(k * NanosPerSecond) == (-k) * NanosPerSecond;
      DivUnique((-k) * NanosPerSecond, NanosPerSecond, -k, 0);
    } else {
      DivUnique(k * NanosPerSecond, NanosPerSecond, k, 0);
    }
  }

  /** The digit texts the worked values below are made of. */
  lemma DigitTexts()
    ensures NatText(1) == "1" && NatText(25) == "25"
    ensures Pad2(0) == "00" && Pad2(1) == "01" && Pad2(5) == "05" && Pad2(30) == "30"
  {
    DigitChars();
  }

  /** Worked value: the default work length. */
  lemma ClockWorkLength()
    ensures ClockText(1500 * NanosPerSecond) == "25:00"
  {
    SecondsOf(1500);
    DigitTexts();
    assert HoursText(1500) == "";
    assert MinutesText("", 1500) == NatText(25) + ":";
  }

  /** Worked value: a minute and a half, the minutes unpadded as nothing precedes them. */
  lemma ClockMinuteAndHalf()
    ensures ClockText(90 * NanosPerSecond) == "1:30"
  {
    SecondsOf(90);
    DigitTexts();
    assert HoursText(90) == "";
    assert MinutesText("", 90) == NatText(1) + ":";
  }

  /** Worked value: an hour, a minute and a second. */
  lemma ClockHourExample()
    ensures ClockText(3661 * NanosPerSecond) == "1:01:01"
  {
    SecondsOf(3661);
    DigitTexts();
    assert HoursText(3661) == NatText(1) + ":";
    assert MinutesText("1:", 61) == Pad2(1) + ":";
  }

  /** On the hour the minutes group is left out. */
  lemma ClockOnTheHour()
    ensures ClockText(3600 * NanosPerSecond) == "1:00"
  {
    SecondsOf(3600);
    DigitTexts();
    assert HoursText(3600) == NatText(1) + ":";
    assert MinutesText("1:", 0) == "";
  }

  /** Five seconds past the hour: no minutes group either. */
  lemma ClockHourAndFive()
    ensures ClockText(3605 * NanosPerSecond) == "1:05"
  {
    SecondsOf(3605);
    DigitTexts();
    assert HoursText(3605) == NatText(1) + ":";
    assert MinutesText("1:", 5) == "";
  }

  /** Worked value: five seconds past the end. */
  lemma ClockNegativeFive()
    ensures ClockText(-5 * NanosPerSecond) == "-05"
  {
    SecondsOf(-5);
    DigitTexts();
    assert HoursText(5) == "";
    assert MinutesText("-", 5) == "";
  }

  /** A leading `-` counts as preceding text, so the minutes are padded. */
  lemma ClockNegativeMinuteAndHalf()
    ensures ClockText(-90 * NanosPerSecond) == "-01:30"
  {
    SecondsOf(-90);
    DigitTexts();
    assert HoursText(90) == "";
    assert MinutesText("-", 90) == Pad2(1) + ":";
  }

  /** Half a second to go past the end shows as minus zero seconds. */
  lemma ClockNegativeFraction()
    ensures ClockText(-NanosPerSecond / 2) == "-00"
  {
    DivUnique(NanosPerSecond / 2, NanosPerSecond, 0, NanosPerSecond / 2);
    DigitTexts();
    assert HoursText(0) == "";
    assert MinutesText("-", 0) == "";
  }

  /** One hour and five seconds reads like one minute and five seconds. */
  lemma ClockAmbiguous()
    ensures ClockText(3605 * NanosPerSecond) == ClockText(65 * NanosPerSecond)
  {
    ClockHourAndFive();
    ClockMinuteAndFive();
  }

  /** A minute and five seconds. */
  lemma ClockMinuteAndFive()
    ensures ClockText(65 * NanosPerSecond) == "1:05"
  {
    SecondsOf(65);
    DigitTexts();
    assert HoursText(65) == "";
    assert MinutesText("", 65) == NatText(1) + ":";
  }
}
