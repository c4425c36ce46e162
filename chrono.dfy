/**
 * Textual forms of the two time quantities a session record holds.
 *
 * Instants are whole seconds counted from 0001-01-01T00:00:00Z, so that Go's
 * zero `time.Time` is the instant 0; their text stands for the RFC 3339 form
 * and is a signed decimal number here. Durations are whole seconds and their
 * text is Go's `time.Duration.String` at second precision ("25m0s",
 * "1h0m0s", "0s", "-5s"), read back by the `h`/`m`/`s` subset of
 * `time.ParseDuration`.
 */
module Chrono {
  import opened Base
  import opened Text

  /** Go's zero `time.Time`, which `IsZero` recognises. */
  const ZeroInstant: int := 0

  function FormatInstant(t: int): (s: string)
    ensures s != [] && forall i :: 0 <= i < |s| ==> IsDigit(s[i]) || s[i] == '-'
  {
    IntText(t)
  }

  function ParseInstant(s: string): Option<int>
  {
    ParseInt(s)
  }

  lemma InstantRoundTrip(t: int)
    ensures ParseInstant(FormatInstant(t)) == Some(t)
  {
    IntTextRoundTrip(t);
  }

  predicate IsDurationChar(c: char)
  {
    IsDigit(c) || c == 'h' || c == 'm' || c == 's' || c == '-'
  }

  /**
   * The components `Duration.String` writes for a non-negative whole number
   * of seconds: hours only from one hour up, minutes only from one minute
   * up, seconds always.
   */
  function Parts(u: nat): (ps: seq<(nat, string)>)
    ensures ps != [] && ps[|ps| - 1].1 == "s"
  {
    if u >= 3600 then [(u / 3600, "h"), (u / 60 % 60, "m"), (u % 60, "s")]
    else if u >= 60 then [(u / 60, "m"), (u % 60, "s")]
    else [(u, "s")]
  }

  /** Components written one after another, each as its count and then its unit. */
  function Joined(ps: seq<(nat, string)>): string
  {
    if ps == [] then [] else NatText(ps[0].0) + ps[0].1 + Joined(ps[1..])
  }

  /** `Duration.String` of a non-negative whole number of seconds. */
  function DurationBody(u: nat): string
  {
    Joined(Parts(u))
  }

  /** Go's `time.Duration.String` on a whole number of seconds. */
  function FormatDuration(d: int): string
  {
    if d < 0 then "-" + DurationBody(-d) else DurationBody(d)
  }

  /** The units a whole-second duration is written in. */
  predicate IsUnit(u: string)
  {
    u == "h" || u == "m" || u == "s"
  }

  /** `v` units in seconds; `None` for a unit other than hours, minutes and seconds. */
  function InUnits(v: nat, u: string): (r: Option<nat>)
    ensures r.Some? <==> IsUnit(u)
  {
    if u == "h" then Some(v * 3600) else if u == "m" then Some(v * 60) else if u == "s" then Some(v) else None
  }

  /** The seconds a list of components stands for. */
  function Total(ps: seq<(nat, string)>): Option<nat>
  {
    if ps == [] then Some(0)
    else
      match InUnits(ps[0].0, ps[0].1)
      case None => None
      case Some(v) => Plus(v, Total(ps[1..]))
  }

  /** Digits and unit letters only, with no sign. */
  predicate UnsignedText(s: string)
  {
    forall i :: 0 <= i < |s| ==> IsDurationChar(s[i]) && s[i] != '-'
  }

  /** Components in the units above are made of digits and unit letters, with no sign. */
  lemma {:induction false} JoinedChars(ps: seq<(nat, string)>)
    requires forall i :: 0 <= i < |ps| ==> IsUnit(ps[i].1)
    ensures UnsignedText(Joined(ps))
  {
    if ps != [] {
      var head, unit, tail := NatText(ps[0].0), ps[0].1, Joined(ps[1..]);
      JoinedChars(ps[1..]);
      assert IsUnit(unit);
      assert |unit| == 1 && IsDurationChar(unit[0]) && unit[0] != '-';
      var s := Joined(ps);
      assert s == head + unit + tail;
      assert UnsignedText(tail);
      forall i | 0 <= i < |s|
        ensures IsDurationChar(s[i]) && s[i] != '-'
      {
        if i < |head| {
          assert s[i] == head[i] && IsDigit(head[i]);
        } else if i == |head| {
          assert s[i] == unit[0];
        } else {
          assert s[i] == tail[i - |head| - 1];
        }
      }
    }
  }

  /** Joined components start with a digit and end with the last component's unit. */
  lemma {:induction false} JoinedEnds(ps: seq<(nat, string)>)
    requires ps != [] && ps[|ps| - 1].1 != []
    ensures var s := Joined(ps); s != [] && IsDigit(s[0]) && s[|s| - 1] == ps[|ps| - 1].1[|ps[|ps| - 1].1| - 1]
  {
    var s := Joined(ps);
    var head := NatText(ps[0].0) + ps[0].1;
    assert s == head + Joined(ps[1..]);
    assert s[0] == head[0];
    if |ps| > 1 {
      JoinedEnds(ps[1..]);
    }
  }

  /** A duration body is made of digits and unit letters, with no sign. */
  lemma BodyChars(u: nat)
    ensures UnsignedText(DurationBody(u))
  {
    JoinedChars(Parts(u));
  }

  /** A duration body starts with a digit and ends with the seconds unit. */
  lemma BodyEnds(u: nat)
    ensures var s := DurationBody(u); s != [] && IsDigit(s[0]) && s[|s| - 1] == 's'
  {
    JoinedEnds(Parts(u));
  }

  /** A duration's text is made of digits, unit letters and at most a leading sign. */
  lemma DurationChars(d: int)
    ensures var s := FormatDuration(d); s != [] && forall i :: 0 <= i < |s| ==> IsDurationChar(s[i])
  {
    var u := if d < 0 then -d else d;
    BodyChars(u);
    BodyEnds(u);
  }

  /** Length of the leading run of decimal digits. */
  function DigitRun(s: string): (n: nat)
    ensures n <= |s| && AllDigits(s[..n])
    ensures n < |s| ==> !IsDigit(s[n])
  {
    if s == [] || !IsDigit(s[0]) then 0
    else
      var n := 1 + DigitRun(s[1..]);
      assert forall i :: 1 <= i < n ==> s[..n][i] == s[1..][..n - 1][i - 1];
      n
  }

  /** Length of the leading run of unit characters: neither digits nor `'.'`. */
  function UnitRun(s: string): (n: nat)
    ensures n <= |s|
    ensures forall i :: 0 <= i < n ==> !IsDigit(s[i]) && s[i] != '.'
    ensures n < |s| ==> IsDigit(s[n]) || s[n] == '.'
  {
    if s == [] || IsDigit(s[0]) || s[0] == '.' then 0 else 1 + UnitRun(s[1..])
  }

  /** One `<digits><unit>` component at the front of `t`: its value in seconds and what follows. */
  function Component(t: string): (r: Option<(nat, string)>)
    ensures r.Some? ==> |r.value.1| < |t|
  {
    var n := DigitRun(t);
    if n == 0 then None
    else
      var k := UnitRun(t[n..]);
      if k == 0 then None
      else
        match InUnits(DigitsValue(t[..n]), t[n..n + k])
        case None => None
        case Some(v) => Some((v, t[n + k..]))
  }

  /** `o` increased by `k`, when present. */
  function Plus(k: nat, o: Option<nat>): Option<nat>
  {
    match o
    case None => None
    case Some(x) => Some(k + x)
  }

  /** A sequence of components, summed; `Some(0)` when empty. */
  function Components(t: string): Option<nat>
    decreases |t|
  {
    if t == [] then Some(0)
    else
      match Component(t)
      case None => None
      case Some((v, rest)) => Plus(v, Components(rest))
  }

  /** An unsigned duration: either `"0"` or one or more components. */
  function ParseUnsigned(t: string): Option<nat>
  {
    if t == "0" then Some(0)
    else if t == [] then None
    else Components(t)
  }

  /**
   * `time.ParseDuration` restricted to whole numbers of hours, minutes and
   * seconds: an optional sign, then an unsigned duration.
   */
  function ParseDuration(s: string): Option<int>
  {
    var neg := s != [] && s[0] == '-';
    var t := if s != [] && (s[0] == '-' || s[0] == '+') then s[1..] else s;
    match ParseUnsigned(t)
    case None => None
    case Some(v) =>
      var d: int := if neg then -(v as int) else v;
      Some(d)
  }

  lemma {:induction false} DigitRunPrefix(x: string, rest: string)
    requires AllDigits(x)
    requires rest == [] || !IsDigit(rest[0])
    ensures DigitRun(x + rest) == |x|
  {
    if x == [] {
      assert x + rest == rest;
    } else {
      assert (x + rest)[1..] == x[1..] + rest;
      DigitRunPrefix(x[1..], rest);
    }
  }

  /** A decimal text is a non-empty run of digits worth the number written. */
  lemma NatValue(n: nat)
    ensures NatText(n) != [] && AllDigits(NatText(n)) && DigitsValue(NatText(n)) == n
  {
    NatTextRoundTrip(n);
  }

  /** The component `x + unit`, `x` a run of digits, is read as `x` units, leaving what follows. */
  lemma ComponentOfDigits(x: string, unit: string, rest: string)
    requires x != [] && AllDigits(x) && IsUnit(unit)
    requires rest == [] || IsDigit(rest[0])
    ensures Component(x + unit + rest) == Some((InUnits(DigitsValue(x), unit).value, rest))
  {
    var t := x + unit + rest;
    var after := unit + rest;
    assert t == x + after;
    DigitRunPrefix(x, after);
    var n := |x|;
    assert t[..n] == x;
    assert t[n..] == after;
    assert UnitRun(after) == 1 by {
      assert after[1..] == rest;
    }
    assert t[n..n + 1] == unit;
    assert t[n + 1..] == rest;
  }

  /** Joined components read back as the seconds they stand for. */
  lemma {:induction false} JoinedRoundTrip(ps: seq<(nat, string)>)
    requires forall i :: 0 <= i < |ps| ==> IsUnit(ps[i].1)
    ensures Components(Joined(ps)) == Total(ps)
  {
    if ps != [] {
      var x, rest := NatText(ps[0].0), Joined(ps[1..]);
      JoinedRoundTrip(ps[1..]);
      if ps[1..] != [] {
        JoinedEnds(ps[1..]);
      }
      NatValue(ps[0].0);
      ComponentOfDigits(x, ps[0].1, rest);
      assert Joined(ps) == x + ps[0].1 + rest;
    }
  }

  /** The components of a body add up to the duration. */
  lemma PartsTotal(u: nat)
    ensures Total(Parts(u)) == Some(u)
  {
    var ps := Parts(u);
    var secs := [(u % 60, "s")];
    assert Total(secs) == Some(u % 60) by {
      assert secs[1..] == [];
    }
    if u >= 3600 {
      var mins := [(u / 60 % 60, "m")] + secs;
      assert ps == [(u / 3600, "h")] + mins;
      assert Total(mins) == Some(u / 60 % 60 * 60 + u % 60) by {
        assert mins[1..] == secs;
      }
      assert ps[1..] == mins;
      assert u == u / 60 * 60 + u % 60;
      assert u / 60 == u / 60 / 60 * 60 + u / 60 % 60;
      assert u / 60 / 60 == u / 3600;
    } else if u >= 60 {
      assert ps[1..] == secs;
    } else {
      assert ps == secs;
    }
  }

  lemma {:induction false} BodyRoundTrip(u: nat)
    ensures Components(DurationBody(u)) == Some(u)
  {
    JoinedRoundTrip(Parts(u));
    PartsTotal(u);
  }

  /** A duration's text reads back as the same duration. */
  lemma {:induction false} DurationRoundTrip(d: int)
    ensures ParseDuration(FormatDuration(d)) == Some(d)
  {
    var u: nat := if d < 0 then -d else d;
    var s := FormatDuration(d);
    var body := DurationBody(u);
    UnsignedRoundTrip(u);
    if d < 0 {
      assert s == "-" + body;
      assert s[1..] == body;
    } else {
      assert s == body;
      BodyEnds(u);
    }
  }

  lemma {:induction false} UnsignedRoundTrip(u: nat)
    ensures ParseUnsigned(DurationBody(u)) == Some(u)
  {
    var body := DurationBody(u);
    BodyRoundTrip(u);
    assert body != "0" by {
      BodyEnds(u);
    }
  }

  /** The texts the default work and long-break lengths are written as. */
  lemma FormatExamples()
    ensures FormatDuration(1500) == "25m0s"
    ensures FormatDuration(3600) == "1h0m0s"
    ensures FormatDuration(0) == "0s"
    ensures FormatDuration(-5) == "-5s"
  {
    NumberTexts();
  }

  /** The decimal texts the worked values are made of. */
  lemma NumberTexts()
    ensures NatText(0) == "0" && NatText(1) == "1" && NatText(5) == "5"
    ensures NatText(25) == "25" && NatText(30) == "30"
  {
    DigitChars();
  }

  /** An unsigned text other than `"0"` reads as its components. */
  lemma ParseComponents(s: string)
    requires s != [] && s != "0" && IsDigit(s[0])
    ensures ParseDuration(s) == Components(s)
  {
  }

  /** The default work length and the `b` key's fallback break length. */
  lemma ParseMinuteExamples()
    ensures ParseDuration("25m") == Some(1500)
    ensures ParseDuration("5m") == Some(300)
  {
    NumberTexts();
    var work, rest := [(25, "m")], [(5, "m")];
    assert Joined(work) == "25m";
    JoinedRoundTrip(work);
    ParseComponents("25m");
    assert Joined(rest) == "5m";
    JoinedRoundTrip(rest);
    ParseComponents("5m");
  }

  /** An empty text is rejected; a signed zero is accepted. */
  lemma ParseEdgeExamples()
    ensures ParseDuration("") == None
    ensures ParseDuration("-0") == Some(0)
  {
    var z: string := "-0";
    assert z[1..] == "0";
  }
}
