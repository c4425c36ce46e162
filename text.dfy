/**
 * The string operations the session codec relies on: Go's `strings.Fields`,
 * `strings.SplitN(s, sep, 2)`, `strings.Contains`, and decimal formatting
 * and parsing of integers (`%d`, `%02d`, `%v`).
 */
module Text {
  import opened Base

  /** Go's `unicode.IsSpace`. */
  predicate IsSpace(c: char)
  {
    c == ' ' || c == '\t' || c == '\n' || c == '\r' || c == '\U{000B}' || c == '\U{000C}'
    || c == '\U{0085}' || c == '\U{00A0}' || c == '\U{1680}'
    || ('\U{2000}' <= c <= '\U{200A}')
    || c == '\U{2028}' || c == '\U{2029}' || c == '\U{202F}' || c == '\U{205F}' || c == '\U{3000}'
  }

  predicate NoSpace(s: string)
  {
    forall i :: 0 <= i < |s| ==> !IsSpace(s[i])
  }

  /** `sub` occurs somewhere in `s` (Go's `strings.Contains`). */
  predicate Contains(s: string, sub: string)
  {
    exists k :: 0 <= k <= |s| && sub <= s[k..]
  }

  // ---------------------------------------------------------------------------
  // strings.SplitN(s, sep, 2)
  // ---------------------------------------------------------------------------

  /**
   * Splits `s` around the first occurrence of `sep`; `None` when `sep` does not
   * occur (the case where Go's SplitN returns a single part).
   */
  function SplitFirst(s: string, sep: string): (r: Option<(string, string)>)
    requires sep != []
    decreases |s|
    ensures r.Some? ==> s == r.value.0 + sep + r.value.1
  {
    if |s| < |sep| then None
    else if sep <= s then Some(([], s[|sep|..]))
    else
      match SplitFirst(s[1..], sep)
      case None => None
      case Some((a, b)) => Some(([s[0]] + a, b))
  }

  /** When `s` does not start with `sep`, `sep` occurs in `s` exactly when it occurs in `s[1..]`. */
  lemma ContainsShift(s: string, sep: string)
    requires s != [] && !(sep <= s)
    ensures Contains(s, sep) <==> Contains(s[1..], sep)
  {
    if Contains(s, sep) {
      var k :| 0 <= k <= |s| && sep <= s[k..];
      assert k != 0 by {
        assert s[0..] == s;
      }
      assert s[k..] == s[1..][k - 1..];
    }
    if Contains(s[1..], sep) {
      var k :| 0 <= k <= |s[1..]| && sep <= s[1..][k..];
      assert s[1..][k..] == s[k + 1..];
    }
  }

  /** `SplitFirst` fails exactly when `sep` does not occur. */
  lemma {:induction false} SplitFirstNone(s: string, sep: string)
    requires sep != []
    decreases |s|
    ensures SplitFirst(s, sep).None? <==> !Contains(s, sep)
  {
    if |s| < |sep| {
      forall k | 0 <= k <= |s| ensures !(sep <= s[k..]) {
        assert |s[k..]| < |sep|;
      }
    } else if sep <= s {
      assert s[0..] == s;
    } else {
      SplitFirstNone(s[1..], sep);
      ContainsShift(s, sep);
    }
  }

  /** `SplitFirst` splits at the first occurrence: none starts inside the part before it. */
  lemma {:induction false} SplitFirstEarliest(s: string, sep: string)
    requires sep != []
    decreases |s|
    ensures SplitFirst(s, sep).Some? ==>
      forall k :: 0 <= k < |SplitFirst(s, sep).value.0| ==> !(sep <= s[k..])
  {
    if |s| >= |sep| && !(sep <= s) {
      SplitFirstEarliest(s[1..], sep);
      match SplitFirst(s[1..], sep)
      case None =>
      case Some((a, b)) =>
        forall k | 0 <= k < |a| + 1 ensures !(sep <= s[k..]) {
          if k == 0 {
            assert s[0..] == s;
          } else {
            assert s[k..] == s[1..][k - 1..];
          }
        }
    }
  }

  /**
   * `SplitFirst` fails exactly when `sep` does not occur, and otherwise splits
   * at the first occurrence: none starts inside the part before it.
   */
  lemma SplitFirstSpec(s: string, sep: string)
    requires sep != []
    ensures SplitFirst(s, sep).None? <==> !Contains(s, sep)
    ensures SplitFirst(s, sep).Some? ==>
      forall k :: 0 <= k < |SplitFirst(s, sep).value.0| ==> !(sep <= s[k..])
  {
    SplitFirstNone(s, sep);
    SplitFirstEarliest(s, sep);
  }

  /** Every space in `h` is followed, inside `h`, by something other than `'|'`. */
  predicate SpacesNotBeforeBar(h: string)
  {
    forall k :: 0 <= k < |h| && h[k] == ' ' ==> k + 1 < |h| && h[k + 1] != '|'
  }

  /**
   * The first `" | "` of `h + " | " + f` is the one placed after `h` when no
   * space of `h` starts such a separator, whatever `f` holds.
   */
  lemma {:induction false} SplitAtBar(h: string, f: string)
    requires SpacesNotBeforeBar(h)
    ensures SplitFirst(h + " | " + f, " | ") == Some((h, f))
  {
    var s := h + " | " + f;
    if h == [] {
      assert s == " | " + f;
      assert " | " <= s;
      assert s[3..] == f;
    } else {
      assert s[0] == h[0];
      if h[0] == ' ' {
        assert s[1] == h[1] && h[1] != '|';
      }
      assert !(" | " <= s);
      assert SpacesNotBeforeBar(h[1..]) by {
        forall k | 0 <= k < |h[1..]| && h[1..][k] == ' '
          ensures k + 1 < |h[1..]| && h[1..][k + 1] != '|'
        {
          assert h[k + 1] == ' ';
        }
      }
      SplitAtBar(h[1..], f);
      assert s[1..] == h[1..] + " | " + f;
      assert [s[0]] + h[1..] == h;
    }
  }

  /** Splitting `k + "=" + v` on its first `'='` gives back `k` and `v`. */
  lemma SplitAtEquals(k: string, v: string)
    requires '=' !in k
    ensures SplitFirst(k + "=" + v, "=") == Some((k, v))
  {
    var s := k + "=" + v;
    var r := SplitFirst(s, "=");
    SplitFirstSpec(s, "=");
    assert "=" <= s[|k|..];
    assert r.Some?;
    var (a, b) := r.value;
    assert s == a + "=" + b;
    assert s[..|a|] == a;
    assert s[|a|] == '=' && s[|k|] == '=';
    assert forall i :: 0 <= i < |k| ==> s[i] == k[i];
    assert a == s[..|k|] == k;
    assert b == s[|k| + 1..] == v;
  }

  /** A single-character separator occurs exactly when the character does. */
  lemma ContainsChar(s: string, c: char)
    ensures Contains(s, [c]) <==> c in s
  {
    if c in s {
      var i :| 0 <= i < |s| && s[i] == c;
      assert [c] <= s[i..];
    }
    if Contains(s, [c]) {
      var k :| 0 <= k <= |s| && [c] <= s[k..];
      assert s[k] == c;
    }
  }

  // ---------------------------------------------------------------------------
  // strings.Fields and the joining of tokens by single spaces
  // ---------------------------------------------------------------------------

  /** Length of the leading run of non-space characters. */
  function TokenLen(s: string): (n: nat)
    ensures n <= |s|
    ensures forall i :: 0 <= i < n ==> !IsSpace(s[i])
    ensures n < |s| ==> IsSpace(s[n])
  {
    if s == [] || IsSpace(s[0]) then 0 else 1 + TokenLen(s[1..])
  }

  /** Go's `strings.Fields`: the maximal runs of non-space characters, in order. */
  function Fields(s: string): (r: seq<string>)
    decreases |s|
    ensures forall i :: 0 <= i < |r| ==> r[i] != [] && NoSpace(r[i])
  {
    if s == [] then []
    else if IsSpace(s[0]) then Fields(s[1..])
    else
      var n := TokenLen(s);
      [s[..n]] + Fields(s[n..])
  }

  /** The tokens joined by single spaces. */
  function Unwords(ts: seq<string>): string
  {
    if ts == [] then []
    else if |ts| == 1 then ts[0]
    else ts[0] + " " + Unwords(ts[1..])
  }

  predicate WordTokens(ts: seq<string>)
  {
    forall i :: 0 <= i < |ts| ==> ts[i] != [] && NoSpace(ts[i])
  }

  /** Leading non-space characters of `t` are all of it when a space follows. */
  lemma TokenLenPrefix(t: string, rest: string)
    requires NoSpace(t)
    requires rest == [] || IsSpace(rest[0])
    ensures TokenLen(t + rest) == |t|
  {
    if t != [] {
      assert (t + rest)[1..] == t[1..] + rest;
      TokenLenPrefix(t[1..], rest);
    }
  }

  /** A lone token is its own only field. */
  lemma FieldsOne(t: string)
    requires t != [] && NoSpace(t)
    ensures Fields(t) == [t]
  {
    TokenLenPrefix(t, []);
    assert t + [] == t;
    assert t[|t|..] == [];
    assert t[..|t|] == t;
  }

  /** A token followed by a space and more text is the first field. */
  lemma FieldsCons(t: string, rest: string)
    requires t != [] && NoSpace(t)
    ensures Fields(t + " " + rest) == [t] + Fields(rest)
  {
    var s := t + " " + rest;
    TokenLenPrefix(t, " " + rest);
    assert s == t + (" " + rest);
    assert s[..|t|] == t;
    assert s[|t|..] == " " + rest;
    assert (" " + rest)[1..] == rest;
  }

  /** `Fields` recovers tokens that were joined by single spaces. */
  lemma {:induction false} FieldsUnwords(ts: seq<string>)
    requires WordTokens(ts)
    ensures Fields(Unwords(ts)) == ts
  {
    if |ts| == 1 {
      FieldsOne(ts[0]);
    } else if |ts| >= 2 {
      FieldsCons(ts[0], Unwords(ts[1..]));
      FieldsUnwords(ts[1..]);
      assert ts == [ts[0]] + ts[1..];
    }
  }

  /** In tokens joined by single spaces, a space is always followed by the next token. */
  lemma {:induction false} UnwordsSpaces(ts: seq<string>)
    requires WordTokens(ts)
    requires forall i :: 0 <= i < |ts| ==> ts[i][0] != '|'
    ensures SpacesNotBeforeBar(Unwords(ts))
  {
    if |ts| >= 2 {
      var t := ts[0];
      var rest := Unwords(ts[1..]);
      UnwordsSpaces(ts[1..]);
      var s := t + " " + rest;
      assert rest != [] && rest[0] == ts[1][0] by {
        UnwordsHead(ts[1..]);
      }
      forall k | 0 <= k < |s| && s[k] == ' ' ensures k + 1 < |s| && s[k + 1] != '|' {
        if k > |t| {
          assert s[k] == rest[k - |t| - 1];
          assert s[k + 1] == rest[k - |t|];
        }
      }
    }
  }

  /** Words joined by single spaces hold no line break. */
  lemma {:induction false} UnwordsNoBreak(ts: seq<string>)
    requires WordTokens(ts)
    ensures '\n' !in Unwords(ts)
  {
    if |ts| == 1 {
      assert IsSpace('\n');
    } else if |ts| >= 2 {
      UnwordsNoBreak(ts[1..]);
      assert IsSpace('\n');
      assert Unwords(ts) == ts[0] + " " + Unwords(ts[1..]);
    }
  }

  lemma UnwordsHead(ts: seq<string>)
    requires WordTokens(ts) && ts != []
    ensures Unwords(ts) != [] && Unwords(ts)[0] == ts[0][0]
  {
  }

  // ---------------------------------------------------------------------------
  // Decimal numbers
  // ---------------------------------------------------------------------------

  predicate IsDigit(c: char)
  {
    '0' <= c <= '9'
  }

  function DigitChar(d: nat): (c: char)
    requires d < 10
    ensures IsDigit(c)
  {
    (48 + d) as char
  }

  /** The ten digit characters, in order. */
  lemma DigitChars()
    ensures DigitChar(0) == '0' && DigitChar(1) == '1' && DigitChar(2) == '2' && DigitChar(3) == '3'
    ensures DigitChar(4) == '4' && DigitChar(5) == '5' && DigitChar(6) == '6' && DigitChar(7) == '7'
    ensures DigitChar(8) == '8' && DigitChar(9) == '9'
  {
  }

  function DigitValue(c: char): (d: nat)
    requires IsDigit(c)
    ensures d < 10 && DigitChar(d) == c
  {
    (c as int - 48) as nat
  }

  /** Go's `%d` / `%v` of a non-negative integer. */
  function NatText(n: nat): (s: string)
    ensures s != [] && forall i :: 0 <= i < |s| ==> IsDigit(s[i])
  {
    if n < 10 then [DigitChar(n)] else NatText(n / 10) + [DigitChar(n % 10)]
  }

  /** Go's `%d` / `%v` of an integer. */
  function IntText(n: int): (s: string)
    ensures s != [] && forall i :: 0 <= i < |s| ==> IsDigit(s[i]) || s[i] == '-'
  {
    if n < 0 then "-" + NatText(-n) else NatText(n)
  }

  /** Go's `%02d` / `%02v`: zero padded to width 2, the sign counting toward the width. */
  function Pad2(n: int): (s: string)
    ensures 0 <= n ==> |s| >= 2 && forall i :: 0 <= i < |s| ==> IsDigit(s[i])
    ensures 0 <= n < 100 ==> |s| == 2 && s[0] == DigitChar(n / 10) && s[1] == DigitChar(n % 10)
  {
    if 0 <= n < 10 then "0" + NatText(n)
    else if 10 <= n < 100 then
      assert NatText(n / 10) == [DigitChar(n / 10)];
      NatText(n)
    else if n < 0 then "-" + NatText(-n)
    else NatText(n)
  }

  predicate AllDigits(s: string)
  {
    forall i :: 0 <= i < |s| ==> IsDigit(s[i])
  }

  /** The value of a non-empty run of decimal digits. */
  function DigitsValue(s: string): nat
    requires s != [] && AllDigits(s)
  {
    if |s| == 1 then DigitValue(s[0])
    else 10 * DigitsValue(s[..|s| - 1]) + DigitValue(s[|s| - 1])
  }

  /** A non-negative decimal number; `None` for anything else. */
  function ParseNat(s: string): Option<nat>
  {
    if s != [] && AllDigits(s) then Some(DigitsValue(s)) else None
  }

  /** A decimal number with an optional leading `'-'`. */
  function ParseInt(s: string): Option<int>
  {
    if s != [] && s[0] == '-' then
      match ParseNat(s[1..])
      case Some(n) => Some(0 - n)
      case None => None
    else
      match ParseNat(s)
      case Some(n) => Some(n)
      case None => None
  }

  lemma {:induction false} NatTextRoundTrip(n: nat)
    ensures ParseNat(NatText(n)) == Some(n)
  {
    if n >= 10 {
      NatTextRoundTrip(n / 10);
      var s := NatText(n);
      assert s[..|s| - 1] == NatText(n / 10);
    }
  }

  lemma IntTextRoundTrip(n: int)
    ensures ParseInt(IntText(n)) == Some(n)
  {
    if n < 0 {
      var t := NatText(-n);
      NatTextRoundTrip(-n);
      var s := "-" + t;
      assert IntText(n) == s;
      assert s[1..] == t;
      assert ParseInt(s) == Some(0 - (-n));
    } else {
      var t := NatText(n);
      NatTextRoundTrip(n);
      assert IntText(n) == t && IsDigit(t[0]);
    }
  }
}
