/**
 * Session identities: 16-byte UUIDs written in the canonical
 * `xxxxxxxx-xxxx-xxxx-xxxx-xxxxxxxxxxxx` form with lower-case hex digits,
 * as the `%s` verb prints a `uuid.UUID`, and read back by `uuid.MustParse`.
 */
module Uuids {
  import opened Base

  type Byte = b: int | 0 <= b < 256

  type Uuid = u: seq<Byte> | |u| == 16 witness [0, 0, 0, 0, 0, 0, 0, 0, 0, 0, 0, 0, 0, 0, 0, 0]

  /** The all-zero UUID, the `ID` of a zero `Session`. */
  const Nil: Uuid := [0, 0, 0, 0, 0, 0, 0, 0, 0, 0, 0, 0, 0, 0, 0, 0]

  predicate IsHex(c: char)
  {
    '0' <= c <= '9' || 'a' <= c <= 'f' || 'A' <= c <= 'F'
  }

  function HexChar(v: nat): (c: char)
    requires v < 16
    ensures IsHex(c) && c != '-'
  {
    if v < 10 then (48 + v) as char else (87 + v) as char
  }

  /** A hex digit's value; both letter cases are accepted. */
  function HexValue(c: char): (v: nat)
    requires IsHex(c)
    ensures v < 16
  {
    if '0' <= c <= '9' then c as int - 48
    else if 'a' <= c <= 'f' then c as int - 87
    else c as int - 55
  }

  lemma HexRoundTrip(v: nat)
    requires v < 16
    ensures HexValue(HexChar(v)) == v
  {
  }

  /** Two hex digits per byte, high nibble first. */
  function HexOf(bs: seq<Byte>): (s: string)
    ensures |s| == 2 * |bs|
    ensures forall i :: 0 <= i < |s| ==> IsHex(s[i]) && s[i] != '-'
  {
    if bs == [] then [] else [HexChar(bs[0] / 16), HexChar(bs[0] % 16)] + HexOf(bs[1..])
  }

  /** Reads pairs of hex digits back into bytes. */
  function ParseHex(s: string): Option<seq<Byte>>
  {
    if s == [] then Some([])
    else if |s| < 2 || !IsHex(s[0]) || !IsHex(s[1]) then None
    else
      match ParseHex(s[2..])
      case None => None
      case Some(rest) => Some([(16 * HexValue(s[0]) + HexValue(s[1])) as Byte] + rest)
  }

  lemma {:induction false} ParseHexOf(bs: seq<Byte>)
    ensures ParseHex(HexOf(bs)) == Some(bs)
  {
    if bs != [] {
      var s := HexOf(bs);
      HexRoundTrip(bs[0] / 16);
      HexRoundTrip(bs[0] % 16);
      assert s[2..] == HexOf(bs[1..]);
      ParseHexOf(bs[1..]);
      assert bs == [bs[0]] + bs[1..];
    }
  }

  /** The canonical text of a UUID (`uuid.UUID.String`). */
  function UuidText(u: Uuid): (s: string)
    ensures |s| == 36
    ensures forall i :: 0 <= i < 36 ==> (s[i] == '-' <==> i in {8, 13, 18, 23})
    ensures forall i :: 0 <= i < 36 ==> s[i] == '-' || IsHex(s[i])
  {
    HexOf(u[..4]) + "-" + HexOf(u[4..6]) + "-" + HexOf(u[6..8]) + "-" + HexOf(u[8..10]) + "-" + HexOf(u[10..])
  }

  /**
   * `uuid.Parse` on a 36-character value: dashes at positions 8, 13, 18 and 23,
   * hex digits elsewhere. `None` stands for the error on which `MustParse` panics.
   */
  function ParseUuid(s: string): Option<Uuid>
  {
    if |s| != 36 || s[8] != '-' || s[13] != '-' || s[18] != '-' || s[23] != '-' then None
    else
      match ParseHex(s[..8] + s[9..13] + s[14..18] + s[19..23] + s[24..])
      case Some(bs) => if |bs| == 16 then Some(bs) else None
      case None => None
  }

  lemma ParseUuidText(u: Uuid)
    ensures ParseUuid(UuidText(u)) == Some(u)
  {
    var s := UuidText(u);
    var a, b, c, d, e := HexOf(u[..4]), HexOf(u[4..6]), HexOf(u[6..8]), HexOf(u[8..10]), HexOf(u[10..]);
    assert s == a + "-" + b + "-" + c + "-" + d + "-" + e;
    assert s[..8] == a;
    assert s[9..13] == b;
    assert s[14..18] == c;
    assert s[19..23] == d;
    assert s[24..] == e;
    HexOfAppend(u[..4], u[4..6]);
    HexOfAppend(u[..6], u[6..8]);
    HexOfAppend(u[..8], u[8..10]);
    HexOfAppend(u[..10], u[10..]);
    assert u[..4] + u[4..6] == u[..6];
    assert u[..6] + u[6..8] == u[..8];
    assert u[..8] + u[8..10] == u[..10];
    assert u[..10] + u[10..] == u;
    ParseHexOf(u);
  }

  lemma {:induction false} HexOfAppend(x: seq<Byte>, y: seq<Byte>)
    ensures HexOf(x + y) == HexOf(x) + HexOf(y)
  {
    if x == [] {
      assert x + y == y;
    } else {
      assert (x + y)[0] == x[0];
      assert (x + y)[1..] == x[1..] + y;
      HexOfAppend(x[1..], y);
    }
  }

  /** Distinct UUIDs have distinct texts. */
  lemma UuidTextInjective(u: Uuid, v: Uuid)
    requires UuidText(u) == UuidText(v)
    ensures u == v
  {
    ParseUuidText(u);
    ParseUuidText(v);
  }
}
