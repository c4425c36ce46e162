/**
 * The session record and its one-line text form
 * `id=… type=… start=… end=… duration=… | <file>`.
 *
 * `Scan` mirrors the receiver method of the Go code: it starts from whatever
 * session the receiver held and overwrites the fields whose keys it meets.
 */
module Sessions {
  import opened Base
  import opened Text
  import opened Uuids
  import opened Chrono

  /** The session types. */
  const Work: string := "work"
  const Break: string := "break"
  const LongBreak: string := "longbreak"

  lemma KindsHaveNoSpace()
    ensures NoSpace(Work) && NoSpace(Break) && NoSpace(LongBreak)
  {
    assert forall i :: 0 <= i < |LongBreak| ==> LongBreak[i] in "longbreak";
  }

  datatype Session = Session(
    id: Uuid,
    startTime: int,
    endTime: int,
    duration: int,
    kind: string,
    file: string)

  /** Go's zero `Session{}`. */
  const Zero: Session := Session(Nil, ZeroInstant, ZeroInstant, 0, [], [])

  /** A session runs until it has been given an end time. */
  predicate IsRunning(s: Session)
  {
    s.endTime == ZeroInstant
  }

  /** Time left until the planned end of a running session; 0 for a stopped one. */
  function Elapsed(s: Session, now: int): int
  {
    if !IsRunning(s) then 0 else s.startTime + s.duration - now
  }

  /** The countdown starts at the planned duration and falls by one per second, past zero. */
  lemma ElapsedCountsDown(s: Session, now: int, k: int)
    ensures !IsRunning(s) ==> Elapsed(s, now) == 0
    ensures IsRunning(s) ==> Elapsed(s, s.startTime) == s.duration
    ensures IsRunning(s) ==> Elapsed(s, now + k) == Elapsed(s, now) - k
    ensures IsRunning(s) ==> (Elapsed(s, now) <= 0 <==> now >= s.startTime + s.duration)
  {
  }

  // ---------------------------------------------------------------------------
  // Encoding
  // ---------------------------------------------------------------------------

  /** The substring by which `Save` and `Delete` find a session's line. */
  function IdNeedle(id: Uuid): string
  {
    "id=" + UuidText(id)
  }

  function HeaderTokens(s: Session): seq<string>
  {
    [ IdNeedle(s.id),
      "type=" + s.kind,
      "start=" + FormatInstant(s.startTime),
      "end=" + FormatInstant(s.endTime),
      "duration=" + FormatDuration(s.duration) ]
  }

  /** `Session.String`: the header tokens, `" | "`, then the file verbatim. */
  function Encode(s: Session): (line: string)
    ensures IdNeedle(s.id) <= line
  {
    var ts := HeaderTokens(s);
    assert Unwords(ts) == ts[0] + " " + Unwords(ts[1..]);
    Unwords(ts) + " | " + s.file
  }

  // ---------------------------------------------------------------------------
  // Decoding
  // ---------------------------------------------------------------------------

  datatype ScanError =
    | MissingSeparator
    | MissingEquals(detail: string)
    | BadDuration(value: string)
    | BadTime(value: string)
      /** `uuid.MustParse` panics on a malformed id; the model reports it as an error. */
    | IdPanic(value: string)

  /** One `key=value` header token applied to the session read so far. */
  function ApplyDetail(s: Session, detail: string): Result<Session, ScanError>
  {
    match SplitFirst(detail, "=")
    case None => Err(MissingEquals(detail))
    case Some((key, value)) =>
      if key == "id" then
        match ParseUuid(value)
        case None => Err(IdPanic(value))
        case Some(u) => Ok(s.(id := u))
      else if key == "type" then Ok(s.(kind := value))
      else if key == "duration" then
        match ParseDuration(value)
        case None => Err(BadDuration(value))
        case Some(d) => Ok(s.(duration := d))
      else if key == "start" then
        match ParseInstant(value)
        case None => Err(BadTime(value))
        case Some(t) => Ok(s.(startTime := t))
      else if key == "end" then
        if value == [] then Ok(s.(endTime := ZeroInstant))
        else
          match ParseInstant(value)
          case None => Err(BadTime(value))
          case Some(t) => Ok(s.(endTime := t))
      else Ok(s)
  }

  /** The header tokens applied in order, stopping at the first error. */
  function ApplyDetails(s: Session, ds: seq<string>): Result<Session, ScanError>
    decreases |ds|
  {
    if ds == [] then Ok(s)
    else
      match ApplyDetail(s, ds[0])
      case Err(e) => Err(e)
      case Ok(s') => ApplyDetails(s', ds[1..])
  }

  /** What `Scan` leaves in a receiver that held `init`, or the error it returns. */
  function ScanLine(init: Session, line: string): Result<Session, ScanError>
  {
    match SplitFirst(line, " | ")
    case None => Err(MissingSeparator)
    case Some((head, file)) =>
      match ApplyDetails(init, Fields(head))
      case Err(e) => Err(e)
      case Ok(s) => Ok(s.(file := file))
  }

  /** `Session.Scan`: the loop over the header tokens. */
  method Scan(init: Session, line: string) returns (r: Result<Session, ScanError>)
    ensures r == ScanLine(init, line)
  {
    var parts := SplitFirst(line, " | ");
    if parts.None? {
      return Err(MissingSeparator);
    }
    var head, file := parts.value.0, parts.value.1;
    var details := Fields(head);
    var s := init;
    var i := 0;
    while i < |details|
      invariant 0 <= i <= |details|
      invariant ApplyDetails(init, details) == ApplyDetails(s, details[i..])
    {
      assert details[i..][1..] == details[i + 1..];
      var step := ApplyDetail(s, details[i]);
      if step.Err? {
        return Err(step.error);
      }
      s := step.value;
      i := i + 1;
    }
    return Ok(s.(file := file));
  }

  // ---------------------------------------------------------------------------
  // The round trip
  // ---------------------------------------------------------------------------

  lemma NoSpaceOfChars(s: string)
    requires forall i :: 0 <= i < |s| ==> IsHex(s[i]) || s[i] == '-' || s[i] == 'h' || s[i] == 'm' || s[i] == 's'
    ensures NoSpace(s)
  {
  }

  /** A token `key + value`, with a key free of spaces and bars, is a word not starting with `'|'`. */
  lemma KeyedWord(key: string, value: string)
    requires key != [] && NoSpace(key) && key[0] != '|'
    requires NoSpace(value)
    ensures key + value != [] && NoSpace(key + value) && (key + value)[0] != '|'
  {
    var w := key + value;
    forall i | 0 <= i < |w| ensures !IsSpace(w[i]) {
      if i >= |key| {
        assert w[i] == value[i - |key|];
      } else {
        assert w[i] == key[i];
      }
    }
    assert w[0] == key[0];
  }

  /** The keys of the header words hold no space and do not start with `'|'`. */
  lemma KeysAreWords()
    ensures NoSpace("id=") && NoSpace("type=") && NoSpace("start=") && NoSpace("end=") && NoSpace("duration=")
  {
    KeyNoSpace("id=");
    KeyNoSpace("type=");
    KeyNoSpace("start=");
    KeyNoSpace("end=");
    KeyNoSpace("duration=");
  }

  /** Lower-case letters and `'='` are not white space. */
  lemma KeyNoSpace(key: string)
    requires forall i :: 0 <= i < |key| ==> 'a' <= key[i] <= 'z' || key[i] == '='
    ensures NoSpace(key)
  {
  }

  /** Five words, none starting with `'|'`. */
  lemma FiveWords(ts: seq<string>)
    requires |ts| == 5
    requires ts[0] != [] && NoSpace(ts[0]) && ts[0][0] != '|'
    requires ts[1] != [] && NoSpace(ts[1]) && ts[1][0] != '|'
    requires ts[2] != [] && NoSpace(ts[2]) && ts[2][0] != '|'
    requires ts[3] != [] && NoSpace(ts[3]) && ts[3][0] != '|'
    requires ts[4] != [] && NoSpace(ts[4]) && ts[4][0] != '|'
    ensures WordTokens(ts)
    ensures forall i :: 0 <= i < |ts| ==> ts[i][0] != '|'
  {
  }

  lemma HeaderWords(s: Session)
    requires NoSpace(s.kind)
    ensures WordTokens(HeaderTokens(s))
    ensures forall i :: 0 <= i < |HeaderTokens(s)| ==> HeaderTokens(s)[i][0] != '|'
  {
    KeysAreWords();
    var u := UuidText(s.id);
    NoSpaceOfChars(u);
    KeyedWord("id=", u);
    KeyedWord("type=", s.kind);
    var a := FormatInstant(s.startTime);
    NoSpaceOfChars(a);
    KeyedWord("start=", a);
    var b := FormatInstant(s.endTime);
    NoSpaceOfChars(b);
    KeyedWord("end=", b);
    var d := FormatDuration(s.duration);
    DurationChars(s.duration);
    NoSpaceOfChars(d);
    KeyedWord("duration=", d);
    FiveWords(HeaderTokens(s));
  }

  lemma ApplyId(s: Session, u: Uuid)
    ensures ApplyDetail(s, IdNeedle(u)) == Ok(s.(id := u))
  {
    assert "id=" + UuidText(u) == "id" + "=" + UuidText(u);
    SplitAtEquals("id", UuidText(u));
    ParseUuidText(u);
  }

  lemma ApplyType(s: Session, kind: string)
    ensures ApplyDetail(s, "type=" + kind) == Ok(s.(kind := kind))
  {
    assert "type=" + kind == "type" + "=" + kind;
    SplitAtEquals("type", kind);
  }

  lemma ApplyStart(s: Session, t: int)
    ensures ApplyDetail(s, "start=" + FormatInstant(t)) == Ok(s.(startTime := t))
  {
    assert "start=" + FormatInstant(t) == "start" + "=" + FormatInstant(t);
    SplitAtEquals("start", FormatInstant(t));
    InstantRoundTrip(t);
  }

  lemma ApplyEnd(s: Session, t: int)
    ensures ApplyDetail(s, "end=" + FormatInstant(t)) == Ok(s.(endTime := t))
  {
    assert "end=" + FormatInstant(t) == "end" + "=" + FormatInstant(t);
    SplitAtEquals("end", FormatInstant(t));
    InstantRoundTrip(t);
  }

  lemma ApplyDuration(s: Session, d: int)
    ensures ApplyDetail(s, "duration=" + FormatDuration(d)) == Ok(s.(duration := d))
  {
    DurationRoundTrip(d);
    ApplyDurationText(s, FormatDuration(d), d);
  }

  /** A `duration=` token whose value reads as `d` sets the duration to `d`. */
  lemma ApplyDurationText(s: Session, v: string, d: int)
    requires ParseDuration(v) == Some(d)
    ensures ApplyDetail(s, "duration=" + v) == Ok(s.(duration := d))
  {
    assert "duration" + "=" == "duration=";
    SplitAtEquals("duration", v);
  }

  /** Applying the five header tokens of `s` sets every field but the file. */
  lemma ApplyHeader(init: Session, s: Session)
    ensures ApplyDetails(init, HeaderTokens(s)) == Ok(s.(file := init.file))
  {
    var ts := HeaderTokens(s);
    var s1 := init.(id := s.id);
    var s2 := s1.(kind := s.kind);
    var s3 := s2.(startTime := s.startTime);
    var s4 := s3.(endTime := s.endTime);
    var s5 := s4.(duration := s.duration);
    ApplyId(init, s.id);
    ApplyType(s1, s.kind);
    ApplyStart(s2, s.startTime);
    ApplyEnd(s3, s.endTime);
    ApplyDuration(s4, s.duration);
    assert ts[1..][1..][1..][1..][1..] == [];
    assert ApplyDetails(s5, []) == Ok(s5);
    assert ApplyDetails(s4, ts[4..]) == Ok(s5);
    assert ts[3..][1..] == ts[4..];
    assert ApplyDetails(s3, ts[3..]) == Ok(s5);
    assert ts[2..][1..] == ts[3..];
    assert ApplyDetails(s2, ts[2..]) == Ok(s5);
    assert ts[1..][1..] == ts[2..];
    assert ApplyDetails(s1, ts[1..]) == Ok(s5);
    assert s5 == s.(file := init.file);
  }

  /**
   * Decoding `String(s)` gives back `s`, whatever the receiver held before,
   * provided the type has no white space (which `strings.Fields` would split).
   * A context tag holding `" | "` comes back whole.
   */
  lemma ScanRoundTrip(init: Session, s: Session)
    requires NoSpace(s.kind)
    ensures ScanLine(init, Encode(s)) == Ok(s)
  {
    var ts := HeaderTokens(s);
    HeaderWords(s);
    UnwordsSpaces(ts);
    SplitAtBar(Unwords(ts), s.file);
    FieldsUnwords(ts);
    ApplyHeader(init, s);
  }

  /**
   * The header of a session's line holds no line break, so the line written
   * to the log is one line of the file exactly when its file tag holds none.
   */
  lemma EncodeOneLine(s: Session)
    requires NoSpace(s.kind)
    ensures '\n' in Encode(s) <==> '\n' in s.file
  {
    var h := Unwords(HeaderTokens(s));
    HeaderWords(s);
    UnwordsNoBreak(HeaderTokens(s));
    assert Encode(s) == h + " | " + s.file;
    if '\n' in Encode(s) {
      var i :| 0 <= i < |Encode(s)| && Encode(s)[i] == '\n';
      assert i >= |h| + 3;
      assert s.file[i - |h| - 3] == '\n';
    }
    if '\n' in s.file {
      var j :| 0 <= j < |s.file| && s.file[j] == '\n';
      assert Encode(s)[|h| + 3 + j] == '\n';
    }
  }

  /** In particular a running session is read back as running, a stopped one as stopped. */
  lemma ScanKeepsRunning(init: Session, s: Session)
    requires NoSpace(s.kind)
    ensures ScanLine(init, Encode(s)).Ok?
    ensures IsRunning(ScanLine(init, Encode(s)).value) <==> IsRunning(s)
  {
    ScanRoundTrip(init, s);
  }

  // ---------------------------------------------------------------------------
  // Error cases and the decoding of other lines
  // ---------------------------------------------------------------------------

  lemma {:induction false} ApplyDetailsNotSeparator(s: Session, ds: seq<string>)
    decreases |ds|
    ensures ApplyDetails(s, ds) != Err(MissingSeparator)
  {
    if ds != [] {
      match ApplyDetail(s, ds[0])
      case Err(e) =>
      case Ok(s') => ApplyDetailsNotSeparator(s', ds[1..]);
    }
  }

  /** `Scan` reports a missing separator exactly when the line holds no `" | "`. */
  lemma ScanSeparator(init: Session, line: string)
    ensures ScanLine(init, line) == Err(MissingSeparator) <==> !Contains(line, " | ")
  {
    SplitFirstSpec(line, " | ");
    match SplitFirst(line, " | ")
    case None =>
    case Some((head, file)) => ApplyDetailsNotSeparator(init, Fields(head));
  }

  lemma {:induction false} ApplyDetailsEquals(s: Session, ds: seq<string>)
    decreases |ds|
    requires ApplyDetails(s, ds).Ok?
    ensures forall i :: 0 <= i < |ds| ==> '=' in ds[i]
  {
    if ds != [] {
      var step := ApplyDetail(s, ds[0]);
      assert step.Ok?;
      SplitFirstSpec(ds[0], "=");
      ContainsChar(ds[0], '=');
      ApplyDetailsEquals(step.value, ds[1..]);
      forall i | 1 <= i < |ds| ensures '=' in ds[i] {
        assert ds[i] == ds[1..][i - 1];
      }
    }
  }

  /**
   * A line is decoded only when it has a `" | "` and every white-space separated
   * token before the first one holds a `'='`: a token without one is an error.
   */
  lemma ScanNeedsEquals(init: Session, line: string)
    requires ScanLine(init, line).Ok?
    ensures SplitFirst(line, " | ").Some?
    ensures var ds := Fields(SplitFirst(line, " | ").value.0);
      forall i :: 0 <= i < |ds| ==> '=' in ds[i]
  {
    var parts := SplitFirst(line, " | ");
    assert parts.Some?;
    ApplyDetailsEquals(init, Fields(parts.value.0));
  }

  /** The first token without `'='` is the error, when every token before it applies. */
  lemma ScanReportsToken(s: Session, d: string, rest: seq<string>)
    requires '=' !in d
    ensures ApplyDetails(s, [d] + rest) == Err(MissingEquals(d))
  {
    SplitFirstSpec(d, "=");
    ContainsChar(d, '=');
  }

  /** A token with a key outside `id`, `type`, `duration`, `start` and `end` changes nothing. */
  lemma ScanIgnoresUnknown(s: Session, key: string, value: string)
    requires '=' !in key
    requires key != "id" && key != "type" && key != "duration" && key != "start" && key != "end"
    ensures ApplyDetail(s, key + "=" + value) == Ok(s)
  {
    SplitAtEquals(key, value);
  }

  /** An empty `end=` value reads as the zero time, that is, as a running session. */
  lemma ScanEmptyEnd(s: Session)
    ensures ApplyDetail(s, "end=") == Ok(s.(endTime := ZeroInstant))
    ensures IsRunning(ApplyDetail(s, "end=").value)
  {
    var empty: string := [];
    SplitAtEquals("end", empty);
    assert "end" + "=" + empty == "end=";
  }

  /**
   * The file of a decoded line is everything after its first `" | "`,
   * verbatim.
   */
  lemma ScanKeepsTag(init: Session, line: string)
    requires ScanLine(init, line).Ok?
    ensures var f := ScanLine(init, line).value.file;
      var n := |line| - |f| - 3;
      0 <= n && line == line[..n] + " | " + f
      && forall k :: 0 <= k < n ==> !(" | " <= line[k..])
  {
    SplitFirstSpec(line, " | ");
    var head := SplitFirst(line, " | ").value.0;
    assert line[..|head|] == head;
  }

  lemma NoSpaceSuffix(a: string, b: string)
    requires NoSpace(a + b)
    ensures NoSpace(b)
  {
    forall i | 0 <= i < |b| ensures !IsSpace(b[i]) {
      assert b[i] == (a + b)[|a| + i];
    }
  }

  lemma {:induction false} ApplyDetailsKind(s: Session, ds: seq<string>)
    decreases |ds|
    requires NoSpace(s.kind)
    requires forall i :: 0 <= i < |ds| ==> NoSpace(ds[i])
    requires ApplyDetails(s, ds).Ok?
    ensures NoSpace(ApplyDetails(s, ds).value.kind)
  {
    if ds != [] {
      var step := ApplyDetail(s, ds[0]);
      var parts := SplitFirst(ds[0], "=");
      assert parts.Some?;
      NoSpaceSuffix(parts.value.0 + "=", parts.value.1);
      ApplyDetailsKind(step.value, ds[1..]);
    }
  }

  /** A decoded type never holds white space, so a decoded session is encoded back faithfully. */
  lemma ScanKindNoSpace(init: Session, line: string)
    requires NoSpace(init.kind)
    requires ScanLine(init, line).Ok?
    ensures NoSpace(ScanLine(init, line).value.kind)
  {
    var parts := SplitFirst(line, " | ");
    assert parts.Some?;
    ApplyDetailsKind(init, Fields(parts.value.0));
  }
}
