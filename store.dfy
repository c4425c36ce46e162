/**
 * The session log: one encoded session per line, the newest last.
 *
 * `Store` holds the file's lines; each of its methods reads and rewrites them
 * as the Go functions of the same name do, and is specified by a function of
 * the lines it starts from.
 */
module SessionLog {
  import opened Base
  import opened Text
  import opened Uuids
  import opened Chrono
  import opened Sessions

  /** Line `j` is the first line holding `needle`. */
  predicate IsFirstMatch(ls: seq<string>, needle: string, j: int)
  {
    0 <= j < |ls| && Contains(ls[j], needle) && forall k :: 0 <= k < j ==> !Contains(ls[k], needle)
  }

  /** No line holds `needle`. */
  predicate NoMatch(ls: seq<string>, needle: string)
  {
    forall j :: 0 <= j < |ls| ==> !Contains(ls[j], needle)
  }

  /** Index of the first line holding `needle`, if any. */
  function FirstContaining(ls: seq<string>, needle: string): (r: Option<nat>)
    ensures r.Some? ==> IsFirstMatch(ls, needle, r.value)
    ensures r.None? ==> NoMatch(ls, needle)
  {
    if ls == [] then None
    else if Contains(ls[0], needle) then Some(0)
    else
      match FirstContaining(ls[1..], needle)
      case None => None
      case Some(i) =>
        assert forall k :: 1 <= k <= i ==> ls[k] == ls[1..][k - 1];
        Some(i + 1)
  }

  /** There is at most one first match. */
  lemma FirstMatchUnique(ls: seq<string>, needle: string, i: int)
    requires IsFirstMatch(ls, needle, i)
    ensures FirstContaining(ls, needle) == Some(i)
  {
  }

  /** The lines after `Save(s)`: the first line holding `id=<s.ID>` becomes `String(s)`. */
  function SaveLines(ls: seq<string>, s: Session): (r: seq<string>)
    ensures |r| == |ls|
    ensures forall j :: 0 <= j < |ls| ==>
      r[j] == if IsFirstMatch(ls, IdNeedle(s.id), j) then Encode(s) else ls[j]
    ensures NoMatch(ls, IdNeedle(s.id)) ==> r == ls
  {
    match FirstContaining(ls, IdNeedle(s.id))
    case None => ls
    case Some(i) => ls[i := Encode(s)]
  }

  /** The lines after `Delete` of a session with `id`: the first line holding `id=<id>` is removed. */
  function DeleteLines(ls: seq<string>, id: Uuid): (r: seq<string>)
    ensures NoMatch(ls, IdNeedle(id)) ==> r == ls
    ensures !NoMatch(ls, IdNeedle(id)) ==>
      exists i :: IsFirstMatch(ls, IdNeedle(id), i) && r == ls[..i] + ls[i + 1..]
  {
    match FirstContaining(ls, IdNeedle(id))
    case None => ls
    case Some(i) => ls[..i] + ls[i + 1..]
  }

  /** What `Get` leaves in a receiver holding `init`: the last line decoded, or `init` on an empty log. */
  function Current(ls: seq<string>, init: Session): Result<Session, ScanError>
  {
    if ls == [] then Ok(init) else ScanLine(init, ls[|ls| - 1])
  }

  /** Line `j` is the first that does not decode, and fails with `e`. */
  predicate FailsFirstAt(ls: seq<string>, j: int, e: ScanError)
  {
    0 <= j < |ls| && ScanLine(Zero, ls[j]) == Err(e) && forall k :: 0 <= k < j ==> ScanLine(Zero, ls[k]).Ok?
  }

  lemma FailsFirstInPrefix(ls: seq<string>, n: int, e: ScanError)
    requires 0 <= n <= |ls|
    requires exists j :: FailsFirstAt(ls[..n], j, e)
    ensures exists j :: FailsFirstAt(ls, j, e)
  {
    var j :| FailsFirstAt(ls[..n], j, e);
    assert forall k :: 0 <= k <= j ==> ls[..n][k] == ls[k];
    assert FailsFirstAt(ls, j, e);
  }

  /** Every line decoded into a fresh `Session{}`, in order, failing at the first bad line. */
  function ParseAll(ls: seq<string>): (r: Result<seq<Session>, ScanError>)
    ensures r.Ok? ==> |r.value| == |ls|
  {
    if ls == [] then Ok([])
    else
      match ParseAll(ls[..|ls| - 1])
      case Err(e) => Err(e)
      case Ok(ss) =>
        match ScanLine(Zero, ls[|ls| - 1])
        case Err(e) => Err(e)
        case Ok(s) => Ok(ss + [s])
  }

  /** Session `j` of a log that decodes is what line `j` decodes to. */
  lemma {:induction false} ParseAllAt(ls: seq<string>, j: int)
    requires ParseAll(ls).Ok? && 0 <= j < |ls|
    decreases |ls|
    ensures ScanLine(Zero, ls[j]) == Ok(ParseAll(ls).value[j])
  {
    var n := |ls| - 1;
    if j < n {
      var p := ls[..n];
      ParseAllAt(p, j);
      assert p[j] == ls[j];
    }
  }

  /** A log whose every line decodes decodes. */
  lemma {:induction false} ParseAllOk(ls: seq<string>)
    requires forall j :: 0 <= j < |ls| ==> ScanLine(Zero, ls[j]).Ok?
    decreases |ls|
    ensures ParseAll(ls).Ok?
  {
    if ls != [] {
      var p := ls[..|ls| - 1];
      assert forall j :: 0 <= j < |p| ==> p[j] == ls[j];
      ParseAllOk(p);
    }
  }

  /** A log that does not decode reports the error of its first bad line. */
  lemma {:induction false} ParseAllFails(ls: seq<string>)
    requires ParseAll(ls).Err?
    decreases |ls|
    ensures exists j :: FailsFirstAt(ls, j, ParseAll(ls).error)
  {
    var n := |ls| - 1;
    var p := ls[..n];
    match ParseAll(p)
    case Err(e) =>
      ParseAllFails(p);
      FailsFirstInPrefix(ls, n, e);
    case Ok(ss) =>
      forall k | 0 <= k < n ensures ScanLine(Zero, ls[k]).Ok? {
        ParseAllAt(p, k);
        assert p[k] == ls[k];
      }
      assert FailsFirstAt(ls, n, ParseAll(ls).error);
  }

  /**
   * `ListSessions` yields one session per line, in file order, exactly when
   * every line decodes; otherwise the error of the first line that does not.
   */
  lemma ParseAllSpec(ls: seq<string>)
    ensures ParseAll(ls).Ok? <==> forall j :: 0 <= j < |ls| ==> ScanLine(Zero, ls[j]).Ok?
    ensures ParseAll(ls).Ok? ==>
      |ParseAll(ls).value| == |ls| && forall j :: 0 <= j < |ls| ==> ScanLine(Zero, ls[j]) == Ok(ParseAll(ls).value[j])
    ensures ParseAll(ls).Err? ==> exists j :: FailsFirstAt(ls, j, ParseAll(ls).error)
  {
    if ParseAll(ls).Ok? {
      forall j | 0 <= j < |ls| ensures ScanLine(Zero, ls[j]) == Ok(ParseAll(ls).value[j]) {
        ParseAllAt(ls, j);
      }
    } else {
      ParseAllFails(ls);
      if forall j :: 0 <= j < |ls| ==> ScanLine(Zero, ls[j]).Ok? {
        ParseAllOk(ls);
      }
    }
  }

  class Store {
    /** The lines of the session log file. */
    var lines: seq<string>

    constructor (initial: seq<string>)
      ensures lines == initial
    {
      lines := initial;
    }

    /** `Session.Get`: decode the last line into the receiver. */
    method Get(init: Session) returns (r: Result<Session, ScanError>)
      ensures r == Current(lines, init)
    {
      if |lines| == 0 {
        return Ok(init);
      }
      r := Scan(init, lines[|lines| - 1]);
    }

    /** `Session.Save`: rewrite the first line holding `id=<ID>`; without one, write nothing. */
    method Save(s: Session)
      modifies this
      ensures lines == SaveLines(old(lines), s)
    {
      var ls := lines;
      var i := 0;
      while i < |ls|
        invariant 0 <= i <= |ls|
        invariant forall k :: 0 <= k < i ==> !Contains(ls[k], IdNeedle(s.id))
      {
        var needle := IdNeedle(s.id);
        if Contains(ls[i], needle) {
          FirstMatchUnique(ls, needle, i);
          lines := ls[i := Encode(s)];
          return;
        }
        i := i + 1;
      }
    }

    /** `Session.Delete`: remove the first line holding `id=<ID>`. */
    method Delete(s: Session)
      modifies this
      ensures lines == DeleteLines(old(lines), s.id)
    {
      var ls := lines;
      if |ls| == 0 {
        return;
      }
      var i := 0;
      while i < |ls|
        invariant 0 <= i <= |ls|
        invariant forall k :: 0 <= k < i ==> !Contains(ls[k], IdNeedle(s.id))
      {
        var needle := IdNeedle(s.id);
        if Contains(ls[i], needle) {
          FirstMatchUnique(ls, needle, i);
          ls := ls[..i] + ls[i + 1..];
          break;
        }
        i := i + 1;
      }
      lines := ls;
    }

    /**
     * `Session.Start`: a running session with a fresh `id`, started `now`, is
     * appended to the log. `file` is the editor buffer the Go code reads.
     */
    method Start(id: Uuid, now: int, dur: int, kind: string, file: string) returns (s: Session)
      modifies this
      ensures s == Session(id, now, ZeroInstant, dur, kind, file)
      ensures lines == old(lines) + [Encode(s)]
    {
      s := Session(id, now, ZeroInstant, dur, kind, file);
      lines := lines + [Encode(s)];
    }

    /** `Session.Stop`: set the end time to `now` and save. */
    method Stop(s: Session, now: int) returns (t: Session)
      modifies this
      ensures t == s.(endTime := now)
      ensures lines == SaveLines(old(lines), t)
    {
      t := s.(endTime := now);
      Save(t);
    }

    /** `Session.Reset`: restart the clock at `now`, clear the end time, and save. */
    method Reset(s: Session, now: int) returns (t: Session)
      modifies this
      ensures t == s.(startTime := now, endTime := ZeroInstant)
      ensures lines == SaveLines(old(lines), t)
    {
      t := s.(startTime := now, endTime := ZeroInstant);
      Save(t);
    }

    /** `ListSessions`: decode every line, failing at the first that does not decode. */
    method ListSessions() returns (r: Result<seq<Session>, ScanError>)
      ensures r == ParseAll(lines)
    {
      var out: seq<Session> := [];
      var i := 0;
      while i < |lines|
        invariant 0 <= i <= |lines|
        invariant ParseAll(lines[..i]) == Ok(out)
      {
        var s := Scan(Zero, lines[i]);
        assert lines[..i + 1][..i] == lines[..i];
        if s.Err? {
          ListFailsAt(lines, i);
          return Err(s.error);
        }
        out := out + [s.value];
        i := i + 1;
      }
      assert lines[..i] == lines;
      return Ok(out);
    }
  }

  /** The first line that does not decode is the error of the whole list. */
  lemma ListFailsAt(ls: seq<string>, i: int)
    requires 0 <= i < |ls|
    requires ParseAll(ls[..i]).Ok?
    requires ScanLine(Zero, ls[i]).Err?
    ensures ParseAll(ls) == Err(ScanLine(Zero, ls[i]).error)
  {
    var p := ls[..i];
    var r := ParseAll(ls);
    if r.Ok? {
      ParseAllAt(ls, i);
      assert false;
    }
    ParseAllFails(ls);
    var j :| FailsFirstAt(ls, j, r.error);
    if j < i {
      ParseAllAt(p, j);
      assert false;
    }
    forall k | 0 <= k < i ensures ScanLine(Zero, ls[k]).Ok? {
      ParseAllAt(p, k);
      assert p[k] == ls[k];
    }
    assert j == i;
  }

  // ---------------------------------------------------------------------------
  // Reading the log
  // ---------------------------------------------------------------------------

  /**
   * `Get` on an empty log returns no error and leaves the receiver as it was;
   * a fresh `Session{}` then counts as running.
   */
  lemma GetEmpty(init: Session)
    ensures Current([], init) == Ok(init)
    ensures Current([], Zero).Ok? && IsRunning(Current([], Zero).value)
  {
  }

  /** The current session is the last line's, and appending a line makes it current. */
  lemma CurrentIsLast(ls: seq<string>, line: string, init: Session)
    ensures Current(ls + [line], init) == ScanLine(init, line)
    ensures ls != [] && ParseAll(ls).Ok? ==> Current(ls, Zero) == Ok(ParseAll(ls).value[|ls| - 1])
  {
  }

  // ---------------------------------------------------------------------------
  // Saving and deleting
  // ---------------------------------------------------------------------------

  lemma EncodeHoldsNeedle(s: Session)
    ensures Contains(Encode(s), IdNeedle(s.id))
  {
    assert IdNeedle(s.id) <= Encode(s)[0..];
  }

  /** Stopping the zero session touches no line of a log that never recorded the nil id. */
  lemma StopZeroIsNoop(ls: seq<string>, now: int)
    requires NoMatch(ls, IdNeedle(Nil))
    ensures SaveLines(ls, Zero.(endTime := now)) == ls
  {
  }

  /** Saving a session whose line is found, then reading that line, gives the session back. */
  lemma SaveThenRead(ls: seq<string>, s: Session, i: int)
    requires IsFirstMatch(ls, IdNeedle(s.id), i)
    requires NoSpace(s.kind)
    ensures i < |SaveLines(ls, s)| && ScanLine(Zero, SaveLines(ls, s)[i]) == Ok(s)
  {
    ScanRoundTrip(Zero, s);
  }

  /** Deleting then listing drops exactly the one session. */
  lemma DeleteDropsOne(ls: seq<string>, id: Uuid, i: int)
    requires IsFirstMatch(ls, IdNeedle(id), i)
    ensures |DeleteLines(ls, id)| == |ls| - 1
    ensures forall j :: 0 <= j < |ls| - 1 ==> DeleteLines(ls, id)[j] == if j < i then ls[j] else ls[j + 1]
  {
  }

  // ---------------------------------------------------------------------------
  // At most the newest session is running
  // ---------------------------------------------------------------------------

  /** Every line decodes and no decoded session is running. */
  predicate AllStopped(ls: seq<string>)
  {
    ParseAll(ls).Ok? && forall j :: 0 <= j < |ls| ==> !IsRunning(ParseAll(ls).value[j])
  }

  /**
   * Every line decodes, every session but the newest is stopped, and the
   * newest is the first line holding its own id (so `Save` and `Delete` reach it).
   */
  predicate Orderly(ls: seq<string>)
  {
    ParseAll(ls).Ok?
    && (forall j :: 0 <= j < |ls| - 1 ==> !IsRunning(ParseAll(ls).value[j]))
    && (ls != [] ==> IsFirstMatch(ls, IdNeedle(ParseAll(ls).value[|ls| - 1].id), |ls| - 1))
  }

  lemma AllStoppedIsOrderly(ls: seq<string>)
    requires AllStopped(ls)
    requires ls != [] ==> IsFirstMatch(ls, IdNeedle(ParseAll(ls).value[|ls| - 1].id), |ls| - 1)
    ensures Orderly(ls)
  {
  }

  /** With the newest session stopped, an orderly log has no running session. */
  lemma OrderlyStoppedLast(ls: seq<string>)
    requires Orderly(ls)
    requires ls == [] || !IsRunning(ParseAll(ls).value[|ls| - 1])
    ensures AllStopped(ls)
  {
  }

  /** An id whose needle occurs in no line: what a freshly generated UUID gives. */
  predicate Fresh(ls: seq<string>, id: Uuid)
  {
    NoMatch(ls, IdNeedle(id))
  }

  /** The sessions of a prefix of the log are the prefix of its sessions. */
  lemma ParseAllPrefix(ls: seq<string>, n: int)
    requires ParseAll(ls).Ok? && 0 <= n <= |ls|
    ensures ParseAll(ls[..n]) == Ok(ParseAll(ls).value[..n])
  {
    var p := ls[..n];
    forall j | 0 <= j < n ensures ScanLine(Zero, p[j]).Ok? {
      ParseAllAt(ls, j);
      assert p[j] == ls[j];
    }
    ParseAllOk(p);
    var v := ParseAll(p).value;
    var w := ParseAll(ls).value[..n];
    forall j | 0 <= j < n ensures v[j] == w[j] {
      ParseAllAt(ls, j);
      ParseAllAt(p, j);
      assert p[j] == ls[j];
    }
    assert v == w;
  }

  /** Appending a line that decodes to `s` appends `s` to the sessions. */
  lemma ParseAllAppend(ls: seq<string>, line: string, s: Session)
    requires ParseAll(ls).Ok?
    requires ScanLine(Zero, line) == Ok(s)
    ensures ParseAll(ls + [line]) == Ok(ParseAll(ls).value + [s])
  {
    assert (ls + [line])[..|ls|] == ls;
  }

  /** Rewriting the last line with one that decodes to `t` replaces the newest session by `t`. */
  lemma RewriteLastParses(ls: seq<string>, line: string, t: Session)
    requires ParseAll(ls).Ok? && ls != []
    requires ScanLine(Zero, line) == Ok(t)
    ensures ParseAll(ls[|ls| - 1 := line]) == Ok(ParseAll(ls).value[|ls| - 1 := t])
  {
    var n := |ls| - 1;
    var ls' := ls[n := line];
    assert ls'[..n] == ls[..n];
    var ss := ParseAll(ls).value;
    var pre := ParseAll(ls[..n]).value;
    assert ss == pre + [ss[n]];
    assert ss[n := t] == pre + [t];
  }

  /** Orderly, from its three parts stated on a given decoding. */
  lemma OrderlyIntro(ls: seq<string>, ss: seq<Session>)
    requires ParseAll(ls) == Ok(ss)
    requires forall j :: 0 <= j < |ss| - 1 ==> !IsRunning(ss[j])
    requires ls != [] ==> IsFirstMatch(ls, IdNeedle(ss[|ls| - 1].id), |ls| - 1)
    ensures Orderly(ls)
  {
  }

  /** Rewriting the last line with one holding the same needle keeps the last line the first match. */
  lemma RewriteLastMatch(ls: seq<string>, line: string, needle: string)
    requires IsFirstMatch(ls, needle, |ls| - 1)
    requires Contains(line, needle)
    ensures IsFirstMatch(ls[|ls| - 1 := line], needle, |ls| - 1)
  {
    var ls' := ls[|ls| - 1 := line];
    forall k | 0 <= k < |ls| - 1 ensures !Contains(ls'[k], needle) {
      assert ls'[k] == ls[k];
    }
  }

  /** An orderly log whose last line is rewritten with a line of the same session id stays orderly. */
  lemma RewriteLastOrderly(ls: seq<string>, line: string, t: Session)
    requires Orderly(ls) && ls != []
    requires ScanLine(Zero, line) == Ok(t) && Contains(line, IdNeedle(t.id))
    requires t.id == ParseAll(ls).value[|ls| - 1].id
    ensures Orderly(ls[|ls| - 1 := line])
    ensures !IsRunning(t) ==> AllStopped(ls[|ls| - 1 := line])
  {
    var n := |ls| - 1;
    var ss := ParseAll(ls).value;
    var ss' := ss[n := t];
    RewriteLastParses(ls, line, t);
    RewriteLastMatch(ls, line, IdNeedle(t.id));
    StoppedBefore(ss, t, ss');
    OrderlyIntro(ls[n := line], ss');
    if !IsRunning(t) {
      AllStoppedIntro(ls[n := line], ss');
    }
  }

  /** Appending the line of a session with a fresh id to a log with nothing running leaves it orderly. */
  lemma AppendOrderly(ls: seq<string>, line: string, s: Session)
    requires AllStopped(ls)
    requires Fresh(ls, s.id)
    requires ScanLine(Zero, line) == Ok(s) && Contains(line, IdNeedle(s.id))
    ensures Orderly(ls + [line])
  {
    var ls' := ls + [line];
    var ss := ParseAll(ls).value;
    ParseAllAppend(ls, line, s);
    var ss' := ss + [s];
    forall j | 0 <= j < |ls| ensures !IsRunning(ss'[j]) {
      assert ss'[j] == ss[j];
    }
    forall k | 0 <= k < |ls| ensures !Contains(ls'[k], IdNeedle(s.id)) {
      assert ls'[k] == ls[k];
    }
    assert IsFirstMatch(ls', IdNeedle(s.id), |ls|);
  }

  /** Appending a new session with a fresh id to a log with nothing running leaves it orderly. */
  lemma StartKeepsOrderly(ls: seq<string>, s: Session)
    requires AllStopped(ls)
    requires Fresh(ls, s.id)
    requires NoSpace(s.kind)
    ensures Orderly(ls + [Encode(s)])
    ensures ParseAll(ls + [Encode(s)]) == Ok(ParseAll(ls).value + [s])
  {
    ScanRoundTrip(Zero, s);
    EncodeHoldsNeedle(s);
    ParseAllAppend(ls, Encode(s), s);
    AppendOrderly(ls, Encode(s), s);
  }

  /** When the last line is the first to hold the id, saving rewrites just that line. */
  lemma SaveLastLine(ls: seq<string>, t: Session)
    requires IsFirstMatch(ls, IdNeedle(t.id), |ls| - 1)
    ensures SaveLines(ls, t) == ls[|ls| - 1 := Encode(t)]
  {
    FirstMatchUnique(ls, IdNeedle(t.id), |ls| - 1);
  }

  /**
   * Saving a new version of the newest session, under the same id, rewrites
   * just the last line, and the log stays orderly.
   */
  lemma SaveLastKeepsOrderly(ls: seq<string>, t: Session)
    requires Orderly(ls) && ls != []
    requires t.id == ParseAll(ls).value[|ls| - 1].id
    requires NoSpace(t.kind)
    ensures SaveLines(ls, t) == ls[|ls| - 1 := Encode(t)]
    ensures Orderly(SaveLines(ls, t))
    ensures ParseAll(SaveLines(ls, t)) == Ok(ParseAll(ls).value[|ls| - 1 := t])
    ensures !IsRunning(t) ==> AllStopped(SaveLines(ls, t))
  {
    SaveLastLine(ls, t);
    ScanRoundTrip(Zero, t);
    EncodeHoldsNeedle(t);
    RewriteLastParses(ls, Encode(t), t);
    RewriteLastOrderly(ls, Encode(t), t);
  }

  /** The newest session of a log that decodes has a type free of white space, as every decoded one does. */
  lemma LastKindNoSpace(ls: seq<string>)
    requires ParseAll(ls).Ok? && ls != []
    ensures NoSpace(ParseAll(ls).value[|ls| - 1].kind)
  {
    var n := |ls| - 1;
    ParseAllAt(ls, n);
    ScanKindNoSpace(Zero, ls[n]);
  }

  /** Stopping the newest session of an orderly log at a non-zero time stops everything. */
  lemma StopLastStopsAll(ls: seq<string>, now: int)
    requires Orderly(ls) && ls != []
    requires now != ZeroInstant
    ensures var c := ParseAll(ls).value[|ls| - 1];
      AllStopped(SaveLines(ls, c.(endTime := now)))
  {
    var n := |ls| - 1;
    var ss := ParseAll(ls).value;
    var t := ss[n].(endTime := now);
    LastKindNoSpace(ls);
    SaveLastKeepsOrderly(ls, t);
  }

  /** AllStopped, stated on a given decoding. */
  lemma AllStoppedIntro(ls: seq<string>, ss: seq<Session>)
    requires ParseAll(ls) == Ok(ss)
    requires forall j :: 0 <= j < |ss| ==> !IsRunning(ss[j])
    ensures AllStopped(ls)
  {
  }

  /** Replacing the newest session keeps the older ones as they were, stopped; if the new one is stopped, all are. */
  lemma StoppedBefore(ss: seq<Session>, t: Session, ss': seq<Session>)
    requires ss != [] && ss' == ss[|ss| - 1 := t]
    requires forall j :: 0 <= j < |ss| - 1 ==> !IsRunning(ss[j])
    ensures forall j :: 0 <= j < |ss'| - 1 ==> !IsRunning(ss'[j])
    ensures !IsRunning(t) ==> forall j :: 0 <= j < |ss'| ==> !IsRunning(ss'[j])
  {
    forall j | 0 <= j < |ss| - 1 ensures !IsRunning(ss'[j]) {
      assert ss'[j] == ss[j];
    }
  }

  /** When the last line is the first to hold the id, deleting drops just that line. */
  lemma DeleteLastLine(ls: seq<string>, id: Uuid)
    requires IsFirstMatch(ls, IdNeedle(id), |ls| - 1)
    ensures DeleteLines(ls, id) == ls[..|ls| - 1]
  {
    var n := |ls| - 1;
    FirstMatchUnique(ls, IdNeedle(id), n);
    assert ls[..n] + ls[n + 1..] == ls[..n];
  }

  /** Deleting the newest session of an orderly log leaves the older ones, all stopped. */
  lemma DeleteLastStopsAll(ls: seq<string>)
    requires Orderly(ls) && ls != []
    ensures var c := ParseAll(ls).value[|ls| - 1];
      DeleteLines(ls, c.id) == ls[..|ls| - 1] && AllStopped(ls[..|ls| - 1])
  {
    var n := |ls| - 1;
    var ss := ParseAll(ls).value;
    DeleteLastLine(ls, ss[n].id);
    ParseAllPrefix(ls, n);
    forall j | 0 <= j < n ensures !IsRunning(ss[..n][j]) {
      assert ss[..n][j] == ss[j];
    }
  }
}
