/**
 * The daily summary: today's sessions, their time per type and per file,
 * the `Hh:MMm` rendering, the progress bar, and the status view's reducer.
 *
 * Durations are whole seconds. A calendar day is taken at a fixed UTC offset
 * of `offset` seconds (the Go code uses the Lisbon zone).
 */
module Status {
  import opened Base
  import opened Text
  import opened Sessions
  import opened SessionLog
  import opened Events

  /** The daily goals, 8h20m of work and 1h40m of rest, in seconds. */
  const WorkGoal: int := 8 * 3600 + 20 * 60
  const RestGoal: int := 1 * 3600 + 40 * 60

  const ProgressBarWidth: int := 30

  const SecondsPerDay: int := 86400

  // ---------------------------------------------------------------------------
  // formatDurationHm
  // ---------------------------------------------------------------------------

  /** `formatDurationHm`: Go's truncating `/` and `%` on hours and minutes. */
  function FormatHm(d: int): string
  {
    var hours := Quot(d, 3600);
    var minutes := Quot(Rem(d, 3600), 60);
    if hours == 0 then Pad2(minutes) + "m"
    else IntText(hours) + "h:" + Pad2(minutes) + "m"
  }

  /** Under an hour: the minutes, two digits, then `m`. */
  lemma FormatHmUnderHour(d: int)
    requires 0 <= d < 3600
    ensures FormatHm(d) == Pad2(d / 60) + "m" && |FormatHm(d)| == 3
  {
  }

  /** From an hour on: the hours unpadded, `h:`, the minutes within the hour in two digits, `m`. */
  lemma FormatHmHours(d: int)
    requires d >= 3600
    ensures FormatHm(d) == NatText(d / 3600) + "h:" + Pad2(d % 3600 / 60) + "m"
  {
  }

  /** Seconds within the minute are dropped. */
  lemma FormatHmTruncates(k: nat, s: int)
    requires 0 <= s < 60
    ensures FormatHm(60 * k + s) == FormatHm(60 * k)
  {
    var d := 60 * k + s;
    var q, r := k / 60, k % 60;
    assert 60 * k == 3600 * q + 60 * r;
    DivUnique(d, 3600, q, 60 * r + s);
    DivUnique(60 * k, 3600, q, 60 * r);
    DivUnique(60 * r + s, 60, r, s);
    DivUnique(60 * r, 60, r, 0);
    assert Quot(d, 3600) == q == Quot(60 * k, 3600);
    assert Quot(Rem(d, 3600), 60) == r == Quot(Rem(60 * k, 3600), 60);
  }

  /** Under an hour only the minutes show, padded. */
  lemma FormatHmExamples()
    ensures FormatHm(3000) == "50m"
    ensures FormatHm(0) == "00m"
  {
    DigitChars();
    assert NatText(50) == "50";
  }

  /** The daily goals as the status screen shows them. */
  lemma FormatHmGoals()
    ensures FormatHm(WorkGoal) == "8h:20m"
    ensures FormatHm(RestGoal) == "1h:40m"
  {
    DigitChars();
    assert IntText(8) == "8" && Pad2(20) == "20";
    assert IntText(1) == "1" && Pad2(40) == "40";
  }

  /** A negative total keeps its sign in both groups. */
  lemma FormatHmNegative()
    ensures FormatHm(-5400) == "-1h:-30m"
  {
    assert NatText(30) == "30";
    assert NatText(1) == "1";
  }

  // ---------------------------------------------------------------------------
  // renderProgressBar
  // ---------------------------------------------------------------------------

  /** The bar glyphs of `renderProgressBar`, given the integer `filled` count before its cap. */
  method RenderBar(filled: int, width: int) returns (bar: string)
    ensures |bar| == Max(width, 0)
    ensures forall i :: 0 <= i < |bar| ==> bar[i] == (if i < filled then '━' else '─')
    ensures multiset(bar)['━'] == Min(Max(filled, 0), Max(width, 0))
  {
    var f := filled;
    if f > width {
      f := width;
    }
    bar := "";
    var i := 0;
    while i < width
      invariant 0 <= i <= Max(width, 0)
      invariant |bar| == i
      invariant forall j :: 0 <= j < i ==> bar[j] == (if j < filled then '━' else '─')
      invariant multiset(bar)['━'] == Min(Max(filled, 0), i)
    {
      if i < f {
        bar := bar + "━";
      } else {
        bar := bar + "─";
      }
      i := i + 1;
    }
  }

  // ---------------------------------------------------------------------------
  // filterTodaySessions
  // ---------------------------------------------------------------------------

  /** The calendar day of an instant, at UTC offset `offset`. */
  function Day(t: int, offset: int): int
  {
    (t + offset) / SecondsPerDay
  }

  /** The sessions that started on day `today`, in order. */
  function StartedOn(ss: seq<Session>, today: int, offset: int): seq<Session>
  {
    if ss == [] then []
    else
      var rest := StartedOn(ss[..|ss| - 1], today, offset);
      if Day(ss[|ss| - 1].startTime, offset) == today then rest + [ss[|ss| - 1]] else rest
  }

  /** `filterTodaySessions`, which never fails. */
  method FilterToday(ss: seq<Session>, now: int, offset: int) returns (today: seq<Session>)
    ensures today == StartedOn(ss, Day(now, offset), offset)
  {
    today := [];
    var i := 0;
    while i < |ss|
      invariant 0 <= i <= |ss|
      invariant today == StartedOn(ss[..i], Day(now, offset), offset)
    {
      assert ss[..i + 1][..i] == ss[..i];
      if Day(ss[i].startTime, offset) == Day(now, offset) {
        today := today + [ss[i]];
      }
      i := i + 1;
    }
    assert ss[..i] == ss;
  }

  /** Keeping today's sessions distributes over concatenation: the order is kept. */
  lemma {:induction false} StartedOnAppend(a: seq<Session>, b: seq<Session>, today: int, offset: int)
    decreases |b|
    ensures StartedOn(a + b, today, offset) == StartedOn(a, today, offset) + StartedOn(b, today, offset)
  {
    if b == [] {
      assert a + b == a;
    } else {
      var b' := b[..|b| - 1];
      assert (a + b)[..|a + b| - 1] == a + b';
      StartedOnAppend(a, b', today, offset);
    }
  }

  /** Exactly the sessions that started today are kept. */
  lemma {:induction false} StartedOnMembers(ss: seq<Session>, today: int, offset: int, s: Session)
    ensures s in StartedOn(ss, today, offset) <==> s in ss && Day(s.startTime, offset) == today
  {
    if ss != [] {
      var p := ss[..|ss| - 1];
      StartedOnMembers(p, today, offset, s);
      assert ss == p + [ss[|ss| - 1]];
    }
  }

  /** A list of sessions all from today is kept whole. */
  lemma {:induction false} StartedOnAll(ss: seq<Session>, today: int, offset: int)
    requires forall i :: 0 <= i < |ss| ==> Day(ss[i].startTime, offset) == today
    ensures StartedOn(ss, today, offset) == ss
  {
    if ss != [] {
      var p := ss[..|ss| - 1];
      StartedOnAll(p, today, offset);
      assert ss == p + [ss[|ss| - 1]];
    }
  }

  // ---------------------------------------------------------------------------
  // summarizeSessions
  // ---------------------------------------------------------------------------

  /** The time a session accounts for: start to end when stopped, start to now while running. */
  function Span(s: Session, now: int): int
  {
    if !IsRunning(s) then s.endTime - s.startTime else now - s.startTime
  }

  datatype Grouping = ByType | ByFile

  function Key(s: Session, g: Grouping): string
  {
    match g
    case ByType => s.kind
    case ByFile => s.file
  }

  /** The accumulated map: each session's span added to its key's entry. */
  function Totals(ss: seq<Session>, now: int, g: Grouping): map<string, int>
  {
    if ss == [] then map[]
    else
      var m := Totals(ss[..|ss| - 1], now, g);
      var s := ss[|ss| - 1];
      m[Key(s, g) := Lookup(m, Key(s, g)) + Span(s, now)]
  }

  /** `summarizeSessions`: the per-type and per-file maps, built in one loop. */
  method Summarize(ss: seq<Session>, now: int) returns (types: map<string, int>, files: map<string, int>)
    ensures types == Totals(ss, now, ByType)
    ensures files == Totals(ss, now, ByFile)
  {
    types := map[];
    files := map[];
    var i := 0;
    while i < |ss|
      invariant 0 <= i <= |ss|
      invariant types == Totals(ss[..i], now, ByType)
      invariant files == Totals(ss[..i], now, ByFile)
    {
      assert ss[..i + 1][..i] == ss[..i];
      var s := ss[i];
      var d := Span(s, now);
      types := types[s.kind := Lookup(types, s.kind) + d];
      files := files[s.file := Lookup(files, s.file) + d];
      i := i + 1;
    }
    assert ss[..i] == ss;
  }

  /** The spans of the sessions whose key is `k`, summed. */
  function SumOf(ss: seq<Session>, now: int, g: Grouping, k: string): int
  {
    if ss == [] then 0
    else (if Key(ss[0], g) == k then Span(ss[0], now) else 0) + SumOf(ss[1..], now, g, k)
  }

  lemma {:induction false} SumOfAppend(a: seq<Session>, s: Session, now: int, g: Grouping, k: string)
    decreases |a|
    ensures SumOf(a + [s], now, g, k) == SumOf(a, now, g, k) + (if Key(s, g) == k then Span(s, now) else 0)
  {
    if a != [] {
      assert (a + [s])[1..] == a[1..] + [s];
      SumOfAppend(a[1..], s, now, g, k);
    }
  }

  /** A key's total is the sum of its sessions' spans; absent keys read as zero. */
  lemma {:induction false} TotalsSum(ss: seq<Session>, now: int, g: Grouping, k: string)
    ensures Lookup(Totals(ss, now, g), k) == SumOf(ss, now, g, k)
  {
    if ss != [] {
      var p := ss[..|ss| - 1];
      TotalsSum(p, now, g, k);
      SumOfAppend(p, ss[|ss| - 1], now, g, k);
      assert ss == p + [ss[|ss| - 1]];
    }
  }

  /** A key has an entry exactly when some session has that key. */
  lemma {:induction false} TotalsKeys(ss: seq<Session>, now: int, g: Grouping, k: string)
    ensures k in Totals(ss, now, g) <==> exists i :: 0 <= i < |ss| && Key(ss[i], g) == k
  {
    if ss != [] {
      var p := ss[..|ss| - 1];
      TotalsKeys(p, now, g, k);
      if exists i :: 0 <= i < |p| && Key(p[i], g) == k {
        var i :| 0 <= i < |p| && Key(p[i], g) == k;
        assert ss[i] == p[i];
      }
      if exists i :: 0 <= i < |ss| && Key(ss[i], g) == k {
        var i :| 0 <= i < |ss| && Key(ss[i], g) == k;
        if i < |p| {
          assert p[i] == ss[i];
        }
      }
    }
  }

  /** The sum of all the values of a map. */
  ghost function MapTotal(m: map<string, int>): int
    decreases |m.Keys|
  {
    if m == map[] then 0
    else
      var k :| k in m;
      assert |(m - {k}).Keys| < |m.Keys| by {
        assert (m - {k}).Keys == m.Keys - {k};
      }
      m[k] + MapTotal(m - {k})
  }

  /** Any key may be taken out first. */
  lemma {:induction false} MapTotalRemove(m: map<string, int>, k: string)
    requires k in m
    decreases |m.Keys|
    ensures MapTotal(m) == m[k] + MapTotal(m - {k})
  {
    var j :| j in m && MapTotal(m) == m[j] + MapTotal(m - {j});
    if j != k {
      assert (m - {j}).Keys == m.Keys - {j};
      assert (m - {k}).Keys == m.Keys - {k};
      MapTotalRemove(m - {j}, k);
      MapTotalRemove(m - {k}, j);
      assert m - {j} - {k} == m - {k} - {j};
    }
  }

  lemma MapTotalUpdate(m: map<string, int>, k: string, v: int)
    ensures MapTotal(m[k := v]) == MapTotal(m) - Lookup(m, k) + v
  {
    MapTotalRemove(m[k := v], k);
    if k in m {
      MapTotalRemove(m, k);
      assert m[k := v] - {k} == m - {k};
    } else {
      assert m[k := v] - {k} == m;
    }
  }

  /** The spans of all sessions, summed. */
  function TotalSpan(ss: seq<Session>, now: int): int
  {
    if ss == [] then 0 else TotalSpan(ss[..|ss| - 1], now) + Span(ss[|ss| - 1], now)
  }

  lemma {:induction false} MapTotalOfTotals(ss: seq<Session>, now: int, g: Grouping)
    ensures MapTotal(Totals(ss, now, g)) == TotalSpan(ss, now)
  {
    if ss != [] {
      var p := ss[..|ss| - 1];
      var s := ss[|ss| - 1];
      MapTotalOfTotals(p, now, g);
      MapTotalUpdate(Totals(p, now, g), Key(s, g), Lookup(Totals(p, now, g), Key(s, g)) + Span(s, now));
    }
  }

  /** The per-type and the per-file maps account for the same total time. */
  lemma GrandTotalsAgree(ss: seq<Session>, now: int)
    ensures MapTotal(Totals(ss, now, ByType)) == MapTotal(Totals(ss, now, ByFile)) == TotalSpan(ss, now)
  {
    MapTotalOfTotals(ss, now, ByType);
    MapTotalOfTotals(ss, now, ByFile);
  }

  // ---------------------------------------------------------------------------
  // statusModel
  // ---------------------------------------------------------------------------

  /** The status view's state; the float percentages are not kept. */
  datatype StatusModel = StatusModel(
    workDuration: int,
    breakDuration: int,
    workGoal: int,
    restGoal: int,
    quit: bool,
    width: int,
    height: int)

  predicate IsQuitKey(key: string)
  {
    key == "q" || key == "ctrl+c" || key == "esc"
  }

  /** `statusModel.Update`, given what `ListSessions` returned. */
  function StatusReact(m: StatusModel, msg: Msg, log: Result<seq<Session>, ScanError>, now: int, offset: int)
    : (StatusModel, Cmd)
  {
    match msg
    case KeyPress(key) => if IsQuitKey(key) then (m.(quit := true), QuitCmd) else (m, NoCmd)
    case Resize(w, h) => (m.(width := w, height := h), NoCmd)
    case Tick =>
      if log.Err? then (m, TickCmd)
      else
        var today := StartedOn(log.value, Day(now, offset), offset);
        var types := Totals(today, now, ByType);
        (m.(workDuration := Lookup(types, Work), breakDuration := Lookup(types, Break)), TickCmd)
    case Other => (m, NoCmd)
  }

  /** `statusModel.Update`: on a tick, reload the log and recompute today's totals. */
  method StatusUpdate(m: StatusModel, msg: Msg, store: Store, now: int, offset: int)
    returns (m': StatusModel, cmd: Cmd)
    ensures (m', cmd) == StatusReact(m, msg, ParseAll(store.lines), now, offset)
  {
    match msg {
      case KeyPress(key) =>
        if IsQuitKey(key) {
          return m.(quit := true), QuitCmd;
        }
        return m, NoCmd;
      case Resize(w, h) =>
        return m.(width := w, height := h), NoCmd;
      case Tick =>
        var sessions := store.ListSessions();
        if sessions.Err? {
          return m, TickCmd;
        }
        var today := FilterToday(sessions.value, now, offset);
        var types, _ := Summarize(today, now);
        return m.(workDuration := Lookup(types, Work), breakDuration := Lookup(types, Break)), TickCmd;
      case Other =>
        return m, NoCmd;
    }
  }

  /** What `statusModel.View` lays out; styling is not modelled. */
  datatype StatusScreen =
    | Blank
    | Summary(padding: nat, width: int, work: string, rest: string, workGoal: string, restGoal: string)

  /** `statusModel.View`. */
  function StatusView(m: StatusModel): StatusScreen
  {
    if m.quit then Blank
    else
      Summary(
        Max(0, Quot(m.height - 8, 2)),
        m.width,
        "Work:  " + FormatHm(m.workDuration),
        "Break: " + FormatHm(m.breakDuration),
        "Work:  " + FormatHm(m.workGoal),
        "Break: " + FormatHm(m.restGoal))
  }

  /** `q`, `ctrl+c` and `esc` quit, and a quitting view renders nothing. */
  lemma StatusQuit(m: StatusModel, key: string, log: Result<seq<Session>, ScanError>, now: int, offset: int)
    ensures var (m', cmd) := StatusReact(m, KeyPress(key), log, now, offset);
      (IsQuitKey(key) <==> cmd == QuitCmd) &&
      (IsQuitKey(key) ==> StatusView(m') == Blank) &&
      (!IsQuitKey(key) ==> m' == m)
  {
  }

  /** A resize changes only the width and height. */
  lemma StatusResize(m: StatusModel, w: int, h: int, log: Result<seq<Session>, ScanError>, now: int, offset: int)
    ensures var (m', cmd) := StatusReact(m, Resize(w, h), log, now, offset);
      m'.width == w && m'.height == h && m'.(width := m.width, height := m.height) == m && cmd == NoCmd
  {
  }

  /** A failed reload leaves the statistics as they were; a good one sets them to today's totals. */
  lemma StatusTick(m: StatusModel, log: Result<seq<Session>, ScanError>, now: int, offset: int)
    ensures var (m', cmd) := StatusReact(m, Tick, log, now, offset);
      cmd == TickCmd &&
      (log.Err? ==> m' == m) &&
      (log.Ok? ==> var today := StartedOn(log.value, Day(now, offset), offset);
        m'.workDuration == SumOf(today, now, ByType, Work) &&
        m'.breakDuration == SumOf(today, now, ByType, Break) &&
        m'.(workDuration := m.workDuration, breakDuration := m.breakDuration) == m)
  {
    if log.Ok? {
      var today := StartedOn(log.value, Day(now, offset), offset);
      TotalsSum(today, now, ByType, Work);
      TotalsSum(today, now, ByType, Break);
    }
  }

  /** Vertical padding is half of what exceeds eight rows, and never negative. */
  lemma StatusPadding(m: StatusModel)
    requires !m.quit
    ensures var p := StatusView(m).padding;
      (m.height <= 9 ==> p == 0) && (m.height >= 8 ==> p == (m.height - 8) / 2)
  {
  }
}
