/**
 * The command-line actions: starting a work or break session, stopping the
 * running one, and printing the countdown for a status bar.
 *
 * Each action is a method over the session log and the configuration that
 * follows the Go action step by step, and each is specified by a function
 * of the log and the settings it starts from. `InputConfirm` is the boolean
 * `confirm`; the clock is `now`; the new session's UUID is `id` and the
 * editor buffer the Go code reads is `file`.
 */
module Controller {
  import opened Base
  import opened Text
  import opened Uuids
  import opened Chrono
  import opened Sessions
  import opened SessionLog
  import opened Settings
  import opened Stopwatch

  /** The default lengths of a work and of a break session. */
  const DefaultWork: string := "25m"
  const DefaultBreak: string := "5m"

  datatype CliError =
    | BadArgument(arg: string)
    | BadLength(text: string)
    | LogError(cause: ScanError)
    | NotRunning
    | BadEndTime(text: string)
    | BadInterval(text: string)
    | BadWarn(text: string)

  /** The configuration key holding a session type's length. */
  function DurationKey(kind: string): string
  {
    if kind == Work then "duration" else "break"
  }

  function DefaultDuration(kind: string): string
  {
    if kind == Work then DefaultWork else DefaultBreak
  }

  /** The duration text used: an explicit argument, else the configured one, else the default. */
  function ResolveDuration(arg: Option<string>, configured: string, fallback: string): string
  {
    if arg.Some? && arg.value != "" then arg.value
    else if configured != "" then configured
    else fallback
  }

  /**
   * An argument that parses is the one used; without one the configuration
   * decides, and only when it holds nothing does the default apply.
   */
  lemma ResolveOrder(arg: Option<string>, configured: string, fallback: string)
    ensures arg.Some? && ParseDuration(arg.value).Some? ==> ResolveDuration(arg, configured, fallback) == arg.value
    ensures arg.None? && configured != "" ==> ResolveDuration(arg, configured, fallback) == configured
    ensures arg.None? && configured == "" ==> ResolveDuration(arg, configured, fallback) == fallback
    ensures fallback != "" ==> ResolveDuration(arg, configured, fallback) != ""
  {
    ParseEdgeExamples();
  }

  /** Without an argument or a configured length, work lasts 25 minutes and a break 5. */
  lemma DefaultLengths(settings: map<string, string>)
    requires Value(settings, "duration") == "" && Value(settings, "break") == ""
    ensures ParseDuration(ResolveDuration(None, Value(settings, DurationKey(Work)), DefaultDuration(Work))) == Some(1500)
    ensures ParseDuration(ResolveDuration(None, Value(settings, DurationKey(Break)), DefaultDuration(Break))) == Some(300)
  {
    ParseMinuteExamples();
  }

  // ---------------------------------------------------------------------------
  // Starting a session: the root action and `break`
  // ---------------------------------------------------------------------------

  /** The log and the settings a command leaves. */
  datatype Outcome = Outcome(lines: seq<string>, settings: map<string, string>)

  /**
   * The log once the current session `c` is out of the way of a new `kind`
   * session: removed after a confirmed reset of the same type, stopped at
   * `now` if of another type, kept if not running. `None`: the reset was
   * declined, which ends the command.
   */
  function SetAside(ls: seq<string>, c: Session, kind: string, confirm: bool, now: int): Option<seq<string>>
  {
    if !IsRunning(c) then Some(ls)
    else if c.kind == kind then (if confirm then Some(DeleteLines(ls, c.id)) else None)
    else Some(SaveLines(ls, c.(endTime := now)))
  }

  /** The new session a start command appends. */
  function NewSession(id: Uuid, now: int, dur: int, kind: string, file: string): Session
  {
    Session(id, now, ZeroInstant, dur, kind, file)
  }

  /**
   * What a start command does once the length `dur` is known: read the
   * current session, set it aside, append the new one and record its end
   * time under `endtime` (`startSession`).
   */
  function Launch(ls: seq<string>, settings: map<string, string>, kind: string, dur: int,
                  now: int, id: Uuid, file: string, confirm: bool): Result<Outcome, CliError>
  {
    match Current(ls, Zero)
    case Err(e) => Err(LogError(e))
    case Ok(c) =>
      match SetAside(ls, c, kind, confirm, now)
      case None => Ok(Outcome(ls, settings))
      case Some(base) =>
        Ok(Outcome(base + [Encode(NewSession(id, now, dur, kind, file))],
                   settings["endtime" := FormatInstant(now + dur)]))
  }

  /** The length of the session a start command launches: the argument is checked, then the resolved text read. */
  function StartLength(settings: map<string, string>, kind: string, arg: Option<string>): Result<int, CliError>
  {
    if arg.Some? && ParseDuration(arg.value).None? then Err(BadArgument(arg.value))
    else
      var text := ResolveDuration(arg, Value(settings, DurationKey(kind)), DefaultDuration(kind));
      match ParseDuration(text)
      case None => Err(BadLength(text))
      case Some(dur) => Ok(dur)
  }

  /** What the root action (`kind` = work) and `break` (`kind` = break) do. */
  function StartResult(ls: seq<string>, settings: map<string, string>, kind: string, arg: Option<string>,
                       now: int, id: Uuid, file: string, confirm: bool): Result<Outcome, CliError>
  {
    match StartLength(settings, kind, arg)
    case Err(e) => Err(e)
    case Ok(dur) => Launch(ls, settings, kind, dur, now, id, file, confirm)
  }

  /**
   * The root action and `break`: check the argument and resolve the length,
   * then launch. An error is returned before anything is written.
   */
  method StartCommand(store: Store, conf: Config, kind: string, arg: Option<string>,
                      now: int, id: Uuid, file: string, confirm: bool) returns (err: Option<CliError>)
    requires kind == Work || kind == Break
    modifies store, conf
    ensures var r := StartResult(old(store.lines), old(conf.entries), kind, arg, now, id, file, confirm);
      match r
      case Err(e) => err == Some(e) && store.lines == old(store.lines) && conf.entries == old(conf.entries)
      case Ok(o) => err == None && store.lines == o.lines && conf.entries == o.settings
  {
    if arg.Some? && ParseDuration(arg.value).None? {
      return Some(BadArgument(arg.value));
    }
    var text := ResolveDuration(arg, conf.Query(DurationKey(kind)), DefaultDuration(kind));
    var dur := ParseDuration(text);
    if dur.None? {
      return Some(BadLength(text));
    }
    err := LaunchCommand(store, conf, kind, dur.value, now, id, file, confirm);
  }

  /**
   * The Go action's handling of the current session `c` before a start:
   * `declined` when the user keeps a running session of the same type.
   */
  method SetAsideCommand(store: Store, c: Session, kind: string, confirm: bool, now: int) returns (declined: bool)
    modifies store
    ensures var base := SetAside(old(store.lines), c, kind, confirm, now);
      (declined <==> base.None?) && store.lines == (if declined then old(store.lines) else base.value)
  {
    declined := false;
    if IsRunning(c) {
      if c.kind == kind {
        if !confirm {
          return true;
        }
        store.Delete(c);
      } else {
        var stopped := store.Stop(c, now);
      }
    }
  }

  /** The steps of `Launch`, as the Go action takes them. */
  method LaunchCommand(store: Store, conf: Config, kind: string, dur: int,
                       now: int, id: Uuid, file: string, confirm: bool) returns (err: Option<CliError>)
    modifies store, conf
    ensures match Launch(old(store.lines), old(conf.entries), kind, dur, now, id, file, confirm)
      case Err(e) => err == Some(e) && store.lines == old(store.lines) && conf.entries == old(conf.entries)
      case Ok(o) => err == None && store.lines == o.lines && conf.entries == o.settings
  {
    ghost var ls, settings := store.lines, conf.entries;
    var current := store.Get(Zero);
    if current.Err? {
      return Some(LogError(current.error));
    }
    ghost var base := SetAside(ls, current.value, kind, confirm, now);
    var declined := SetAsideCommand(store, current.value, kind, confirm, now);
    if declined {
      assert Launch(ls, settings, kind, dur, now, id, file, confirm) == Ok(Outcome(ls, settings));
      return None;
    }
    ghost var grown := base.value + [Encode(NewSession(id, now, dur, kind, file))];
    var s := store.Start(id, now, dur, kind, file);
    conf.Set("endtime", FormatInstant(now + dur));
    assert Launch(ls, settings, kind, dur, now, id, file, confirm) ==
      Ok(Outcome(grown, settings["endtime" := FormatInstant(now + dur)]));
    return None;
  }

  /** A malformed argument is refused whatever the log holds, before it is read. */
  lemma BadArgumentFirst(ls: seq<string>, settings: map<string, string>, kind: string, a: string,
                         now: int, id: Uuid, file: string, confirm: bool)
    requires ParseDuration(a).None?
    ensures StartResult(ls, settings, kind, Some(a), now, id, file, confirm) == Err(BadArgument(a))
  {
  }

  /** Declining the reset of a running session of the same type changes nothing. */
  lemma DeclineChangesNothing(ls: seq<string>, settings: map<string, string>, kind: string, arg: Option<string>,
                              now: int, id: Uuid, file: string)
    requires Current(ls, Zero).Ok?
    requires IsRunning(Current(ls, Zero).value) && Current(ls, Zero).value.kind == kind
    requires arg.Some? ==> ParseDuration(arg.value).Some?
    requires ParseDuration(ResolveDuration(arg, Value(settings, DurationKey(kind)), DefaultDuration(kind))).Some?
    ensures StartResult(ls, settings, kind, arg, now, id, file, false) == Ok(Outcome(ls, settings))
  {
  }

  /**
   * The log an orderly log becomes, its newest session set aside, holds no
   * running session.
   */
  lemma {:induction false} SetAsideStopsAll(ls: seq<string>, kind: string, confirm: bool, now: int)
    requires Orderly(ls)
    requires kind == Work || kind == Break
    requires now != ZeroInstant
    ensures Current(ls, Zero).Ok?
    ensures var base := SetAside(ls, Current(ls, Zero).value, kind, confirm, now);
      base.Some? ==> AllStopped(base.value)
  {
    if ls == [] {
      GetEmpty(Zero);
    } else {
      var n := |ls| - 1;
      CurrentIsLast(ls, ls[n], Zero);
      var c := Current(ls, Zero).value;
      assert c == ParseAll(ls).value[n];
      if !IsRunning(c) {
        OrderlyStoppedLast(ls);
      } else if c.kind == kind {
        DeleteLastStopsAll(ls);
      } else {
        StopLastStopsAll(ls, now);
      }
    }
  }

  /** Appending a fresh running session to a log with none running leaves it orderly, the new session last. */
  lemma AppendNewSession(base: seq<string>, settings: map<string, string>, kind: string,
                         dur: int, now: int, id: Uuid, file: string)
    requires AllStopped(base)
    requires Fresh(base, id)
    requires kind == Work || kind == Break
    ensures var ls' := base + [Encode(NewSession(id, now, dur, kind, file))];
      Orderly(ls') && Current(ls', Zero) == Ok(NewSession(id, now, dur, kind, file))
    ensures ParseInstant(Value(settings["endtime" := FormatInstant(now + dur)], "endtime")) == Some(now + dur)
  {
    var s := NewSession(id, now, dur, kind, file);
    KindsHaveNoSpace();
    StartKeepsOrderly(base, s);
    ScanRoundTrip(Zero, s);
    CurrentIsLast(base, Encode(s), Zero);
    InstantRoundTrip(now + dur);
  }

  /**
   * At most one session runs after a launch: from an orderly log, with the
   * new id fresh in the log it is appended to, the log stays orderly, and
   * unless the reset was declined its newest session is the new, running
   * one, due at the instant the `endtime` setting now holds.
   */
  lemma {:induction false} LaunchKeepsOneRunning(ls: seq<string>, settings: map<string, string>, kind: string,
                                                dur: int, now: int, id: Uuid, file: string, confirm: bool)
    requires Orderly(ls)
    requires kind == Work || kind == Break
    requires now != ZeroInstant
    requires Current(ls, Zero).Ok? ==>
      var base := SetAside(ls, Current(ls, Zero).value, kind, confirm, now); base.Some? ==> Fresh(base.value, id)
    ensures var r := Launch(ls, settings, kind, dur, now, id, file, confirm);
      r.Ok? && Orderly(r.value.lines) &&
      (r.value.lines != ls ==>
        Current(r.value.lines, Zero) == Ok(NewSession(id, now, dur, kind, file)) &&
        ParseInstant(Value(r.value.settings, "endtime")) == Some(now + dur))
  {
    SetAsideStopsAll(ls, kind, confirm, now);
    var c := Current(ls, Zero).value;
    var base := SetAside(ls, c, kind, confirm, now);
    var r := Launch(ls, settings, kind, dur, now, id, file, confirm);
    if base.Some? {
      var s := NewSession(id, now, dur, kind, file);
      assert r == Ok(Outcome(base.value + [Encode(s)], settings["endtime" := FormatInstant(now + dur)]));
      AppendNewSession(base.value, settings, kind, dur, now, id, file);
    } else {
      assert r == Ok(Outcome(ls, settings));
    }
  }

  /**
   * The same for the whole command: once the length `dur` is resolved, a
   * start from an orderly log leaves it orderly, with the new session of
   * that length last unless the reset was declined.
   */
  lemma StartKeepsOneRunning(ls: seq<string>, settings: map<string, string>, kind: string, arg: Option<string>,
                             dur: int, now: int, id: Uuid, file: string, confirm: bool)
    requires StartLength(settings, kind, arg) == Ok(dur)
    requires Orderly(ls)
    requires kind == Work || kind == Break
    requires now != ZeroInstant
    requires Current(ls, Zero).Ok? ==>
      var base := SetAside(ls, Current(ls, Zero).value, kind, confirm, now); base.Some? ==> Fresh(base.value, id)
    ensures var r := StartResult(ls, settings, kind, arg, now, id, file, confirm);
      r.Ok? && Orderly(r.value.lines) &&
      (r.value.lines != ls ==> Current(r.value.lines, Zero) == Ok(NewSession(id, now, dur, kind, file)))
  {
    LaunchKeepsOneRunning(ls, settings, kind, dur, now, id, file, confirm);
    assert StartResult(ls, settings, kind, arg, now, id, file, confirm) == Launch(ls, settings, kind, dur, now, id, file, confirm);
  }

  // ---------------------------------------------------------------------------
  // `stop`
  // ---------------------------------------------------------------------------

  /** What `stop` does. */
  function StopResult(ls: seq<string>, settings: map<string, string>, now: int): Result<Outcome, CliError>
  {
    match Current(ls, Zero)
    case Err(e) => Err(LogError(e))
    case Ok(c) =>
      if !IsRunning(c) then Err(NotRunning)
      else Ok(Outcome(SaveLines(ls, c.(endTime := now)), settings - {"endtime"}))
  }

  /** `stop`: refuse when nothing runs; otherwise stop the session and drop `endtime`. */
  method StopCommand(store: Store, conf: Config, now: int) returns (err: Option<CliError>)
    modifies store, conf
    ensures match StopResult(old(store.lines), old(conf.entries), now)
      case Err(e) => err == Some(e) && store.lines == old(store.lines) && conf.entries == old(conf.entries)
      case Ok(o) => err == None && store.lines == o.lines && conf.entries == o.settings
  {
    var current := store.Get(Zero);
    if current.Err? {
      return Some(LogError(current.error));
    }
    var c := current.value;
    if !IsRunning(c) {
      return Some(NotRunning);
    }
    var stopped := store.Stop(c, now);
    conf.Del("endtime");
    return None;
  }

  /**
   * On an orderly log `stop` fails exactly when the newest session is
   * stopped; when it succeeds nothing runs any more and `print` has no
   * end time left to count down to.
   */
  lemma StopStopsAll(ls: seq<string>, settings: map<string, string>, now: int)
    requires Orderly(ls) && ls != []
    requires now != ZeroInstant
    ensures StopResult(ls, settings, now).Err? <==> !IsRunning(ParseAll(ls).value[|ls| - 1])
    ensures StopResult(ls, settings, now).Err? ==> StopResult(ls, settings, now) == Err(NotRunning)
    ensures StopResult(ls, settings, now).Ok? ==>
      AllStopped(StopResult(ls, settings, now).value.lines) &&
      Value(StopResult(ls, settings, now).value.settings, "endtime") == ""
  {
    var n := |ls| - 1;
    CurrentIsLast(ls, ls[n], Zero);
    if IsRunning(ParseAll(ls).value[n]) {
      StopLastStopsAll(ls, now);
    }
  }

  /** On an empty log the zero session counts as running, so `stop` succeeds and only drops `endtime`. */
  lemma StopEmptyLog(settings: map<string, string>, now: int)
    ensures StopResult([], settings, now) == Ok(Outcome([], settings - {"endtime"}))
  {
  }

  // ---------------------------------------------------------------------------
  // `print`
  // ---------------------------------------------------------------------------

  /** The warning prefix shows while under `warn` seconds are left, on every even second. */
  predicate Blink(left: int, warn: int)
  {
    left < warn && Rem(left, 2) == 0
  }

  /** What `print` shows: no session, or a prefix and the whole seconds left. */
  datatype Shown = NoSession | Countdown(prefix: string, left: int)

  /** The text `print` writes for what it shows: the prefix, a space and `StopWatchFormat` of the time left. */
  function PrintText(sh: Shown): string
  {
    match sh
    case NoSession => "No session..."
    case Countdown(prefix, left) => prefix + " " + ClockText(left * NanosPerSecond)
  }

  /**
   * What `print` shows, from the settings and the clock. The `interval`
   * setting is checked but the count it adds is not produced.
   */
  function Print(settings: map<string, string>, now: int): Result<Shown, CliError>
  {
    var endtime := Value(settings, "endtime");
    if endtime == "" then Ok(NoSession)
    else
      match ParseInstant(endtime)
      case None => Err(BadEndTime(endtime))
      case Some(endt) =>
        var interval := Value(settings, "interval");
        if interval != "" && ParseDuration(interval).None? then Err(BadInterval(interval))
        else
          var warn := Value(settings, "warn");
          match ParseDuration(warn)
          case None => Err(BadWarn(warn))
          case Some(w) =>
            var left := endt - now;
            Ok(Countdown(if Blink(left, w) then Value(settings, "prefix_warn") else Value(settings, "prefix"), left))
  }

  /** Without an end time nothing else is read. */
  lemma PrintNoSession(settings: map<string, string>, now: int)
    requires Value(settings, "endtime") == ""
    ensures Print(settings, now) == Ok(NoSession)
    ensures PrintText(NoSession) == "No session..."
  {
  }

  /** The end time is checked first, then the interval, then `warn`, which must hold a duration. */
  lemma PrintErrorOrder(settings: map<string, string>, now: int)
    ensures var e := Value(settings, "endtime");
      e != "" && ParseInstant(e).None? ==> Print(settings, now) == Err(BadEndTime(e))
    ensures var e := Value(settings, "endtime");
      e != "" && ParseInstant(e).Some? && Value(settings, "interval") == "" && Value(settings, "warn") == "" ==>
        Print(settings, now) == Err(BadWarn(""))
  {
    ParseEdgeExamples();
  }

  /**
   * After a start command wrote `endtime`, `print` counts down the running
   * session's time left, the same number the interactive view shows.
   */
  lemma PrintCountsDown(settings: map<string, string>, s: Session, now: int, w: int)
    requires IsRunning(s)
    requires Value(settings, "endtime") == FormatInstant(s.startTime + s.duration)
    requires Value(settings, "interval") == ""
    requires ParseDuration(Value(settings, "warn")) == Some(w)
    ensures var left := Elapsed(s, now);
      Print(settings, now) ==
        Ok(Countdown(if Blink(left, w) then Value(settings, "prefix_warn") else Value(settings, "prefix"), left))
  {
    InstantRoundTrip(s.startTime + s.duration);
  }

  /** The countdown is printed as the clock of the time left, with a sign once it is overrun. */
  lemma PrintedClock(prefix: string, left: int)
    ensures left < 0 ==> PrintText(Countdown(prefix, left))[|prefix| + 1] == '-'
    ensures left >= 0 ==> PrintText(Countdown(prefix, left))[|prefix| + 1] != '-'
  {
    ClockSign(left * NanosPerSecond);
  }

  /**
   * `print` formats the negative time left itself: a minute and a half
   * overrun reads `-01:30`, where the interactive view shows `-1:30`.
   */
  lemma PrintOverrun(prefix: string)
    ensures PrintText(Countdown(prefix, -90)) == prefix + " -01:30"
  {
    ClockNegativeMinuteAndHalf();
  }

  /**
   * Within the warning window the prefix alternates from one second to the
   * next; outside it, never. There is no lower bound, so it keeps blinking
   * once the session has overrun.
   */
  lemma BlinkAlternates(left: int, warn: int)
    ensures left + 1 < warn ==> (Blink(left, warn) <==> !Blink(left + 1, warn))
    ensures left >= warn ==> !Blink(left, warn)
    ensures warn > 0 ==> Blink(-2, warn) && !Blink(-1, warn)
  {
  }
}
