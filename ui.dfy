/**
 * The interactive timer: its reducer over key presses, ticks and resizes,
 * the one notification it sends when a session runs out, and the layout of
 * its view.
 *
 * `Step` is the reducer as a function of the log and the settings it starts
 * from; `Update` takes the Go steps against the log and the configuration
 * and is proved to do what `Step` says. The clock is `now`, the UUID a new
 * session gets is `id` and the editor buffer is `file`.
 */
module Ui {
  import opened Base
  import opened Uuids
  import opened Chrono
  import opened Sessions
  import opened SessionLog
  import opened Settings
  import opened Stopwatch
  import opened Events
  import Controller

  /** The prefixes the `w` and `b` keys store under `prefix` (a tomato and a person in lotus position). */
  const WorkPrefix: string := "\U{1F345}"
  const BreakPrefix: string := "\U{1F9D8}"

  /** The timer's state; the Go `model`. */
  datatype TimerModel = TimerModel(
    prefix: string,
    quit: bool,
    notified: bool,
    width: int,
    height: int,
    session: Session)

  /** A desktop notification: a title and a message. */
  datatype Note = Note(title: string, message: string)

  /** Everything one message leads to: the new model, the command, the log, the settings and the notification sent. */
  datatype Reaction = Reaction(
    model: TimerModel,
    cmd: Cmd,
    lines: seq<string>,
    settings: map<string, string>,
    note: Option<Note>)

  predicate IsQuitKey(key: string)
  {
    key == "q" || key == "ctrl+c"
  }

  /** The keys that change the session: work, break and reset. */
  predicate IsSessionKey(key: string)
  {
    key == "w" || key == "b" || key == "r"
  }

  /** The notification for a session that has run out. */
  function NoteFor(s: Session): Note
  {
    Note("Pomo Timer", if s.kind == Break then "Break is over! Time to focus!" else "Time to take a break!")
  }

  /** A tick notifies when the session runs, has no time left, and nothing was sent for it yet. */
  predicate Due(m: TimerModel, now: int)
  {
    !m.notified && Elapsed(m.session, now) <= 0 && IsRunning(m.session)
  }

  /**
   * The length `w` or `b` gives its new session: the setting under `key`,
   * the break default when it is empty, and zero when it does not parse
   * (the Go code reports the error and goes on with a zero duration).
   */
  function SwitchLength(settings: map<string, string>, key: string): int
  {
    var text := if Value(settings, key) == "" then Controller.DefaultBreak else Value(settings, key);
    match ParseDuration(text)
    case None => 0
    case Some(d) => d
  }

  /** The log once the model's session is stopped at `now`, if it runs. */
  function StopIfRunning(ls: seq<string>, s: Session, now: int): seq<string>
  {
    if IsRunning(s) then SaveLines(ls, s.(endTime := now)) else ls
  }

  /** `w` (`kind` = work) and `b` (`kind` = break): stop the session, start a new one, store the prefix. */
  function Switch(m: TimerModel, ls: seq<string>, settings: map<string, string>, kind: string,
                  now: int, id: Uuid, file: string): Reaction
  {
    var key := if kind == Work then "duration" else "break";
    var s := Session(id, now, ZeroInstant, SwitchLength(settings, key), kind, file);
    Reaction(m.(session := s, notified := false), TickCmd,
             StopIfRunning(ls, m.session, now) + [Encode(s)],
             settings["prefix" := if kind == Work then WorkPrefix else BreakPrefix], None)
  }

  /** `r`: restart the session's clock at `now` and save it. */
  function ResetSession(m: TimerModel, ls: seq<string>, settings: map<string, string>, now: int): Reaction
  {
    var t := m.session.(startTime := now, endTime := ZeroInstant);
    Reaction(m.(session := t, notified := false), TickCmd, SaveLines(ls, t), settings, None)
  }

  /** `model.Update`. */
  function Step(m: TimerModel, msg: Msg, ls: seq<string>, settings: map<string, string>,
                now: int, id: Uuid, file: string): Reaction
  {
    match msg
    case Resize(w, h) => Reaction(m.(width := w, height := h), NoCmd, ls, settings, None)
    case KeyPress(key) =>
      if IsQuitKey(key) then Reaction(m.(quit := true), QuitCmd, ls, settings, None)
      else if key == "w" then Switch(m, ls, settings, Work, now, id, file)
      else if key == "b" then Switch(m, ls, settings, Break, now, id, file)
      else if key == "r" then ResetSession(m, ls, settings, now)
      else Reaction(m, TickCmd, ls, settings, None)
    case Tick =>
      if Due(m, now) then Reaction(m.(notified := true), TickCmd, ls, settings, Some(NoteFor(m.session)))
      else Reaction(m, TickCmd, ls, settings, None)
    case Other => Reaction(m, NoCmd, ls, settings, None)
  }

  /** The `w` and `b` branches of `model.Update`, as the Go code takes them. */
  method SwitchTo(m: TimerModel, kind: string, store: Store, conf: Config, now: int, id: Uuid, file: string)
    returns (m': TimerModel)
    modifies store, conf
    ensures var r := Switch(m, old(store.lines), old(conf.entries), kind, now, id, file);
      m' == r.model && store.lines == r.lines && conf.entries == r.settings
  {
    ghost var ls, settings := store.lines, conf.entries;
    var text := conf.Query(if kind == Work then "duration" else "break");
    if text == "" {
      text := Controller.DefaultBreak;
    }
    var parsed := ParseDuration(text);
    var dur := if parsed.Some? then parsed.value else 0;
    assert dur == SwitchLength(settings, if kind == Work then "duration" else "break");
    if IsRunning(m.session) {
      var stopped := store.Stop(m.session, now);
    }
    assert store.lines == StopIfRunning(ls, m.session, now);
    var s := store.Start(id, now, dur, kind, file);
    conf.Set("prefix", if kind == Work then WorkPrefix else BreakPrefix);
    m' := m.(session := s, notified := false);
  }

  /** `model.Update` against the log and the configuration; the notification is returned, not sent. */
  method Update(m: TimerModel, msg: Msg, store: Store, conf: Config, now: int, id: Uuid, file: string)
    returns (m': TimerModel, cmd: Cmd, note: Option<Note>)
    modifies store, conf
    ensures Step(m, msg, old(store.lines), old(conf.entries), now, id, file) ==
      Reaction(m', cmd, store.lines, conf.entries, note)
  {
    match msg {
      case Resize(w, h) =>
        return m.(width := w, height := h), NoCmd, None;
      case KeyPress(key) =>
        if IsQuitKey(key) {
          return m.(quit := true), QuitCmd, None;
        }
        if key == "w" {
          m' := SwitchTo(m, Work, store, conf, now, id, file);
          return m', TickCmd, None;
        }
        if key == "b" {
          m' := SwitchTo(m, Break, store, conf, now, id, file);
          return m', TickCmd, None;
        }
        if key == "r" {
          var t := store.Reset(m.session, now);
          return m.(session := t, notified := false), TickCmd, None;
        }
        return m, TickCmd, None;
      case Tick =>
        if !m.notified && Elapsed(m.session, now) <= 0 && IsRunning(m.session) {
          return m.(notified := true), TickCmd, Some(NoteFor(m.session));
        }
        return m, TickCmd, None;
      case Other =>
        return m, NoCmd, None;
    }
  }

  // ---------------------------------------------------------------------------
  // Properties of the reducer
  // ---------------------------------------------------------------------------

  /** `q` and `ctrl+c` quit and leave the session, the log and the settings as they are. */
  lemma QuitKeepsSession(m: TimerModel, key: string, ls: seq<string>, settings: map<string, string>,
                         now: int, id: Uuid, file: string)
    requires IsQuitKey(key)
    ensures var r := Step(m, KeyPress(key), ls, settings, now, id, file);
      r.cmd == QuitCmd && r.model == m.(quit := true) &&
      r.lines == ls && r.settings == settings && r.note == None
  {
  }

  /** A resize changes only the width and the height; any other message but a key or a tick changes nothing. */
  lemma ResizeOnly(m: TimerModel, w: int, h: int, ls: seq<string>, settings: map<string, string>,
                   now: int, id: Uuid, file: string)
    ensures var r := Step(m, Resize(w, h), ls, settings, now, id, file);
      r.model.width == w && r.model.height == h && r.model.(width := m.width, height := m.height) == m &&
      r.cmd == NoCmd && r.lines == ls && r.settings == settings && r.note == None
    ensures Step(m, Other, ls, settings, now, id, file) == Reaction(m, NoCmd, ls, settings, None)
  {
  }

  /** A key that is bound to nothing changes nothing and keeps the clock ticking. */
  lemma UnboundKey(m: TimerModel, key: string, ls: seq<string>, settings: map<string, string>,
                   now: int, id: Uuid, file: string)
    requires !IsQuitKey(key) && !IsSessionKey(key)
    ensures Step(m, KeyPress(key), ls, settings, now, id, file) == Reaction(m, TickCmd, ls, settings, None)
  {
  }

  /**
   * A tick notifies exactly when the session is due, with the message for
   * its type, and afterwards the model is marked as notified.
   */
  lemma TickNotifies(m: TimerModel, ls: seq<string>, settings: map<string, string>, now: int, id: Uuid, file: string)
    ensures var r := Step(m, Tick, ls, settings, now, id, file);
      (r.note.Some? <==> Due(m, now)) &&
      (r.note.Some? ==> r.note.value == NoteFor(m.session) && r.model == m.(notified := true)) &&
      (r.note.None? ==> r.model == m) &&
      r.cmd == TickCmd && r.lines == ls && r.settings == settings
    ensures m.notified ==> Step(m, Tick, ls, settings, now, id, file).model.notified
  {
  }

  /** The message says which kind of session ran out. */
  lemma NoteMessages(s: Session)
    ensures NoteFor(s).title == "Pomo Timer"
    ensures s.kind == Break <==> NoteFor(s).message == "Break is over! Time to focus!"
    ensures s.kind != Break <==> NoteFor(s).message == "Time to take a break!"
  {
  }

  /** The messages that leave the session alone: everything but `w`, `b` and `r`. */
  predicate Passive(msg: Msg)
  {
    msg.KeyPress? ==> !IsSessionKey(msg.key)
  }

  /** A passive message keeps the session, the log, the settings and a set `notified` flag. */
  lemma PassiveStep(m: TimerModel, msg: Msg, ls: seq<string>, settings: map<string, string>,
                    now: int, id: Uuid, file: string)
    requires Passive(msg)
    ensures var r := Step(m, msg, ls, settings, now, id, file);
      r.model.session == m.session && r.lines == ls && r.settings == settings &&
      (m.notified ==> r.model.notified && r.note == None) &&
      (r.note.Some? ==> r.model.notified)
  {
  }

  /** How many notifications a run of messages, each with the time it arrives, sends. */
  function NoteCount(m: TimerModel, msgs: seq<(Msg, int)>, ls: seq<string>, settings: map<string, string>,
                     id: Uuid, file: string): nat
    decreases |msgs|
  {
    if msgs == [] then 0
    else
      var r := Step(m, msgs[0].0, ls, settings, msgs[0].1, id, file);
      (if r.note.Some? then 1 else 0) + NoteCount(r.model, msgs[1..], r.lines, r.settings, id, file)
  }

  /** Once notified, no run of passive messages sends anything more. */
  lemma {:induction false} QuietOnceNotified(m: TimerModel, msgs: seq<(Msg, int)>, ls: seq<string>,
                                             settings: map<string, string>, id: Uuid, file: string)
    requires m.notified
    requires forall i :: 0 <= i < |msgs| ==> Passive(msgs[i].0)
    ensures NoteCount(m, msgs, ls, settings, id, file) == 0
    decreases |msgs|
  {
    if msgs != [] {
      var r := Step(m, msgs[0].0, ls, settings, msgs[0].1, id, file);
      PassiveStep(m, msgs[0].0, ls, settings, msgs[0].1, id, file);
      assert forall i :: 0 <= i < |msgs[1..]| ==> Passive(msgs[1..][i].0) by {
        forall i | 0 <= i < |msgs[1..]| ensures Passive(msgs[1..][i].0) {
          assert msgs[1..][i] == msgs[i + 1];
        }
      }
      QuietOnceNotified(r.model, msgs[1..], r.lines, r.settings, id, file);
    }
  }

  /** Between two `w`, `b` or `r` presses at most one notification is sent. */
  lemma {:induction false} AtMostOneNote(m: TimerModel, msgs: seq<(Msg, int)>, ls: seq<string>,
                                         settings: map<string, string>, id: Uuid, file: string)
    requires forall i :: 0 <= i < |msgs| ==> Passive(msgs[i].0)
    ensures NoteCount(m, msgs, ls, settings, id, file) <= 1
    decreases |msgs|
  {
    if msgs != [] {
      var r := Step(m, msgs[0].0, ls, settings, msgs[0].1, id, file);
      PassiveStep(m, msgs[0].0, ls, settings, msgs[0].1, id, file);
      assert forall i :: 0 <= i < |msgs[1..]| ==> Passive(msgs[1..][i].0) by {
        forall i | 0 <= i < |msgs[1..]| ensures Passive(msgs[1..][i].0) {
          assert msgs[1..][i] == msgs[i + 1];
        }
      }
      if r.note.Some? {
        QuietOnceNotified(r.model, msgs[1..], r.lines, r.settings, id, file);
      } else {
        AtMostOneNote(r.model, msgs[1..], r.lines, r.settings, id, file);
      }
    }
  }

  /** `w` and `b` re-arm the notification; `r` does too. */
  lemma SessionKeysRearm(m: TimerModel, key: string, ls: seq<string>, settings: map<string, string>,
                         now: int, id: Uuid, file: string)
    requires IsSessionKey(key)
    ensures var r := Step(m, KeyPress(key), ls, settings, now, id, file);
      !r.model.notified && r.cmd == TickCmd && r.note == None &&
      IsRunning(r.model.session) && r.model.prefix == m.prefix && r.model.quit == m.quit
  {
  }

  /**
   * `w` and `b` start a running session of their type, due `SwitchLength`
   * seconds after `now`: the configured length, five minutes when none is
   * set, zero when it does not parse.
   */
  lemma SwitchStarts(m: TimerModel, ls: seq<string>, settings: map<string, string>, kind: string,
                     now: int, id: Uuid, file: string)
    requires kind == Work || kind == Break
    ensures var r := Switch(m, ls, settings, kind, now, id, file);
      var key := if kind == Work then "duration" else "break";
      r.model.session == Session(id, now, ZeroInstant, SwitchLength(settings, key), kind, file) &&
      Elapsed(r.model.session, now) == SwitchLength(settings, key) &&
      Value(r.settings, "prefix") == (if kind == Work then WorkPrefix else BreakPrefix)
    ensures Value(settings, "duration") == "" ==> SwitchLength(settings, "duration") == 300
    ensures Value(settings, "break") == "" ==> SwitchLength(settings, "break") == 300
    ensures forall key :: ParseDuration(Value(settings, key)).Some? ==>
      SwitchLength(settings, key) == ParseDuration(Value(settings, key)).value
    ensures forall key :: Value(settings, key) != "" && ParseDuration(Value(settings, key)).None? ==>
      SwitchLength(settings, key) == 0
  {
    ParseMinuteExamples();
    ParseEdgeExamples();
  }

  // ---------------------------------------------------------------------------
  // The model and the log agree
  // ---------------------------------------------------------------------------

  /**
   * The model's session is what `Session.Get` reads from an orderly log;
   * `StartUI` builds the model that way.
   */
  predicate InSync(m: TimerModel, ls: seq<string>)
  {
    Orderly(ls) && Current(ls, Zero) == Ok(m.session)
  }

  /** Stopping the model's session, if it runs, stops every session of the log. */
  lemma StopIfRunningStopsAll(m: TimerModel, ls: seq<string>, now: int)
    requires InSync(m, ls)
    requires now != ZeroInstant
    ensures AllStopped(StopIfRunning(ls, m.session, now))
  {
    if ls == [] {
      assert StopIfRunning(ls, m.session, now) == [];
    } else {
      var n := |ls| - 1;
      CurrentIsLast(ls, ls[n], Zero);
      if IsRunning(m.session) {
        StopLastStopsAll(ls, now);
      } else {
        OrderlyStoppedLast(ls);
      }
    }
  }

  /**
   * `w` and `b` keep the model and the log in agreement, given an id that
   * no line of the stopped log holds (a fresh UUID).
   */
  lemma SwitchKeepsSync(m: TimerModel, ls: seq<string>, settings: map<string, string>, kind: string,
                        now: int, id: Uuid, file: string)
    requires InSync(m, ls)
    requires kind == Work || kind == Break
    requires now != ZeroInstant
    requires Fresh(StopIfRunning(ls, m.session, now), id)
    ensures var r := Switch(m, ls, settings, kind, now, id, file); InSync(r.model, r.lines)
  {
    var base := StopIfRunning(ls, m.session, now);
    var key := if kind == Work then "duration" else "break";
    var dur := SwitchLength(settings, key);
    StopIfRunningStopsAll(m, ls, now);
    Controller.AppendNewSession(base, settings, kind, dur, now, id, file);
    assert Controller.NewSession(id, now, dur, kind, file) == Switch(m, ls, settings, kind, now, id, file).model.session;
  }

  /** `r` keeps them in agreement when the log holds the session; on an empty log nothing is written. */
  lemma ResetKeepsSync(m: TimerModel, ls: seq<string>, settings: map<string, string>, now: int)
    requires InSync(m, ls)
    ensures var r := ResetSession(m, ls, settings, now);
      (ls != [] ==> InSync(r.model, r.lines)) && (ls == [] ==> r.lines == [])
  {
    var t := m.session.(startTime := now, endTime := ZeroInstant);
    if ls != [] {
      var n := |ls| - 1;
      CurrentIsLast(ls, ls[n], Zero);
      LastKindNoSpace(ls);
      SaveLastKeepsOrderly(ls, t);
      ScanRoundTrip(Zero, t);
      assert SaveLines(ls, t)[n] == Encode(t);
    }
  }

  /** Passive messages keep the agreement, since neither the session nor the log changes. */
  lemma PassiveKeepsSync(m: TimerModel, msg: Msg, ls: seq<string>, settings: map<string, string>,
                         now: int, id: Uuid, file: string)
    requires InSync(m, ls)
    requires Passive(msg)
    ensures var r := Step(m, msg, ls, settings, now, id, file); InSync(r.model, r.lines)
  {
    PassiveStep(m, msg, ls, settings, now, id, file);
  }

  // ---------------------------------------------------------------------------
  // model.View
  // ---------------------------------------------------------------------------

  /** The colour of the clock: red once overrun, else green for work and blue for a break. */
  datatype Colour = Red | Green | Blue

  /** What `model.View` lays out; borders, paddings and fonts are not modelled. */
  datatype TimerScreen =
    | Goodbye
    | Timer(padding: nat, prefix: string, clock: string, colour: Colour, contentWidth: int, width: int)

  /** `model.View`: the time left as a sign and the `StopWatchFormat` of its size. */
  function TimerView(m: TimerModel, now: int): TimerScreen
  {
    if m.quit then Goodbye
    else
      var remaining := Elapsed(m.session, now);
      var colour := if remaining < 0 then Red else if m.session.kind == Work then Green else Blue;
      var sign := if remaining < 0 then "-" else "";
      Timer(Max(0, Quot(m.height - 9, 2)), m.prefix,
            sign + ClockText(Abs(remaining) * NanosPerSecond), colour,
            Max(Quot(m.width, 6), 30), m.width)
  }

  function Abs(n: int): nat
  {
    if n < 0 then -n else n
  }

  /** A quitting timer only says goodbye. */
  lemma ViewGoodbye(m: TimerModel, key: string, ls: seq<string>, settings: map<string, string>,
                    now: int, id: Uuid, file: string)
    requires IsQuitKey(key)
    ensures TimerView(Step(m, KeyPress(key), ls, settings, now, id, file).model, now) == Goodbye
  {
  }

  /**
   * The clock shows a leading `-` exactly when the session has overrun,
   * and then it is red; otherwise the colour tells work from a break.
   */
  lemma ViewClock(m: TimerModel, now: int)
    requires !m.quit
    ensures var v := TimerView(m, now); var remaining := Elapsed(m.session, now);
      v.clock != [] &&
      (v.clock[0] == '-' <==> remaining < 0) &&
      (v.colour == Red <==> remaining < 0) &&
      (remaining >= 0 ==> (v.colour == Green <==> m.session.kind == Work))
  {
    var remaining := Elapsed(m.session, now);
    var ns := Abs(remaining) * NanosPerSecond;
    ClockSign(ns);
  }

  /** The content is a sixth of the window, but at least 30 columns; the padding centres nine rows. */
  lemma ViewLayout(m: TimerModel, now: int)
    requires !m.quit
    ensures var v := TimerView(m, now);
      v.contentWidth >= 30 &&
      (m.width >= 180 ==> v.contentWidth == m.width / 6) &&
      (m.width < 186 ==> v.contentWidth == 30) &&
      (m.height <= 10 ==> v.padding == 0) &&
      (m.height >= 9 ==> v.padding == (m.height - 9) / 2)
  {
  }

  /**
   * An overrun of a minute and a half reads `-1:30` in the view, where
   * `print` writes `-01:30` (`Controller.PrintOverrun`).
   */
  lemma ViewOverrun(m: TimerModel, now: int)
    requires !m.quit && IsRunning(m.session)
    requires now == m.session.startTime + m.session.duration + 90
    ensures TimerView(m, now).clock == "-1:30"
  {
    var remaining := Elapsed(m.session, now);
    assert remaining == -90 && Abs(remaining) == 90;
    ClockMinuteAndHalf();
    assert TimerView(m, now).clock == "-" + ClockText(90 * NanosPerSecond);
  }
}
