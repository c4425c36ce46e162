# pomo-cmd, modelled in Dafny

pomo-cmd is a pomodoro timer for the terminal. It keeps a log file with one
line per session: `id=… type=… start=… end=… duration=… | <file>`, where
`<file>` is the editor buffer the session was spent on. The newest session is
the last line. A session is running until it has been given an end time.
On top of the log sit:

- the command-line actions: the root action starts a work session, `break`
  starts a break, `stop` stops the running session, and `print` writes the
  countdown for a status bar;
- the interactive timer: a reducer over key presses (`q`, `w`, `b`, `r`),
  ticks and resizes, which sends one desktop notification when a session
  runs out, and its view;
- the daily status screen: today's sessions, their time per type and per
  file, the `Hh:MMm` totals and the progress bar;
- `StopWatchFormat`, the `[-][H:][M:]SS` countdown clock both views print.

The project has these modules, one per file:

| module | file | models |
|---|---|---|
| `Base` | base.dfy | Option and Result; Go's truncating `/` and `%` |
| `Text` | text.dfy | `strings.Fields`, `strings.SplitN(s, sep, 2)`, `strings.Contains`, decimal text |
| `Uuids` | uuid.dfy | the canonical UUID text and its parsing |
| `Chrono` | chrono.dfy | instants as whole seconds; `Duration.String` and the `h`/`m`/`s` part of `time.ParseDuration` |
| `Sessions` | session.dfy | the session record, `isRunning`, `Elapsed`, `String` and `Scan` |
| `SessionLog` | store.dfy | class `Store` over the log's lines: `Get`, `Save`, `Delete`, `Start`, `Stop`, `Reset`, `ListSessions` |
| `Settings` | config.dfy | class `Config` over the configuration as a map from keys to strings |
| `Stopwatch` | stopwatch.dfy | `StopWatchFormat` |
| `Events` | events.dfy | the messages and commands of the two interactive views |
| `Status` | status.dfy | `filterTodaySessions`, `summarizeSessions`, `formatDurationHm`, `renderProgressBar`, the status view |
| `Controller` | controller.dfy | the root, `break`, `stop` and `print` actions and `startSession` |
| `Ui` | ui.dfy | the timer's `model.Update` and `model.View` |

Modelling choices:

- Instants are whole seconds counted from 0001-01-01T00:00:00Z, so Go's zero
  `time.Time` is the instant 0. The clock is the parameter `now`.
- Durations are whole seconds too. `StopWatchFormat` alone takes nanoseconds,
  so that its truncation of fractional seconds can be stated.
- Each method that touches the log or the configuration is proved against
  a function of the lines and settings it starts from. These are
  `SessionLog.Current`, `SaveLines`, `DeleteLines` and `ParseAll`,
  `Controller.StartResult`, `Launch` and `StopResult`, and `Ui.Step`. The
  lemmas are stated about those functions.
- A fresh UUID is the parameter `id`. The user's answer to "reset it?" is
  the parameter `confirm`. The editor buffer is the parameter `file`.
- The invariant behind "at most one session is running" is
  `SessionLog.Orderly`. It says that every line decodes, that every session
  but the newest is stopped, and that the newest line is the first to hold
  its own id, so `Save` and `Delete` reach it.

## Model

| member | source | states |
|---|---|---|
| Base.Quot | status.go:227-236 | Go's integer `/`: for a non-negative dividend `q × b ≤ a < q × b + b`, for a negative one `q × b − b < a ≤ q × b`, so the quotient is rounded toward zero |
| Base.Rem | status.go:227-236 | Go's `%`: dividend = quotient × divisor + remainder, and the remainder takes the dividend's sign and is smaller than the divisor |
| Text.SplitFirst | session.go:114 | a split's two parts are what comes before and after the separator |
| Text.SplitFirstSpec | session.go:114-117 | the split fails exactly when the separator does not occur; otherwise it is at the first occurrence |
| Text.SplitAtBar | session.go:114 | splitting a header, the bar separator and a file at the first bar separator gives back the header and the file, whatever the file holds, provided no space in the header starts a separator |
| Text.SplitAtEquals | session.go:122 | splitting `key=value` at its first `=` gives back key and value when the key holds no `=` |
| Text.ContainsChar | session.go:122-125 | `=` occurs as a separator exactly when the character is in the token |
| Text.Fields | session.go:120 | every field is non-empty and holds no white space |
| Text.FieldsUnwords | session.go:120 | `strings.Fields` gives back the words that were joined by single spaces |
| Text.UnwordsSpaces | session.go:103 | in words joined by single spaces, no space is followed by a bar when no word starts with one |
| Text.NatText | session.go:108 | the decimal text of a number is a non-empty run of digits |
| Text.IntText | session.go:106 | the text of an integer holds only digits and `-` |
| Text.Pad2 | status.go:232 | `%02d` of 0 to 99 is exactly the two digits of the number |
| Text.NatTextRoundTrip | session.go:133 | the decimal text of a number reads back as the number |
| Text.IntTextRoundTrip | session.go:139 | the text of an integer, negative ones too, reads back as the integer |
| Uuids.HexOf | session.go:104 | two hex digits per byte, none of them a `-` |
| Uuids.ParseHexOf | session.go:129 | hex text reads back as the bytes it was written from |
| Uuids.UuidText | session.go:104 | the UUID text has 36 characters, dashes exactly at positions 8, 13, 18 and 23, and hex digits elsewhere |
| Uuids.ParseUuidText | session.go:129 | `uuid.MustParse` of a UUID's text gives the UUID back |
| Uuids.UuidTextInjective | session.go:175 | distinct UUIDs have distinct texts, so `id=<ID>` tells sessions apart |
| Chrono.InstantRoundTrip | session.go:138-143 | an instant's text reads back as the same instant |
| Chrono.FormatInstant | session.go:106-107 | an instant's text is non-empty and made of digits and `-`, so it is one word |
| Chrono.FormatDuration | session.go:108 | definition: `Duration.String` of whole seconds, a sign and then the hour, minute and second components; its meaning is stated by DurationRoundTrip, DurationChars and FormatExamples |
| Chrono.ParseDuration | session.go:133 | definition: the `h`, `m` and `s` part of `time.ParseDuration`; stated by DurationRoundTrip, ParseMinuteExamples and ParseEdgeExamples |
| Chrono.UnitRun | session.go:133 | the unit after a number is the longest run of characters that are neither digits nor `.` |
| Chrono.DurationChars | session.go:108 | a duration's text is non-empty and made of digits, unit letters and at most a sign, so it is one word |
| Chrono.JoinedRoundTrip | session.go:132-137 | components written as count and unit, in hours, minutes and seconds, read back as the seconds they stand for |
| Chrono.PartsTotal | session.go:108 | the hour, minute and second components `Duration.String` writes add up to the duration |
| Chrono.DurationRoundTrip | session.go:132-137 | `time.ParseDuration` of a duration's `String` gives the same duration, negative ones included |
| Chrono.FormatExamples | pomo.go:14-16 | 1500 s is written `25m0s`, 3600 s `1h0m0s`, 0 s `0s`, −5 s `-5s` |
| Chrono.ParseMinuteExamples | pomo.go:14-15 | the default lengths `25m` and `5m` read as 1500 s and 300 s |
| Chrono.ParseEdgeExamples | session.go:133-136 | an empty duration is an error; `-0` is zero |
| Sessions.IsRunning | session.go:227-229 | definition: a session runs exactly when its end time is the zero instant; used by ElapsedCountsDown, ScanKeepsRunning and GetEmpty |
| Sessions.Elapsed | session.go:33-39 | definition: 0 for a stopped session, else planned end − now; stated by ElapsedCountsDown |
| Sessions.ElapsedCountsDown | session.go:33-39 | a stopped session has nothing left; a running one starts at its duration, loses one second per second, goes negative, and is at or below zero exactly from its planned end on |
| Sessions.Encode | session.go:101-111 | the line of a session holds `id=<ID>` at its start |
| Sessions.Scan | session.go:113-159 | the token loop gives the same result as the decoding it is specified by |
| Sessions.ScanRoundTrip | session.go:101-159 | decoding `String(s)` gives back `s` exactly, file included, whatever the receiver held, when the type holds no white space |
| Sessions.ScanLine | session.go:113-159 | definition: split at the first bar separator, apply the white-space separated tokens in order, stop at the first error, take the file verbatim; stated by the Scan lemmas below |
| Sessions.ApplyDetail | session.go:122-154 | definition: one `key=value` token applied to the session read so far; stated by the Apply lemmas below |
| Sessions.EncodeOneLine | session.go:101-111 | the line of a session holds a line break exactly when its file tag does: the header never holds one |
| Sessions.ScanKeepsRunning | session.go:144-153 | a running session reads back as running and a stopped one as stopped |
| Sessions.ScanSeparator | session.go:114-117 | decoding fails with the separator error exactly when the line holds no bar separator (space, bar, space) |
| Sessions.ScanNeedsEquals | session.go:120-125 | a decoded line has a separator and every header token before it holds `=` |
| Sessions.ScanReportsToken | session.go:122-125 | the first token without `=` is the error |
| Sessions.ScanIgnoresUnknown | session.go:127-154 | a token whose key is none of `id`, `type`, `duration`, `start` and `end` changes nothing |
| Sessions.ScanEmptyEnd | session.go:144-147 | an empty `end=` value reads as the zero time, that is, as running |
| Sessions.ScanKeepsTag | session.go:156 | the file of a decoded line is everything after its first bar separator, verbatim |
| Sessions.ScanKindNoSpace | session.go:120 | a decoded type never holds white space |
| Sessions.ApplyId | session.go:128-129 | an `id=` token with a UUID's text sets the id |
| Sessions.ApplyType | session.go:130-131 | a `type=` token sets the type to its value |
| Sessions.ApplyDuration | session.go:132-137 | a `duration=` token with a duration's text sets the duration |
| Sessions.ApplyDurationText | session.go:132-137 | a `duration=` token whose value parses as `d` sets the duration to `d` |
| Sessions.ApplyStart | session.go:138-143 | a `start=` token with an instant's text sets the start |
| Sessions.ApplyEnd | session.go:144-153 | an `end=` token with an instant's text sets the end |
| Sessions.ApplyHeader | session.go:120-155 | the five header tokens of a session set every field but the file |
| SessionLog.Current | session.go:77-99 | definition: the last line decoded into the receiver, or the receiver unchanged on an empty log; stated by GetEmpty and CurrentIsLast |
| SessionLog.FirstContaining | session.go:174-181 | the index found is the first line holding the needle, and without one no line holds it |
| SessionLog.FirstMatchUnique | session.go:174-181 | there is only one first match |
| SessionLog.SaveLines | session.go:172-187 | saving keeps the line count, replaces the first line holding `id=<ID>` with `String()`, keeps every other line, and changes nothing without a match |
| SessionLog.DeleteLines | session.go:212-224 | deleting removes the first line holding `id=<ID>` and keeps the rest in order; without a match the lines come back unchanged |
| SessionLog.ParseAll | session.go:261-272 | a log that decodes gives one session per line |
| SessionLog.ParseAllSpec | session.go:261-272 | the log decodes exactly when every line does, into one session per line in file order, and otherwise reports the first bad line's error |
| SessionLog.ListFailsAt | session.go:265-267 | the first line that fails to decode is the error of the whole list |
| SessionLog.Store.constructor | session.go:83 | the store holds the file's lines |
| SessionLog.Store.Get | session.go:77-99 | reads the last line into the receiver; on an empty log the receiver is left as it was |
| SessionLog.Store.Save | session.go:161-188 | the lines become `SaveLines` of the old lines |
| SessionLog.Store.Delete | session.go:201-225 | the lines become `DeleteLines` of the old lines |
| SessionLog.Store.Start | session.go:41-75 | appends the line of a running session with the given id, started `now`, of the given length, type and file |
| SessionLog.Store.Stop | session.go:190-193 | the session gets end time `now`, all else kept, and is saved |
| SessionLog.Store.Reset | session.go:195-199 | the session restarts at `now` with no end time, all else kept, and is saved |
| SessionLog.Store.ListSessions | session.go:250-273 | decodes every line into a fresh session, failing at the first bad line |
| SessionLog.GetEmpty | session.go:88-90 | `Get` on an empty log returns no error and keeps the receiver; the zero session counts as running |
| SessionLog.CurrentIsLast | session.go:92-96 | the current session is the last line's, so an appended line becomes current |
| SessionLog.SaveThenRead | session.go:174-181 | after saving, the matched line reads back as the saved session |
| SessionLog.DeleteDropsOne | session.go:216-222 | deleting a matched line leaves one line fewer, the others in order |
| SessionLog.StopZeroIsNoop | session.go:183-185 | stopping the zero session writes nothing to a log that never held the nil id |
| SessionLog.ParseAllAppend | session.go:269 | appending a line that decodes appends its session to the list |
| SessionLog.ParseAllPrefix | session.go:262-270 | the sessions of a prefix of the log are the prefix of its sessions |
| SessionLog.StartKeepsOrderly | session.go:70 | appending a session with a fresh id to a log where nothing runs keeps the log orderly and appends the session to the list |
| SessionLog.SaveLastKeepsOrderly | session.go:161-188 | saving a new version of the newest session rewrites only the last line and keeps the log orderly |
| SessionLog.StopLastStopsAll | session.go:190-193 | stopping the newest session of an orderly log leaves no session running |
| SessionLog.DeleteLastStopsAll | session.go:201-225 | deleting the newest session of an orderly log drops the last line and leaves no session running |
| SessionLog.OrderlyStoppedLast | session.go:227-229 | an orderly log whose newest session is stopped has no session running |
| Settings.Config.constructor | pkg/config/config.go:52-59 | the configuration holds the entries of the file |
| Settings.Config.Query | pkg/config/config.go:130-138 | definition: the string under the key, `""` without one; stated by Set, Del and SetThenDel |
| Settings.Config.Set | pkg/config/config.go:61-75 | stores the value under the key and leaves every other key as it was |
| Settings.Config.Del | pkg/config/config.go:77-91 | drops the key, leaves every other key as it was, and changes nothing when the key is absent |
| Settings.SetThenDel | pkg/config/config.go:130-138 | a key reads back as the value set, and as `""` once deleted |
| Stopwatch.ClockText | stopwatch.go:9-45 | definition: sign, hours group, minutes group, padded seconds; stated by the Clock lemmas below |
| Stopwatch.StopWatchFormat | stopwatch.go:9-45 | the appends, group by group, build the clock text of the duration |
| Stopwatch.ClockSign | stopwatch.go:13-15 | the text starts with `-` exactly when the duration is negative, even under a second |
| Stopwatch.UnsignedStartsWithDigit | stopwatch.go:12-16 | the text has at least two characters and starts with a digit when not negative |
| Stopwatch.ClockHours | stopwatch.go:18-22 | from one hour on the text opens with the whole hours, unpadded and unbounded, then `:` |
| Stopwatch.ClockColons | stopwatch.go:18-34 | there is a `:` after the hours from one hour on, and one after the minutes only when the seconds within the hour reach a minute |
| Stopwatch.ClockMinutesGroup | stopwatch.go:24-34 | after the sign and the hours comes a minutes group only when the seconds within the hour reach a minute, zero padded exactly when the duration is negative or at least an hour, and then the padded seconds |
| Stopwatch.ClockSeconds | stopwatch.go:36-42 | the text always ends with the two digits of the seconds within the minute |
| Stopwatch.ClockTruncates | stopwatch.go:12-42 | fractions of a second are dropped, not rounded |
| Stopwatch.ClockWorkLength | stopwatch.go:9-45 | 1500 s reads `25:00` |
| Stopwatch.ClockMinuteAndHalf | stopwatch.go:24-34 | 90 s reads `1:30`: the minutes are unpadded when nothing precedes them |
| Stopwatch.ClockHourExample | stopwatch.go:9-45 | 3661 s reads `1:01:01` |
| Stopwatch.ClockOnTheHour | stopwatch.go:18-34 | 3600 s reads `1:00`: no minutes group on the hour |
| Stopwatch.ClockHourAndFive | stopwatch.go:18-34 | 3605 s reads `1:05` |
| Stopwatch.ClockMinuteAndFive | stopwatch.go:24-42 | 65 s reads `1:05` |
| Stopwatch.ClockAmbiguous | stopwatch.go:18-34 | 3605 s and 65 s read the same |
| Stopwatch.ClockNegativeFive | stopwatch.go:9-45 | −5 s reads `-05` |
| Stopwatch.ClockNegativeMinuteAndHalf | stopwatch.go:28-33 | −90 s reads `-01:30`: a leading `-` makes the minutes padded |
| Stopwatch.ClockNegativeFraction | stopwatch.go:12-16 | half a second overrun reads `-00` |
| Status.FormatHm | status.go:227-236 | definition: truncating hours and minutes, `%02dm` under an hour, else `%dh:%02dm`; stated by the FormatHm lemmas below |
| Status.FormatHmUnderHour | status.go:231-232 | under an hour the text is the minutes in two digits and `m` |
| Status.FormatHmHours | status.go:227-235 | from an hour on, the hours unpadded, `h:`, the minutes within the hour in two digits, `m` |
| Status.FormatHmTruncates | status.go:229 | seconds within the minute are dropped |
| Status.FormatHmExamples | status.go:231-232 | 3000 s reads `50m`, 0 s `00m` |
| Status.FormatHmGoals | pomo.go:22-24 | the goals read `8h:20m` and `1h:40m` |
| Status.FormatHmNegative | status.go:227-236 | −5400 s reads `-1h:-30m`, the sign in both groups |
| Status.RenderBar | status.go:46-59 | exactly `width` glyphs; glyph `i` is `━` when `i < filled`, else `─`; so `min(max(filled, 0), width)` are `━` |
| Status.Day | status.go:197-200 | definition: the calendar day of an instant at a fixed UTC offset, the `2006-01-02` date compared |
| Status.StartedOn | status.go:199-203 | definition: the sessions whose start falls on the given day, in order; stated by StartedOnMembers, StartedOnAppend and StartedOnAll |
| Status.FilterToday | status.go:194-206 | keeps the sessions that started today, in order, and never fails |
| Status.StartedOnMembers | status.go:199-203 | a session is kept exactly when it is in the list and started today |
| Status.StartedOnAppend | status.go:199-203 | filtering keeps the order: it distributes over concatenation |
| Status.StartedOnAll | status.go:194-206 | a list whose sessions all started today is kept whole |
| Status.Span | status.go:213-218 | definition: end − start for a stopped session, now − start for a running one |
| Status.Totals | status.go:208-225 | definition: each session's span added to its key's entry; stated by TotalsSum, TotalsKeys and GrandTotalsAgree |
| Status.Summarize | status.go:208-225 | the loop builds the per-type and per-file maps of the session time |
| Status.TotalsSum | status.go:212-222 | a key's total is the sum, over its sessions, of end − start when stopped and now − start when running; an absent key reads as 0 |
| Status.TotalsKeys | status.go:220-221 | a key has an entry exactly when some session has that key |
| Status.MapTotalOfTotals | status.go:220-221 | the values of either map sum to the total time of all sessions |
| Status.GrandTotalsAgree | status.go:220-221 | the per-type and per-file maps account for the same total time |
| Status.StatusReact | status.go:68-101 | definition: the status reducer given the reloaded log; stated by StatusQuit, StatusResize and StatusTick |
| Status.StatusView | status.go:103-112 | definition: nothing when quitting, else the padding and the four `Hh:MMm` texts; stated by StatusQuit and StatusPadding |
| Status.StatusUpdate | status.go:68-101 | the reducer reloads the log on a tick and gives what the specification function gives |
| Status.StatusQuit | status.go:70-75 | `q`, `ctrl+c` and `esc` exactly quit, and then the view is empty; other keys change nothing |
| Status.StatusResize | status.go:76-78 | a resize changes only the width and the height |
| Status.StatusTick | status.go:79-98 | a failed reload keeps the statistics; a good one sets them to today's work and break totals; a tick is rescheduled |
| Status.StatusPadding | status.go:108-112 | the vertical padding is `(height − 8) / 2`, and never negative |
| Controller.ResolveDuration | pomo.go:57-66 | definition: the argument, else the configured text, else the default; stated by ResolveOrder |
| Controller.SetAside | pomo.go:81-98 | definition: remove after a confirmed reset of the same type, `None` on a decline, stop a session of another type, keep a stopped one; stated by SetAsideStopsAll and DeclineChangesNothing |
| Controller.NewSession | pomo.go:344-348 | definition: the running session `startSession` appends |
| Controller.Launch | pomo.go:72-102 | definition: read the current session, set it aside, append the new one and set `endtime`; stated by LaunchKeepsOneRunning |
| Controller.StartLength | pomo.go:49-71 | definition: check the argument, resolve the length text and parse it |
| Controller.StartResult | pomo.go:47-105 | definition: StartLength, then Launch; stated by BadArgumentFirst, DeclineChangesNothing and StartKeepsOneRunning |
| Controller.ResolveOrder | pomo.go:57-66 | an argument that parses is used; without one the configured length; only when that is empty, the default |
| Controller.DefaultLengths | pomo.go:120-129 | with nothing given or configured, work lasts 1500 s and a break 300 s |
| Controller.BadArgumentFirst | pomo.go:49-55 | a malformed argument is refused before the log is read |
| Controller.DeclineChangesNothing | pomo.go:81-91 | declining to reset a running session of the same type changes neither the log nor the settings |
| Controller.SetAsideStopsAll | pomo.go:81-98 | once the current session is removed or stopped, no session in an orderly log runs |
| Controller.AppendNewSession | pomo.go:344-359 | `startSession` appends the new running session as the current one, and `endtime` reads as its planned end |
| Controller.LaunchKeepsOneRunning | pomo.go:77-102 | from an orderly log the log stays orderly; unless declined, the new running session is the current one and `endtime` holds its planned end |
| Controller.StartKeepsOneRunning | pomo.go:145-164 | the same for a whole start command once the length is resolved |
| Controller.StartCommand | pomo.go:47-105 | the action gives what the specification function gives; on an error neither the log nor the settings change |
| Controller.SetAsideCommand | pomo.go:81-98 | removes the current session after a confirmed reset of the same type, stops it if of another type, and reports a decline |
| Controller.LaunchCommand | pomo.go:72-102 | the steps from the current session to `startSession` give what the specification function gives |
| Controller.StopCommand | pomo.go:174-194 | the action gives what the specification function gives; on an error nothing changes |
| Controller.StopResult | pomo.go:174-194 | definition: fail when the current session is stopped, else stop it and delete `endtime`; stated by StopStopsAll and StopEmptyLog |
| Controller.StopStopsAll | pomo.go:181-191 | on an orderly log `stop` fails with "no session is running" exactly when the newest session is stopped; otherwise nothing runs afterwards and `endtime` is gone |
| Controller.StopEmptyLog | pomo.go:177-191 | on an empty log the zero session counts as running, so `stop` only drops `endtime` |
| Controller.Print | pomo.go:199-250 | definition: the `print` action's checks in order and what it shows; stated by PrintNoSession, PrintErrorOrder and PrintCountsDown |
| Controller.PrintText | pomo.go:243-247 | definition: the prefix, a space and `StopWatchFormat` of the time left; stated by PrintedClock and PrintOverrun |
| Controller.Blink | pomo.go:238 | definition: under `warn` seconds left and an even number of them; stated by BlinkAlternates |
| Controller.PrintNoSession | pomo.go:200-204 | without an end time `print` shows "No session..." |
| Controller.PrintErrorOrder | pomo.go:206-228 | a bad end time is the error first; with a good one and no interval, an empty `warn` is the error |
| Controller.PrintCountsDown | pomo.go:221-241 | after a start, `print` shows the seconds the running session has left, with the warn prefix exactly when it blinks |
| Controller.PrintedClock | pomo.go:243-247 | the clock after the prefix starts with `-` exactly when the session has overrun |
| Controller.PrintOverrun | pomo.go:246 | 90 s overrun prints `-01:30` after the prefix |
| Controller.BlinkAlternates | pomo.go:238-241 | within the warn window the prefix alternates each second, never outside it, and it goes on blinking after the overrun |
| Ui.SwitchLength | ui.go:68-75 | definition: the configured length, the `5m` default when empty, 0 when it does not parse; stated by SwitchStarts |
| Ui.StopIfRunning | ui.go:77-82 | definition: the log with the model's session stopped at `now` when it runs; stated by StopIfRunningStopsAll |
| Ui.Switch | ui.go:67-127 | definition: the `w` and `b` branches; stated by SwitchStarts, SessionKeysRearm and SwitchKeepsSync |
| Ui.ResetSession | ui.go:129-135 | definition: the `r` branch; stated by SessionKeysRearm and ResetKeepsSync |
| Ui.Due | ui.go:138-139 | definition: running, no time left and not notified yet; stated by TickNotifies |
| Ui.NoteFor | ui.go:140-144 | definition: the notification for a session that ran out; stated by NoteMessages |
| Ui.Step | ui.go:48-159 | definition: the reducer as a function of the log and the settings; stated by the Ui lemmas below |
| Ui.SwitchTo | ui.go:67-127 | the `w` and `b` steps give what the specification function gives |
| Ui.Update | ui.go:48-159 | the reducer, run against the log and the settings, gives what the specification function gives |
| Ui.QuitKeepsSession | ui.go:57-65 | `q` and `ctrl+c` quit and leave the session, the log and the settings alone |
| Ui.ResizeOnly | ui.go:50-53 | a resize changes only width and height; other messages change nothing |
| Ui.UnboundKey | ui.go:135 | a key bound to nothing changes nothing and reschedules the tick |
| Ui.TickNotifies | ui.go:137-156 | a tick notifies exactly when the session runs, has no time left and nothing was sent yet, and then marks the model notified |
| Ui.NoteMessages | ui.go:140-144 | the message is "Break is over! Time to focus!" exactly for a break, else "Time to take a break!" |
| Ui.PassiveStep | ui.go:48-159 | a message other than `w`, `b` and `r` keeps the session, the log, the settings and a set notified flag |
| Ui.QuietOnceNotified | ui.go:137-156 | once notified, no run of such messages notifies again |
| Ui.AtMostOneNote | ui.go:137-156 | between two `w`, `b` or `r` presses at most one notification is sent |
| Ui.SessionKeysRearm | ui.go:67-134 | `w`, `b` and `r` clear the notified flag and leave a running session |
| Ui.SwitchStarts | ui.go:67-96 | `w` and `b` start a running session of their type for the configured length, five minutes when none is set, zero when it does not parse, and store their prefix |
| Ui.StopIfRunningStopsAll | ui.go:77-82 | stopping the model's session, when it runs, leaves nothing running in the log |
| Ui.SwitchKeepsSync | ui.go:98-127 | after `w` or `b` the model's session is the log's current one and the log stays orderly |
| Ui.ResetKeepsSync | ui.go:129-134 | after `r` the model's session is the log's current one; on an empty log nothing is written |
| Ui.PassiveKeepsSync | ui.go:137-158 | other messages keep the model's session and the log in agreement |
| Ui.TimerView | ui.go:161-203 | definition: goodbye when quitting, else padding, prefix, signed clock, colour and widths; stated by ViewGoodbye, ViewClock, ViewLayout and ViewOverrun |
| Ui.ViewGoodbye | ui.go:162-164 | a quitting timer shows only the goodbye |
| Ui.ViewClock | ui.go:166-186 | the clock shows `-` exactly when the session has overrun, and is then red; otherwise green for work and blue for a break |
| Ui.ViewLayout | ui.go:189-203 | the content is a sixth of the width but at least 30 columns; the padding is `(height − 9) / 2`, and never negative |
| Ui.ViewOverrun | ui.go:179-186 | 90 s overrun reads `-1:30` in the view, where `print` writes `-01:30` |

## Left out

- File I/O: opening, creating, reading and writing the log and the
  configuration, and their errors. A failed read or write is not modelled.
  The log is the `Store`'s lines and the configuration the `Config`'s map.
- `ReadLines`, `Write`, `InsertLine`, `Read`, `Exists` and `InputConfirm` are
  not part of this model. `InsertLine` is taken to append a line;
  `InputConfirm` is the boolean `confirm`.
- The JSON encoding, the file lock and `gojsonq` queries of the
  configuration; `Conf.Print`, `Edit`, `OverWrite` and `Init`.
- The `init`, `config`, `config edit`, `sessions edit` and `status`
  commands of the command line. The `status` command prints what
  `Status.FilterToday`, `Status.Summarize` and `Status.FormatHm` compute.
- cmd/pomo/main.go, an older command line, is not part of this model.
- The `pomo.go` actions call `Current`, `Remove` and a zero-argument `Start`.
  None of these is defined in the session code that is there. They are
  modelled as `Get`, `Delete` and `Start` of the same log.
- `pomo.go` has its own `filterTodaySessions`, `summarizeSessions` and
  `formatDurationHm` over text timestamps. The model follows the `status.go`
  versions, which work on times.
- The RFC 3339 text of an instant is modelled as a signed decimal number of
  seconds. The calendar day is a fixed UTC offset, not the Lisbon zone with
  its daylight saving time.
- Durations are whole seconds. Sub-second units, fractions and units other
  than `h`, `m` and `s` in `time.ParseDuration` are not modelled. Go's
  64-bit nanosecond limit and its wrap-around are not modelled either.
- Only the canonical UUID text is parsed. The braced, `urn:uuid:` and
  32-digit forms are not. `uuid.MustParse` panics on anything else; the model
  returns the error `IdPanic` instead.
- UUID generation and the clock are parameters (`id` and `now`).
- The notification process from notification.go and the goroutine that
  starts it: the reducer returns a `Note` instead of sending one.
- The bubbletea runtime: `Init`, the tick timer, `StartUI`, `ShowStatus`, and
  tea.go. All lipgloss and colour styling, borders and help text.
- Float percentages and the `%.1f%%` text after the progress bar.
- Status.RenderBar: takes the integer `filled` count and returns only the
  bar glyphs, because the percentage that gives `filled` is a float.
- Status.StatusUpdate: does not keep the work and rest percentages, which are
  floats. The status view's bars are left out for the same reason.
- Controller.Print: checks the `interval` setting but does not produce the
  `(NN)` count that `math.Mod` on float seconds appends to the output.
- Stopwatch.StopWatchFormat: works on whole nanoseconds with exact integer
  division. The Go code divides float seconds, and its rounding on very
  large durations is not modelled.
- The timer view and `print` show whole seconds left. `print` rounds
  `time.Until` to the second; the model's clock is already in seconds.
- `WorkPrefix` and `BreakPrefix` are not defined in the files that are
  there. The model gives them the values of `Prefix` and `PrefixBreak` from
  pomo.go.
- A line without an `id=` token is decoded with the nil id. This follows the
  code, which only sets the id when it meets the key.
- SessionLog.Store.Start: each session's line is one element of the log's
  lines. A file tag holding a line break would become several lines of the
  real file, and then `SaveLines`' line count and `Orderly` would not describe
  the file. `Sessions.EncodeOneLine` shows that only the tag can bring in a
  line break; the model takes the editor buffer name to hold none.
- The partial state the Go code leaves when a step fails halfway through
  an action: each modelled action either fails before it writes or succeeds.
