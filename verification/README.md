# Productivity shell: Pomodoro countdown, persisted settings and audio controls

This project models the stateful core of a small single-page productivity app,
written in TypeScript with React. The model has three parts:

- **The application shell** (`src/App.tsx`). It holds the active tab, the
  dark-mode flag, the index into a four-entry colour palette, and the Pomodoro
  timer's `minutes`, `seconds` and `isActive`. A one-second interval runs while
  the timer is active. Each firing takes one second off, borrows a minute at
  `:00`, or stops the timer at 0:00. The tab, the dark-mode flag and the three
  timer fields go to local storage as strings whenever they change. At start-up
  they are read back, and a missing or empty value falls back to a default:
  `calendar`, not dark, 25:00, not running.
- **The countdown rule** as a pure function (`Countdown.Tick`). Lemmas prove
  that while time remains, each firing takes off exactly one second. A timer
  started at m:s therefore shows 0:00 after exactly m*60+s firings, and the next
  firing stops it. A stopped timer is never changed.
- **The audio player** (`src/components/AudioPlayer.tsx`). `formatTime` renders
  `M:SS`. The handlers for play/pause, mute, volume, seek and file choice work
  on the component's state. The `<audio>` element exists exactly when a source
  has been chosen (lines 81-88), so "element present" is `audioSrc.Some?`.

Modules:

- `Wrappers`: `Option`.
- `Decimal`: `toString`, `padStart`, and digit parsing as `parseInt` does it.
- `Countdown`: the tick rule and its lemmas.
- `Theme`: the palette and `changeTheme`.
- `Storage`: the store as `map<string, string>`, the initialisers, the write effects and the round trips.
- `Shell`: class `App`.
- `AudioPlayer`: `FormatTime` and class `Player`.

`Shell.App.Valid()` states the persistence invariant. After every operation,
`Load(store)` returns exactly the current persisted state, so a reload would
restore it.

## Model

| member | source | states |
|---|---|---|
| Countdown.Tick | src/App.tsx:57-67 | an inactive clock is unchanged; an active one with time left stays active with exactly one second less; at 0:00 it becomes 0:00 stopped; seconds in [0,59] stay there; minutes never grow |
| Countdown.RunWhileTimeRemains | src/App.tsx:59-67 | `Run` is k firings in a row; k firings of a running clock with at least k seconds left leave it running with exactly k seconds less |
| Countdown.RunNeverAddsTime | src/App.tsx:57-67 | over any number of firings, running or not, the seconds left and the minutes never grow |
| Countdown.ReachesZero | src/App.tsx:59-63 | a running clock is at 0:00, still running, after exactly minutes*60+seconds firings |
| Countdown.StopsAfterZero | src/App.tsx:64-67 | the firing after a running clock reaches 0:00 stops it |
| Countdown.CountdownFrom | src/App.tsx:59-67 | a running clock shows 0:00 (still running) after exactly minutes*60+seconds firings, and one more firing stops it |
| Countdown.NotZeroBefore | src/App.tsx:59-63 | before minutes*60+seconds firings a running clock has time left and is still running |
| Countdown.HaltsAfterRemaining | src/App.tsx:64-67 | every running clock ends, and stays, at 0:00 stopped once more firings than its seconds left have passed |
| Countdown.InactiveIsFixed | src/App.tsx:57-71 | no interval is armed while inactive, so any number of periods leaves an inactive clock unchanged |
| Countdown.RunKeepsSecondsInRange | src/App.tsx:59-63 | seconds that start in [0,59] are in [0,59] after any number of firings |
| Theme.NextTheme | src/App.tsx:88-90 | the next index is in [0,4): one more than the last below 3, and 0 after 3 |
| Theme.AdvanceWraps | src/App.tsx:89 | from a valid index, k presses give (index + k) mod 4 |
| Theme.CycleReturns | src/App.tsx:12-17 | four presses, one per palette entry, return the index to where it started |
| Decimal.NatToString | src/App.tsx:79-80 | `toString` of a natural number is non-empty digits, with a leading '0' only for 0, and a single digit exactly below 10 |
| Decimal.DigitsValueOfNatToString | src/App.tsx:32-39 | the digits written for n denote n again |
| Decimal.ParseDecimalOfNatToString | src/App.tsx:34 | `parseInt` of the text written for n is n, including "0" |
| Decimal.NatToStringInjective | src/App.tsx:79-80 | different numbers are written as different texts |
| Decimal.ParseDecimal | src/App.tsx:34 | a value is produced exactly for non-empty runs of decimal digits |
| Decimal.PadStart | src/components/AudioPlayer.tsx:70 | the result has the target width (or the original length if longer), ends with the input, and is fill characters before it |
| Decimal.TwoPlaces | src/components/AudioPlayer.tsx:69-70 | a seconds value below 60 padded with '0' is exactly two digits denoting that value |
| Storage.Saved | src/App.tsx:21-22 | `getItem` seen through truthiness: nothing exactly when the key is absent or holds the empty string, otherwise the stored text |
| Storage.JsonBool | src/App.tsx:50 | `JSON.stringify` of a flag is never the empty (falsy) string, so a saved `false` is not read as nothing saved |
| Storage.ParseJsonBool | src/App.tsx:26 | `JSON.parse` accepts only the texts `JSON.stringify` writes for a flag |
| Storage.ParseJsonBoolOfJsonBool | src/App.tsx:40-43 | a written flag parses back to itself |
| Storage.SaveTab | src/App.tsx:45-47 | the tab write sets the tab key to the tab and leaves every other key as it was |
| Storage.SaveDarkMode | src/App.tsx:49-52 | the dark-mode write sets its key to text that parses back to the flag and leaves every other key as it was |
| Storage.SaveTimer | src/App.tsx:78-82 | the timer write sets the three timer keys to texts that parse back to minutes, seconds and the flag, and leaves every other key as it was |
| Storage.LoadTab | src/App.tsx:20-23 | the tab is never empty; a missing or empty saved tab gives `calendar`; any other saved text is taken unvalidated |
| Storage.LoadBool | src/App.tsx:24-27 | nothing saved gives the default; a failure is only ever on that key with a non-empty saved text |
| Storage.LoadNat | src/App.tsx:32-39 | nothing saved gives the default; a failure is only ever on that key with a non-empty saved text |
| Storage.Load | src/App.tsx:20-43 | loading succeeds exactly when every non-empty saved value parses; the tab is non-empty; each missing field gets its default (not dark, 25, 0, not running); failures name a persisted key |
| Storage.Save | src/App.tsx:45-82 | the write effects set all five keys and leave every other key of the store as it was |
| Storage.LoadAfterSave | src/App.tsx:20-52 | reading back what was written gives the same settings, whatever else the store holds |
| Storage.LoadAfterSaveTimer | src/App.tsx:78-82 | the timer write changes only minutes, seconds and the running flag of what a reload reads |
| Storage.LoadAfterSaveTab | src/App.tsx:45-47 | the tab write changes only the tab of what a reload reads |
| Storage.LoadAfterSaveDarkMode | src/App.tsx:49-52 | the dark-mode write changes only the flag of what a reload reads |
| Storage.LoadEmptyStore | src/App.tsx:20-43 | with nothing saved the shell starts from `calendar`, not dark, 25:00, not running |
| Shell.App.constructor | src/App.tsx:19-52 | fields from the initialisers, palette index 0, the store rewritten by the mount effects, and the persistence invariant established |
| Shell.App.Palette | src/App.tsx:92 | the palette in use is one of the four entries |
| Shell.App.PersistTimer | src/App.tsx:78-82 | writes the three timer fields and re-establishes the persistence invariant |
| Shell.App.Tick | src/App.tsx:54-76 | the clock moves as `Countdown.Tick`: seconds down by one, or minutes down by one with seconds 59, or stopped at 0:00; an inactive timer and its store are untouched; tab, dark mode and palette are unchanged; the invariant is kept |
| Shell.App.ToggleDarkMode | src/App.tsx:84-86 | flips dark mode, writes it back, and changes nothing else |
| Shell.App.ChangeTheme | src/App.tsx:88-90 | advances the palette index with wrap-around; persisted state and store unchanged |
| Shell.App.SelectTab | src/App.tsx:154 | sets the tab to one of the six ids, writes it back, and changes nothing else |
| AudioPlayer.FormatTime | src/components/AudioPlayer.tsx:67-71 | the label is digits, ':', exactly two digits; the seconds field is below 60; minutes*60 + seconds is the input; the minutes field starts with '0' only under one minute, and is then the single digit "0" |
| AudioPlayer.ParseFormatTime | src/components/AudioPlayer.tsx:67-71 | every label reads back as the time it was made from |
| AudioPlayer.FormatTimeInjective | src/components/AudioPlayer.tsx:67-71 | different times get different labels |
| AudioPlayer.Player.constructor | src/components/AudioPlayer.tsx:9-15 | not playing, at 0 of 0, full volume, not muted, no source |
| AudioPlayer.Player.HandleFileChange | src/components/AudioPlayer.tsx:17-23 | the source becomes the new object URL when a file was chosen and is unchanged otherwise |
| AudioPlayer.Player.TogglePlay | src/components/AudioPlayer.tsx:25-34 | flips the play state when an element is present, otherwise changes nothing; playing only ever with an element. `HasElement` stands for `audioRef.current`, which is set exactly when a source is chosen, because the `<audio>` element is rendered only then (lines 81-88) |
| AudioPlayer.Player.HandleSeek | src/components/AudioPlayer.tsx:43-49 | the position becomes the requested time unconditionally |
| AudioPlayer.Player.HandleVolumeChange | src/components/AudioPlayer.tsx:51-58 | the volume becomes the new value, and muted holds exactly when it is zero, with or without an element |
| AudioPlayer.Player.ToggleMute | src/components/AudioPlayer.tsx:60-65 | flips muted when an element is present, otherwise changes nothing |

## Left out

- Rendering: JSX, Tailwind class strings, icons, the help overlay and its `showHelp` toggle, and the Spanish help text. These are view only.
- Scheduling: `setInterval`/`clearInterval`, effect clean-up and wall-clock timing. One firing of the interval is one atomic `Tick`.
- The start, pause and reset buttons. They live in `src/components/Pomodoro.tsx`, which is not part of this model. Only the tick, the initial defaults and persistence are modelled.
- The other widgets (`Calendar`, `TodoList`, `Calculator`, `PostItNotes`). They are not part of this model.
- `document.documentElement.classList.toggle`. It is a DOM side effect only.
- Storage.LoadNat: a non-empty saved value that is not a plain run of decimal digits is reported as `Malformed` rather than given `parseInt`'s result. In the source, `parseInt` skips leading blanks, reads a sign, reads `0x` as hexadecimal (`"0x1A"` is 26), stops at trailing text (`"12abc"` is 12), and gives `NaN` only when no digit can be read.
- Storage.LoadNat: the source does not range-check saved timer values. `parseInt("75")` gives 75 seconds, and the model takes it as it is too.
- Storage.LoadNat: the source's `minutes` and `seconds` are double-precision numbers, so above 2^53 `parseInt` rounds (`"9007199254740993"` reads as 9007199254740992). The model's numbers are unbounded, so `Storage.LoadAfterSave` holds in the source only for values below 2^53.
- Storage.LoadTab: the source does not check that a non-empty saved tab names one of the six tabs; it is taken as it is.
- Storage.LoadBool: a saved value other than `true` or `false` is reported as `Malformed`. The model does not carry `JSON.parse`'s exception or other JSON values such as `null` or numbers.
- Shell.App.constructor: requires that every saved value reads back. With a flag that `JSON.parse` rejects, the source throws at start-up. With a number text that has no leading digit, it holds `NaN`. Neither state is modelled.
- Decimal.NatToString: does not model the exponent notation `toString` uses from 10^21 upward. It also does not model that numbers above 2^53 are rounded before they are written.
- Time and volume are not floating point. Time is whole seconds, which is what `formatTime` floors to. Volume is whole tenths, which is the slider's step.
- The `HTMLAudioElement`: playback, the `play`/`pause` calls and the element's own `muted`, `volume` and `currentTime` properties that the handlers also set. The model keeps only the component's state.
- `handleTimeUpdate` (`src/components/AudioPlayer.tsx:36-41`): it copies position and duration from the media element, whose behaviour is not visible.
- `URL.createObjectURL`: the object URL is a parameter of `HandleFileChange`.
