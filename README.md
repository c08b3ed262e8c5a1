# Alarm manager and manifest version of "Just Read It", in Dafny

This project models two pieces of logic from the "Just Read It" browser extension.

The first is the alarm demo page in `src/content/App.tsx`. Its `AlarmManager` sits between a form and display on the page and the host's alarm facility (`bro.alarms`). It does four things:

- it keeps a log of timestamped lines, newest first;
- it creates and cancels alarms on the host;
- it rebuilds the alarm display from the host's listing;
- it guards that rebuild with a single-flight `#refreshing` lock.

The submit handler's translation of the form into an `alarmInfo` schedule and the `pad`-based `HH:MM:SS.mmm` timestamp are modelled as pure functions.

The second is the manifest in `manifest.config.ts`. It turns the package's semver string into Chrome's four-part `version`, keeps the semver as `version_name`, and picks the extension `name` by build mode.

Modules:

- `Wrappers`: `Option`, used for properties that may be `undefined`.
- `Decimal`: `toString` of a non-negative integer, `padStart(len, "0")`, and the value a digit string reads back as.
- `LogFormat`: the clock fields, the timestamp and the text of one log line.
- `AlarmInfo`: the parsed form numbers (`NaN` or a finite value), the `alarmInfo` object and the translation rule.
- `Scheduler`: alarm records and the class `Alarms`, the host store behind `create`, `clear`, `clearAll` and `getAll`.
- `Display`: a display row (its `data-name` and its text) and the rows a listing renders to.
- `AlarmManager`: the class `Manager` (display, log and lock as fields), the click-dispatch decision and the submit handler.
- `Manifest`: sanitising, splitting, destructuring, the `version` template and the manifest fields.

The refresh is split into two steps so the lock can be stated without modelling real async execution:

- `BeginRefresh` checks the flag, sets it and clears the display;
- `FinishRefresh` renders the snapshot the host answered with, or nothing when the listing failed, and releases the flag on both paths.

`RefreshDisplay` runs the two steps back to back. The manager's invariant `Valid()` says three things:

- the visible log is the reverse of the chronological list of logged lines, and the oldest of those is the constructor's line;
- while a refresh is in flight the display is empty, so a concurrent refresh cannot add rows on top of one being built;
- the host store has unique names.

The model follows the code as written, including where it is easy to misread:

- `cancelAlarm` with an undefined name still calls `clear`, and the host then uses its default empty name. The logged message reads `"undefined"`. It is not a no-op.
- `cancelAlarm` does not refresh by itself. The click handler refreshes after it.
- The failure message reads `could not canceled`, as written. The fired message keeps its stray trailing `}`, and the cancel-all success message keeps its stray `"`.
- The units are `"ms"` and `"min"`. A period is set whenever it is truthy, so a negative period is also set.

## Model

| member | source | states |
|---|---|---|
| Decimal.ToDecimal | src/content/App.tsx:182 | `toString` of a non-negative integer is a non-empty digit string; it starts with `0` only for zero and has one digit exactly below 10 |
| Decimal.ValueOfToDecimal | src/content/App.tsx:182 | reading the digits of `n` back gives `n` |
| Decimal.ToDecimalLength | src/content/App.tsx:182 | `n` has at most `k` digits iff `n < 10^k` |
| Decimal.ValueOfLeadingZeros | src/content/App.tsx:182 | zero-filling in front keeps a digit string's value |
| Decimal.PadStart | src/content/App.tsx:182 | `padStart(len, "0")` is `max(len, |s|)` long, ends with `s`, and is zeros before it |
| Decimal.Pad | src/content/App.tsx:182 | `pad(v, len)` is a digit string at least `len` long |
| Decimal.PadDenotes | src/content/App.tsx:182 | `pad(v, len)` is all digits, reads back as `v`, and is `max(len, digits of v)` long |
| Decimal.PadExactWidth | src/content/App.tsx:182-186 | for `1 <= len` and `v < 10^len`, `pad(v, len)` is exactly `len` digits |
| LogFormat.TimestampShape | src/content/App.tsx:181-187 | for in-range clock fields the time is 12 characters `HH:MM:SS.mmm`; each field reads back as its clock field |
| LogFormat.Timestamp | src/content/App.tsx:183-187 | the time text is at least 12 characters, whatever the clock fields |
| LogFormat.LogLine | src/content/App.tsx:190 | a log line starts with `[`, ends with the message, and is 3 characters longer than time and message together |
| LogFormat.LogLineShape | src/content/App.tsx:189-190 | a log line is `[`, the 12-character time, `] ` and then the message unchanged |
| AlarmInfo.Add | src/content/App.tsx:49 | `Date.now() + delay` is NaN iff the delay is NaN, else the sum |
| AlarmInfo.Truthy | src/content/App.tsx:55 | a number is falsy exactly when it is NaN or zero |
| AlarmInfo.Translate | src/content/App.tsx:45-57 | `when` is set (to `now + delay`) iff the unit is `"ms"`; `delayInMinutes` is set (to `delay`) iff the unit is `"min"`; never both; `periodInMinutes` is set, to `period`, iff `period` is truthy |
| AlarmInfo.TranslateMilliseconds | src/content/App.tsx:47-49 | a 500 ms delay gives only `when = now + 500` |
| AlarmInfo.TranslateMinutesRepeating | src/content/App.tsx:50-57 | 2 minutes with period 5 gives `delayInMinutes = 2`, `periodInMinutes = 5`, no `when` |
| AlarmInfo.TranslateNaNPeriod | src/content/App.tsx:55-57 | an unparsable period (NaN) leaves `periodInMinutes` absent |
| Scheduler.Without | src/content/App.tsx:217 | the records kept by clearing a name are exactly those with another name |
| Scheduler.WithoutRemoves | src/content/App.tsx:217 | after clearing, no record of that name is left |
| Scheduler.WithoutAbsent | src/content/App.tsx:217 | clearing a name with no record leaves the listing exactly as it was |
| Scheduler.WithoutUnique | src/content/App.tsx:217 | clearing keeps the names unique |
| Scheduler.Alarms.Create | src/content/App.tsx:228 | the record of that name is replaced by the new one, listed last; names stay unique |
| Scheduler.ClearKey | src/content/App.tsx:217 | `clear` targets the given name, or the host's default empty name when the name is undefined |
| Scheduler.Alarms.Clear | src/content/App.tsx:217 | reports whether a record of that name (the empty name when undefined) existed, and removes it |
| Scheduler.Alarms.ClearAll | src/content/App.tsx:250 | removes every record, reporting whether there was any |
| Scheduler.Alarms.GetAll | src/content/App.tsx:261 | the snapshot is the store's listing, in order |
| Display.Rendered | src/content/App.tsx:259-267 | a listing renders to exactly one row per record |
| Display.RenderRow | src/content/App.tsx:234-238 | a row is tagged with its record's name; its text is the serialised record, followed by `,` unless it is the last row |
| Display.RenderedRows | src/content/App.tsx:234-246 | rows are in listing order and tagged with their record's name; every row but the last is the serialised record plus `,`; the last is the serialised record alone; unique names give rows with unique names |
| Display.RenderedPrefix | src/content/App.tsx:262-264 | rendering row `i` extends the rendered prefix by that row, with `isLast` iff `i` is the last index |
| AlarmManager.CancelTarget | src/content/App.tsx:202-209 | a click is ignored iff it has no target or the target lacks the `alarm-row__cancel-button` class; otherwise it names the parent row's `data-name`, possibly undefined |
| AlarmManager.FiredMessage | src/content/App.tsx:197-198 | the fired line starts `Alarm "` and the alarm's name, and ends with the serialised record and the template's stray `}` |
| AlarmManager.CreatedMessage | src/content/App.tsx:229-230 | the creation line starts `Created "` and the alarm's name, and ends with the serialised schedule |
| AlarmManager.CancelMessage | src/content/App.tsx:219-221 | `canceled alarm "<name>"` when cleared, `could not canceled alarm "<name>"` otherwise, with an undefined name read as `undefined` |
| AlarmManager.CancelOutcomesDiffer | src/content/App.tsx:218-222 | for every name, the cleared and the not-cleared lines differ |
| AlarmManager.CancelAllMessage | src/content/App.tsx:251-255 | the line is `could not canceled all alarms` exactly when nothing was cleared |
| AlarmManager.CancelButtonTargetsRow | src/content/App.tsx:205-209 | clicking the cancel button of rendered row `j` cancels exactly record `j`'s alarm |
| AlarmManager.Reversed | src/content/App.tsx:192-193 | reversal keeps the length |
| AlarmManager.ReversedAt | src/content/App.tsx:192-193 | the `k`-th line from the top is the `k`-th logged line from the end |
| AlarmManager.LogOrder | src/content/App.tsx:174-193 | for a valid manager, line `k` of the log is the `k`-th logged line from the end, and the bottom line is the one the constructor logged |
| AlarmManager.Manager.constructor | src/content/App.tsx:170-178 | the manager starts with an empty display, the lock free, and the single line `Manager: initializing demo` logged, remembered as its first line |
| AlarmManager.Manager.LogMessage | src/content/App.tsx:180-194 | the timestamped line is inserted before every existing line; the chronological history gains it at the end |
| AlarmManager.Manager.ClearDisplay | src/content/App.tsx:286-288 | the display is empty afterwards, whatever it held |
| AlarmManager.Manager.RenderAlarm | src/content/App.tsx:234-246 | exactly one row, for that record, is appended to the display |
| AlarmManager.Manager.PopulateDisplay | src/content/App.tsx:259-267 | the display gains exactly the rendered rows of the listing, in order |
| AlarmManager.Manager.BeginRefresh | src/content/App.tsx:273-280 | when the lock is held nothing changes; otherwise the lock is taken and the display cleared |
| AlarmManager.Manager.FinishRefresh | src/content/App.tsx:279-283 | the lock is released on success and failure alike; the display is the snapshot's rows on success and stays cleared on failure |
| AlarmManager.Manager.RefreshDisplay | src/content/App.tsx:269-288 | when the lock is held the display and the lock do not change; otherwise the display becomes exactly the rows of the current listing, with no name twice, and the lock is free again |
| AlarmManager.Manager.OverlappingRefreshes | src/content/App.tsx:269-284 | a refresh that arrives while another awaits its listing is dropped; the display ends with one row per alarm, none twice |
| AlarmManager.Manager.HandleAlarm | src/content/App.tsx:196-200 | a firing appends exactly one log line naming the alarm, then refreshes |
| AlarmManager.Manager.CancelAlarm | src/content/App.tsx:215-224 | clears the alarm and appends exactly one line, `canceled alarm "<name>"` if it existed, else `could not canceled alarm "<name>"`; the display and lock are untouched |
| AlarmManager.Manager.CancelAllAlarms | src/content/App.tsx:248-257 | clears every alarm and appends exactly one line, chosen by whether any existed; it does not refresh the display |
| AlarmManager.Manager.CreateAlarm | src/content/App.tsx:227-232 | creates the alarm, appends exactly one line naming it with its serialised schedule, then refreshes |
| AlarmManager.Manager.HandleCancelAlarm | src/content/App.tsx:202-213 | a click off a cancel button changes nothing; a click on one cancels the alarm its row names, then refreshes |
| AlarmManager.SubmitForm | src/content/App.tsx:33-60 | the submitted form creates the alarm with the translated schedule, logs its creation, and then refreshes: the display is unchanged when a refresh is in flight, and otherwise becomes the rows of the current listing with the lock free |
| Manifest.Sanitize | manifest.config.ts:8 | the result holds only digits, `.` and `-`, and is no longer than the input |
| Manifest.SanitizeChar | manifest.config.ts:8 | a single character is kept iff it is a digit, `.` or `-` |
| Manifest.SanitizeAppend | manifest.config.ts:8 | sanitising distributes over concatenation, so kept characters stay in their original order |
| Manifest.SanitizeKeepsAllowed | manifest.config.ts:8 | a string of allowed characters is left unchanged, so sanitising is idempotent |
| Manifest.Split | manifest.config.ts:10 | splitting gives at least one part, and no part contains `.` or `-` |
| Wrappers.TemplateText | manifest.config.ts:16 | an element inside a template literal reads as itself, or as `undefined` when absent |
| Manifest.JoinSplit | manifest.config.ts:10 | joining the parts with `.` gives back the input with `-` read as `.` |
| Manifest.SplitJoin | manifest.config.ts:10 | splitting separator-free parts joined with `.` gives the parts back |
| Manifest.ChromeVersionFields | manifest.config.ts:6-16 | the `version` is exactly four dot-separated fields: the first four parts, later parts dropped, `"0"` as the fourth when there are exactly three parts, `undefined` text for a missing second or third part |
| Manifest.Destructure | manifest.config.ts:6 | `major` is the first part; `minor` and `patch` are the second and third parts or undefined; `label` is the fourth part, or `"0"` only when there is no fourth |
| Manifest.ChromeVersion | manifest.config.ts:16 | the derived version contains no `-` |
| Manifest.ChromeVersionIdempotent | manifest.config.ts:6-16 | a version that already is four dot-separated digit strings comes back unchanged |
| Manifest.SanitizeExample | manifest.config.ts:5-8 | `0.1.0-beta6` sanitises to `0.1.0-6` |
| Manifest.SplitExample | manifest.config.ts:10 | `0.1.0-6` splits into `0`, `1`, `0`, `6` |
| Manifest.ChromeVersionExample | manifest.config.ts:5-16 | `0.1.0-beta6` becomes `0.1.0.6` |
| Manifest.Manifest | manifest.config.ts:14-18 | `name` is `[INTERNAL] Just Read It` iff the mode is `staging`, else `Just Read It`; `version` is the converted version; `version_name` is the original string |

## Left out

- The React component body is not modelled: the state hooks, the JSX markup and the element lookups (src/content/App.tsx:13-22, 67-162). It is markup with no behaviour.
- Only one manager is modelled, over a fresh, empty display and log. The component body (src/content/App.tsx:18-29) runs again on every render, and each state setter (src/content/App.tsx:79, 93, 102, 123) triggers one. Each later render builds another manager over the same, already filled elements, with its own `#refreshing` lock and its own listeners. Those managers are not modelled. Their separate locks do not exclude each other, so the real page can show duplicate rows.
- Registering the handlers is not modelled: the click listener, `onAlarm.addListener` and the button listeners. The handlers themselves are methods.
- The host's alarm facility is abstract: `Scheduler.Alarms` is an ordered store keyed by name. Firing times, the expiry of non-repeating alarms and the notification stream belong to the host. A fired alarm arrives as a parameter of `HandleAlarm`.
- Scheduler.Alarms.ClearAll: the boolean the host reports is modelled as "some alarm existed". The host defines this value.
- Real asynchronous interleaving and `Promise.all` are not modelled. The refresh is two explicit steps. `RefreshDisplay` and the handlers that call it run both steps at once against the current listing. `OverlappingRefreshes` shows one interleaving.
- A rejected `create` or `clear` is not modelled. `createAlarm` does not await `create`. A failed listing is modelled, through `FinishRefresh(None)`.
- Wall-clock time is passed in as parameters: the `Date.now()` value and the hour, minute, second and millisecond fields of `new Date()`.
- AlarmInfo.Translate: form numbers are NaN or an exact real. `Number.parseFloat` itself is not modelled, nor are infinities or IEEE double rounding in `now + delay`.
- Alarm records hold the creation request (`alarmInfo`), not the host's `browser.alarms.Alarm` with its computed `scheduledTime` and `periodInMinutes`. So the serialised rows and fired lines stand for a serialisation of the request, not of the host's computed schedule.
- `JSON.stringify` and the whitespace-collapsing regex are left abstract. They are function-valued fields of the manager: one for alarm records, one for schedules.
- `src/background/index.ts` is not part of this model. It only registers install and click listeners that open a tab and create one fixed alarm.
- The `defineManifest` wrapper and the static manifest fields are not modelled: permissions, icons, background and content scripts (manifest.config.ts:12, 19-33). They are declarative configuration.
