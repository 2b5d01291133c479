# Wake-Up Gallery Alarm — a Dafny model of the alarm controller and its storage

The wake-up page lets a user pick a time of day, add photos and arm an alarm. While the alarm
is set, a poll running once a second computes the next occurrence of the chosen time and shows
the whole seconds left. When the alarm fires, a random photo is picked, a penalty screen opens,
and a ten-second countdown runs before the photo would be "sent". The alarm record and the
photo list persist in the browser's `localStorage` under two fixed keys.

The model has four files:

- `wrappers.dfy` (module `Wrappers`): `Option`. It stands for JavaScript's `null`/`undefined`.
- `timing.dfy` (module `AlarmTiming`): the page's arithmetic as pure functions and lemmas.
  - The "HH:MM" value of the time input and how it parses.
  - The alarm target: today at HH:MM, rolled one day forward when it is not strictly after `now`.
  - `diff` and `timeRemaining`, and the fire test.
  - The penalty countdown step.
  - The hours/minutes/seconds display.
  - The clock is integer milliseconds, `day * 86400000 + msOfDay`.
- `storage.dfy` (module `AlarmStorage`): `app/lib/storage.ts`.
  - The `Alarm` record and its JSON form.
  - Class `Store` holds the `localStorage` table as a `map` and the `typeof window` test as `hasWindow`.
  - It has the `Storage` primitives `getItem`/`setItem`/`removeItem`, following section 12.2.1 of the WHATWG HTML Living Standard.
  - It has the five functions of the file.
- `page.dfy` (module `AlarmPage`): class `AlarmController`.
  - Its fields are the component state of `app/page.tsx`, plus the store.
  - It has one method per handler and one per `setInterval` body.

The code has no ringing state, no "another round" action and no reset of the penalty countdown
to 10. Its alarm poll never fires (see Findings). The model has none of these either.

## Model

| member | source | states |
|---|---|---|
| `AlarmTiming.FormatTime` | app/page.tsx:145-151 | the text the time input holds for h < 24, m < 60 is well formed and parses back to (h, m) |
| `AlarmTiming.FormatParsed` | app/page.tsx:36 | every well-formed "HH:MM" is the text of the (hours, minutes) that `split(":").map(Number)` gives |
| `AlarmTiming.ParseHours` | app/page.tsx:36 | the hours of a well-formed "HH:MM" (the first number of `split(":").map(Number)`) are below 24 |
| `AlarmTiming.ParseMinutes` | app/page.tsx:36 | the minutes of a well-formed "HH:MM" (the second number of `split(":").map(Number)`) are below 60 |
| `AlarmTiming.TodayAt` | app/page.tsx:37-38 | today at HH:MM:00.000 is an occurrence of HH:MM on the same day as `now`, so less than one day away from it in either direction |
| `AlarmTiming.AlarmTarget` | app/page.tsx:36-42 | the target after the rollover is an occurrence of HH:MM and lies in (now, now + 86400000] |
| `AlarmTiming.OccurrencesDayApart` | app/page.tsx:36-42 | two distinct occurrences of the same HH:MM are at least one day apart |
| `AlarmTiming.TargetIsNextOccurrence` | app/page.tsx:36-42 | no occurrence of HH:MM lies strictly between `now` and the target, so the target is the next one |
| `AlarmTiming.Diff` | app/page.tsx:44 | `diff` is always in (0, 86400000] ms |
| `AlarmTiming.SecondsRemaining` | app/page.tsx:45 | `max(0, floor(diff/1000))` is the count of whole seconds in a non-negative `diff`, and 0 for a negative one |
| `AlarmTiming.TickRemainingBounded` | app/page.tsx:44-45 | the `timeRemaining` a tick sets lies in [0, 86400] |
| `AlarmTiming.FiresAsWritten` | app/page.tsx:47-49 | the tick's fire test `diff <= 0` is false for every `now` and every HH:MM |
| `AlarmTiming.NoFireAtAlarmInstant` | app/page.tsx:36-49 | a tick sampled exactly at 07:00 with the alarm at "07:00" does not fire and shows 86400 seconds to go |
| `AlarmTiming.OneSecondPastAlarm` | app/page.tsx:36-45 | a tick at 07:00:01 with the alarm at "07:00" aims at 07:00 the next day and shows 86399 seconds |
| `AlarmTiming.LastOccurrence` | app/page.tsx:36-42 | the target minus one day is the latest occurrence of HH:MM at or before `now` |
| `AlarmTiming.LatestOccurrenceWithinTick` | app/page.tsx:47-49 | the latest occurrence at or before `now` is within the last tick period exactly when some occurrence of HH:MM is |
| `AlarmTiming.IntendedFires` | app/page.tsx:47-49 | the corrected fire test holds exactly when an occurrence of HH:MM lies in (now - 1000, now] |
| `AlarmTiming.IntendedFiresAtAlarmInstant` | app/page.tsx:47-49 | the corrected fire test fires on the tick sampled at the alarm instant |
| `AlarmTiming.NextCountdown` | app/page.tsx:105-112 | one penalty tick never goes below 0, takes exactly one from a positive value, and gives 0 from 0 or less |
| `AlarmTiming.CountdownClosedForm` | app/page.tsx:102-116 | after k ticks from `start` the countdown shows `max(0, start - k)` |
| `AlarmTiming.CountdownReachesZero` | app/page.tsx:14 | from its initial 10, or any smaller start, the countdown is 0 after 10 ticks |
| `AlarmTiming.CountdownNonIncreasing` | app/page.tsx:102-116 | across any number of ticks the countdown never rises, never exceeds its start and never goes negative |
| `AlarmTiming.Breakdown` | app/page.tsx:241-243 | the displayed h, m, s satisfy h*3600 + m*60 + s == t with m < 60 and s < 60 |
| `AlarmTiming.BreakdownUnique` | app/page.tsx:241-243 | any h, m, s with m, s < 60 that add up to t is the displayed breakdown |
| `AlarmTiming.DisplayedHoursBounded` | app/page.tsx:235-244 | a time a tick can show displays at most 24 hours, and 24h only as 24h 0m 0s |
| `AlarmStorage.EncodeStrings` | app/lib/storage.ts:30 | the JSON array of a photo list holds each photo, in order, as a JSON string |
| `AlarmStorage.DecodeStrings` | app/lib/storage.ts:38 | an element list decodes exactly when every element is a string, and then to those strings in order |
| `AlarmStorage.EncodePhotos` | app/lib/storage.ts:30 | `JSON.stringify(photos)` is an array holding each photo, in order, as a JSON string |
| `AlarmStorage.DecodePhotos` | app/lib/storage.ts:38 | the photos entry reads as a list exactly when it is an array of strings, and then element for element |
| `AlarmStorage.EncodeAlarm` | app/lib/storage.ts:8 | `JSON.stringify(alarm)` is an object with exactly the members `time` (a string) and `photos` (the encoded list) |
| `AlarmStorage.DecodeAlarm` | app/lib/storage.ts:16 | the alarm entry reads as an alarm exactly when it is an object with a string `time`; `photos` is the decoded member when present, else None |
| `AlarmStorage.StringsRoundTrip` | app/lib/storage.ts:30-38 | decoding the JSON array of a photo list gives back that list |
| `AlarmStorage.StringsDecodeOnlyEncoded` | app/lib/storage.ts:30-38 | a JSON array decodes to a photo list only if it is that list's encoding |
| `AlarmStorage.PhotosRoundTrip` | app/lib/storage.ts:28-41 | `JSON.parse(JSON.stringify(photos))` read as a photo list is `photos` |
| `AlarmStorage.AlarmRoundTrip` | app/lib/storage.ts:6-17 | `JSON.parse(JSON.stringify(alarm))` read as an alarm has the same time and the same photos |
| `AlarmStorage.Store.constructor` | app/lib/storage.ts:7 | a fresh store has the given window flag and no entries |
| `AlarmStorage.Store.GetItem` | app/lib/storage.ts:14 | `getItem` returns the value under the key, and null exactly when the key is absent |
| `AlarmStorage.Store.SetItem` | app/lib/storage.ts:8 | `setItem` replaces the key's value and changes no other key |
| `AlarmStorage.Store.RemoveItem` | app/lib/storage.ts:24 | `removeItem` deletes the key and changes no other key |
| `AlarmStorage.Store.LoadAlarm` | app/lib/storage.ts:12-20 | `loadAlarm` is null without a window or without an entry; with both, it is exactly the decoded entry |
| `AlarmStorage.Store.LoadPhotos` | app/lib/storage.ts:34-42 | `loadPhotos` is null without a window or without an entry; with both, it is exactly the decoded entry |
| `AlarmStorage.Store.SaveAlarm` | app/lib/storage.ts:6-10 | with a window the alarm entry becomes the whole record and `loadAlarm` returns it; without one nothing changes; `loadPhotos` is unchanged |
| `AlarmStorage.Store.ClearAlarm` | app/lib/storage.ts:22-26 | with a window the alarm entry is removed; afterwards `loadAlarm` is null; `loadPhotos` is unchanged |
| `AlarmStorage.Store.SavePhotos` | app/lib/storage.ts:28-32 | with a window the photo entry becomes the whole list and `loadPhotos` returns it; without one nothing changes; `loadAlarm` is unchanged |
| `AlarmStorage.LastAlarmWins` | app/lib/storage.ts:8 | after two saves the second record is read back and the entry holds exactly it: the last write wins |
| `AlarmPage.AlarmController.constructor` | app/page.tsx:8-14 | the initial state: empty time and photos, nothing selected, not set, 0 seconds, no penalty, countdown 10 |
| `AlarmPage.AlarmController.Mount` | app/page.tsx:17-28 | a stored alarm sets the time and arms the page, and only then; photos come from the stored list if any, else the alarm's photos or `[]`; storage is only read |
| `AlarmPage.AlarmController.EditAlarmTime` | app/page.tsx:145-151 | the time input's change sets `alarmTime` and nothing else |
| `AlarmPage.AlarmController.AlarmTick` | app/page.tsx:34-50 | `timeRemaining` becomes the whole seconds to the next occurrence of the alarm time; the penalty screen, the selected photo and the countdown stay as they were, so the tick never fires |
| `AlarmPage.AlarmController.TriggerAlarm` | app/page.tsx:55-59 | opens the penalty screen with a photo drawn from the list, or none when the list is empty; nothing else changes |
| `AlarmPage.AlarmController.SetAlarm` | app/page.tsx:79-86 | with an empty time or no photos nothing changes and storage is not written; otherwise it stores exactly {time, photos}, arms, hides the penalty and clears the selection; the countdown and seconds are untouched |
| `AlarmPage.AlarmController.WakeUp` | app/page.tsx:88-93 | removes the stored alarm, disarms, hides the penalty and clears the selection; time, photos, stored photos and the countdown stay |
| `AlarmPage.AlarmController.CancelPenalty` | app/page.tsx:95-99 | hides the penalty, clears the selection and zeroes the seconds; arming and storage are untouched |
| `AlarmPage.AlarmController.PenaltyTick` | app/page.tsx:102-116 | the countdown takes one step of `NextCountdown`, strictly down and never negative; nothing else changes |
| `AlarmPage.AlarmController.SetNewAlarm` | app/page.tsx:322 | only hides the penalty screen; the countdown is not reset |
| `AlarmPage.SetForSevenScenario` | app/page.tsx:17-93 | stored photo, mount, "07:00", set, tick at 07:00:01, wake up: the tick shows 86399 s without firing, and the photo stays stored |

Every `AlarmController` method keeps `Valid()`: the countdown stays in [0, 10] and `timeRemaining` stays in [0, 86400].
Only `PenaltyTick` changes `penaltyCountdown`. Every other method states that it keeps its old value, so nothing ever resets it to 10.

## Left out

- `handlePhotoUpload` (app/page.tsx:61-77) is not modelled. It is asynchronous `FileReader` I/O. Its completions arrive in no fixed order, and its `savePhotos([...photos, ...newPhotos])` reads a closure whose staleness depends on timing. Photos reach the model only through storage and `Mount`.
- `setInterval`, `clearInterval` and React's effect scheduling are not modelled. The two poll bodies are the methods `AlarmTick` and `PenaltyTick`. Their `requires` state when the effect keeps the poll running: the alarm is set with a non-empty time, or the penalty is shown with a positive countdown. The caller is the environment.
- `Date` with time zones and daylight saving is not modelled: every day is 86400000 ms of an integer clock, and `now` is a parameter.
- `AlarmPage.AlarmController.TriggerAlarm`: `Math.random` is a nondeterministic choice of an index in [0, |photos|). The contract says the photo comes from the list. It cannot say that every photo is a possible draw.
- `AlarmPage.AlarmController.TriggerAlarm`: with an empty list the program stores `undefined` (`photos[0]`). The model stores `None`. Both are falsy and match no photo, so the screen shows the same.
- `Number()` on a malformed time string (NaN) is not modelled. `AlarmTick` requires a well-formed "HH:MM", and `EditAlarmTime` accepts only "" or a well-formed value, which is what a time input produces.
- `AlarmStorage.Store.LoadAlarm`: a stored value that is not an object with a string `time` reads as absent. `JSON.parse` would hand the page whatever the entry holds, and corrupt text would make it throw. Only this layer writes the key.
- `AlarmStorage.Store.LoadPhotos`: a stored value that is not an array of strings reads as absent, for the same reason.
- `AlarmStorage.DecodeAlarm`: a `photos` member that is not an array of strings reads as None, so `Mount` falls back to `[]`. JavaScript's `savedAlarm.photos || []` would keep any truthy non-array value.
- `AlarmStorage.Store.SetItem`, `AlarmStorage.Store.SaveAlarm`, `AlarmStorage.Store.SavePhotos` and `AlarmPage.AlarmController.SetAlarm`: the model has no failing write. The Storage interface lets `setItem` throw `QuotaExceededError`, and large photo data URLs can exceed the quota. Access to `localStorage` also throws when storage is disabled. A throwing `saveAlarm` would end `handleSetAlarm` before the page is armed. The model always stores and arms.
- `AlarmPage.AlarmController.AlarmTick`: the program samples the clock twice, once for `now` and once for the date of `alarmDate`. The model uses one sample for both. The two samples could fall on different days only within milliseconds of midnight, and the rollover then gives the same target.
- Stored values are held as the JSON value their text denotes, and `JSON.stringify` followed by `JSON.parse` is taken as the identity on them. The serialized characters are not modelled.
- The handlers carry no "this button is on screen" preconditions. The model lets every handler run in every valid state, which includes all states the rendered page allows.
- The JSX markup, CSS classes and icons are not modelled, apart from the h/m/s arithmetic of the countdown display. `tailwind.config.ts` and `app/layout.tsx` are not part of this model.
- `AlarmPage.AlarmController.AlarmTick` keeps the fire test as written. Its branch is proved dead with `assert false`, so the controller never opens the penalty screen from a tick. The corrected test of the Findings is defined and proved beside it, not wired into the controller, because that would model behaviour the program does not have.

## Findings

| source | as written | input that shows it | evidently intended | confidence | as-written member | corrected member |
|---|---|---|---|---|---|---|
| app/page.tsx:40-49 | The test `diff <= 0` runs after the target is moved to the next day whenever it is not strictly after `now`. So `diff` is always in (0, 86400000] and `triggerAlarm` is never called. | Alarm "07:00", tick sampled at 07:00:00.000 of any day. The target becomes 07:00 of the next day, `diff` is 86400000, the page shows 24h 0m 0s and no penalty opens. | Fire on the first tick sampled at or after the alarm instant, which is within one tick period (1000 ms) of it. | high; proved, not executed | `AlarmTiming.FiresAsWritten`, `AlarmTiming.NoFireAtAlarmInstant` | `AlarmTiming.IntendedFires`, `AlarmTiming.IntendedFiresAtAlarmInstant` |
