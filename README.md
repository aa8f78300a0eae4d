# Dexcom sensor alarm: a Dafny model of its lifecycle core

The app tracks the wear of a continuous glucose monitor sensor for each of
two children. A child's record holds a name, an optional sensor start
time (integer milliseconds since the epoch) and a notification setting.
A sensor is officially worn out 10 days after its start. A further 12
hours of grace follow before it counts as expired. Every second the app
recomputes, for every child, the official end, the final end, the time
remaining and a status, and shows the remaining time as "D일 H시간 M분".

The model covers:

- `Lifecycle` (`lifecycle.dfy`): the two domain constants and the JavaScript truthiness test applied to a stored start time. It also holds `Classify`, the derived boundaries and level (Active, ExpiringSoon, Expired) of one child at an instant.
- `TimeFormat` (`time_format.dfy`): `formatRemaining`, as a breakdown into days, hours and minutes. The breakdown is turned into a list of (value, unit) parts and rendered with decimal numerals joined by spaces. A parser for that text proves the rendering loses nothing but the seconds.
- `Dashboard` (`dashboard.dfy`): the values `updateUI` derives for one card: badge and button state, the remaining-time text, its colour, and the instants behind the date labels.
- `Sensors` (`sensors.dfy`): the `children` array, held by a class `App`. Its methods are the sensor toggle (`handleSensorAction`), the settings dialog's open and save, and the storage load and save.
- `Wrappers` (`wrappers.dfy`): `Option`, standing for a value or JavaScript's `null`.

Inputs from the environment become parameters. `Date.now()` is `now: int`. The answer of `confirm(...)` is `confirmed: bool`. The `parseInt` of the settings field is `days: int`. The storage entry `dexcom_data` is the field `App.stored`, and it holds the collection itself.

In one place the code behaves in a way a reader may not expect, and the model follows the code: a running sensor is one whose stored start time is truthy. So a stored start time of `0` counts as idle, exactly like `null`. Toggling at `now == 0` therefore stores `0` and leaves the child idle (`Sensors.StartMakesActive`).

## Model

Some functions model source lines directly and are specified by the lemmas in the table rather than by their own contracts:

- `Lifecycle.HasStart` is the truthiness test of the start time (app.js:45, app.js:67). `Lifecycle.Classify` and `Sensors.StartMakesActive` state what it decides.
- `Lifecycle.LevelOf` is the pair of remaining-time tests (app.js:85-95). `Lifecycle.Classify` states the level it gives in terms of time since the start, and `Lifecycle.LevelNeverGoesBack` states its monotonicity.
- `TimeFormat.Decompose` is the days/hours/minutes arithmetic (app.js:113-116). `TimeFormat.DecomposeBounds` and `TimeFormat.DecomposeRecompose` state its contract.
- `TimeFormat.SelectParts` is the conditional part selection (app.js:118-121). `TimeFormat.SelectPartsShape` states its contract.
- `TimeFormat.Join` is `parts.join(' ')` (app.js:122). `TimeFormat.SplitJoin` states that splitting at spaces inverts it.
- `TimeFormat.FormatRemaining` is `formatRemaining` as a whole (app.js:111-123). `TimeFormat.FormatRoundTrip`, `TimeFormat.SameTextSameMinutes`, `TimeFormat.SameMinutesSameText`, `TimeFormat.NonPositiveIsZero`, `TimeFormat.UnderAMinuteIsZero` and `TimeFormat.TwentyFiveHours` state its contract.

| member | source | states |
|---|---|---|
| Lifecycle.Classify | app.js:67-95 | Idle exactly when the start time is not truthy. Otherwise officialEnd = start + 10 days and finalEnd = officialEnd + 12 hours, so start < officialEnd < finalEnd, and remaining = finalEnd - now. The level is Expired iff now is at least 10 days 12 hours after the start. It is ExpiringSoon iff now lies in the 24 hours before that, and Active iff now is earlier still |
| Lifecycle.BoundariesIndependentOfNow | app.js:68-72 | The boundaries are the same at every instant, and remaining falls by exactly the time that passes |
| Lifecycle.LevelNeverGoesBack | app.js:85-95 | As time passes, a running sensor's level only moves from Active towards Expired |
| Lifecycle.JustStartedIsActive | app.js:67-72 | A sensor started at `now` is Active with 10 days 12 hours remaining |
| Lifecycle.HourBeforeOfficialEnd | app.js:69-85 | One hour before the official end, 13 hours remain and the level is ExpiringSoon |
| Lifecycle.ThirteenHoursAfterOfficialEnd | app.js:70-92 | Thirteen hours after the official end, remaining is minus one hour and the level is Expired |
| TimeFormat.DecomposeBounds | app.js:113-116 | With s whole seconds: hours < 24 and minutes < 60, and days*86400 + hours*3600 + minutes*60 <= s < that + 60. The breakdown's minutes are s / 60 |
| TimeFormat.DecomposeRecompose | app.js:114-116 | The breakdown is the inverse of recombining: any canonical (days, hours < 24, minutes < 60) plus under a minute of seconds decomposes back to itself |
| TimeFormat.SelectPartsShape | app.js:118-121 | The days part appears iff days > 0. The hours part appears iff hours > 0 or days > 0. The minutes part is always present and last. Units are strictly descending, each part carries its own field, and the parts add up to every minute of the breakdown |
| TimeFormat.PartsMeaning | app.js:112-121 | For ms > 0 the shown parts stand for exactly ms / 60000 minutes, with hours below 24 and minutes below 60 |
| TimeFormat.NatToDecimal | app.js:119-121 | The numeral of a number is non-empty, made only of decimal digits, and starts with '0' only for 0 itself (no leading zeros, as JavaScript writes an integer) |
| TimeFormat.DecimalRoundTrip | app.js:119-121 | Reading a numeral back gives the number it was written from |
| TimeFormat.SplitJoin | app.js:122 | Splitting at spaces undoes the space join when no word contains a space |
| TimeFormat.ParseWordRoundTrip | app.js:119-121 | A "<value><unit>" word reads back as the part it was written from |
| TimeFormat.FormatRoundTrip | app.js:111-123 | For ms > 0 the text of formatRemaining reads back as exactly its list of parts |
| TimeFormat.SameTextSameMinutes | app.js:111-123 | Two positive durations with the same text have the same number of whole minutes |
| TimeFormat.SameMinutesSameText | app.js:113-122 | Two positive durations with the same whole minutes (ms / 60000) have the same text. With TimeFormat.SameTextSameMinutes: for positive durations the text is equal iff the whole minutes are |
| TimeFormat.CanonicalMinutesDetermine | app.js:114-116 | A breakdown with hours < 24 and minutes < 60 is determined by the total minutes it stands for |
| TimeFormat.NonPositiveIsZero | app.js:112 | A duration of at most 0 ms is rendered "0분" |
| TimeFormat.UnderAMinuteIsZero | app.js:112-121 | Any duration under 60000 ms is rendered "0분" |
| TimeFormat.TwentyFiveHours | app.js:111-123 | 90,000,000 ms is rendered "1일 1시간 0분" |
| Dashboard.CardFor | app.js:67-105 | Without a running sensor, the badge reads "대기 중", the button "센서 시작", the card is idle, the text is "--일 --시간 --분" in the secondary colour, and all three date labels are "-". With one, the badge reads "진행 중", the button "센서 교체/재설정", the card is active and the labels carry the start, official end and final end. The colour is red iff Expired, orange iff ExpiringSoon and primary iff Active. The text is "만료됨" when Expired and the formatted remaining time otherwise |
| Dashboard.RemainingTextIsExact | app.js:79-95 | Before expiry, remaining is positive and the card's text reads back as exactly the whole minutes remaining |
| Sensors.DefaultChildren | app.js:4-7 | The initial collection is two children with no sensor and one day's notice |
| Sensors.Toggled | app.js:45-51 | A toggle keeps name and settings. It stamps an idle child with `now`, clears a running one when confirmed, and leaves it unchanged when declined |
| Sensors.StartMakesActive | app.js:45-50 | Starting makes the child running iff `now != 0`, and then its level at that instant is Active |
| Sensors.StartThenReset | app.js:44-51 | Start followed by a confirmed reset gives back the idle child with everything else kept |
| Sensors.App.constructor | app.js:4-9 | The app starts with the default collection, no open dialog, and the storage as found |
| Sensors.App.LoadData | app.js:29-36 | A stored collection, if any, replaces the children wholesale. Otherwise the children are kept |
| Sensors.App.SaveData | app.js:39-41 | Storage then holds exactly the current collection |
| Sensors.App.Toggle | app.js:44-54 | The array becomes the old array with only element `index` replaced by its toggle. Every other child, and this child's name and settings, are unchanged. The result is then saved |
| Sensors.App.OpenSettings | app.js:133-138 | The dialog is marked as open for `index` and shows that child's daysBefore |
| Sensors.App.SaveSettings | app.js:144-147 | Only the open child's daysBefore changes, to `days`. Its name and start time and every other child are kept, and the collection is saved |

## Left out

- `init`, `setInterval`, service worker registration and the notification permission request (app.js:12-26): start-up and timer glue. The refresh tick is modelled by evaluating `Classify` and `CardFor` at any `now`.
- DOM lookups and styling in `updateUI` (app.js:58-65): the card is modelled as a value (`Dashboard.Card`), not as DOM nodes. A missing card element would throw, and that is not modelled.
- `formatDate` (app.js:126-130): it depends on the local-timezone calendar conversion of the JavaScript `Date`. The date labels carry the instant they would format.
- `JSON.stringify` / `JSON.parse` in `saveData` / `loadData`: the storage entry holds the collection itself, so the JSON round trip is taken as lossless. A stored value that fails to parse (which throws in the code) is not modelled.
- `confirm` and `alert` dialogs, and `closeModal` (app.js:46, app.js:140-142, app.js:148-149): UI prompts. The confirmation answer is a parameter.
- Sensors.App.SaveSettings: takes an integer. `parseInt` of a blank or non-numeric field yields `NaN` in the code. That `NaN` is written to the record, and `JSON.stringify` in `saveData` stores it as `null`, so after a reload `daysBefore` is `null`. The model cannot represent either value.
- An index outside the array, or saving settings with no dialog open, makes the code throw a TypeError (app.js:45, app.js:136, app.js:146). This error path is not modelled. Instead `Sensors.App.Toggle` and `Sensors.App.OpenSettings` require a valid index, and `Sensors.App.SaveSettings` requires an open dialog whose index is valid. The page only ever passes the indexes of its two cards.
- Timestamps are unbounded integers. JavaScript numbers are doubles, which are exact for every millisecond timestamp the app meets.
