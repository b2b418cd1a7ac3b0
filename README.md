# Default muster dialog: a verified model of its editing session

The default-muster dialog edits an organisation's default muster requirements. A
muster requirement is a weekly roll-call window. The dialog keeps the windows as
a list of rows. Each row has a weekday bit mask (`days`), a start time, a
timezone, and a duration in minutes. It also has three view fields: the
duration in hours, an ephemeral `rowKey`, and the `Date` the time picker is
bound to.

The handlers load the list, append a default row, and edit one row found by its
key (timezone, duration, start time, day toggle). They also remove a row by
key, decide whether anything changed, validate, and build and send the save
request. The dialog keeps an error message and a "form disabled" flag next to
the list.

The model has four modules:

- `Weekdays` (`weekdays.dfy`): the days as single-bit flags in a `bv32` mask,
  with the toggle (`^=`) and its meaning.
- `MusterWindows` (`muster_windows.dfy`): the pure part. It holds the stored
  window (`MusterConfiguration`) and the edited row (`MusterConfigurationRow`).
  It also holds the functions the handlers compute: `musterRows`, the
  `findIndex` on keys, the four keyed edits, the appended `DefaultRow`, `splice`, the stripped
  list behind `hasChanges` and the save body, and the server message. The
  lemmas about them sit beside them.
- `MusterDialog` (`default_muster_dialog.dfy`): the class `DefaultMusterDialog`.
  It holds the row list, the error message and the disabled flag as fields, with
  one method per handler. Each keyed handler copies the list, locates the row
  with a `FindIndex` loop, changes that row and stores the list back. Each is proved
  against the function in `MusterWindows` that specifies it. The object
  invariant `Valid()` says that each row's hours agree with its minutes
  (`durationMinutes == durationHours * 60`); every handler preserves it.
- `Wrappers` (`wrappers.dfy`): `Option`.

Foreign calls become parameters:

- `validateMusterConfiguration` is the `validate` function the dialog is built
  with. Its rules are not part of this model.
- `uuidv4` becomes `keyOf(i)` on load and `freshKey` on append.
- The `moment` parse of a start time on today's date becomes `timeOf`.
- `moment.tz.guess()` becomes `guessedTimezone`.
- The picker's `date.toDate()` and `date.format('H:mm')` become a `PickedTime`.
- `parseFloat` becomes an `Option<real>`, where `None` stands for NaN.
- The outcome of the `PUT` becomes a `PutResponse` given to `OnSave`.
- The `onClose`/`onError` callbacks become the returned `SaveOutcome`.

A JavaScript string is truthy when it is present and not empty; `IsTruthy`
models this. It is used for the validator's result, for `resetErrorMessage`, and
for `dayButtonClass`.

Right after loading, `hasChanges` is false when the organisation has a stored
configuration (`NoChangesAfterLoad`). Without one it is true
(`ChangedWithoutOriginal`), because `JSON.stringify(undefined)` differs from the
serialised empty list. With a passing validator, the empty list can then be
saved straight away.

The duration handler stores `hours * 60` without rounding: an input of "0.51"
is stored as 30.6 minutes (`DurationExamples`).

The start-time handler returns early only on a null picker value. A picker
value that is present but invalid is stored as it is: its `format('H:mm')`
becomes the start time, and the model passes through whatever `PickedTime` it
is given.

The weekday flag values are taken as Sunday = 1, Monday = 2, … Saturday = 64,
with `None` = 0. `src/utility/days` is not part of this model. The proofs rely
only on each day being one distinct, non-zero bit.

## Model

| member | source | states |
|---|---|---|
| `Weekdays.ToggleBit` | src/components/pages/units-page/default-muster-dialog.tsx:152-158 | toggling a day selects it if it was off and deselects it if it was on; every other day keeps its state (symmetric difference with that day) |
| `Weekdays.ToggleInvolutive` | src/components/pages/units-page/default-muster-dialog.tsx:157 | toggling the same day twice gives back the original mask |
| `Weekdays.ToggleChanges` | src/components/pages/units-page/default-muster-dialog.tsx:157 | a toggle always changes the mask |
| `Weekdays.NoneHasNoDay` | src/components/pages/units-page/default-muster-dialog.tsx:96 | the `None` mask selects no day |
| `Weekdays.Toggle` | src/components/pages/units-page/default-muster-dialog.tsx:157 | `days ^= day` flips the selection of that day and of no other day |
| `MusterWindows.LoadRow` | src/components/pages/units-page/default-muster-dialog.tsx:72-77 | a loaded row strips back to the stored window, its hours agree with its minutes, and it carries the given key and picker date |
| `MusterWindows.ShownHoursAreStoredMinutes` | src/components/pages/units-page/default-muster-dialog.tsx:356 | under the invariant, the duration field of every row shows its stored minutes / 60 |
| `MusterDialog.DefaultMusterDialog.ShownDuration` | src/components/pages/units-page/default-muster-dialog.tsx:356 | under the dialog's invariant, the duration field of row j shows that row's stored minutes / 60 |
| `MusterWindows.HasChanges` | src/components/pages/units-page/default-muster-dialog.tsx:84-86 | with no stored configuration there are always changes; otherwise there are none exactly when the stored list has the rows' length and each entry equals the row's stripped fields |
| `MusterWindows.HasEmptyDays` | src/components/pages/units-page/default-muster-dialog.tsx:159 | when it holds, some row selects no day at all; when it does not, every row's mask is non-zero |
| `MusterWindows.MusterRows` | src/components/pages/units-page/default-muster-dialog.tsx:69-79 | loading keeps presence, length and order; each row carries exactly the stored fields, `durationHours = durationMinutes / 60`, the i-th fresh key and the picker date of its start time; hours agree with minutes |
| `MusterWindows.Configurations` | src/components/pages/units-page/default-muster-dialog.tsx:85 | the stripped list has one entry per row, in order, with exactly the row's days, start time, timezone and minutes |
| `MusterWindows.LoadRoundTrip` | src/components/pages/units-page/default-muster-dialog.tsx:69-86 | stripping `durationHours`, `rowKey` and `startTimeDate` from freshly loaded rows gives back the stored configuration |
| `MusterWindows.NoChangesAfterLoad` | src/components/pages/units-page/default-muster-dialog.tsx:81-86 | `hasChanges` is false right after loading a present configuration |
| `MusterWindows.ChangedWithoutOriginal` | src/components/pages/units-page/default-muster-dialog.tsx:84-86 | with no stored configuration, every list counts as changed, the empty one included |
| `MusterWindows.HasChangesIsStructural` | src/components/pages/units-page/default-muster-dialog.tsx:84-86 | `hasChanges` ignores keys, hours and picker dates: lists with equal stored fields give the same answer |
| `MusterWindows.IndexOf` | src/components/pages/units-page/default-muster-dialog.tsx:115 | the first index whose row has the key, or -1 exactly when no row has it |
| `MusterWindows.FindIndex` | src/components/pages/units-page/default-muster-dialog.tsx:115 | the linear `findIndex` scan returns that first index, or -1 |
| `MusterWindows.SameKeysSameIndex` | src/components/pages/units-page/default-muster-dialog.tsx:115 | lists with the same keys in the same places locate every key at the same index |
| `MusterWindows.ClampHours` | src/components/pages/units-page/default-muster-dialog.tsx:124-127 | the stored hours are at least 0.5; they equal the parsed value when it is at least 0.5, and are 0.5 for NaN and for values up to 0.5 |
| `MusterWindows.DurationExamples` | src/components/pages/units-page/default-muster-dialog.tsx:123-133 | input "abc" and input "0.1" both store 30 minutes; "0.51" stores 30.6 minutes, unrounded |
| `MusterWindows.Apply` | src/components/pages/units-page/default-muster-dialog.tsx:113-158 | each edit keeps the key and keeps hours in step with minutes; it changes only its own fields: timezone; hours, minutes (= hours × 60, ≥ 30); start time and picker date; or days (toggled) |
| `MusterWindows.EditRow` | src/components/pages/units-page/default-muster-dialog.tsx:113-158 | a keyed edit keeps the length and the keys; only the first row with the key is edited, every other row is unchanged, and an absent key leaves the list unchanged |
| `MusterWindows.EditKeepsHoursMatch` | src/components/pages/units-page/default-muster-dialog.tsx:129-133 | a keyed edit keeps every row's hours in step with its minutes |
| `MusterWindows.ToggleTwiceRestores` | src/components/pages/units-page/default-muster-dialog.tsx:152-158 | toggling the same day of the same key twice gives back the whole list |
| `MusterWindows.TimezoneRevertRestores` | src/components/pages/units-page/default-muster-dialog.tsx:113-121 | setting a row's timezone and then setting it back gives back the whole list |
| `MusterWindows.EditIsAChangeIff` | src/components/pages/units-page/default-muster-dialog.tsx:84-86 | from an unchanged list, editing an existing row makes `hasChanges` true exactly when the edit changes that row's stored fields |
| `MusterWindows.ToggleIsAChange` | src/components/pages/units-page/default-muster-dialog.tsx:152-158 | from an unchanged list, toggling a day of an existing row makes `hasChanges` true |
| `MusterWindows.DefaultRow` | src/components/pages/units-page/default-muster-dialog.tsx:95-103 | the appended row has no day selected, start time "00:00", 120 minutes, 2 hours, the guessed timezone and the fresh key |
| `MusterWindows.AppendKeepsHoursMatch` | src/components/pages/units-page/default-muster-dialog.tsx:95-103 | appending a row whose hours match its minutes keeps the invariant |
| `MusterWindows.AppendIsAChange` | src/components/pages/units-page/default-muster-dialog.tsx:94-105 | from an unchanged list, appending a row makes `hasChanges` true |
| `MusterWindows.RemoveRow` | src/components/pages/units-page/default-muster-dialog.tsx:165-174 | removal deletes the first row with the key: length drops by one, rows before and after keep their order, and the multiset loses exactly that row; an absent key changes nothing |
| `MusterWindows.RemoveKeepsHoursMatch` | src/components/pages/units-page/default-muster-dialog.tsx:165-174 | removal keeps every remaining row's hours in step with its minutes |
| `MusterWindows.RemoveIsAChange` | src/components/pages/units-page/default-muster-dialog.tsx:165-174 | from an unchanged list, removing an existing row makes `hasChanges` true |
| `MusterWindows.ResetError` | src/components/pages/units-page/default-muster-dialog.tsx:107-111 | after a reset no message is shown; a shown message becomes null, and null or '' is left as it was |
| `MusterWindows.ServerMessage` | src/components/pages/units-page/default-muster-dialog.tsx:204-207 | a failed save reports the first server error's message when the response has a non-empty error list, otherwise "Internal Server Error" |
| `MusterDialog.DefaultMusterDialog.constructor` | src/components/pages/units-page/default-muster-dialog.tsx:53-82 | the session opens with the loaded rows, or no rows when there is no configuration; no error, form enabled, invariant holds; with a stored configuration the list strips back to it and save is not offered |
| `MusterDialog.DefaultMusterDialog.AddMusterWindow` | src/components/pages/units-page/default-muster-dialog.tsx:94-105 | appends exactly the default row, leaves the existing rows untouched, keeps the invariant, and turns an unchanged list into a changed one |
| `MusterDialog.DefaultMusterDialog.ResetErrorMessage` | src/components/pages/units-page/default-muster-dialog.tsx:107-111 | the error message becomes its reset |
| `MusterDialog.DefaultMusterDialog.SetMusterTimezone` | src/components/pages/units-page/default-muster-dialog.tsx:113-121 | the list becomes the keyed timezone edit of the old list, and the error message is reset |
| `MusterDialog.DefaultMusterDialog.SetMusterDuration` | src/components/pages/units-page/default-muster-dialog.tsx:123-136 | the list becomes the keyed duration edit (clamped hours, minutes = hours × 60, so the target row has at least 30 minutes), and the error message is reset |
| `MusterDialog.DefaultMusterDialog.SetMusterStartTime` | src/components/pages/units-page/default-muster-dialog.tsx:138-150 | a null date changes nothing, the error message included; otherwise the list becomes the keyed start-time edit and the error message is reset |
| `MusterDialog.DefaultMusterDialog.ToggleMusterDay` | src/components/pages/units-page/default-muster-dialog.tsx:152-163 | the list becomes the keyed day toggle; the error message is reset only when no row is left with an empty mask; toggling an existing row of an unchanged list makes it changed |
| `MusterDialog.DefaultMusterDialog.RemoveMusterWindow` | src/components/pages/units-page/default-muster-dialog.tsx:165-174 | the list becomes the removal of the first row with the key; the error message is untouched; removing an existing row of an unchanged list makes it changed |
| `MusterDialog.DefaultMusterDialog.ValidateMusterWindows` | src/components/pages/units-page/default-muster-dialog.tsx:176-183 | returns true exactly when the validator reports nothing truthy; otherwise it shows the validator's message |
| `MusterDialog.DefaultMusterDialog.OnSave` | src/components/pages/units-page/default-muster-dialog.tsx:185-216 | an invalid list sends nothing and only shows the validator's message; a valid one sends the stripped rows in order; acceptance closes with the form left disabled, and rejection reports the server message and enables the form again |
| `MusterDialog.DefaultMusterDialog.CanSave` | src/components/pages/units-page/default-muster-dialog.tsx:218-220 | save is offered only when the form is enabled, the validator reports nothing, and the list is not the stored one |
| `MusterDialog.SaveRightAfterLoad` | src/components/pages/units-page/default-muster-dialog.tsx:185-198 | a dialog opened on a stored configuration and saved at once sends exactly that configuration when the validator accepts it, and nothing otherwise |
| `MusterDialog.DefaultMusterDialog.DayButtonClass` | src/components/pages/units-page/default-muster-dialog.tsx:222-228 | the error look exactly when an error is shown and the row has no days; otherwise on exactly when the day is selected, else off |

## Left out

- `validateMusterConfiguration` (`src/utility/muster-utils`) is not part of this model. It is the `validate` parameter, and nothing is assumed about its rules or their order.
- The day flag values come from `src/utility/days`, which is not part of this model. They are taken as 1, 2, 4, … 64.
- Masks are taken to fit in 31 bits. JavaScript's `^=` yields a signed 32-bit result, so a stored mask with bit 31 set would turn negative after a toggle; the `bv32` mask stays unsigned. Day masks use only 7 bits.
- Rendering is not modelled: Material-UI components, the affected-units list, `useState`/`useSelector` plumbing, and the `open` gate at line 88 (src/components/pages/units-page/default-muster-dialog.tsx:88-90, 231-399).
- The HTTP `PUT` at line 201 is not performed. Its outcome is the `response` parameter, and the request is returned as a value.
- `onClose`/`onError` are assumed present. When the caller omits them, the source just skips the call; the model does not show this.
- `onCancel` only forwards to the `onClose` callback and is not modelled.
- Clocks, `uuidv4`, `moment` parsing and formatting, and the timezone list are parameters. The freshness of uuids is not assumed by any handler.
- IEEE floating point is not modelled; durations are `real`. So `parseFloat` yielding ±Infinity, rounding in `hours * 60` and `minutes / 60`, and an `errors[0].message` that is `undefined` are out of scope.
- `JSON.stringify` is modelled as structural equality of the stripped fields. Key order and extra fields returned by the server are ignored.
- Rows are values. The source mutates the row objects it shares with the previous state array (lines 117, 131-132, 145-146, 157). That aliasing is not visible in the model, and neither is React's batching of state updates.
- `workspaces-page.tsx` and `user.controller.spec.ts` are UI plumbing and a database-backed test. They hold none of the dialog's logic.
