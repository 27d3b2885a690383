# Staff reservations: a verified model of the client-side rules

This project models the rules of a single-page staff tool for restaurant
reservations. Staff pick a day on a calendar and see that day's reservations
with the total party size. They add a reservation through a form and edit or
delete existing ones. A day before today is locked: it can be viewed but not
changed. Every reservation is stored in a hosted table, and after each
successful change the page reloads both the day's list and the set of dates
that have reservations (the calendar highlights).

The model covers three components:

- **the page** (`src/App.jsx`):
  - the date keys;
  - the past and today-or-later tests;
  - the loads of the day's list and of the highlighted dates;
  - the delete flow with its confirmation;
  - the guards on the Edit and Delete buttons;
  - the total party size;
- **the add form** (`src/ReservationForm.jsx`):
  - the time-slot generator;
  - the US phone formatter;
  - the save gate;
  - `save` itself;
- **the edit dialog** (`src/EditModal.jsx`):
  - its lock;
  - its save gate;
  - `handleSave`.

Modules:

- `JsText` gives the JavaScript string operations the code relies on, each in its own terms:
  - removing the non-digits (`replace(/\D/g, "")`);
  - `trim` with JavaScript's whitespace set;
  - string `<` and `>=`, which compare code unit by code unit;
  - `String(n)` and `padStart(2, "0")`.
- `Dates` covers the `YYYY-MM-DD` keys. It proves that comparing keys as text agrees with the calendar.
- `Phone` and `TimeSlots` are the form's two pure helpers.
- `Store` holds the row, the patch and reply shapes, and the user-visible messages.
- `Form` and `Edit` are classes whose fields are the components' state hooks. Their methods are the event handlers.
- `Controller` holds the page as an `App` class.

The clock and the store are parameters of the model:

- "today" is passed in as its `YYYY-MM-DD` key wherever the code reads the clock. The code reads it at mount, for the page's initial selection (the `App` constructor's `today`), and whenever a lock memo is computed: when the page selects another day, when the form gets another date, and when the edit dialog opens. The page also reads it on every render for the calendar's tile classes; that read is left out with rendering. Each class keeps that key (`lockedOn`), and the handlers check the kept lock;
- each store call's reply is passed in (`Reply`, `Fetched`);
- a handler returns what it sent to the store (`sent`) and whether it asked for a refresh or a close.

## Model

| member | source | states |
|---|---|---|
| Wrappers.Option.GetOr | src/EditModal.jsx:18-21 | `x ?? fallback`: the value when present, the fallback when null |
| JsText.Digits | src/ReservationForm.jsx:52 | removing the non-digits leaves only digits and never lengthens the text |
| JsText.DigitsConcat | src/ReservationForm.jsx:102 | removing non-digits distributes over concatenation |
| JsText.DigitsOfDigitString | src/ReservationForm.jsx:52 | a text of digits only is left as it is |
| JsText.Slice | src/ReservationForm.jsx:55-60 | `slice(i, j)` is at most j - i long, is the exact sub-sequence when the text reaches j, is clamped to the end otherwise, and is empty past the end |
| JsText.TrimStart | src/ReservationForm.jsx:117 | leading trim removes only whitespace and leaves a result that does not start with whitespace |
| JsText.TrimStartIsSuffix | src/ReservationForm.jsx:117 | the leading trim is a suffix of its input |
| JsText.TrimEnd | src/ReservationForm.jsx:117 | trailing trim removes only whitespace and leaves a result that does not end with whitespace |
| JsText.TrimEndIsPrefix | src/ReservationForm.jsx:117 | the trailing trim is a prefix of its input |
| JsText.Trim | src/ReservationForm.jsx:100 | `trim()` is empty exactly when the input is all whitespace; otherwise both its ends are non-space |
| JsText.TrimIdempotent | src/EditModal.jsx:70 | trimming a trimmed name changes nothing |
| JsText.Less | src/App.jsx:22 | string `<` compares code unit by code unit, and a proper prefix is smaller; its order properties are LessTrichotomy and LessAppend |
| JsText.LessTrichotomy | src/App.jsx:21-26 | string `<` is a strict total order: exactly one of a < b, a == b, b < a |
| JsText.LessAppend | src/App.jsx:22 | comparing concatenations whose first parts have equal length is lexicographic on the parts |
| JsText.NatToString | src/App.jsx:13 | `String(n)` of a natural number is a non-empty string of digits |
| JsText.IntToString | src/ReservationForm.jsx:39 | `String(i)` of a non-negative integer is its decimal text |
| JsText.PadStart2 | src/App.jsx:14-15 | `padStart(2, "0")` yields at least two characters, exactly two for shorter input |
| JsText.NatToStringValue | src/App.jsx:13-15 | the decimal text of n reads back as n |
| JsText.NatToStringLength | src/App.jsx:13 | one digit below 10, two below 100, four for years 1000 to 9999 |
| JsText.TwoDigitValue | src/App.jsx:14-15 | a number below 100 padded to two characters is two digits that read back as the number |
| JsText.DigitStringOrder | src/App.jsx:22 | for equal-length digit strings, string `<` is numeric `<` and string equality is numeric equality |
| Dates.ToLocalYMD | src/App.jsx:12-17 | the key is the year, '-', the padded month, '-', the padded day; its layout and order are ToLocalYMDLayout and YMDOrderIsCalendarOrder |
| Dates.IsPastYMD | src/App.jsx:21-23 | a day is past when its key is below today's key as text |
| Dates.IsTodayOrFutureYMD | src/App.jsx:24-26 | a day is today or later when its key equals or is above today's key; PastIffNotTodayOrFuture makes it the complement of IsPastYMD |
| Dates.MidnightRollover | src/App.jsx:21-26 | "2026-10-16" is today-or-later on 2026-10-16 and past on 2026-10-17 |
| Dates.PastIffNotTodayOrFuture | src/App.jsx:21-26 | `isPastYMD` holds exactly when `isTodayOrFutureYMD` does not |
| Dates.ToLocalYMDLayout | src/App.jsx:12-17 | a local date's key is 10 characters: 4-digit year, '-', 2-digit month, '-', 2-digit day, each reading back as its field |
| Dates.Pieces | src/App.jsx:13-16 | the year, month and day texts of the key have fixed widths and read back as the date's fields |
| Dates.YMDOrderIsCalendarOrder | src/App.jsx:22 | for well-formed dates, key `<` is calendar order and equal keys mean equal dates |
| Dates.LockFollowsCalendar | src/App.jsx:21-26 | a day is past exactly when it is before today on the calendar, and today-or-future exactly when it is not |
| Phone.CleanDigits | src/ReservationForm.jsx:52-55 | the kept digits are all the input's digits when there are at most 10; the last 10 when there are 11 starting with 1; otherwise the first 10 |
| Phone.Grouped | src/ReservationForm.jsx:58-60 | up to 3 digits stay one group; 4 to 6 become 3 digits, '-', the rest; 7 to 10 become 3, '-', 3, '-', the rest |
| Phone.FormatUSPhone | src/ReservationForm.jsx:51-62 | the output always starts with "+1 " and is 3 to 15 characters long |
| Phone.IsCompletePhone | src/ReservationForm.jsx:102-103 | the form's check counts 11 digits in the formatted phone; CompleteIffTenDigits relates it to the input |
| Phone.DigitsAfterPrefix | src/ReservationForm.jsx:57 | the "+1 " prefix contributes exactly the digit 1 |
| Phone.DigitsAfterDash | src/ReservationForm.jsx:59-60 | a dash contributes no digit |
| Phone.GroupedShort | src/ReservationForm.jsx:58 | up to 3 digits: grouping loses no digit |
| Phone.DigitsOfDashed | src/ReservationForm.jsx:59 | joining two digit groups with a dash keeps exactly their digits |
| Phone.GroupedMiddle | src/ReservationForm.jsx:58-59 | 4 to 6 digits: grouping loses no digit |
| Phone.GroupedLong | src/ReservationForm.jsx:58-60 | 7 to 10 digits: grouping loses no digit |
| Phone.GroupedDigits | src/ReservationForm.jsx:57-60 | the digits of the grouped output are exactly the cleaned digits |
| Phone.FormattedDigits | src/ReservationForm.jsx:51-62 | the digits of the formatted phone are "1" followed by the cleaned digits |
| Phone.CompleteIffTenDigits | src/ReservationForm.jsx:102-103 | the form's "11 digits" test passes exactly when the input cleans to 10 digits |
| Phone.CompleteIsCanonical | src/ReservationForm.jsx:50-62 | a complete number is formatted as "+1 XXX-XXX-XXXX" of its 10 digits |
| Phone.ReparseDigits | src/ReservationForm.jsx:52-54 | re-cleaning a formatted phone gives back the 10 digits of a complete number, but a partial one gains the prefix's 1 as a leading digit |
| Phone.FormatIdempotentWhenComplete | src/ReservationForm.jsx:51-62 | formatting a complete formatted phone again changes nothing |
| Phone.CanonicalDigits | src/ReservationForm.jsx:52-55 | the canonical form of 10 digits cleans back to those 10 digits (the leading 1 is dropped) |
| Phone.CanonicalIsFixedPoint | src/ReservationForm.jsx:51-62 | the canonical form is a fixed point of the formatter |
| Phone.SampleIsDigits | src/ReservationForm.jsx:52 | a 10-digit sample has no non-digit to remove |
| Phone.SampleDigits | src/ReservationForm.jsx:52-55 | a 10-digit sample cleans to itself |
| Phone.SampleCanonical | src/ReservationForm.jsx:50 | the sample's canonical form is "+1 720-123-4567" |
| Phone.TenDigitExample | src/ReservationForm.jsx:50-62 | "7201234567" formats to "+1 720-123-4567", which passes the phone check |
| Phone.ElevenIsDigits | src/ReservationForm.jsx:52 | an 11-digit sample has no non-digit to remove |
| Phone.CountryCodeDropped | src/ReservationForm.jsx:53-54 | 11 digits starting with 1 lose the leading 1 |
| Phone.CountryCodeExample | src/ReservationForm.jsx:53-62 | "17201234567" formats like its 10-digit form |
| Phone.PartialExample | src/ReservationForm.jsx:58 | a 3-digit input formats to "+1 123" and fails the phone check |
| Phone.PartialReparseExample | src/ReservationForm.jsx:52-58 | a partial formatted phone is not a fixed point: "+1 72" becomes "+1 172" |
| TimeSlots.JsRem | src/ReservationForm.jsx:33-36 | JavaScript `%`: strictly inside (-b, b), the Euclidean remainder for a non-negative dividend, never positive for a negative one, and always congruent to the dividend modulo b |
| TimeSlots.Label | src/ReservationForm.jsx:32-41 | the label of one minute-of-day; LabelParts gives its hour, minutes and suffix |
| TimeSlots.ClockLabel | src/ReservationForm.jsx:39-41 | the label text is the 12-hour hour, ':', the padded minutes, ' ', then AM or PM |
| TimeSlots.SlotMinutes | src/ReservationForm.jsx:28-31 | the minutes the loop visits, from start up to and including end; SlotCount and SlotAt give their number and values |
| TimeSlots.MinuteOfDay | src/ReservationForm.jsx:28-29 | a 24-hour time as minutes since midnight, `hour * 60 + minute` |
| TimeSlots.Labels | src/ReservationForm.jsx:42 | one label per visited minute |
| TimeSlots.LabelsSnoc | src/ReservationForm.jsx:42 | pushing a label extends the labels of the visited minutes by that minute's label |
| TimeSlots.SlotLabel | src/ReservationForm.jsx:32-41 | the loop body's step-by-step hour, minute and AM/PM computation yields the label of the minute |
| TimeSlots.VisitNext | src/ReservationForm.jsx:31-44 | one iteration moves the current minute from the minutes ahead to the minutes visited |
| TimeSlots.GenerateTimeSlots | src/ReservationForm.jsx:20-48 | the loop returns exactly the labels of start, start + step, ..., up to and including end, in order |
| TimeSlots.SlotCount | src/ReservationForm.jsx:28-31 | (end - start) / step + 1 slots when start <= end, none otherwise |
| TimeSlots.LabelsAt | src/ReservationForm.jsx:42 | the i-th label is the label of the i-th visited minute |
| TimeSlots.SlotAt | src/ReservationForm.jsx:44 | the i-th visited minute is start + i * step |
| TimeSlots.LabelParts | src/ReservationForm.jsx:32-41 | the hour shows 1 to 12 (hours 0 and 12 show as 12), PM from hour 12 on, minutes as two digits that read back as the minute |
| TimeSlots.FirstDefaultLabel | src/ReservationForm.jsx:73-74 | minute 660 is labelled "11:00 AM" |
| TimeSlots.ElevenAM | src/ReservationForm.jsx:39-41 | 11 o'clock, 0 minutes, before noon reads "11:00 AM" |
| TimeSlots.LastDefaultLabel | src/ReservationForm.jsx:75-76 | minute 1260 is labelled "9:00 PM" |
| TimeSlots.NinePM | src/ReservationForm.jsx:39-41 | 9 o'clock, 0 minutes, after noon reads "9:00 PM" |
| TimeSlots.DefaultSlots | src/ReservationForm.jsx:69-80 | the form's slots are 21 labels from "11:00 AM" to "9:00 PM" |
| Store.SizeAccepted | src/ReservationForm.jsx:121 | a size passes when it is finite and at least 1 |
| Store.ErrorText | src/ReservationForm.jsx:140 | `error.message \|\| fallback`: the store's message when it has one, the fallback when it is empty; never empty when the fallback is not |
| Form.SaveCheck | src/ReservationForm.jsx:112-125 | `save` goes ahead exactly when every check passes; the checks run disabled, name, size, phone, time, and the first that fails gives its own message |
| Form.CanSave | src/ReservationForm.jsx:98-106 | the button is enabled exactly when nothing is saving and every check of `save` passes |
| Form.ReservationForm.constructor | src/ReservationForm.jsx:82-89 | the form starts empty with size 1, not saving, with no message, its lock computed on the day it mounts |
| Form.ReservationForm.SaveEnabled | src/ReservationForm.jsx:98-106 | `canSave` over the form's own fields, disabled state and formatted phone |
| Form.ReservationForm.Locked | src/ReservationForm.jsx:66 | the form's date was before today when the lock was computed |
| Form.ReservationForm.Disabled | src/ReservationForm.jsx:67 | `disabled` is the prop or the form's own lock |
| Form.ReservationForm.PhoneFormatted | src/ReservationForm.jsx:91 | the formatted phone's digits are "1" and the kept digits of what was typed |
| Form.ReservationForm.ReceiveProps | src/ReservationForm.jsx:64-67 | new props keep every entry and message; the lock is recomputed only when the date key changes |
| Form.ReservationForm.Submit | src/ReservationForm.jsx:127-149 | after the insert: an error keeps the entries and shows the message; success clears the entries, shows the saved message and asks for a refresh |
| Form.ReservationForm.Save | src/ReservationForm.jsx:108-152 | the first failing check's message and no insert; or the insert of the trimmed name, formatted phone, size, time and the form's date, followed by the error or the reset; an insert is made exactly when the button was enabled |
| Form.ReservationForm.SaveAt | src/ReservationForm.jsx:112-115 | the lock is taken again at the call, then `save` runs: a day past by then is refused with the lock message and the entries kept; a day not past with passing checks gets the insert; every field afterwards is that of `save` |
| Form.StaleLockSave | src/ReservationForm.jsx:66-67 | a form mounted on 2026-10-16 and saved on 2026-10-17 sends an insert for the past day; SaveAt sends nothing |
| Edit.Locked | src/EditModal.jsx:29-32 | no date or an empty date never locks; otherwise locked exactly when the date is not today or later |
| Edit.EditCheck | src/EditModal.jsx:65-81 | `handleSave` goes ahead exactly when every check passes; the checks run lock, name, size, and the first that fails gives its own message; the phone is not checked |
| Edit.CanSave | src/EditModal.jsx:34-39 | the button is enabled exactly when nothing is saving and every check of `handleSave` passes |
| Edit.StoredTime | src/EditModal.jsx:92 | an empty time is stored as null, any other time as itself |
| Edit.EditModal.constructor | src/EditModal.jsx:17-24 | the fields start from the reservation, with size 1 and an empty time when those are missing, the lock computed on the day it opens |
| Edit.EditModal.IsLocked | src/EditModal.jsx:29-32 | the dialog's lock as computed when it opened |
| Edit.EditModal.SaveEnabled | src/EditModal.jsx:34-39 | `canSave` over the dialog's own fields and its lock |
| Edit.EditModal.Submit | src/EditModal.jsx:83-105 | after the update: an error is shown and the dialog stays; success asks for a refresh and a close |
| Edit.EditModal.HandleSave | src/EditModal.jsx:64-106 | the first failing check's message and no update; or an update of this reservation's id carrying the trimmed name and phone, the size, the time or null and the unchanged date; an update is made exactly when the button was enabled |
| Edit.EditModal.HandleSaveAt | src/EditModal.jsx:65-68 | the lock is taken again at the call, then `handleSave` runs: a reservation past by then is refused with the lock message; one not past with passing checks gets the update; entries are kept and every other field is that of `handleSave` |
| Edit.StaleLockEdit | src/EditModal.jsx:29-32 | a dialog opened on 2026-10-16 and saved on 2026-10-17 sends an update for the past day; HandleSaveAt sends nothing |
| Controller.SizeOrZero | src/App.jsx:152 | a missing size counts as 0, a present one as itself |
| Controller.TotalSize | src/App.jsx:151-154 | the total of no rows is 0 and is never negative when no size is |
| Controller.TotalSizeAppend | src/App.jsx:152 | one more row adds its size, or 0 when it has none |
| Controller.TotalSizeConcat | src/App.jsx:151-154 | the total of two lists put together is the sum of their totals |
| Controller.Distinct | src/App.jsx:101 | `[...new Set(values)]` keeps every value, adds none, and has no repeats |
| Controller.DistinctOfDistinct | src/App.jsx:101 | a list without repeats is left as it is |
| Controller.LoadedList | src/App.jsx:82-88 | the stored list is the rows, or empty when the select fails |
| Controller.LoadError | src/App.jsx:82-88 | the list's error is empty exactly when the select succeeds |
| Controller.Highlights | src/App.jsx:96-103 | the highlighted dates are the distinct dates of all rows, or none when the select fails |
| Controller.App.constructor | src/App.jsx:29-42 | the page starts on today, which can be modified, with empty lists, no dialog and no error |
| Controller.App.CanModifySelectedDay | src/App.jsx:44-47 | the selected day was today or later when the memo was computed |
| Controller.App.SelectedIsPast | src/App.jsx:49 | the selected day was before today when the memo was computed |
| Controller.App.PastIffNotModifiable | src/App.jsx:44-49 | the selected day is past exactly when it cannot be modified |
| Controller.App.FetchReservations | src/App.jsx:72-91 | the list becomes the day's rows and the error is cleared, or the list is emptied and the error shown; nothing else changes |
| Controller.App.FetchHighlightedDates | src/App.jsx:93-106 | the highlights become the distinct dates, or none; nothing else changes |
| Controller.App.RefreshAll | src/App.jsx:108-110 | both loads take effect and the selection and dialogs are kept |
| Controller.App.SelectDate | src/App.jsx:117-120 | choosing another day recomputes the lock and reloads that day's list, keeping the highlights; choosing the same day changes nothing |
| Controller.App.DeleteReservation | src/App.jsx:122-149 | a locked day shows the lock, closes the confirmation and sends nothing; otherwise the id is deleted, and either the error is shown and the confirmation kept, or the confirmation closes and both lists reload |
| Controller.App.DeleteReservationAt | src/App.jsx:124-128 | the lock is taken again at the call, then `deleteReservation` runs: a selected day past by then is refused with the lists kept; a day not past gets the delete, with the error or the reload that follows |
| Controller.App.EditClicked | src/App.jsx:277-285 | a locked day shows the lock and opens nothing; otherwise the dialog opens on the row |
| Controller.App.DeleteClicked | src/App.jsx:293-301 | a locked day shows the lock; otherwise the confirmation is asked for the row's id |
| Controller.App.ConfirmShown | src/App.jsx:342 | the confirmation shows while the pending id is truthy, so an id of 0 shows nothing |
| Controller.App.ConfirmDelete | src/App.jsx:342-345 | without a shown confirmation nothing happens; with one, the outcome of `deleteReservation` for the pending id on the lock, store-error and success paths |
| Controller.App.CancelDelete | src/App.jsx:346 | cancelling closes the confirmation and changes nothing else |
| Controller.App.CloseEdit | src/App.jsx:336 | closing the dialog clears it and changes nothing else |
| Controller.App.MountForm | src/App.jsx:324-329 | the form mounts empty on the selected day with `disabled = !canModifySelectedDay`, so a locked page always disables it |
| Controller.App.PassFormProps | src/App.jsx:324-329 | a re-render passes the current day and lock and keeps everything typed into the form |
| Controller.App.SaveNew | src/App.jsx:324-329 | the form's `save` with every field of the form afterwards; on success the page's lists, error and loading flags are those of the reload, otherwise the page is unchanged |
| Controller.App.SaveEdit | src/App.jsx:333-339 | the dialog's `handleSave` with the dialog's error afterwards; on success the lists reload and the dialog closes, otherwise the page is unchanged |
| Controller.StaleLockDelete | src/App.jsx:44-47 | a delete asked on 2026-10-16 and confirmed on 2026-10-17 is sent for the past day; DeleteReservationAt sends nothing |

## Findings

| source | as written | input that shows it | evidently intended | confidence | as-written member | corrected member |
|---|---|---|---|---|---|---|
| src/App.jsx:44-47 | `canModifySelectedDay` is memoised on the selected key alone, so `deleteReservation` checks the lock of the moment the day was selected | select 2026-10-16 on 2026-10-16, ask to delete row 7, confirm after midnight: the delete is sent for a past day | the lock is checked against today at the moment of the delete, as the guard at line 124 suggests | not executed; high | Controller.StaleLockDelete | Controller.App.DeleteReservationAt |
| src/ReservationForm.jsx:66-67 | `locked` is memoised on the form's date key alone, so `save` checks the lock of the moment the date was set | mount the form for 2026-10-16 on that day, fill it in, save after midnight: the insert is sent for a past day | the lock is checked against today at the moment of the save, as the guard at line 112 suggests | not executed; high | Form.StaleLockSave | Form.ReservationForm.SaveAt |
| src/EditModal.jsx:29-32 | `locked` is memoised on the reservation's date, so `handleSave` checks the lock of the moment the dialog opened | open the dialog on a 2026-10-16 reservation that day, save after midnight: the update is sent for a past day | the lock is checked against today at the moment of the save, as the guard at line 65 suggests | not executed; high | Edit.StaleLockEdit | Edit.EditModal.HandleSaveAt |

The page's wiring (`ConfirmDelete`, `SaveNew`, `SaveEdit`) follows the code as written and calls the handlers with the cached lock.

## Left out

- Sign-in, the auth subscription, the `Login` screen and the effects that load only when a user exists are not modelled: they depend on the hosted service.
- The hosted store is not modelled. Each call's reply is a parameter, and what is sent is returned.
- Server-side ordering of rows by time is not modelled. The list is kept in the order the reply gives.
- The clock (`new Date()`) is not modelled: "today" is a parameter of the members that compute a lock. A `Date` object is modelled as its year, month and day in local time.
- `refreshAll` runs its two loads with `Promise.all`. The model runs them one after the other, since they write disjoint fields.
- Interleavings of concurrent handlers are not modelled. This includes a save whose handler sees an older render, and the `mounted` flag.
- Rendering is not modelled: markup, the calendar tile classes, the loading texts, the badges, the `ConfirmModal` component and the buttons' `disabled` attributes.
- The `console.error` calls on failed loads and deletes (src/App.jsx:83, 98, 139) are not modelled: they only write to the browser console.
- Keyboard shortcuts (Escape, Ctrl/Cmd+S), the body-scroll lock and the `setTimeout` that clears the success message are not modelled.
- `Number()` text parsing and floating point are not modelled. A size is an optional integer. In the form's and the dialog's fields, `None` stands for a typed size that is not finite. In a stored row (`Store.Reservation.size`), `None` is a null column, which the dialog reads as 1 and the total counts as 0.
- `data || []` for a null reply is not modelled. A successful reply always carries a list.
- The `?? ""` defaults for a missing name or phone are not modelled. Those fields are strings.
- Strings are sequences of Unicode characters. JavaScript compares and trims UTF-16 code units, which differs only for characters outside the Basic Multilingual Plane; that difference is not modelled.
- The edit dialog ignores the `disabled` prop that the page passes it (src/App.jsx:338). The model follows the dialog's code: only its own `locked` applies.
- TimeSlots.GenerateTimeSlots: its ensures gives the exact list of labels. The number of labels is stated separately in the SlotCount lemma.
