# Homify grocery manager — verified model of the reminder and item-editing core

**Homify** is an Android grocery list app. Each item has a name, a quantity, an optional expiry date (text, `dd/MM/yyyy`), an optional expected duration in days, the time it was added and a reminder switch. This project models four parts of the app in Dafny:

- **the daily reminder check** (`ReminderWorker.doWork`). For every item with reminders on, it posts an "expiring" notification when the expiry date is today or tomorrow. It posts a "may finish" notification when the item's expected usage ends today or tomorrow.
- **the list row** (`GroceryAdapter`). Each row shows an expiry chip and an expected-finish chip. `DIFF_CALLBACK` decides when a row may be reused or must be redrawn.
- **the add/edit screen** (`AddItemActivity`). This covers the date picker's text, trimming and validating the form, building the record, and which click listener ends up on the save button.
- **the `GroceryItem` record** and its defaults.

## Modules

| file | module | what it holds |
|---|---|---|
| `wrappers.dfy` | `Wrappers` | `Option` and `Result` |
| `civil_time.dfy` | `CivilTime` | millisecond time stamps, local midnight, Kotlin's truncating `Long` division and `toInt()`, proleptic Gregorian dates and their day numbers |
| `date_text.dfy` | `DateText` | decimal spelling (`"$n"`, `%0wd`), Kotlin `String.toInt()`, and the `dd/MM/yyyy` parser and formatter with both round trips |
| `grocery_item.dfy` | `GroceryModel` | the `GroceryItem` data class |
| `sequences.dfy` | `Sequences` | `FlatMap`, the "for each item, append what it posts" fold, and its algebra |
| `reminder_worker.dfy` | `ReminderWorker` | the checks as functions, and the loop of `doWork` as methods proved equal to them |
| `reminder_properties.dfy` | `ReminderProperties` | the checks restated in calendar days; independence of items; bounds |
| `grocery_adapter.dfy` | `GroceryAdapter` | chips, `DIFF_CALLBACK`, and the row's views as a class whose `Bind` method writes them |
| `add_item_activity.dfy` | `AddItemActivity` | picker text, Kotlin `trim()`, validation and record building, the save outcome, and the screen as a class whose `onCreate` installs the listener |

## Time, integers and dates

- **Time stamps:** milliseconds on the local wall clock, with the zone's fixed offset already added. Local midnight is therefore a multiple of `DAY` = 86 400 000. `Midnight(t) = t - t % DAY` is what `Calendar` computes when it is set to 00:00:00.000. For a positive divisor, Dafny's `/` rounds down and its `%` is never negative, which gives the same midnight as `Calendar` for times before 1970.
- **Integers:** Kotlin `Long` is an unbounded `int`. `Long` division truncates toward zero (`TruncDiv`). `.toInt()` keeps the low 32 bits (`ToInt32`), and `Int` is the subset type `Int32`.
- **Dates:** a `dd/MM/yyyy` date is a `CivilDate`, counted by `DayNumber` in days from 1970-01-01 in the proleptic Gregorian calendar.

**The worker does not normalise the current time, and the model follows the code.** The comment at `ReminderWorker.kt:47` speaks of normalising to midnight for a consistent day difference, but only the expiry side is set to midnight (lines 48-51). `today` (line 28) is the raw clock reading. `doWork` therefore subtracts the raw clock reading from a midnight: `ReminderWorker.kt:54` for expiry, `:92` for consumption. Truncation then rounds a positive part-day down. After midnight, therefore:

- an item expiring today or tomorrow is announced as expiring **today**;
- an item expiring the day after tomorrow is announced as expiring **tomorrow**.

Only a run at exactly 00:00:00.000 follows the calendar. `ReminderProperties.ExpiryCheckByCalendar` and `UsageCheckByCalendar` state both regimes. The list row normalises both ends (`GroceryAdapter.kt:111-116`), so its chip counts exact calendar days. `GroceryAdapter.FinishChipAgainstWorker` states how far apart the two counts are.

**The edit screen has two more quirks, both modelled as the code has them:**

- It never prefills the expected-days field. Saving an edit therefore drops the duration unless it is typed again.
- The rebuilt record takes `addedDate`'s default, so the usage period restarts at the click.

## Model

| member | source | states |
|---|---|---|
| CivilTime.ToInt32 | app/src/main/java/com/example/homify/work/ReminderWorker.kt:55 | `toInt()` leaves every value within `Int` range unchanged |
| CivilTime.ToInt32Wraps | app/src/main/java/com/example/homify/work/ReminderWorker.kt:55 | out of range, `toInt()` changes a value by a multiple of 2^32 and only by that |
| CivilTime.TruncDiv | app/src/main/java/com/example/homify/work/ReminderWorker.kt:55 | `Long` division: the quotient has the dividend's sign, and a dividend less than one divisor from 0 gives 0 (also for a negative one, unlike Dafny's `/`) |
| CivilTime.TruncDivTowardZero | app/src/main/java/com/example/homify/work/ReminderWorker.kt:55 | `Long` division rounds toward zero: the product lies between 0 and the dividend, less than one divisor from it |
| CivilTime.Midnight | app/src/main/java/com/example/homify/work/ReminderWorker.kt:45-52 | midnight is a multiple of DAY at or before `t` and less than a day before it |
| CivilTime.MidnightUnique | app/src/main/java/com/example/homify/work/ReminderWorker.kt:45-52 | that multiple of DAY is the only one within a day before `t` |
| CivilTime.TruncDivDayOffset | app/src/main/java/com/example/homify/work/ReminderWorker.kt:54-55 | a midnight `k` days ahead, minus a time `r` ms past today's midnight, truncates to `k - 1` when `k >= 1` and `r > 0`, and to `k` otherwise |
| CivilTime.MidnightPlusDays | app/src/main/java/com/example/homify/work/ReminderWorker.kt:82-90 | setting a time to midnight and adding `n` days lands on the midnight of day `DayOf(t) + n` |
| CivilTime.NextDateIsNextDay | app/src/main/java/com/example/homify/work/ReminderWorker.kt:46 | the calendar's next date is valid and has the next day number |
| CivilTime.DayNumberEpoch | app/src/main/java/com/example/homify/work/ReminderWorker.kt:45-54 | `DayNumber` counts from the epoch of the clock: 1970-01-01 is day 0 and 2000-03-01 day 11017; with `NextDateIsNextDay` this fixes the day number of every valid date |
| DateText.ZeroPadRoundTrip | app/src/main/java/com/example/homify/ui/add/AddItemActivity.kt:34 | `%0wd` of a number below 10^w has exactly `w` digits and reads back as that number |
| DateText.FormatPadded | app/src/main/java/com/example/homify/ui/add/AddItemActivity.kt:34 | `%0wd` writes a non-negative number in digits only, at least `w` of them, and a negative one with a leading `-` |
| DateText.FormatDate | app/src/main/java/com/example/homify/ui/add/AddItemActivity.kt:34 | every valid date is written in ten characters with `/` at positions 2 and 5 |
| DateText.IntToStringRoundTrip | app/src/main/java/com/example/homify/ui/add/AddItemActivity.kt:52 | `toInt()` reads every `Int`'s decimal spelling back as that `Int` |
| DateText.IntToString | app/src/main/java/com/example/homify/ui/adapter/GroceryAdapter.kt:138-140 | `"$n"` starts with `-` exactly for a negative number; the rest is digits |
| DateText.ParseIntRejectsNonDigit | app/src/main/java/com/example/homify/ui/add/AddItemActivity.kt:52 | `toInt()` fails on a text with a character that is neither a digit nor a leading sign |
| DateText.ParseInt | app/src/main/java/com/example/homify/ui/add/AddItemActivity.kt:52 | an accepted text is a digit or a sign followed by at least one digit, then digits only, and is negative only after a `-`; a digits-only text whose value fits an `Int` reads as that value |
| DateText.ParseDate | app/src/main/java/com/example/homify/work/ReminderWorker.kt:29-46 | an accepted text is ten characters with `/` at positions 2 and 5 and names a real date |
| DateText.FormatParseRoundTrip | app/src/main/java/com/example/homify/work/ReminderWorker.kt:29-46 | every valid date, written as `dd/MM/yyyy`, parses back to itself |
| DateText.ParseFormatRoundTrip | app/src/main/java/com/example/homify/work/ReminderWorker.kt:29-46 | every text the parser accepts is exactly the `dd/MM/yyyy` spelling of its date |
| DateText.ParsedPieces | app/src/main/java/com/example/homify/work/ReminderWorker.kt:46 | an accepted text splits into two, two and four digits, read as day, month and year |
| GroceryModel.NewGroceryItem | app/src/main/java/com/example/homify/data/model/GroceryItem.kt:7-25 | a record built from name and quantity alone has id 0 (autogenerate), no expiry, no duration, the construction time and reminders on |
| GroceryModel.StructuralEquality | app/src/main/java/com/example/homify/data/model/GroceryItem.kt:7 | data-class equality is equality of all seven fields |
| ReminderWorker.MomentOf | app/src/main/java/com/example/homify/work/ReminderWorker.kt:60-66 | a day count posts exactly when it is 0 or 1, and 0 selects the "today" texts |
| ReminderProperties.ExpiryNoticeText | app/src/main/java/com/example/homify/work/ReminderWorker.kt:61-66 | the expiry title is the warning sign and the item's name, ending in "today" exactly for today and in "tomorrow" otherwise; the message opens with the name |
| ReminderProperties.UsageNoticeText | app/src/main/java/com/example/homify/work/ReminderWorker.kt:99-104 | the consumption title is the bottle and the item's name, ending in the day the same way; the message names the item after "You likely finish " |
| ReminderProperties.NoticesIdentifyItemAndDay | app/src/main/java/com/example/homify/work/ReminderWorker.kt:61-104 | equal notices are about the same item and the same day, and no expiry notice equals a consumption notice |
| ReminderWorker.UsageEnd | app/src/main/java/com/example/homify/work/ReminderWorker.kt:82-90 | the usage end is the midnight that starts the day `expectedDays` days after the day the item was added |
| ReminderWorker.ExpiryCheck | app/src/main/java/com/example/homify/work/ReminderWorker.kt:43-73 | the expiry check posts at most one notification |
| ReminderWorker.UsageCheck | app/src/main/java/com/example/homify/work/ReminderWorker.kt:79-111 | the consumption check posts at most one notification |
| ReminderWorker.ItemNotifications | app/src/main/java/com/example/homify/work/ReminderWorker.kt:34-111 | an item posts at most two notifications; with its reminder off, none; otherwise the expiry check's, then the consumption check's |
| ReminderWorker.CheckExpiry | app/src/main/java/com/example/homify/work/ReminderWorker.kt:43-73 | the step-by-step expiry block posts exactly what `ExpiryCheck` specifies |
| ReminderWorker.CheckUsage | app/src/main/java/com/example/homify/work/ReminderWorker.kt:79-111 | the step-by-step consumption block posts exactly what `UsageCheck` specifies |
| ReminderWorker.CheckItem | app/src/main/java/com/example/homify/work/ReminderWorker.kt:34-111 | the loop body posts exactly the item's specified notifications |
| ReminderWorker.RunReminderCheck | app/src/main/java/com/example/homify/work/ReminderWorker.kt:33-116 | the `forEach` loop posts `Notifications`, the concatenation of every item's notifications, in list order |
| ReminderProperties.ExpiryDaysLeftByCalendar | app/src/main/java/com/example/homify/work/ReminderWorker.kt:45-55 | `ExpiryDaysLeft`, the expiry day count, is the calendar distance from today's date, minus one when it is positive and the clock is past midnight |
| ReminderProperties.ExpiryCheckByCalendar | app/src/main/java/com/example/homify/work/ReminderWorker.kt:54-69 | which dates post which expiry text: past midnight, today/tomorrow read "today" and the day after reads "tomorrow"; at midnight they follow the calendar; all other dates post nothing |
| ReminderProperties.UsageDaysLeftByCalendar | app/src/main/java/com/example/homify/work/ReminderWorker.kt:82-93 | `UsageDaysLeft`, the consumption day count, is the calendar distance to the usage end, rounded the same way |
| ReminderProperties.UsageCheckByCalendar | app/src/main/java/com/example/homify/work/ReminderWorker.kt:92-107 | which usage ends post which consumption text, in both regimes |
| ReminderProperties.ExpiryComesFirst | app/src/main/java/com/example/homify/work/ReminderWorker.kt:43-111 | when an item posts two notifications, the first is an expiry notice, the second a consumption notice, and they differ |
| ReminderProperties.NotificationsAppend | app/src/main/java/com/example/homify/work/ReminderWorker.kt:33-116 | a run over two concatenated lists posts the two runs' notifications one after the other |
| ReminderProperties.ItemIsolation | app/src/main/java/com/example/homify/work/ReminderWorker.kt:33-116 | each item's notifications sit in the run's output between those of the items before and after it |
| ReminderProperties.AtMostTwoPerItem | app/src/main/java/com/example/homify/work/ReminderWorker.kt:33-116 | a run posts at most two notifications per item |
| ReminderProperties.UnparsableExpiryIsIgnored | app/src/main/java/com/example/homify/work/ReminderWorker.kt:70-72 | an item whose expiry text does not parse posts what it would post with no expiry date |
| ReminderProperties.ParseFailureIsIsolated | app/src/main/java/com/example/homify/work/ReminderWorker.kt:44-72 | an unparsable expiry costs that item its expiry notice and nothing else in the run |
| ReminderProperties.DisabledItemIsSilent | app/src/main/java/com/example/homify/work/ReminderWorker.kt:35-38 | an item with reminders off posts nothing |
| ReminderProperties.DisabledItemIsSkipped | app/src/main/java/com/example/homify/work/ReminderWorker.kt:35-38 | removing a disabled item from the list leaves the run's output unchanged |
| ReminderProperties.EmptyListPostsNothing | app/src/main/java/com/example/homify/work/ReminderWorker.kt:33 | an empty list posts nothing |
| ReminderProperties.ExpiringTodayAlone | app/src/main/java/com/example/homify/work/ReminderWorker.kt:59-67 | an item whose stored date is today's posts exactly the "expiring today" notice, at any time that day |
| ReminderProperties.FiveDaysAfterAdding | app/src/main/java/com/example/homify/work/ReminderWorker.kt:81-105 | an item lasting five days, added five days ago, posts "may finish today" |
| ReminderProperties.ExpiringAndFinishingTomorrow | app/src/main/java/com/example/homify/work/ReminderWorker.kt:43-107 | an item expiring and running out tomorrow posts two "tomorrow" notices at midnight and two "today" notices after it |
| GroceryAdapter.AreItemsTheSame | app/src/main/java/com/example/homify/ui/adapter/GroceryAdapter.kt:24-25 | two rows show the same item exactly when the ids agree |
| GroceryAdapter.AreContentsTheSame | app/src/main/java/com/example/homify/ui/adapter/GroceryAdapter.kt:27-28 | a row needs no redraw exactly when the records are equal |
| GroceryAdapter.ContentsSameImpliesItemsSame | app/src/main/java/com/example/homify/ui/adapter/GroceryAdapter.kt:23-29 | equal contents imply the same item, as a diff callback requires |
| GroceryAdapter.ReminderDescription | app/src/main/java/com/example/homify/ui/adapter/GroceryAdapter.kt:50-51 | the icon reads "Reminder enabled" exactly when reminders are on, and "Reminder disabled" exactly when off |
| GroceryAdapter.ExpiryChipCases | app/src/main/java/com/example/homify/ui/adapter/GroceryAdapter.kt:73-94 | `ExpiryChip` is hidden exactly for a null or empty date; otherwise it reads "Expires: " and then the formatted date when it parses, the raw text when not |
| GroceryAdapter.ExpiryChipMatchesWorker | app/src/main/java/com/example/homify/ui/adapter/GroceryAdapter.kt:84-90 | a date the row shows raw is one the reminder check ignores |
| GroceryAdapter.FinishChip | app/src/main/java/com/example/homify/ui/adapter/GroceryAdapter.kt:99-145 | the expected-finish chip is hidden exactly when the item has no duration |
| GroceryAdapter.FinishDaysLeftExact | app/src/main/java/com/example/homify/ui/adapter/GroceryAdapter.kt:103-119 | `FinishDaysLeft`: with both ends at midnight, the count is exactly the calendar distance to the usage end |
| GroceryAdapter.FinishLabelCases | app/src/main/java/com/example/homify/ui/adapter/GroceryAdapter.kt:121-142 | `FinishLabel` always shows the chip, and each of the four labels is shown exactly for its range of day counts (< 0, 0, 1, >= 2) |
| GroceryAdapter.FinishChipAgainstWorker | app/src/main/java/com/example/homify/ui/adapter/GroceryAdapter.kt:111-119 | the chip's count equals the worker's at midnight, and is one more when the usage end is after today and the clock is past midnight |
| GroceryAdapter.GroceryRowView.Bind | app/src/main/java/com/example/homify/ui/adapter/GroceryAdapter.kt:39-146 | binding writes name, quantity, icon and both chips as specified; a hidden chip keeps the text it had |
| GroceryAdapter.GroceryRowView.BindExpiryChip | app/src/main/java/com/example/homify/ui/adapter/GroceryAdapter.kt:73-94 | the expiry block leaves the chip's visibility, text and description as `ExpiryChip` specifies |
| GroceryAdapter.GroceryRowView.BindFinishChip | app/src/main/java/com/example/homify/ui/adapter/GroceryAdapter.kt:99-145 | the expected-finish block leaves the chip as `FinishChip` specifies |
| AddItemActivity.PickerDateText | app/src/main/java/com/example/homify/ui/add/AddItemActivity.kt:33-34 | the picker's text is the `dd/MM/yyyy` spelling of the picked date, with the month moved from zero-based |
| AddItemActivity.PickerDateParses | app/src/main/java/com/example/homify/ui/add/AddItemActivity.kt:33-35 | every date the picker offers is written in ten characters that parse back to that date |
| AddItemActivity.WhitespaceClass | app/src/main/java/com/example/homify/ui/add/AddItemActivity.kt:47-51 | `IsWhitespace` (Kotlin's `isWhitespace`, which `trim()` uses) holds for the space, tab, line breaks, the no-break and the ideographic space, and never for a digit, a sign or `/` |
| AddItemActivity.TrimStartIndex | app/src/main/java/com/example/homify/ui/add/AddItemActivity.kt:47-51 | `trim()` starts at the first non-blank character, with only whitespace before it |
| AddItemActivity.TrimEndIndex | app/src/main/java/com/example/homify/ui/add/AddItemActivity.kt:47-51 | `trim()` ends after the last non-blank character, with only whitespace after it |
| AddItemActivity.TrimIsSlice | app/src/main/java/com/example/homify/ui/add/AddItemActivity.kt:47-51 | `Trim`, Kotlin's `trim()`, keeps a contiguous slice whose ends are not blank; everything removed is whitespace |
| AddItemActivity.TrimBlank | app/src/main/java/com/example/homify/ui/add/AddItemActivity.kt:54 | a field trims to empty exactly when it is all whitespace |
| AddItemActivity.TrimUnchanged | app/src/main/java/com/example/homify/ui/add/AddItemActivity.kt:47-51 | a text with non-blank ends trims to itself |
| AddItemActivity.TrimIdempotent | app/src/main/java/com/example/homify/ui/add/AddItemActivity.kt:47-51 | trimming twice is trimming once |
| AddItemActivity.ParseExpectedDays | app/src/main/java/com/example/homify/ui/add/AddItemActivity.kt:51-52 | an empty duration is null; a non-empty one succeeds exactly when `toInt()` does, with its value; failure is the invalid-number error |
| AddItemActivity.BuildItemErrors | app/src/main/java/com/example/homify/ui/add/AddItemActivity.kt:47-57 | `BuildItem`: a click fails on a malformed number before it looks at the required fields; missing fields are the only other failure; it succeeds exactly otherwise |
| AddItemActivity.BuildItemStoresForm | app/src/main/java/com/example/homify/ui/add/AddItemActivity.kt:90-109 | a record `BuildItem` saves, for either listener, holds the given id, the trimmed non-blank name and quantity, null expiry exactly for blank text, the parsed duration, the switch and the click time |
| AddItemActivity.InsertedItemIsNewItem | app/src/main/java/com/example/homify/ui/add/AddItemActivity.kt:59-65 | the insert listener's record is `GroceryItem(name, quantity)` with its defaults kept (id 0, the click time as `addedDate`) and only the expiry, the duration and the reminder switch set from the form |
| AddItemActivity.ExpectedDaysRoundTrip | app/src/main/java/com/example/homify/ui/add/AddItemActivity.kt:51-52 | any `Int` typed in decimal, with whitespace around it, is stored as that number |
| AddItemActivity.PickedExpiryIsUsable | app/src/main/java/com/example/homify/ui/add/AddItemActivity.kt:34-62 | when the click saves, a picked date reaches the record unchanged and parses, for the reminder check, back to the picked date |
| AddItemActivity.RecordId | app/src/main/java/com/example/homify/ui/add/AddItemActivity.kt:102-103 | the insert listener's record has the autogenerate id; the update listener's has the edited id |
| AddItemActivity.SaveClickCases | app/src/main/java/com/example/homify/ui/add/AddItemActivity.kt:46-114 | `SaveClick`: a click saves exactly when the form builds a record, and crashes exactly on a malformed number; an insert carries id 0 and an update the edited id |
| AddItemActivity.AddItemScreen.OnDatePicked | app/src/main/java/com/example/homify/ui/add/AddItemActivity.kt:33-35 | the picker callback writes the picked date's text into the expiry field |
| AddItemActivity.AddItemScreen.SetupSaveButton | app/src/main/java/com/example/homify/ui/add/AddItemActivity.kt:45-46 | the insert listener replaces whatever listener the button had |
| AddItemActivity.AddItemScreen.CheckIfEditing | app/src/main/java/com/example/homify/ui/add/AddItemActivity.kt:73-89 | with edit id -1 nothing changes; otherwise the extras fill the fields ("" and true for missing ones), the button reads "Update Item" and holds the update listener; the expected-days field is never filled |
| AddItemActivity.AddItemScreen.OnCreateAsWritten | app/src/main/java/com/example/homify/ui/add/AddItemActivity.kt:18-26 | as written, the button ends up with `ListenerAsWritten`, the insert listener, even on an edit screen labelled "Update Item"; every widget holds what `checkIfEditing()` left (unchanged without an edit id), and the expected-days field is untouched |
| AddItemActivity.AddItemScreen.OnCreate | app/src/main/java/com/example/homify/ui/add/AddItemActivity.kt:18-26 | corrected: the button holds `ListenerIntended`, the update listener exactly when an edit id is given; the widgets are filled as in the code as written |
| AddItemActivity.AddItemScreen.ClickSave | app/src/main/java/com/example/homify/ui/add/AddItemActivity.kt:46-114 | a click does nothing before a listener is set, and otherwise does what the current listener specifies for the current fields |
| AddItemActivity.ListenerAsWritten | app/src/main/java/com/example/homify/ui/add/AddItemActivity.kt:24-25 | `checkIfEditing()`'s listener change followed by `setupSaveButton()`'s gives the insert listener, whatever the edit id |
| AddItemActivity.ListenerIntended | app/src/main/java/com/example/homify/ui/add/AddItemActivity.kt:24-25 | the two changes in the other order give a listener that inserts exactly when there is no edit id, and otherwise saves under the edited id |
| AddItemActivity.EditAsWrittenInsertsCopy | app/src/main/java/com/example/homify/ui/add/AddItemActivity.kt:24-25 | as written, saving an edit of item 5 inserts a new record whose id is not 5 |
| AddItemActivity.IntendedListenerSavesInPlace | app/src/main/java/com/example/homify/ui/add/AddItemActivity.kt:89-114 | with the intended listener, an edit saves as an update of the edited id and a new item as an insert |

## Left out

- **The database** is not modelled: `getAllItemsList()`, its `ORDER BY expiryDate ASC`, Room, the DAO, the repository and the view model. The run takes its item list as a parameter. A click returns the `DbCommand` it would issue, not its effect on the table.
- **Posting a notification** (`NotificationUtils.showNotification`: channel, ids, permissions) is modelled as appending a title and message to the run's output. Logging is left out.
- **Notification ids:** `NotificationUtils.kt:43` uses `System.currentTimeMillis().toInt()` as the id, so two notifications posted in the same millisecond replace each other. An item's expiry and consumption notices are posted back to back, so the user may see fewer notifications than the run's output lists.
- **`doWork`'s `Result.success()`/`Result.failure()`** is left out. The outer `try` guards only the database access, which is not modelled.
- **The clock and time zone:** the clock reading is a parameter. The zone is a fixed offset, so daylight-saving days of 23 or 25 hours are not modelled. Dates are proleptic Gregorian, without `GregorianCalendar`'s switch to the Julian calendar before 15 October 1582.
- **Millisecond arithmetic** is unbounded: `Long` overflow would need clock readings about 292 million years from 1970.
- DateText.ParseDate: strict `dd/MM/yyyy` only. `SimpleDateFormat` is lenient: it also accepts one-digit fields, rolls over out-of-range fields (31/02 becomes 2 or 3 March), and ignores trailing text. The picker's own text is strict (`PickedExpiryIsUsable`). Other texts reach the record too: `checkIfEditing` writes the stored text back into the field (`AddItemActivity.kt:78`, `:84`), both listeners store whatever the field holds (`:49`, `:62`, `:92`, `:106`), and only a click listener is attached to the field (`:30`), so nothing stops typing. A typed or carried-over text that `SimpleDateFormat` accepts leniently ("1/2/2024", "31/02/2024") gets no reminder in the model, though the app may post one, and the model's chip shows such a text raw where the app shows a formatted date.
- GroceryAdapter.ExpiryChip: the `d MMM yyyy` output formatter depends on the locale, so it is the parameter `formatDate`.
- DateText.ZeroPad: `%02d`/`%04d` are modelled with ASCII digits. Locales whose default digits are not ASCII are not modelled.
- DateText.ParseInt: ASCII digits only. Kotlin's `toInt()` also accepts other Unicode decimal digits.
- ReminderProperties.ExpiryDaysLeftByCalendar: assumes a clock reading within about 2.9 million years of 1970 (`PlausibleClock`), so that `toInt()` cannot wrap. `ExpiryCheckByCalendar` assumes the same.
- ReminderProperties.UsageDaysLeftByCalendar: assumes the day distance fits an `Int`. `UsageCheckByCalendar`, `GroceryAdapter.FinishDaysLeftExact` and `GroceryAdapter.FinishChipAgainstWorker` assume the same. Outside that range, `ToInt32` models the wrap-around itself.
- **View details not modelled:**
  - which drawable the icon shows (modelled as a flag);
  - the options popup and the row's click handlers (they only forward the item to callbacks);
  - `onCreateViewHolder`, `onBindViewHolder` and `updateList`, which are framework plumbing;
  - the picker dialog's initial date;
  - how toasts are displayed (the toast text is part of the outcome);
  - `finish()`.
- **A malformed expected-days text** throws `NumberFormatException` out of the click listener, which crashes the activity. The model returns this as the outcome `Crashed`.

## Findings

| source | as written | input that shows it | evidently intended | confidence | as-written member | corrected member |
|---|---|---|---|---|---|---|
| app/src/main/java/com/example/homify/ui/add/AddItemActivity.kt:24-25 | `onCreate` calls `checkIfEditing()`, which installs the update listener, and then `setupSaveButton()`, whose `setOnClickListener` replaces it with the insert listener | an edit intent with `edit_item_id` = 5 and a valid form; the click inserts a record with id 0, which Room auto-generates as a new row, and row 5 stays as it was | on the edit screen, the "Update Item" button updates row 5 | not executed; high (`setOnClickListener` keeps only the last listener) | AddItemActivity.EditAsWrittenInsertsCopy | AddItemActivity.IntendedListenerSavesInPlace |
