# pia, modelled in Dafny

pia is a React Native app for keeping in touch with friends. It keeps a list
of friends, each with a birthday, a check-in frequency and the date of the
last catch-up. It shows how overdue each friend is, schedules birthday and
catch-up notifications, and keeps a one-entry-per-day journal drawn as a
grid of the year's days. This project models the deterministic core of that
app in Dafny and proves what it promises.

One Dafny module stands for each source file of the core:

- `notification_service.dfy` (`NotificationService`): the title and body
  texts, the birthday matcher with its 29 February rule, the day difference
  and due test, the random time in the notification window, and
  `scheduleAllNotifications`. The OS schedule is the `Scheduler` class, whose
  `scheduled` sequence is emptied by `CancelAllScheduled` and appended to by
  the two schedule methods. The run is proved against `Plan`, which states
  which notifications the run produces and in which order.
- `notification_state_store.dfy`, `friends_store.dfy`, `journal_store.dfy`,
  `toast_store.dfy`: the zustand stores, as classes whose methods update
  their fields and state the whole new state.
- `journal_date_helpers.dfy`: date keys, days left in the year, the loop
  that lists every day of a year, and the past-or-today test.
- `friend_card.dfy`, `friends_list.dfy`: days remaining, check-in status,
  label and colour, and the urgency order of the list (an insertion sort,
  proved to give a permutation of the friends in non-decreasing order).
- `year_grid.dfy`: the column search of `calculateGridLayout` as a loop
  with invariants, the proof that the chosen grid fits, and the dot status.
- `birthday_wheel_picker.dfy`: days in a month, the day clamping of the
  three column handlers, the item lists, and the `WheelColumn` scroll state.
- `add_friend.dfy`: the form, its save, and the birthday string it writes,
  proved to read back through the notification service's matcher.
- `avatar.dfy`, `glass_menu.dfy`, `device.dfy`, `days_remaining_counter.dfy`:
  initials, the menu's size, anchor and scale transform, the corner radius
  table, and the "N days left" text.
- Shared support: `calendar.dfy` (a Gregorian day count standing for the
  JavaScript `Date`), `strings.dfy` (decimal text, `padStart`, `split`,
  `trim`, ASCII case), `optional.dfy` and `sequences.dfy`.

How the JavaScript is read:

- A date is a `Date(year, month, day)` with months counted from 1. Its
  `DayNumber` counts days from a fixed origin. The multi-argument `Date`
  constructor is modelled with its overflow of months and days, and with
  its reading of years 0..99 as 1900..1999.
- `new Date("YYYY-MM-DD")` is `ParseIsoDate`. It accepts exactly four-digit
  years and existing days, and reads every other string as an invalid date,
  written `None`; NaN comparisons are false, as in JavaScript. This is a
  choice of the model, not JavaScript's full rule: every string the app
  hands to `new Date` is a YYYY-MM-DD date (src/stores/friendsStore.ts:22,
  app/add-friend.tsx:123), so the other forms `Date` also accepts are
  left out (see below).
- `Number(s)` is `ParseNumber`: the empty string is 0, a string of ASCII
  digits is its value, and anything else is NaN (`None`).
- Today's date, the random draws and fresh ids and timestamps are
  parameters.
- Where the documented behaviour and the code differ, the model follows the
  code. Three cases:
  - `getRandomTimeInWindow` never reads its end hour.
  - `generateYearDates` lists nothing for years 0..99.
  - The list's comparator is not a consistent order once a days-remaining
    value is NaN.

## Model

| member | source | states |
|---|---|---|
| Device.GetDeviceCornerRadius | src/utils/device.ts:8-31 | the radius is one of 38, 40, 44, 47, 55 |
| Device.Max | src/utils/device.ts:9 | `Math.max`: one of the two, and at least each of them |
| Device.CornerRadiusSymmetric | src/utils/device.ts:8-9 | width and height are interchangeable: only the longer side decides |
| Device.CornerRadiusBands | src/utils/device.ts:9-30 | the radius of each band of the longer side: 930 and up 55, 920-929 47, 890-919 40, 850-889 55, 840-849 47, 810-839 44, below 810 38 |
| Device.CornerRadiusExamples | src/utils/device.ts:11-30 | the iPhone heights the comments name (932, 926, 896, 852, 844, 812) and a smaller screen get 55, 47, 40, 55, 47, 44 and 38 |
| Device.GetConcentricPadding | src/utils/device.ts:40-42 | inner radius plus padding equals the outer radius |
| DaysRemainingCounter.DayWord | src/features/journal/DaysRemainingCounter.tsx:18 | "day" exactly when the count is 1, "days" exactly otherwise |
| DaysRemainingCounter.CounterText | src/features/journal/DaysRemainingCounter.tsx:20-24 | the text always ends in " left" |
| DaysRemainingCounter.CounterWords | src/features/journal/DaysRemainingCounter.tsx:18-24 | split at spaces, the text is exactly the number, the day word and "left"; the second word is "day" iff the count is 1; a non-negative count reads back from the first word |
| DaysRemainingCounter.CounterTextExamples | src/features/journal/DaysRemainingCounter.tsx:18-24 | 1 gives "1 day left", 0 gives "0 days left", 365 gives "365 days left" |
| ToastStore.Store.constructor | src/stores/toastStore.ts:12-17 | a new store is hidden, with an empty message, no undo action and id 0 |
| ToastStore.Store.ShowToast | src/stores/toastStore.ts:18-25 | shows the message with the given undo action (or none) and increments the id by one |
| ToastStore.Store.HideToast | src/stores/toastStore.ts:27-33 | hides the toast, clears the message and the undo action, and keeps the id |
| FriendsStore.RelationshipLabel | src/stores/friendsStore.ts:8-14 | each category's label is one of the five capitalised names |
| FriendsStore.RelationshipLabelInjective | src/stores/friendsStore.ts:8-14 | distinct categories have distinct labels |
| FriendsStore.WithIdentity | src/stores/friendsStore.ts:63-67 | the stored friend keeps every field of the new friend and gets the given id and creation time |
| FriendsStore.WithoutId | src/stores/friendsStore.ts:76 | a friend is kept exactly when it was present and its id differs; the list never grows |
| FriendsStore.WithoutUnknownId | src/stores/friendsStore.ts:74-78 | removing an id nobody has leaves the list unchanged |
| FriendsStore.WithoutIdAppend | src/stores/friendsStore.ts:76 | removal distributes over concatenation, so the kept friends stay in order |
| FriendsStore.FindById | src/stores/friendsStore.ts:88 | none exactly when no friend has the id; otherwise a present friend with that id and no earlier friend with it |
| FriendsStore.SomeNameMatches | src/stores/friendsStore.ts:83 | true exactly when some friend's lower-cased name equals the given text |
| FriendsStore.SetLastContact | src/stores/friendsStore.ts:100-102 | same length; friends with the id get the new date and nothing else changes; the others are untouched |
| FriendsStore.SetLastContactUndo | src/stores/friendsStore.ts:108-114 | putting back the date each matching friend had restores the list |
| FriendsStore.UniqueMatch | src/stores/friendsStore.ts:93 | with unique ids, every friend with the id is the one found |
| FriendsStore.LogUndoRoundTrip | src/stores/friendsStore.ts:91-114 | with unique ids, logging a catch-up for a known friend and undoing it with the returned date gives back the original list |
| FriendsStore.SetLastContactUnknown | src/stores/friendsStore.ts:100-102 | an unknown id changes nothing |
| FriendsStore.Store.constructor | src/stores/friendsStore.ts:54-56 | a new store has no friends, no pending contact and no category selected |
| FriendsStore.Store.SetPendingContact | src/stores/friendsStore.ts:58-60 | sets the pending contact and nothing else |
| FriendsStore.Store.AddFriend | src/stores/friendsStore.ts:62-72 | appends the new friend, with the given id and creation time, at the end; the rest of the state is unchanged |
| FriendsStore.Store.RemoveFriend | src/stores/friendsStore.ts:74-78 | the list becomes the old one without that id; the rest of the state is unchanged |
| FriendsStore.Store.HasFriend | src/stores/friendsStore.ts:80-84 | true exactly when some friend's name equals the given name up to case |
| FriendsStore.Store.GetFriendById | src/stores/friendsStore.ts:86-89 | the first friend with the id, or none |
| FriendsStore.Store.LogCatchUp | src/stores/friendsStore.ts:91-106 | an unknown id returns none and changes nothing; otherwise returns the friend's previous date and sets today's ISO date on every friend with the id |
| FriendsStore.Store.UndoCatchUp | src/stores/friendsStore.ts:108-114 | sets the given date on every friend with the id; nothing else changes |
| FriendsStore.Store.SetSelectedCategory | src/stores/friendsStore.ts:116-118 | sets the selected category and nothing else |
| NotificationStateStore.DaysBetween | src/stores/notificationStateStore.ts:45-54 | a number exactly when both strings are dates, and then the second day's number less the first's |
| NotificationStateStore.DaysBetweenParsed | src/stores/notificationStateStore.ts:45-54 | between two strings that parse, the difference of their day numbers |
| NotificationStateStore.DaysBetweenAntisymmetric | src/stores/notificationStateStore.ts:45-54 | swapping the arguments negates the result; a date is zero days from itself |
| NotificationStateStore.DaysBetweenDays | src/stores/notificationStateStore.ts:37-54 | between the date strings of two days, the difference of their day numbers |
| NotificationStateStore.TodayDateString | src/stores/notificationStateStore.ts:37-40 | today's date string parses back to today for years 0..9999 |
| NotificationStateStore.Store.constructor | src/stores/notificationStateStore.ts:27-32 | a new store is in the initial state: no dates recorded, both flags false |
| NotificationStateStore.Store.SetLastBirthdayNotificationDate | src/stores/notificationStateStore.ts:61-63 | sets the birthday date (null allowed); the other fields stay |
| NotificationStateStore.Store.SetLastCatchUpNotificationDate | src/stores/notificationStateStore.ts:65-72 | the friend's entry becomes the date, the other entries and fields stay |
| NotificationStateStore.Store.ClearCatchUpNotificationDate | src/stores/notificationStateStore.ts:74-79 | the friend's entry is removed, the other entries and fields stay |
| NotificationStateStore.Store.SetHasRequestedPermission | src/stores/notificationStateStore.ts:81-83 | sets that flag only |
| NotificationStateStore.Store.SetPendingPermissionRequest | src/stores/notificationStateStore.ts:85-87 | sets that flag only |
| NotificationStateStore.Store.Reset | src/stores/notificationStateStore.ts:110-112 | all four fields return to the initial state |
| NotificationStateStore.Store.ShouldSendBirthdayNotification | src/stores/notificationStateStore.ts:89-95 | true exactly when no non-empty date is recorded or the recorded date is not today's |
| NotificationStateStore.Store.ShouldSendCatchUpNotification | src/stores/notificationStateStore.ts:97-108 | true for a friend never notified and for one whose recorded date is empty; for a recorded non-empty date, true exactly when it parses and at least the frequency in days has passed |
| NotificationStateStore.Store.BirthdayNotRepeated | src/stores/notificationStateStore.ts:89-95 | once today's date is recorded, the birthday notification is not sent again today |
| NotificationStateStore.Store.CatchUpDueAfterFrequency | src/stores/notificationStateStore.ts:97-108 | a catch-up recorded on some day is due again exactly when the frequency in days has passed since that day |
| JournalStore.UpsertedEntry | src/stores/journalStore.ts:40-45 | the stored entry has the new content and update time; an existing entry keeps its id, date and creation time, a new one gets the fresh id, the key's date and creation time now |
| JournalStore.Store.constructor | src/stores/journalStore.ts:31 | a new journal has no entries |
| JournalStore.Store.GetEntryByDate | src/stores/journalStore.ts:33-36 | the entry under the key when there is one, none otherwise |
| JournalStore.Store.HasEntryForDate | src/stores/journalStore.ts:56-59 | true exactly when a lookup finds an entry |
| JournalStore.Store.UpsertEntry | src/stores/journalStore.ts:38-48 | the day's key maps to the upserted entry and no other key changes |
| JournalStore.Store.DeleteEntry | src/stores/journalStore.ts:50-54 | the day's key is removed and no other key changes |
| JournalStore.UpsertFrame | src/stores/journalStore.ts:47 | after an upsert the day holds the new entry and every other day is as it was |
| JournalStore.DeleteFrame | src/stores/journalStore.ts:52-53 | after a delete the day is gone, every other day is as it was, and deleting twice is deleting once |
| JournalStore.UpsertTwice | src/stores/journalStore.ts:43-45 | a second upsert of the same day keeps the id and creation time of the first |
| JournalDateHelpers.DateFields | src/utils/journalDateHelpers.ts:21 | the three fields exist exactly when the string splits at '-' into at least three parts whose first three are all digits |
| JournalDateHelpers.ToDateString | src/utils/journalDateHelpers.ts:10-15 | the journal key: `String` of the full year, then the month and the day padded to two digits; what it reads back as is stated by SplitDateString, ToDateStringIsIso and ToDateStringInjective |
| JournalDateHelpers.ParseDateString | src/utils/journalDateHelpers.ts:20-23 | defined exactly when the fields are, and then the day number of `new Date(year, month - 1, day)` with the constructor's overflow and two-digit-year rules |
| JournalDateHelpers.SplitDateString | src/utils/journalDateHelpers.ts:10-15 | a key splits at '-' into exactly the year, the padded month and the padded day |
| JournalDateHelpers.ParseDateStringRoundTrip | src/utils/journalDateHelpers.ts:10-23 | the key of a valid day reads back as that day's fields; parsing it gives back the same day for years from 100, and the day 1900 years later for years 0..99 |
| JournalDateHelpers.ToDateStringIsIso | src/utils/journalDateHelpers.ts:10-15 | for four-digit years the key is the ISO 8601 calendar date and parses strictly back to the day |
| JournalDateHelpers.ToDateStringInjective | src/utils/journalDateHelpers.ts:10-15 | two valid days of the same year with the same key are the same day |
| JournalDateHelpers.DaysRemainingInYear | src/utils/journalDateHelpers.ts:28-37 | for years the constructor does not remap, the year's length less the days already elapsed, between 1 and the year's length |
| JournalDateHelpers.DaysRemainingAtEnds | src/utils/journalDateHelpers.ts:28-37 | 1 January has the whole year left and 31 December has one day left, today included |
| JournalDateHelpers.YearDays | src/utils/journalDateHelpers.ts:42-52 | one day per day of the year, the i-th being the year's (i+1)-th day |
| JournalDateHelpers.YearDates | src/utils/journalDateHelpers.ts:42-52 | as many keys as the year has days, the i-th being the key of its i-th day |
| JournalDateHelpers.GenerateYearDates | src/utils/journalDateHelpers.ts:42-52 | the loop lists exactly the keys of every day of the year, in order; for years 0..99, whose first day the constructor moves to 1900..1999, it lists nothing |
| JournalDateHelpers.YearStep | src/utils/journalDateHelpers.ts:46-49 | one turn of the loop extends the listed prefix by the current day's key and moves to the next day |
| JournalDateHelpers.YearDaysBounds | src/utils/journalDateHelpers.ts:44-48 | the days run from 1 January to 31 December, each the day after the previous one |
| JournalDateHelpers.LeapDayListed | src/utils/journalDateHelpers.ts:42-52 | 29 February's key is in the list exactly in leap years |
| JournalDateHelpers.YearDates2025 | src/utils/journalDateHelpers.ts:42-52 | 2025 has 365 keys, with "2025-02-01", "2025-02-28" and "2025-03-01" at positions 31, 58 and 59 |
| JournalDateHelpers.IsPastOrToday | src/utils/journalDateHelpers.ts:78-84 | true exactly when the string parses and its day is not after today; an unparsable string is never past |
| JournalDateHelpers.IsToday | src/utils/journalDateHelpers.ts:71-73 | a key is today's exactly when it equals the key of today, which is a parameter; TodayIsPastOrToday states that today's key is today |
| JournalDateHelpers.TodayIsPastOrToday | src/utils/journalDateHelpers.ts:71-84 | today's key is today, and the key of today or any earlier day is past-or-today |
| JournalDateHelpers.FutureIsNotPastOrToday | src/utils/journalDateHelpers.ts:78-84 | the key of a later day is not past-or-today |
| BirthdayWheelPicker.DaysInMonthOf | src/components/BirthdayWheelPicker/BirthdayWheelPicker.tsx:193-196 | between 28 and 31; for a month index 0..11 the length of that month in the given year, or in 2001 without a year, with years 0..99 read as 1900..1999 |
| BirthdayWheelPicker.FebruaryLengths | src/components/BirthdayWheelPicker/BirthdayWheelPicker.tsx:193-196 | February has 28 days without a year, 29 in 2000 and 28 in 1900; January 31 and April 30 |
| BirthdayWheelPicker.HandleDayChange | src/components/BirthdayWheelPicker/BirthdayWheelPicker.tsx:220-225 | only the day changes |
| BirthdayWheelPicker.HandleMonthChange | src/components/BirthdayWheelPicker/BirthdayWheelPicker.tsx:227-234 | the new month and the same year; the day is the old day or the new month's length, whichever is smaller; a valid day and month give a valid birthday |
| BirthdayWheelPicker.HandleYearChange | src/components/BirthdayWheelPicker/BirthdayWheelPicker.tsx:236-245 | "none" clears the year and digits set it to their value; the month stays; the day is cut to the month's length in the new year; a valid day and month give a valid birthday |
| BirthdayWheelPicker.ClampExamples | src/components/BirthdayWheelPicker/BirthdayWheelPicker.tsx:220-245 | 31 January moved to February becomes the 28th without a year and the 29th in 2000; a day change and clearing the year keep the rest |
| BirthdayWheelPicker.LeapDayLosesYear | src/components/BirthdayWheelPicker/BirthdayWheelPicker.tsx:236-245 | clearing the year of 29 February of a leap year moves the day to the 28th |
| BirthdayWheelPicker.DayItems | src/components/BirthdayWheelPicker/BirthdayWheelPicker.tsx:203-207 | the loop yields one row per day 1..maxDays, row i labelled and valued i+1, and none when maxDays is below 1 |
| BirthdayWheelPicker.MonthItems | src/components/BirthdayWheelPicker/BirthdayWheelPicker.tsx:185-212 | twelve rows, row i being the i-th month name with value i |
| BirthdayWheelPicker.YearItems | src/components/BirthdayWheelPicker/BirthdayWheelPicker.tsx:214-218 | the loop yields a "----"/"none" row, then one row per year from the current year down to 1920, label and value the year's digits |
| BirthdayWheelPicker.SelectedIndex | src/components/BirthdayWheelPicker/BirthdayWheelPicker.tsx:109-112 | the first row holding the value, or row 0 when no row holds it; always a row of a non-empty list |
| BirthdayWheelPicker.NatToStringInjective | src/components/BirthdayWheelPicker/BirthdayWheelPicker.tsx:216 | different years have different labels |
| BirthdayWheelPicker.YearRowIndex | src/components/BirthdayWheelPicker/BirthdayWheelPicker.tsx:214-218 | year y of the list is selected at row 1 + (current year - y) |
| BirthdayWheelPicker.YearRowsAccepted | src/components/BirthdayWheelPicker/BirthdayWheelPicker.tsx:215-238 | every value the year column holds is "none" or digits, which the year handler reads |
| BirthdayWheelPicker.Round | src/components/BirthdayWheelPicker/BirthdayWheelPicker.tsx:128 | the nearest integer, halves rounded up |
| BirthdayWheelPicker.ClampIndex | src/components/BirthdayWheelPicker/BirthdayWheelPicker.tsx:129 | always a valid row; an index inside the list is kept, one below goes to 0 and one above to the last row |
| BirthdayWheelPicker.SnappedIndex | src/components/BirthdayWheelPicker/BirthdayWheelPicker.tsx:127-129 | always a valid row |
| BirthdayWheelPicker.SnapToRow | src/components/BirthdayWheelPicker/BirthdayWheelPicker.tsx:117-129 | a column scrolled exactly to row k's offset snaps back to row k |
| BirthdayWheelPicker.WheelColumn.constructor | src/components/BirthdayWheelPicker/BirthdayWheelPicker.tsx:106-107 | not scrolling and no row reported (-1) |
| BirthdayWheelPicker.WheelColumn.HandleScrollBeginDrag | src/components/BirthdayWheelPicker/BirthdayWheelPicker.tsx:139-141 | marks the column as scrolled by the user and nothing else |
| BirthdayWheelPicker.WheelColumn.SyncToSelection | src/components/BirthdayWheelPicker/BirthdayWheelPicker.tsx:114-122 | unless the user is scrolling, the selected row becomes the last reported one |
| BirthdayWheelPicker.WheelColumn.HandleMomentumScrollEnd | src/components/BirthdayWheelPicker/BirthdayWheelPicker.tsx:124-137 | scrolling ends; the snapped row is reported exactly when it differs from the last one reported, and it becomes the last reported row |
| NotificationService.FirstName | src/services/notificationService.ts:18-20 | a prefix of the name holding no space, followed in the name by a space when it is not the whole name |
| NotificationService.FirstNameOf | src/services/notificationService.ts:18-20 | the first name of "first rest" is "first" |
| NotificationService.FormatBirthdayTitle | src/services/notificationService.ts:28-47 | empty exactly when there are no friends |
| NotificationService.BirthdayTitleOne | src/services/notificationService.ts:31-35 | one friend gives "It's John's birthday 🎉" from the first word of the full name |
| NotificationService.BirthdayTitleTwo | src/services/notificationService.ts:31-41 | for any two names, the title joins the text before each name's first space with " and ", so "John Doe" and "Jane Smith" give "It's John and Jane's birthday 🎉" |
| NotificationService.BirthdayTitleThree | src/services/notificationService.ts:31-46 | for any three names, the title holds the first words of the first two names and "1 other's" |
| NotificationService.BirthdayTitleMany | src/services/notificationService.ts:31-46 | for four or more names, the title holds the first words of the first two names and the count of the others with "others'" |
| NotificationService.FormatBirthdayBody | src/services/notificationService.ts:52-54 | the body is exactly "Send wishes, make their day!" |
| NotificationService.FormatCatchUpTitle | src/services/notificationService.ts:59-61 | the fourteen characters "Catch'up with " followed by the full name, unchanged |
| NotificationService.FormatCatchUpBody | src/services/notificationService.ts:66-72 | "today" for zero, "1 day ago" for one, and the number with "days ago" for anything else, NaN included |
| NotificationService.CatchUpTextExamples | src/services/notificationService.ts:59-72 | the texts for John Doe and for 1, 7, 0 and NaN days |
| NotificationService.IsLeapYearDate | src/services/notificationService.ts:129-132 | a date is in a leap year exactly when its year has 366 days |
| NotificationService.IsBirthdayOnDate | src/services/notificationService.ts:93-124 | a missing, empty or unreadable birthday never matches; which dates a birthday matches is stated by BirthdayOncePerYear, LeapDayBirthday, ImpossibleBirthdayNever and BirthdayYearIgnored |
| NotificationService.IsBirthdayToday | src/services/notificationService.ts:82-87 | the same matcher against today, which is a parameter; no contract of its own |
| NotificationService.BirthdayFields | src/services/notificationService.ts:100-114 | the fields found are numbers and never negative |
| NotificationService.MonthDayFields | src/services/notificationService.ts:104-108 | an MM-DD string names its two fields |
| NotificationService.FullDateFields | src/services/notificationService.ts:109-114 | a YYYY-MM-DD string names its second and third fields, whatever the first holds |
| NotificationService.CelebrationDay | src/services/notificationService.ts:116-123 | a valid day of the requested year |
| NotificationService.BirthdayOncePerYear | src/services/notificationService.ts:93-124 | a birthday some leap year has falls on exactly one day of every year: its own, or 28 February for 29 February in a common year |
| NotificationService.ImpossibleBirthdayNever | src/services/notificationService.ts:118-123 | a birthday naming no real day (month 13, 31 April) never matches a valid date |
| NotificationService.LeapDayBirthday | src/services/notificationService.ts:116-132 | a 29 February birthday matches 29 February in leap years and 28 February otherwise |
| NotificationService.BirthdayYearIgnored | src/services/notificationService.ts:100-114 | YYYY-MM-DD and MM-DD birthdays with the same month and day match the same dates |
| NotificationService.GetDaysSinceLastContact | src/services/notificationService.ts:151-163 | a number exactly when the string is a date, and then today's day number less the contact's |
| NotificationService.DaysSinceParsed | src/services/notificationService.ts:151-163 | for a last contact that parses, today's day number less the contact's |
| NotificationService.DaysSinceDay | src/services/notificationService.ts:151-163 | for the ISO date of a day, the difference of day numbers: zero for today, negative for a later day |
| NotificationService.TimeInWindow | src/services/notificationService.ts:137-146 | the trigger's minute is a whole minute from 0 to 59, with no seconds and no milliseconds; its day and hour are stated by TimeInWindowBounds |
| NotificationService.TimeInWindowBounds | src/services/notificationService.ts:137-146 | the trigger is tomorrow at the start hour (an hour outside 0..23 carries into the day) and a whole minute 0..59, with no seconds |
| NotificationService.GetRandomTimeInWindow | src/services/notificationService.ts:137-146 | the method computes the trigger the window function defines: tomorrow, the start hour, the minute of the draw |
| NotificationService.WindowDrawsDiffer | src/services/notificationService.ts:142 | draws of 0.1 and 0.9 give minutes 6 and 54 |
| NotificationService.IsFriendDueForCatchUp | src/services/notificationService.ts:254-259 | only a friend with a frequency set and a last contact that parses can be due; when it is due is stated by DueAfterFrequency |
| NotificationService.DueAfterFrequency | src/services/notificationService.ts:254-259 | a friend last seen on a day, with a frequency set, is due exactly when that many days have passed |
| NotificationService.Names | src/services/notificationService.ts:212 | the friends' names, in order |
| NotificationService.Ids | src/services/notificationService.ts:216 | the friends' ids, in order |
| NotificationService.CatchUpFor | src/services/notificationService.ts:229-249 | the content `scheduleCatchUpNotification` gives a friend; no contract of its own, what it says is stated by CatchUpForSays |
| NotificationService.CatchUpForSays | src/services/notificationService.ts:229-249 | the catch-up notification is titled "Catch'up with " and the name, tells the days since the last contact, and carries the friend's id |
| NotificationService.BirthdayFriends | src/services/notificationService.ts:281 | never longer than the friends list; its members and order are stated by BirthdayFriendsMembers and BirthdayFriendsInOrder |
| NotificationService.CatchUpFriends | src/services/notificationService.ts:285-297 | never longer than the friends list; its members and order are stated by CatchUpFriendsMembers and CatchUpFriendsInOrder |
| NotificationService.BirthdayFriendsMembers | src/services/notificationService.ts:281 | a friend is in the birthday list exactly when its birthday falls on tomorrow |
| NotificationService.BirthdayIdsExactly | src/services/notificationService.ts:281-284 | an id is among the birthday friends' ids exactly when some friend with that id has a birthday tomorrow |
| NotificationService.BirthdayFriendsInOrder | src/services/notificationService.ts:281 | the birthday list is the friends at strictly increasing positions of the friends list, and every friend whose birthday is tomorrow is at one of them |
| NotificationService.CatchUpFriendsMembers | src/services/notificationService.ts:285-297 | for any set of excluded ids, a friend is in the catch-up list exactly when its id is not excluded, it is due, and it may be notified again |
| NotificationService.CatchUpFriendsInOrder | src/services/notificationService.ts:285-297 | the catch-up list is the friends at strictly increasing positions of the friends list, and every friend not excluded, due and allowed is at one of them |
| NotificationService.CatchUpFriendsOfPlan | src/services/notificationService.ts:281-297 | in a run, a friend is a catch-up friend exactly when no friend sharing its id has a birthday tomorrow, it is due, and its catch-up may be sent |
| NotificationService.CatchUpIdsOutsideBirthdays | src/services/notificationService.ts:284-297 | no catch-up friend carries the id of a birthday friend |
| NotificationService.IdSet | src/services/notificationService.ts:284 | exactly the friends' ids: every friend's id is in the set and every id in it is some friend's |
| NotificationService.CatchUpContents | src/services/notificationService.ts:306-309 | one notification per friend; which one is stated by CatchUpContentsAt |
| NotificationService.CatchUpContentsAt | src/services/notificationService.ts:306-309 | the j-th catch-up notification is the j-th catch-up friend's |
| NotificationService.PlannedBirthday | src/services/notificationService.ts:300-303 | at most one notification, and one exactly when it may be sent and the birthday list is not empty |
| NotificationService.PlannedCatchUps | src/services/notificationService.ts:306-309 | one notification per catch-up friend of the run |
| NotificationService.Plan | src/services/notificationService.ts:267-310 | nothing is planned for an empty friends list; its shape is stated by PlanOrder, PlanBirthday, PlanCatchUps and PlanNoDoubles |
| NotificationService.PlanOrder | src/services/notificationService.ts:275-309 | nothing is planned without friends; only the first notification can be a birthday one |
| NotificationService.PlanBirthday | src/services/notificationService.ts:281-303 | a birthday notification is planned exactly when it may be sent and somebody's birthday is tomorrow; it is then the first, it is the birthday friends' notification, its ids are their ids and its title is built from their names, both in list order |
| NotificationService.BirthdayFriendsNonEmpty | src/services/notificationService.ts:281-300 | the birthday list is non-empty exactly when somebody's birthday is tomorrow |
| NotificationService.PlanNoDoubles | src/services/notificationService.ts:283-287 | nobody named in the birthday notification also gets a catch-up notification |
| NotificationService.PlanBirthdayFirst | src/services/notificationService.ts:300-309 | a plan opening with a birthday notification holds exactly one |
| NotificationService.PlanAfterBirthday | src/services/notificationService.ts:300-309 | when a birthday notification is planned, it opens the plan and is followed by one catch-up notification per catch-up friend, in order, each carrying that friend's id |
| NotificationService.PlanCatchUps | src/services/notificationService.ts:300-309 | after the birthday notification, if any, the plan holds exactly one notification per catch-up friend, the j-th being the j-th catch-up friend's |
| NotificationService.DueFriendIsCatchUpFriend | src/services/notificationService.ts:285-297 | a due friend that no birthday friend shares an id with, and whose catch-up may be sent, is a catch-up friend |
| NotificationService.DueFriendGetsCatchUp | src/services/notificationService.ts:285-309 | such a friend gets its catch-up notification, after the birthday one |
| NotificationService.ContentsAppend | src/services/notificationService.ts:210-248 | scheduling one more notification appends its content |
| NotificationService.TriggersAppend | src/services/notificationService.ts:306-309 | appending a notification drawn with the next draw keeps every trigger on its own draw |
| NotificationService.CatchUpScheduled | src/services/notificationService.ts:306-309 | one more catch-up extends the schedule by the next planned content and keeps the triggers on their draws |
| NotificationService.ScheduleComplete | src/services/notificationService.ts:267-310 | a schedule holding the birthday notification, if any, and then every catch-up is the plan |
| NotificationService.Scheduler.constructor | src/services/notificationService.ts:169 | nothing is scheduled |
| NotificationService.Scheduler.CancelAllScheduled | src/services/notificationService.ts:199-201 | nothing is scheduled afterwards |
| NotificationService.Scheduler.ScheduleBirthdayNotification | src/services/notificationService.ts:206-224 | appends one notification naming the friends, at the given time |
| NotificationService.Scheduler.ScheduleCatchUpNotification | src/services/notificationService.ts:229-249 | appends one notification for the friend, with the days since the last contact, at the given time |
| NotificationService.Scheduler.ScheduleCatchUps | src/services/notificationService.ts:305-309 | the loop appends one catch-up notification per friend, in order, the k-th scheduled notification at the minute of the k-th draw |
| NotificationService.Scheduler.ScheduleNextCatchUp | src/services/notificationService.ts:307-308 | one turn of the loop: the next friend's notification at the minute of the next draw |
| NotificationService.Scheduler.ScheduleAllNotifications | src/services/notificationService.ts:267-310 | afterwards exactly the plan is scheduled, in order, each notification tomorrow at 9 and the minute of its own draw |
| FriendCard.GetDaysRemaining | src/features/friends/FriendCard.tsx:18-30 | a number exactly when the last contact is a date |
| FriendCard.DaysRemainingParsed | src/features/friends/FriendCard.tsx:18-30 | for a last contact that parses, the frequency less the days since that day |
| FriendCard.DaysRemainingMatchesDaysSince | src/features/friends/FriendCard.tsx:18-30 | the days remaining are the frequency less the days since the last contact as the notification engine counts them, and the engine finds a friend due exactly when none remain |
| FriendCard.DaysRemainingOfDay | src/features/friends/FriendCard.tsx:18-30 | for a contact on a given day, the frequency less the days since then; exactly the frequency when that day is today |
| FriendCard.GetCheckInStatus | src/features/friends/FriendCard.tsx:32-37 | overdue exactly below zero, due today exactly at zero, due soon exactly from 1 to 3, on track above 3 or for NaN |
| FriendCard.AbsNumber | src/features/friends/FriendCard.tsx:40 | NaN stays NaN; a number becomes its non-negative magnitude |
| FriendCard.GetStatusLabel | src/features/friends/FriendCard.tsx:39-43 | due today shows "Check in today" |
| FriendCard.StatusLabelOf | src/features/friends/FriendCard.tsx:39-43 | a negative count shows its magnitude with "days overdue", zero shows "Check in today", a positive count shows "N days", and in every case but zero the first word reads back as the magnitude |
| FriendCard.OverdueLabel | src/features/friends/FriendCard.tsx:40 | a negative count shows the digits of its magnitude and " days overdue" |
| FriendCard.OnTrackLabel | src/features/friends/FriendCard.tsx:42 | a positive count shows its digits and " days" |
| FriendCard.StatusLabelExamples | src/features/friends/FriendCard.tsx:39-43 | -3, 2, 25 and NaN give "3 days overdue", "2 days", "25 days" and "NaN days" |
| FriendCard.GetStatusColor | src/features/friends/FriendCard.tsx:45-55 | the error colour exactly for overdue, the primary colour exactly for due today and due soon, the success colour exactly for on track |
| FriendCard.AccessibilityLabel | src/features/friends/FriendCard.tsx:67 | the name, two characters, then the status label |
| FriendCard.RenderCard | src/features/friends/FriendCard.tsx:57-67 | the card shows the friend's own days remaining (frequency less days since the last contact), the status, label and colour of that count, and the accessibility label made of the friend's name, a comma and the status label |
| FriendCard.CardOfContactDay | src/features/friends/FriendCard.tsx:57-67 | for a friend last contacted on a given day: the card counts the frequency less the days since, is overdue exactly past the frequency, due today exactly at it, red exactly when overdue, and with a frequency set shows overdue or due today exactly when the notification engine finds the friend due |
| FriendCard.ContactedTodayOnTrack | src/features/friends/FriendCard.tsx:57-67 | a weekly friend contacted today is on track with "7 days" and the label "name, 7 days" |
| FriendCard.CardOfSevenDays | src/features/friends/FriendCard.tsx:57-67 | seven days remaining show on track, "7 days", and the label "name, 7 days" |
| FriendsList.DaysRemaining | src/features/friends/FriendsList.tsx:16-28 | equals the card's days remaining for the same friend |
| FriendsList.UrgencyTotal | src/features/friends/FriendsList.tsx:39 | any two keys are ordered one way or the other |
| FriendsList.Insert | src/features/friends/FriendsList.tsx:39 | inserting into a sorted list gives a sorted list holding one more friend and otherwise the same friends |
| FriendsList.HeadBeforeInserted | src/features/friends/FriendsList.tsx:39 | the head of a sorted list stays first when a less urgent friend is inserted after it |
| FriendsList.SortBy | src/features/friends/FriendsList.tsx:39 | the same friends, as a multiset, in non-decreasing key order |
| FriendsList.SortFriendsByUrgency | src/features/friends/FriendsList.tsx:38-40 | the same friends, ordered by days remaining, fewest first |
| FriendsList.MostUrgentFirst | src/features/friends/FriendsList.tsx:37-40 | the first friend of the list is at least as urgent as every friend |
| FriendsList.RenderList | src/features/friends/FriendsList.tsx:42-60 | the empty state exactly when there are no friends; otherwise the same friends in urgency order |
| FriendsList.SortThree | src/features/friends/FriendsList.tsx:39 | keys 25, -3 and 2 come out in the order -3, 2, 25 |
| FriendsList.UrgencyExample | src/features/friends/FriendsList.tsx:37-40 | an on-track (25), an overdue (-3) and a due-soon (2) friend are listed overdue, due soon, on track |
| YearGrid.Rows | src/features/journal/YearGrid.tsx:34 | the fewest rows of that many columns holding every day: enough cells, and one row fewer would not be |
| YearGrid.GridWidth | src/features/journal/YearGrid.tsx:73 | columns times the cell size plus the gaps between columns; that it fits is stated by LayoutFits |
| YearGrid.MinReal | src/features/journal/YearGrid.tsx:42 | the smaller of the two |
| YearGrid.CalculateGridLayout | src/features/journal/YearGrid.tsx:25-51 | the loop keeps a column count from 12 to 25 whose cell is the largest any count allows and the first such; the cell size is that size rounded down; with no positive size, 12 columns of size 0 |
| YearGrid.LineFits | src/features/journal/YearGrid.tsx:37-39 | cells of at most the computed limit, with their gaps, fit in the available length |
| YearGrid.LayoutFits | src/features/journal/YearGrid.tsx:33-73 | the chosen layout has a cell for every day and, with its gaps, fits within the available width and height |
| YearGrid.NoFitWidth | src/features/journal/YearGrid.tsx:30-73 | when nothing fits, the grid is 12 columns of empty cells, 22 wide |
| YearGrid.GetDotStatus | src/features/journal/YearGrid.tsx:92-105 | today exactly for today's key; future exactly for a key that is not today and not past; past with or without an entry according to whether the journal has the key |
| YearGrid.DateKeyInjective | src/features/journal/YearGrid.tsx:78-84 | different days have different keys |
| YearGrid.DotStatusOfDay | src/features/journal/YearGrid.tsx:92-105 | a day's dot is today exactly for today and future exactly for a later day; an earlier day shows an entry exactly when the journal has its key |
| YearGrid.RenderYearGrid | src/features/journal/YearGrid.tsx:57-90 | the dots are the year's day keys in order, laid out as calculated, the grid width is columns times cell size plus the gaps and fits the width whenever the cells are not empty, and each dot has its day's status |
| Avatar.CharAt0 | src/components/Avatar/Avatar.tsx:22-26 | one character, the first, for a non-empty word; empty otherwise |
| Avatar.GetInitials | src/components/Avatar/Avatar.tsx:17-28 | at most two characters, and "?" for a blank name; the shape of the initials is stated by InitialsShape |
| Avatar.WordInitials | src/components/Avatar/Avatar.tsx:21-27 | at most two characters; which ones is stated by WordInitialsShape |
| Avatar.WordInitialsShape | src/components/Avatar/Avatar.tsx:21-27 | non-empty first and last words give one letter for one word and two for several: the upper-cased first letters of the first and the last word |
| Avatar.InitialsShape | src/components/Avatar/Avatar.tsx:17-28 | a blank name shows "?"; any other name shows one or two characters, the first being its first visible character upper-cased, and one exactly when the trimmed name is a single word |
| Avatar.InitialsOfTrimmed | src/components/Avatar/Avatar.tsx:20-27 | a trimmed, non-empty name gives one or two letters starting with its own first letter upper-cased, one exactly when it has no white space |
| Avatar.InitialsOfWord | src/components/Avatar/Avatar.tsx:21-23 | a single word shows its first letter upper-cased |
| Avatar.InitialsOfTwoWords | src/components/Avatar/Avatar.tsx:25-27 | two words show the upper-cased first letter of each |
| Avatar.InitialsOfThreeWords | src/components/Avatar/Avatar.tsx:25-27 | three words show the first letters of the first and the last word; the middle one is skipped |
| Avatar.InitialsIgnorePadding | src/components/Avatar/Avatar.tsx:18-20 | white space around the name does not change its initials |
| Avatar.InitialsOfJohnDoe | src/components/Avatar/Avatar.tsx:13-28 | "John Doe" gives "JD" |
| Avatar.InitialsOfMadonna | src/components/Avatar/Avatar.tsx:14-28 | "Madonna" gives "M" |
| Avatar.InitialsOfMaryJaneWatson | src/components/Avatar/Avatar.tsx:15-28 | "Mary Jane Watson" gives "MW" |
| Avatar.InitialsOfBlank | src/components/Avatar/Avatar.tsx:18 | a name of spaces gives "?" |
| Avatar.RenderAvatar | src/components/Avatar/Avatar.tsx:30-67 | the photo exactly when an image URI is present and non-empty; otherwise the name's initials at 40% of the size; the size defaults to 80, the radius is half the size, and the label is "name's avatar" |
| GlassMenu.MenuHeight | src/components/GlassMenu/GlassMenu.tsx:103 | one item height per item plus the vertical padding twice, so at least 12 |
| GlassMenu.GetDirectionStyles | src/components/GlassMenu/GlassMenu.tsx:51-58 | below the trigger exactly for 'down', with a 4-point margin either way |
| GlassMenu.Clamp | src/components/GlassMenu/GlassMenu.tsx:73 | the value kept within the bounds: itself inside them, the nearer bound outside |
| GlassMenu.GetAnchorOffset | src/components/GlassMenu/GlassMenu.tsx:64-83 | x within the menu's width: a touch point's x clamped into it, else the left or right corner by alignment; y is 0 for 'down' and the menu's height for 'up' |
| GlassMenu.ApplyOp | src/components/GlassMenu/GlassMenu.tsx:143-152 | a `translateX`, `translateY` or `scale` entry moves or scales a vector along its axis |
| GlassMenu.ViewCentre | src/components/GlassMenu/GlassMenu.tsx:166-172 | the default transform origin is the centre of the view, half the menu's width and half its height |
| GlassMenu.ApplyOps | src/components/GlassMenu/GlassMenu.tsx:143-152 | a transform list as a product of matrices, its last entry acting first; AnimatedTransformFixes and AnchorIsFixed state what the menu's lists do |
| GlassMenu.TransformView | src/components/GlassMenu/GlassMenu.tsx:166-172 | a view's transform acts about its transform origin; stated for the menu by AnimatedTransformFixes and AnchorIsFixed |
| GlassMenu.AnimatedTransform | src/components/GlassMenu/GlassMenu.tsx:143-152 | the list as written: translate by the offset, scale, translate back; AnimatedTransformFixes and AnchorDrifts state its effect |
| GlassMenu.MenuTransform | src/components/GlassMenu/GlassMenu.tsx:138-152 | the list corrected for the centre origin, translating by the offset less the centre; AnchorIsFixed states its effect |
| GlassMenu.AnimatedTransformFixes | src/components/GlassMenu/GlassMenu.tsx:139-153 | the written transform list, applied about the centre, scales every point towards the centre moved by the offset, the only point it leaves in place |
| GlassMenu.AnchorDrifts | src/components/GlassMenu/GlassMenu.tsx:64-83 | as written, the anchor moves by (1 − scale) times the centre; at the start scale 0.85 the top-left anchor sits 12 points right and 0.075 heights down |
| GlassMenu.AnchorIsFixed | src/components/GlassMenu/GlassMenu.tsx:138-153 | with the transform corrected for the centre origin, every point is scaled towards the anchor offset, which alone stays put: the menu grows out of it |
| GlassMenu.RenderMenu | src/components/GlassMenu/GlassMenu.tsx:156-214 | nothing when hidden; otherwise one row per item, in order, with its label and value, checked exactly when its value is the selected value |
| GlassMenu.AtMostOneChecked | src/components/GlassMenu/GlassMenu.tsx:182-204 | items with distinct values check at most one row |
| AddFriend.FrequencyLabel | app/add-friend.tsx:164 | the label shown for a frequency is 'None' exactly when no frequency is chosen |
| AddFriend.FrequencyMenuAgrees | app/add-friend.tsx:28-41 | every frequency menu item offers an accepted frequency whose displayed label is the item's own label, and no frequency is offered twice |
| AddFriend.FrequencyMenuComplete | app/add-friend.tsx:22-41 | every accepted frequency (7, 14, 30, 90 or none) is offered by some menu item |
| AddFriend.RelationshipMenuComplete | app/add-friend.tsx:24-26 | every relationship category is offered by some menu item labelled with the store's label for it |
| AddFriend.EncodeBirthday | app/add-friend.tsx:111-116 | the saved birthday string has at least the five characters of 'MM-DD' |
| AddFriend.EncodeBirthdayRoundTrip | app/add-friend.tsx:111-116 | the saved birthday, with or without a year, reads back through the notification engine's parser as the picked month (counted from 1) and day |
| AddFriend.EncodeBirthdayLength | app/add-friend.tsx:111-116 | without a year the string is five characters; with a four-digit year it is the ten-character ISO date of that day |
| AddFriend.EncodedBirthdayIsThatDay | app/add-friend.tsx:111-116 | a picked birthday with a four-digit year parses as an ISO date back to that very day |
| AddFriend.SavedBirthdayCelebrated | app/add-friend.tsx:111-121 | the friend saved with a picked birthday has a birthday on a date exactly when it is that year's celebration day (28 February in a common year for a 29 February birthday) |
| AddFriend.NewFriendOf | app/add-friend.tsx:118-125 | the new friend takes the contact's name and photo, the encoded birthday, the chosen frequency and the chosen category |
| AddFriend.SavedLastContactReadsBack | app/add-friend.tsx:123 | the last contact saved from a picked day reads back as that day |
| AddFriend.Form.constructor | app/add-friend.tsx:79-83 | a fresh form has no birthday and no last catch-up, a weekly frequency and the 'friend' category |
| AddFriend.Form.IsFormValid | app/add-friend.tsx:100 | a birthday, a last catch-up and a frequency are all chosen; no contract of its own, what it gates is stated by HandleSave |
| AddFriend.Form.PrefillBirthday | app/add-friend.tsx:93-98 | the pending contact's birthday, when it has one, replaces the birthday field; nothing else changes |
| AddFriend.Form.SetBirthday | app/add-friend.tsx:80 | the birthday field becomes the picked value; nothing else changes |
| AddFriend.Form.ConfirmLastCatchUp | app/add-friend.tsx:149-152 | the last catch-up becomes the confirmed date; nothing else changes |
| AddFriend.Form.SelectFrequency | app/add-friend.tsx:82 | the frequency becomes the selected option; nothing else changes |
| AddFriend.Form.SelectCategory | app/add-friend.tsx:83 | the category becomes the selected one; nothing else changes |
| AddFriend.Form.HandleSave | app/add-friend.tsx:100-134 | without a pending contact or with an incomplete form nothing changes; otherwise exactly the new friend is appended, the pending contact is cleared, and the permission request is marked asked and pending exactly when this is the first friend and permission was never asked |
| Calendar.DaysInMonth | src/components/BirthdayWheelPicker/BirthdayWheelPicker.tsx:193-196 | every month has 28 to 31 days, February 29 exactly in leap years and 28 otherwise |
| Calendar.IsLeapYear | src/services/notificationService.ts:129-132 | the Gregorian rule; YearLength and DaysInMonth state what it decides |
| Calendar.YearLength | src/utils/journalDateHelpers.ts:28-37 | a year has 366 days exactly when it is a leap year and 365 otherwise |
| Calendar.MonthsAddUp | src/utils/journalDateHelpers.ts:42-52 | each month starts where the previous one ends, and the twelve months fill the year exactly |
| Calendar.MonthFitsInYear | src/utils/journalDateHelpers.ts:42-52 | every month ends within its year |
| Calendar.YearsAddUp | src/utils/journalDateHelpers.ts:48 | consecutive years follow each other without gap or overlap in the day count |
| Calendar.DayOfYear | src/utils/journalDateHelpers.ts:34 | a valid day's ordinal in its year lies between 1 and the year's length |
| Calendar.NextDay | src/utils/journalDateHelpers.ts:48 | the day after a valid day (what `setDate(getDate() + 1)` reaches) is valid and has the next day number |
| Calendar.NextDayInYear | src/utils/journalDateHelpers.ts:46-48 | the next day stays in the year, one ordinal on, until the last day of the year, after which it is 1 January of the next year |
| Calendar.DayOfYearInjective | src/utils/journalDateHelpers.ts:42-52 | two valid days of one year with the same ordinal are the same day |
| Calendar.DateInYear | src/utils/journalDateHelpers.ts:44-48 | for every ordinal of a year there is a valid day of that year with that ordinal |
| Calendar.NextDateInYear | src/utils/journalDateHelpers.ts:44-49 | stepping a day forward from the k-th day of a year gives its (k+1)-th day, or 1 January of the next year after the last |
| Calendar.DayNumber | src/services/notificationService.ts:151-163 | the day count `getTime()` differences stand for, months and days out of range carrying over; DayNumberOfValid, YearsAddUp and NextDay state its properties |
| Calendar.DayNumberOfValid | src/services/notificationService.ts:151-163 | a valid day's number is the days before its year plus its ordinal in the year, less one |
| Calendar.JsFullYear | src/utils/journalDateHelpers.ts:22 | the year `new Date(year, month, day)` uses: 0..99 read as 1900..1999, other years as given |
| Calendar.ConstructedDayNumber | src/utils/journalDateHelpers.ts:20-23 | the day number of `new Date(year, monthIndex, day)`; ParseDateStringRoundTrip and GenerateYearDates state its effect |
| Calendar.ParseIsoDate | src/stores/notificationStateStore.ts:46-47 | a date string that parses names a valid day of a year from 0 on |
| Calendar.IsoDateRoundTrip | src/stores/notificationStateStore.ts:37-47 | the ISO key of any valid day of a four-digit year parses back to that day |
| Calendar.ToIsoDateString | src/stores/notificationStateStore.ts:37-40 | the date part of `toISOString()`: four digits of year for 0..9999, else a sign and six digits; IsoDateRoundTrip states that it parses back |
| Strings.ParseNumber | src/utils/journalDateHelpers.ts:21 | `Number(s)` on a field is a number exactly when the field is all digits (the empty field reading as 0), and then a non-negative one |
| Strings.IntToString | src/utils/journalDateHelpers.ts:11-13 | the digits of a non-negative number, a minus sign before the digits of a negative one |
| Strings.NumberToString | src/features/friends/FriendCard.tsx:39-43 | "NaN" for NaN, the integer's text otherwise |
| Strings.NatToStringRoundTrip | src/utils/journalDateHelpers.ts:12-13 | the decimal text of a count is all digits and reads back as that count |
| Strings.NatToString | src/utils/journalDateHelpers.ts:12-13 | `String(n)` of a count: at least one digit, digits only, no leading zero, no minus sign |
| Strings.ZeroPad | src/utils/journalDateHelpers.ts:12-13 | `String(n).padStart(width, '0')`; ZeroPadRoundTrip, ZeroPadLength and ZeroPadField state its properties |
| Strings.PadStart | src/utils/journalDateHelpers.ts:12-13 | `padStart`: the string ends the result, the result is the width long when the string is shorter, and every added character is the pad |
| Strings.ZeroPadField | src/utils/journalDateHelpers.ts:12-13 | a two-digit field below 100 or a four-digit field below 10000 is exactly that many digits and reads back as the number |
| Strings.ZeroPadRoundTrip | src/utils/journalDateHelpers.ts:12-13 | a zero-padded field is all digits, has no '-', and reads back as the number padded |
| Strings.ZeroPadLength | src/utils/journalDateHelpers.ts:12-13 | a number below 100 padded to two digits, or below 10000 padded to four, is exactly that many characters |
| Strings.Split | src/utils/journalDateHelpers.ts:21 | `split('-')` gives at least one part, none containing the separator, the whole string when the separator is absent, and the first part is a prefix of the string |
| Strings.ToUpper | src/components/Avatar/Avatar.tsx:22-27 | upper-casing keeps the length and maps each character on its own |
| Strings.ToLower | src/stores/friendsStore.ts:80-84 | lower-casing keeps the length and maps each character on its own |
| Strings.Trim | src/components/Avatar/Avatar.tsx:18-20 | a non-empty trimmed string starts and ends with a visible character |
| Strings.TrimStart | src/components/Avatar/Avatar.tsx:18 | drops exactly the leading white space: the result is a suffix, what was dropped is all white space, and the result does not start with white space |
| Strings.TrimEnd | src/components/Avatar/Avatar.tsx:18 | drops exactly the trailing white space: the result is a prefix, what was dropped is all white space, and the result does not end with white space |
| Strings.TrimPadded | src/components/Avatar/Avatar.tsx:18-20 | white space added around a string does not change its trimmed form |
| Strings.SplitWhitespace | src/components/Avatar/Avatar.tsx:20 | `split(/\s+/)` gives at least one part, none holding white space, and a single part exactly when the string holds no white space |
| Strings.SplitTrimmed | src/components/Avatar/Avatar.tsx:20-26 | a trimmed, non-empty name splits into words whose first and last are non-empty, the first starting with the name's first character |
| Sequences.Filter | src/services/notificationService.ts:281 | `filter` never lengthens the list; FilterMembers and FilterInOrder state what it keeps |
| Sequences.FilterMembers | src/services/notificationService.ts:281 | an element is kept exactly when it is in the list and passes the test |
| Sequences.FilterIndices | src/services/notificationService.ts:281 | the positions of the passing elements, each within the list |
| Sequences.FilterIndicesPass | src/services/notificationService.ts:281 | every listed position passes the test, and the positions strictly increase |
| Sequences.FilterIndicesComplete | src/services/notificationService.ts:281 | every position whose element passes is listed |
| Sequences.FilterInOrder | src/services/notificationService.ts:281 | the kept elements are, in order, the elements at the listed positions |
| Sequences.Map | src/services/notificationService.ts:284 | `map` keeps the length and applies the function to each element in place |

## Findings

| source | as written | input that shows it | evidently intended | confidence | as-written member | corrected member |
|---|---|---|---|---|---|---|
| src/components/GlassMenu/GlassMenu.tsx:138-153 | the transform list translates by the anchor offset, which `getAnchorOffset` measures from the menu's top-left corner, but React Native applies a view's `transform` about the view's centre, so the point left in place is the centre moved by the offset | no touch point, left alignment, opening downwards, scale 0.85 (`SCALE_START`): the top-left anchor is drawn 12 points right of and 0.075 menu heights below where it is | the menu scales out of the anchor point, as the comment at line 138 says: translate by the offset less the centre | medium, not executed; rests on React Native's default `transformOrigin`, the view's centre | GlassMenu.AnchorDrifts | GlassMenu.AnchorIsFixed |

## Left out

- The OS notification API is not modelled: `initialize`, the Android channel and the response listener are calls into expo-notifications. Scheduling is modelled only as the `Scheduler`'s sequence of records.
- Persistence is not modelled: the zustand `persist` middleware, AsyncStorage and `partialize`. The stores are modelled in memory.
- Randomness and the clock are parameters. `Math.random` is a function from draw number to a real in [0, 1). `generateId`, `Date.now`, `new Date()` and `toISOString()` for "now" are passed in as fresh ids, timestamps and today's date.
- Time zones and daylight saving time are left out. Every date is a calendar day, and UTC and local time are taken to agree. Millisecond arithmetic is replaced by day numbers.
- Locale formatting is left out: `formatBirthdayValue`, `formatDate` and `formatJournalDate` (`toLocaleDateString`).
- Floating point is left out. Layout uses exact reals and `Floor`. The menu's scale transform is modelled for a given scale; how the spring and timing animations move that scale and the opacity over time is not.
- Animations, haptics, timers, gestures and router navigation are left out. They do not change the modelled state.
- FriendsList.SortFriendsByUrgency: the source's comparator subtracts days remaining. With NaN (an unreadable last contact) that is not a consistent order. The model places such friends after all the others, and it does not state which order `Array.prototype.sort` gives to equal keys.
- Calendar.ParseIsoDate: reads only the date-only form YYYY-MM-DD with a four-digit year. JavaScript's `new Date` also accepts date-time strings such as "2024-01-15T10:00:00Z", "YYYY-MM", "YYYY" and six-digit signed years; the model reads those as invalid dates. The strings the app hands to `new Date` are all YYYY-MM-DD: the last contact field (src/stores/friendsStore.ts:22), written from `toISOString().split('T')[0]` (app/add-friend.tsx:123), and the notification dates the state store records, made the same way.
- Avatar.CharAt0: a string is a sequence of Unicode code points, while JavaScript's `charAt(0)` and `length` count UTF-16 code units. For a name starting with a character outside the Basic Multilingual Plane (an emoji such as "😀 Bob") the source takes a lone high surrogate as the initial, and the model takes the whole character.
- Strings.ToUpper: case mapping covers ASCII letters only; `toUpperCase` and `toLowerCase` on other scripts are not modelled. White space is the full ECMAScript set.
- Strings.ParseNumber: `Number` on strings with signs, decimals, exponents or surrounding white space is not modelled. Those strings read as NaN; the source never produces them.
- YearGrid.CalculateGridLayout: requires at least one day. With none, the source divides by zero rows, which gives an infinite height limit that exact reals cannot express. Every year it is called for has 365 or 366 days.
- YearGrid.RenderYearGrid: requires a year outside 0..99. For those years `generateYearDates` lists no days, which leads to the zero-day case above.
- AddFriend.FrequencyLabel: requires one of the frequencies the form offers, which is what the source's `FrequencyOption` type allows.
- AddFriend.EncodeBirthdayRoundTrip: requires that the year, when present, is not negative. The picker only offers years from 1920 on.
- BirthdayWheelPicker.HandleYearChange: requires a row value of the year column ("none" or a year's digits). These are the only values the column passes.
- BirthdayWheelPicker.WheelColumn.HandleMomentumScrollEnd: requires a non-empty item list. Every column has at least one row.
- NotificationService.FormatBirthdayTitle: the party emoji is the single code point U+1F389. The source file stores it mis-encoded.
- NotificationService.Scheduler.ScheduleCatchUps: one turn of the catch-up loop is the separate method `ScheduleNextCatchUp`, so that each turn is proved on its own.
- JournalStore.Store.GetEntryByDate: the journal is a `map` from date keys to entries. The source's `entries[date]` is a lookup on a plain object, which for a key such as "constructor" also finds a property inherited from the prototype; the model's lookup does not. Only YYYY-MM-DD keys reach `getEntryByDate` and `hasEntryForDate`, so their results are unaffected.
- The awaiting of OS calls is left out. The scheduler's calls complete in order.
- Screens and components other than the core ones named above are not part of this model. That covers journal editing, authentication, contacts import, settings and the toast component's timer.
