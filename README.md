# Shift-scheduling bot: a verified model of its core

This project models the core of a chat bot that schedules shop staff:

- **Records and permissions.** The shift, request, revision and user records, their status guards, and the role-to-permission table.
- **Input validators.** Chat-message parsing, time and duration checks, LINE user-id checks and input sanitising.
- **Labour-law checker.** Daily, weekly, consecutive-day and rest-time checks, plus the display text of a report.
- **Optimizer.** Builds the scheduling problem, reads the solver's answer back as draft shifts, and reports statistics.
- **Approval workflow.** Shifts go from draft, through adjusting with a field-level revision trail, approval and publication, or are rejected back to draft.

## Conventions

- Dates are proleptic Gregorian ordinals, as `date.toordinal()` returns them. Day 1 is Monday 0001-01-01.
- Times of day have minute precision. Durations are integer minutes.
- Values that the system logic works on are datatypes with functions.
- Each loop of the source is a method proved against such a function.
- The approval service is a class, `Approval.ShiftStore`, whose methods update three tables in place: shifts, revisions and the audit log.
- I/O is left out or passed in as a parameter: the database, `datetime.now()`, the LP solver and date parsing.

| file | models |
|---|---|
| `wrappers.dfy` | `Option` (Python's `None`-or-value) |
| `calendar.dfy` | `date.weekday()`, calendar year and ISO week number of an ordinal |
| `clock.dfy` | times of day and the midnight-wrapping duration rule |
| `shift.dfy`, `shift_request.dfy`, `shift_revision.dfy`, `user.dfy` | the record models |
| `text.dfy` | `strip`, substring search, `str(int)` |
| `sorting.dfy` | `sorted(..., key=...)` and `ORDER BY` |
| `validators.dfy` | `utils/validators.py` |
| `labor_law.dfy` | `utils/labor_law.py` |
| `shift_optimizer.dfy` | `services/shift_optimizer.py` |
| `shift_approval.dfy` | `services/shift_approval.py` |

## Model

| member | source | states |
|---|---|---|
| Shifts.Shift.DurationMinutes | models/shift.py:101-114 | the length in minutes is the unique value in [0, 24h) that carries the start's clock reading to the end's; it is 0 exactly when start and end are equal |
| Shifts.NewShift | models/shift.py:27-59 | a new row has the column defaults: status `Draft`, version 1, no key yet, no workflow actor recorded |
| Shifts.GuardRelations | models/shift.py:72-99 | published and rejected rows pass no guard; drafts and published rows cannot be rejected; anything approvable or publishable is rejectable; only `Adjusted` is both editable and approvable |
| Shifts.Shift.CanPublish | models/shift.py:72-74 | only `Approved` rows are publishable; such a row is also rejectable and no longer approvable |
| Shifts.Shift.CanEdit | models/shift.py:76-82 | an editable row (draft, adjusting or adjusted) is never publishable |
| Shifts.Shift.CanApprove | models/shift.py:84-86 | an approvable row is also rejectable |
| Shifts.Shift.CanReject | models/shift.py:88-95 | a rejectable row is neither a draft, published nor rejected |
| Shifts.Shift.IsPublished | models/shift.py:97-99 | a published row passes none of the four workflow guards |
| Clock.MinuteOfDay | models/shift.py:106-107 | `hour * 60 + minute` lies in [0, 1440) |
| Clock.MinuteOfDayInjective | models/shift.py:106-107 | distinct times have distinct minute-of-day values |
| Clock.SpanMinutes | models/shift.py:106-114 | the wrapped span lies in [0, 24h), moves the start's reading to the end's modulo a day, and is 0 exactly for equal times |
| Clock.SpanMinutesUnique | models/shift.py:109-114 | no other span in [0, 24h) moves start to end |
| Clock.DurationMinutes | models/shift.py:101-114 | a missing time gives 0; otherwise the wrapped span |
| Clock.OvernightExample | models/shift.py:109-111 | 22:00 to 02:00 lasts four hours |
| Calendar.Weekday | services/shift_optimizer.py:170 | `weekday()` lies in 0..6 |
| Calendar.WeekdayShift | services/shift_optimizer.py:173-175 | moving by whole weeks keeps the weekday |
| Calendar.MondayOnOrBefore | services/shift_optimizer.py:169-171 | the result is a Monday within the six days before `d`, or `d` itself |
| Calendar.IsoWeek1Monday | utils/labor_law.py:78 | ISO week 1 starts on a Monday |
| Calendar.Jan1IsWeekOne | utils/labor_law.py:78 | 2024-01-01 is in ISO week 1 |
| Calendar.Dec30IsWeekOne | utils/labor_law.py:78 | 2024-12-30 is in ISO week 1, of ISO year 2025 |
| Users.ManagersHoldEverything | models/user.py:55-80 | managers and administrators hold every permission |
| Users.StaffPermissions | models/user.py:36-39 | staff hold exactly "view own shift" and "request shift" |
| Users.SubManagerPermissions | models/user.py:40-54 | a sub-manager may create drafts, adjust and reject, but may not approve, publish or evaluate; an evaluator may evaluate although ranked lower; a sub-manager is "manager or above" yet cannot approve |
| Users.User.CanApproveShifts | models/user.py:104-106 | approval rights, read from the permission table, belong to exactly managers and administrators |
| Users.User.CanAdjustShifts | models/user.py:108-110 | adjustment rights, read from the permission table, coincide with the rank test of "manager or above" |
| Users.User.IsManagerOrAbove | models/user.py:120-122 | exactly sub-managers, managers and administrators are "manager or above" |
| ShiftRequests.ShiftRequest.DurationMinutes | models/shift_request.py:48-60 | the same midnight-wrapping span as a shift |
| ShiftRequests.ShiftRequest.PriorityLabel | models/shift_request.py:62-69 | priorities 1, 2 and 3 have their three labels; any other value reads "不明" |
| ShiftRequests.NewRequest | models/shift_request.py:29-30 | a new request has priority 1 and is pending, not accepted |
| ShiftRequests.ShiftRequest.IsPending | models/shift_request.py:40-42 | a pending request is not accepted, rejected or cancelled |
| ShiftRequests.ShiftRequest.IsAccepted | models/shift_request.py:44-46 | an accepted request is no longer pending |
| ShiftRequests.PriorityLabelsDistinct | models/shift_request.py:64-68 | equal labels of known priorities mean equal priorities |
| Revisions.Stringify | models/shift_revision.py:50-51 | a worker id renders as its decimal text, which holds no colon; a time renders as eight characters `HH:MM:00` whose digit pairs read back as its hour and minute |
| Revisions.IntStringHasNoColon | models/shift_revision.py:50-51 | no character of `str(n)` is a colon |
| Revisions.StringifyInjective | models/shift_revision.py:50-51 | two different worker ids or times never render to the same text |
| Revisions.StringifyOptionInjective | models/shift_revision.py:50-51 | the same holds for optional values, with `None` kept apart |
| Revisions.StringifyOption | models/shift_revision.py:50-51 | `None` exactly when the value is missing |
| Revisions.CreateRevision | models/shift_revision.py:44-54 | ids and reason are copied; each value is stringified on its own with `None` preserved; a real change always yields different old and new text |
| Text.TrimLeft | utils/validators.py:225 | `lstrip` returns a suffix that does not start with whitespace |
| Text.TrimLeftDropsSpaces | utils/validators.py:225 | everything `lstrip` drops is whitespace |
| Text.TrimRight | utils/validators.py:225 | `rstrip` returns a prefix that does not end with whitespace |
| Text.TrimRightDropsSpaces | utils/validators.py:225 | everything `rstrip` drops is whitespace |
| Text.Strip | utils/validators.py:225 | the result has no whitespace at either end |
| Text.StripIsPiece | utils/validators.py:225 | what `strip` keeps is one contiguous piece of the input, starting after the leading whitespace |
| Text.StripDropsOnlySpaces | utils/validators.py:225 | `strip` keeps one piece of its input and drops only whitespace on either side of it |
| Text.StripNoop | utils/validators.py:225 | stripping text that has no whitespace at its ends changes nothing |
| Text.StripPadded | utils/validators.py:31 | `strip` removes exactly the whitespace around a piece that neither starts nor ends with whitespace |
| Text.ShorterNeverContains | utils/validators.py:150-153 | a text shorter than the keyword does not contain it |
| Text.LacksFirstCharacter | utils/validators.py:150-153 | a text without the keyword's first character does not contain it |
| Text.ContainsIffWindow | utils/validators.py:150-153 | `pat in text` holds exactly when some window of the text equals the keyword |
| Text.NatToString | models/shift_revision.py:50-51 | `str(n)` is decimal digits with no leading zero |
| Text.NatToStringInjective | models/shift_revision.py:50-51 | distinct naturals print differently |
| Text.IntToString | models/shift_revision.py:50-51 | a sign appears exactly for negative numbers |
| Text.IntToStringInjective | models/shift_revision.py:50-51 | distinct integers print differently |
| Sorting.InsertionPoint | services/shift_approval.py:386 | every element before the point has a smaller key; every element after it has a key at least as large |
| Sorting.Insert | services/shift_approval.py:386 | inserting into a sorted list keeps it sorted and adds exactly that element |
| Sorting.SortBy | utils/labor_law.py:138 | the result is sorted by the key and is a permutation of the input |
| Validators.DigitRun | utils/validators.py:30 | a greedy `\d{1,max}`: all digits, and stopped by the cap, the end of text or a non-digit |
| Validators.SpaceRun | utils/validators.py:138 | a greedy `\s*`: all whitespace, and stopped by the end of text or a non-space |
| Validators.TimeAt | utils/validators.py:138 | a time match `\d{1,2}:\d{2}` ends at least four characters after its start and within the text, with the colon third from its end |
| Validators.Hits | utils/validators.py:139 | entry `k` is true exactly when the pattern matches at `k` |
| Validators.FirstTrue | utils/validators.py:139 | the leftmost true entry at or after `from`, or `None` when there is none |
| Validators.Search | utils/validators.py:139 | `re.search` finds the leftmost match position, and `None` exactly when no position matches |
| Validators.ReadTimeSound | utils/validators.py:30-42 | a time that is read is, as text, `HH:MM` or (hour below 10) `H:MM` of the time returned |
| Validators.ValidateTimeFormat | utils/validators.py:19-42 | whatever validates is, once stripped, one of the two renderings of the time returned (`HH:MM`, or `H:MM` for an hour below 10), so malformed and out-of-range text is refused |
| Validators.TimeTextValidates | utils/validators.py:30-42 | the zero-padded rendering of any time validates to that time |
| Validators.TimeFormatComplete | utils/validators.py:29-42 | every `HH:MM`, with any surrounding whitespace, validates to that time |
| Validators.ShortTimeFormatComplete | utils/validators.py:24-42 | every `H:MM` with a one-digit hour validates to that time |
| Validators.TimeFormatAcceptsSample | utils/validators.py:231 | "09:30" validates to 09:30 |
| Validators.TimeFormatRejectsHour24 | utils/validators.py:39-40 | "24:00" is refused by the range check |
| Validators.TimeFormatRejectsShortMinute | utils/validators.py:30-34 | "9:5" is refused by the pattern |
| Validators.ValidateTimeRange | utils/validators.py:79-92 | every pair of times is accepted |
| Validators.ValidateShiftDuration | utils/validators.py:95-119 | accepted exactly when the wrapped length, in hours, lies in [min_hours, max_hours] |
| Validators.ShiftDurationDefaults | utils/validators.py:95-119 | with the defaults, a zero-length shift and a 13-hour shift are refused, and 22:00-02:00 is accepted |
| Validators.DetectPriority | utils/validators.py:148-153 | the priority is 1, 2 or 3 |
| Validators.PriorityLabelRoundTrip | utils/validators.py:148-153 | a message that is a request's priority label reads back as that priority |
| Validators.PriorityKeywordPrecedence | utils/validators.py:150-153 | a message holding both "できれば" and "可能なら" reads as priority 2 |
| Validators.TimesAfter | utils/validators.py:138 | the date group is exactly the text before the times; both time groups are shaped `H:MM` or `HH:MM` |
| Validators.DateAt | utils/validators.py:137-160 | a date group is a non-empty stretch of the text starting at the match position; for the year pattern it starts with four digits |
| Validators.MatchAt | utils/validators.py:137-160 | a match at `i` captures, as its date group, text that starts at `i`, and two time-shaped groups; the year pattern matches only where four digits start |
| Validators.FirstMatch | utils/validators.py:139 | the groups `re.search` returns: `None` exactly when no position matches, otherwise the groups of the leftmost matching position |
| Validators.Interpret | utils/validators.py:141-159 | a request exactly when the date and both times validate; it then holds the date the date group reads as, the two times the time groups read as, and the message's priority |
| Validators.ParseShiftRequestMessage | utils/validators.py:122-186 | when the year pattern's leftmost groups validate, the request is what they read as; otherwise, when the month/day pattern's leftmost groups validate, what those read as; `None` exactly when neither validates |
| Validators.TimeTextAt | utils/validators.py:138 | a zero-padded `HH:MM` is taken whole by a time group |
| Validators.DateAtStart | utils/validators.py:160 | one or two digits, a separator and one or two digits form the month/day group |
| Validators.TimesAfterText | utils/validators.py:160 | a space, `HH:MM`, a hyphen and `HH:MM` after the date give exactly those time groups |
| Validators.MonthDayGroupsAt | utils/validators.py:160 | a message "M/D HH:MM-HH:MM" followed by any text matches the month/day pattern at its start, with groups "M/D" and the two times |
| Validators.FirstMatchAtStart | utils/validators.py:161 | a match at position 0 is the one `re.search` returns |
| Validators.ParsesFromMonthDay | utils/validators.py:137-184 | when the year pattern finds nothing and the month/day groups read as a request, that request is the result |
| Validators.MonthDayMessageParses | utils/validators.py:122-184 | every message "M/D HH:MM-HH:MM" followed by any text, with no four digits in a row and a date that parses, yields that date, the two times and the message's priority |
| Validators.NonDigitBreaksWindow | utils/validators.py:138 | a non-digit inside a four-character window breaks the four-digit run |
| Validators.NoYearWithoutFourDigits | utils/validators.py:137-139 | a message without four digits in a row never matches the year pattern |
| Validators.SampleHasNoYear | utils/validators.py:126-127 | "3/1 9:00-17:00 希望" does not match the year pattern |
| Validators.SampleMonthDayGroups | utils/validators.py:162-167 | the month/day pattern captures "3/1", "9:00" and "17:00" from that message |
| Validators.SamplePriority | utils/validators.py:148-153 | that message carries no priority keyword |
| Validators.SampleMessageParses | utils/validators.py:126-127 | that message parses to 9:00-17:00 with priority 1 |
| Validators.ValidateLineIdAsWritten | utils/validators.py:199-201 | the check as written also accepts a 34-character id ending in a newline |
| Validators.ValidateLineId | utils/validators.py:199-201 | an accepted id is "U" followed by 32 lower-case hexadecimal digits, so no trailing newline |
| Validators.LineIdComplete | utils/validators.py:199-201 | every "U" followed by 32 lower-case hexadecimal digits is accepted |
| Validators.LineIdCheckDifference | utils/validators.py:199-201 | the two checks differ exactly on a valid id followed by "\n" |
| Validators.LineIdTrailingNewlineAccepted | utils/validators.py:200-201 | a concrete id with a trailing newline is accepted as written and refused by the intended check |
| Validators.SlicePrefix | utils/validators.py:219 | `text[:n]` with Python's clipping and negative-index rules |
| Validators.KeepAllowed | utils/validators.py:222 | keeps every allowed character as often as it occurs and drops every other, so a string of allowed characters is kept whole |
| Validators.KeepAllowedConcat | utils/validators.py:222 | the filter works character by character: filtering a concatenation concatenates the filtered parts |
| Validators.SanitizeUserInput | utils/validators.py:204-227 | empty stays empty; otherwise the result is the truncated and filtered text with only whitespace removed around it; it fits the limit, holds only printable characters or tab/CR/LF, and has no surrounding whitespace |
| Validators.SanitizeKeepsCleanText | utils/validators.py:204-227 | text that is already clean is returned unchanged |
| Validators.SanitizeIdempotent | utils/validators.py:204-227 | sanitising twice equals sanitising once |
| LaborLaw.UserShifts | utils/labor_law.py:43 | exactly the worker's shifts, in order |
| LaborLaw.KeysInOrderMembers | utils/labor_law.py:46-51 | the totals dictionary's keys are exactly the keys of the worker's shifts |
| LaborLaw.KeysInOrderDistinct | utils/labor_law.py:46-51 | each key is listed once |
| LaborLaw.KeyTotalAbsent | utils/labor_law.py:49-50 | a key not yet seen has no minutes |
| LaborLaw.FirstOver | utils/labor_law.py:54-62 | the first key in insertion order over the cap, or `None` when no key is over it |
| LaborLaw.FirstOverKeysIff | utils/labor_law.py:46-62 | a key over the cap is found exactly when some shift's key total is over it, and that key belongs to a shift |
| LaborLaw.FirstKeyOverCap | utils/labor_law.py:46-62 | the dictionary loop and the scan return the first key over the cap with its total |
| LaborLaw.DailyViolation | utils/labor_law.py:37-64 | a result is a critical daily-hours violation of that worker |
| LaborLaw.WeeklyViolation | utils/labor_law.py:67-94 | a result is a critical weekly-hours violation of that worker |
| LaborLaw.UserKeyOverCapIff | utils/labor_law.py:43-62 | the over-cap search on the worker's shifts, stated over the whole list |
| LaborLaw.DailyViolationIff | utils/labor_law.py:37-64 | reported exactly when some date of the worker totals more than the cap; it names such a date and its total |
| LaborLaw.WeeklyViolationIff | utils/labor_law.py:67-94 | reported exactly when some weekly key of the worker totals more than the cap; it names such a key and its total |
| LaborLaw.CheckDailyWorkHours | utils/labor_law.py:37-64 | returns the daily violation |
| LaborLaw.CheckWeeklyWorkHours | utils/labor_law.py:67-94 | returns the weekly violation |
| LaborLaw.WeekKeyMergesYearEnds | utils/labor_law.py:78 | 2024-01-01 and 2024-12-30, 52 weeks apart, share the weekly key (2024, 1) |
| LaborLaw.SharedKeyOverCap | utils/labor_law.py:46-62 | two shifts under one key that together exceed the cap are found |
| LaborLaw.SharedWeekOverCap | utils/labor_law.py:75-92 | two shifts of one worker under one weekly key that together exceed the cap are reported |
| LaborLaw.YearEndShiftsMergedIntoOneWeek | utils/labor_law.py:78-92 | two 23-hour shifts on those two Mondays are reported as exceeding 40 hours in one week |
| LaborLaw.Dates | utils/labor_law.py:138-147 | the dates of the sorted shifts, position by position |
| LaborLaw.Streak | utils/labor_law.py:143-159 | the counter after position `j` lies in 1..j+1 |
| LaborLaw.StreakIsRun | utils/labor_law.py:143-159 | the counter measures a run of consecutive calendar days ending at `j` |
| LaborLaw.RunGivesStreak | utils/labor_law.py:147-148 | `k` one-day steps make the counter at least `k + 1` |
| LaborLaw.StreakOverFound | utils/labor_law.py:146-157 | the scan finds any qualifying step after its start |
| LaborLaw.StreakOverSound | utils/labor_law.py:146-157 | a reported count exceeds the maximum and is a real run of that many consecutive days |
| LaborLaw.ConsecutiveViolation | utils/labor_law.py:130-163 | a result is a critical consecutive-days violation of that worker |
| LaborLaw.ConsecutiveRunReported | utils/labor_law.py:130-163 | with one shift per day, dates covering `maxDays + 1` consecutive days are reported |
| LaborLaw.RepeatedDateResetsStreak | utils/labor_law.py:147-159 | days 1 to 7 with day 3 twice are not reported under the maximum of 6: the repeated date resets the counter |
| LaborLaw.CheckConsecutiveWorkDays | utils/labor_law.py:130-163 | the loop returns the consecutive-days violation |
| LaborLaw.CheckRestTime | utils/labor_law.py:97-127 | a warning exactly for shifts over 6 hours: 45 minutes of rest up to 8 hours, 60 minutes beyond |
| LaborLaw.OptionToSeq | utils/labor_law.py:190-207 | `if violation: append` adds nothing for `None` and one item otherwise |
| LaborLaw.UserViolations | utils/labor_law.py:186-201 | at most three per worker |
| LaborLaw.ThreeBlocks | utils/labor_law.py:188-201 | the daily, weekly and consecutive results are about the worker, critical, and of distinct kinds |
| LaborLaw.UserViolationsShape | utils/labor_law.py:181-201 | at most three violations per worker, all critical and about that worker, at most one of each kind |
| LaborLaw.CheckUser | utils/labor_law.py:186-201 | the three checks, appended in order |
| LaborLaw.RestViolations | utils/labor_law.py:204-207 | one rest warning at most per shift, all warnings |
| LaborLaw.ExtendReport | utils/labor_law.py:181-201 | appending one more worker's block keeps the report exact |
| LaborLaw.Blocks | utils/labor_law.py:181-201 | the workers' blocks joined in visit order, at most three entries per worker |
| LaborLaw.BlocksReportExactly | utils/labor_law.py:181-201 | whatever order the workers are visited in, the joined blocks hold every violation of every worker, each once, and no other |
| LaborLaw.EnumeratesInit | utils/labor_law.py:181-183 | dropping the last visited worker leaves a visit order of the others |
| LaborLaw.EnumeratesSnoc | utils/labor_law.py:181-183 | visiting a worker not yet visited extends the visit order |
| LaborLaw.EnumerationSize | utils/labor_law.py:181-183 | a visit order has one entry per worker |
| LaborLaw.VisitOne | utils/labor_law.py:183 | one turn of the loop adds exactly the chosen worker to the visit order |
| LaborLaw.CollectUserViolations | utils/labor_law.py:179-201 | the loop visits every worker with a shift once, in an unspecified set order returned as a ghost result, and the report is exactly their blocks (daily, weekly, consecutive) one after another in that order; at most three per worker |
| LaborLaw.BlocksOfPrefix | utils/labor_law.py:183-201 | the blocks collected for all but the last visited worker still match those workers |
| LaborLaw.ConcatBlocks | utils/labor_law.py:183-201 | the blocks collected by the loop, joined, are the report of the workers in visit order |
| LaborLaw.AppendBlock | utils/labor_law.py:186-201 | one turn of the loop appends exactly the visited worker's block |
| LaborLaw.CollectRestWarnings | utils/labor_law.py:204-207 | exactly the rest warnings, in shift order |
| LaborLaw.PerUserThenRest | utils/labor_law.py:176-209 | the per-worker blocks in visit order followed by the rest warnings form the full report |
| LaborLaw.ReportIsExact | utils/labor_law.py:181-201 | the per-worker part of any report holds every violation of every worker, each once, and no other |
| LaborLaw.CheckAllViolations | utils/labor_law.py:166-209 | one contiguous block per worker (daily, then weekly, then consecutive) in the loop's visit order, then exactly the rest warnings in shift order; at most 3 per worker plus 1 per shift |
| LaborLaw.OfSeverity | utils/labor_law.py:219-220 | the filtered list has only that severity |
| LaborLaw.OfSeverityConcat | utils/labor_law.py:219-220 | filtering distributes over concatenation |
| LaborLaw.OfSeverityNone | utils/labor_law.py:219-220 | no item of the severity gives an empty list |
| LaborLaw.OfSeveritySome | utils/labor_law.py:219-220 | an item of the severity gives a non-empty list |
| LaborLaw.Item | utils/labor_law.py:227 | a bullet line starts with "  • " and ends with a newline |
| LaborLaw.Items | utils/labor_law.py:226-227 | a non-empty list of lines starts with a bullet |
| LaborLaw.AppendItems | utils/labor_law.py:226-227 | the loop appends exactly the bullet lines, in order |
| LaborLaw.BuildReport | utils/labor_law.py:222-233 | the critical block and a blank line, then the warning block, each only when it has items |
| LaborLaw.FormatViolationsForDisplay | utils/labor_law.py:212-235 | the sentinel for an empty list, otherwise the stripped report |
| LaborLaw.StripKeepsPrefix | utils/labor_law.py:235 | stripping keeps a prefix that starts and ends with non-space characters |
| LaborLaw.DisplayOpensWithMostSevere | utils/labor_law.py:216-235 | with a critical item, the text opens with the critical header and a bullet; otherwise, with a warning, it opens with the warning header and a bullet |
| LaborLaw.OpensWith | utils/labor_law.py:224-235 | a header followed by bullet lines still opens with the header and a bullet after stripping |
| LaborLaw.DisplayIgnoresInfo | utils/labor_law.py:219-220 | appending an info item to a non-empty list changes nothing |
| LaborLaw.InfoOnlyDisplaysNothing | utils/labor_law.py:216-235 | a non-empty list of info items shows as the empty text, not the sentinel |
| LaborLaw.DisplaySwapAcrossSeverities | utils/labor_law.py:219-233 | swapping neighbours of different severities leaves the text unchanged |
| LaborLaw.SwapKeepsSeverity | utils/labor_law.py:219-220 | filtering by one severity does not see that swap |
| Optimizer.MaxDaysPerWeek | services/shift_optimizer.py:118 | `hours // 8`: the largest number of 8-hour days within the weekly hours |
| Optimizer.DefaultWeeklyCapIsFiveDays | services/shift_optimizer.py:117-118 | 40 hours give 5 days |
| Optimizer.DateRange | services/shift_optimizer.py:152-159 | day `i` of the range is `start + i`; the range is empty when start is after end |
| Optimizer.GenerateDateRange | services/shift_optimizer.py:152-159 | the loop builds that range |
| Optimizer.WeekStarts | services/shift_optimizer.py:161-177 | consecutive Mondays from the Monday on or before the first day, reaching past the last day |
| Optimizer.WeekStartsAreMondays | services/shift_optimizer.py:169-175 | every week start is a Monday |
| Optimizer.WeekStartsCover | services/shift_optimizer.py:161-177 | every day between the first and the last lies in a listed week |
| Optimizer.WeekdayBack | services/shift_optimizer.py:170-171 | stepping back one day lowers the weekday by one, except from Monday |
| Optimizer.GetWeekStarts | services/shift_optimizer.py:161-177 | the two loops build the week starts |
| Optimizer.WeekStartsEqual | services/shift_optimizer.py:173-177 | the list the loop builds is the list of week starts |
| Optimizer.RequestsOf | services/shift_optimizer.py:59 | exactly the user's requests |
| Optimizer.DayCandidatesOfOwnRequests | services/shift_optimizer.py:59-63 | filtering by user first changes nothing |
| Optimizer.DayCandidatesMembers | services/shift_optimizer.py:63-73 | a variable for a day stands for exactly one request of the user on that day, weighted `4 - priority` |
| Optimizer.UserCandidatesMembers | services/shift_optimizer.py:61-73 | a user's variables stand for the user's requests dated inside the range |
| Optimizer.CandidatesMembers | services/shift_optimizer.py:54-73 | variables exist exactly for active users' requests dated inside the range |
| Optimizer.FilterUserRequests | services/shift_optimizer.py:59 | the comprehension builds the user's requests |
| Optimizer.AddDayVariables | services/shift_optimizer.py:63-73 | the innermost loop builds that day's variables |
| Optimizer.AddUserVariables | services/shift_optimizer.py:61-73 | the loop over dates builds the user's variables |
| Optimizer.BuildCandidates | services/shift_optimizer.py:54-73 | the loop over users builds every variable, skipping inactive users |
| Optimizer.ActiveIds | services/shift_optimizer.py:54-58 | the keys of `shift_vars` are exactly the active users' ids |
| Optimizer.ActiveIdsOf | services/shift_optimizer.py:54-58 | the loop builds those keys |
| Optimizer.CandidateOrigin | services/shift_optimizer.py:54-69 | every variable belongs to an active user and a day of the range |
| Optimizer.Select | services/shift_optimizer.py:80-83 | exactly the positions of the variables in the window, ascending |
| Optimizer.SelectVariables | services/shift_optimizer.py:80-83 | the loop gathers that window |
| Optimizer.BuildStaffConstraints | services/shift_optimizer.py:79-95 | the loop emits the staffing constraints |
| Optimizer.BuildOneShiftConstraints | services/shift_optimizer.py:98-103 | the nested loop emits the one-shift-per-day constraints |
| Optimizer.BuildWeeklyConstraints | services/shift_optimizer.py:107-122 | the nested loop emits the weekly constraints |
| Optimizer.StaffConstraintsPresent | services/shift_optimizer.py:85-95 | every day with variables gets both staffing bounds |
| Optimizer.StaffConstraintsOnlyWithCandidates | services/shift_optimizer.py:85-95 | staffing bounds exist only for days of the range with variables, with the configured limits |
| Optimizer.DayCapPresent | services/shift_optimizer.py:99-103 | one worker's one-shift cap exists for every day |
| Optimizer.OneShiftConstraintPresent | services/shift_optimizer.py:98-103 | every active worker gets a one-shift cap on every day of the range |
| Optimizer.WeekCapPresent | services/shift_optimizer.py:108-122 | one worker's weekly cap exists for every listed week with variables |
| Optimizer.WeeklyConstraintPresent | services/shift_optimizer.py:107-122 | every active worker gets a weekly cap on every listed week holding some of their variables |
| Optimizer.Count | services/shift_optimizer.py:88-120 | the number chosen is at most the number of variables |
| Optimizer.FeasibleHolds | services/shift_optimizer.py:125 | a feasible selection meets each constraint |
| Optimizer.SelectNothing | services/shift_optimizer.py:80-83 | an empty window selects nothing |
| Optimizer.FeasibleOneShiftPerDay | services/shift_optimizer.py:98-103 | in any feasible selection no worker is chosen twice on one day |
| Optimizer.MondayOfItsWeek | services/shift_optimizer.py:109 | a Monday is the Monday of each day of its week |
| Optimizer.FeasibleWeeklyCap | services/shift_optimizer.py:107-122 | in any feasible selection no worker is chosen more than `hours // 8` times in a Monday-to-Sunday week |
| Optimizer.FeasibleStaffing | services/shift_optimizer.py:85-95 | in any feasible selection every day with variables is staffed between the minimum and the maximum |
| Optimizer.TooFewCandidatesInfeasible | services/shift_optimizer.py:85-90 | a day with some requests but fewer than the minimum makes every selection infeasible |
| Optimizer.FirstWithId | services/shift_optimizer.py:136 | the first request with that id, or `None` when there is none |
| Optimizer.Extract | services/shift_optimizer.py:128-148 | at most one shift per variable, each a draft of the group created by the caller at `now` |
| Optimizer.ExtractStep | services/shift_optimizer.py:131-148 | one more variable adds one shift in a window exactly when it is chosen and in the window |
| Optimizer.SelectStep | services/shift_optimizer.py:131-134 | one more variable is counted exactly when it is chosen and in the window |
| Optimizer.ExtractCount | services/shift_optimizer.py:130-148 | the shifts read back for a worker and a stretch of days are exactly the chosen variables there |
| Optimizer.ExtractMembers | services/shift_optimizer.py:130-148 | every shift read back comes from one chosen variable and its request's times |
| Optimizer.CandidatesRequestsKnown | services/shift_optimizer.py:136 | the lookup never fails for a built variable |
| Optimizer.ExtractShifts | services/shift_optimizer.py:128-148 | the loop reads back exactly the extracted shifts |
| Optimizer.CreateShifts | services/shift_optimizer.py:21-150 | the result is the extraction of the solver's optimal answer to the built problem, or nothing when the answer is not optimal |
| Optimizer.ScheduleOneShiftPerDay | services/shift_optimizer.py:98-148 | a schedule read back from a feasible answer books no worker twice on a day |
| Optimizer.ScheduleWeeklyCap | services/shift_optimizer.py:107-148 | a schedule read back from a feasible answer gives no worker more than `hours // 8` shifts in a week |
| Optimizer.ScheduleFromRequests | services/shift_optimizer.py:130-148 | with unique request ids, every shift read back is an active worker's own request inside the range, with its times |
| Optimizer.CandidateRequest | services/shift_optimizer.py:136 | with unique request ids, the lookup finds the very request that made the variable |
| Optimizer.MinDate | services/shift_optimizer.py:195 | the earliest date of the schedule |
| Optimizer.MaxDate | services/shift_optimizer.py:196 | the latest date of the schedule |
| Optimizer.UniqueUsersAtMostShifts | services/shift_optimizer.py:193 | there are never more distinct workers than shifts |
| Optimizer.ValidateShifts | services/shift_optimizer.py:179-201 | the counts, the first and last dates (none exactly for an empty schedule), and the full labour-law report, per-worker blocks in visit order |
| Approval.GroupStep | services/shift_approval.py:339-343 | a selected row moves to the operation's status and records the actor and time (and the reason, on rejection); an unselected row is unchanged; the assignment is never touched |
| Approval.Applied | services/shift_approval.py:109-110 | each row passed through the step, in place |
| Approval.CountEligible | services/shift_approval.py:253 | the audited count is at most the number of rows |
| Approval.CountEligibleZero | services/shift_approval.py:235-257 | the count is zero exactly when no row is selected, which is exactly when nothing changes |
| Approval.CountEligibleStep | services/shift_approval.py:242-245 | counting one more row |
| Approval.EligibleMatchesGuards | services/shift_approval.py:328-337 | the approval and publication filters are the row guards; the rejection filter is the guard minus `Adjusting` |
| Approval.RejectSkipsAdjusting | services/shift_approval.py:331-335 | an `Adjusting` row passes the rejection guard, yet rejecting its group leaves it as it was |
| Approval.GroupOpIdempotent | services/shift_approval.py:281-291 | repeating a group operation changes nothing more |
| Approval.OtherGroupsUntouched | services/shift_approval.py:104 | rows of other groups are untouched |
| Approval.AsDraft | services/shift_approval.py:32-36 | a stored draft has the next key, status `Draft`, the creator and the creation time, and keeps its assignment |
| Approval.Drafted | services/shift_approval.py:32-36 | each given shift becomes a draft with consecutive keys after the existing rows |
| Approval.FieldRevision | services/shift_approval.py:157-165 | a revision exactly when the key is present with a different value; it records the current and requested values as distinct texts |
| Approval.AdjustRevisions | services/shift_approval.py:155-188 | at most three revisions |
| Approval.AdjustedShift | services/shift_approval.py:166-194 | present fields take their new values; the adjuster is stamped; status `Adjusted`; version plus one |
| Approval.FieldNamesDistinct | services/shift_approval.py:160-182 | the three field names are distinct and ranked worker, start, end |
| Approval.AdjustRevisionsEntries | services/shift_approval.py:157-188 | every revision names this shift, adjuster and reason, and records one field's current value as old text and its requested value as new text, the two differing |
| Approval.AdjustRevisionsOrder | services/shift_approval.py:157-188 | revisions come worker first, then start, then end, each field at most once |
| Approval.MentionsConcat | services/shift_approval.py:155-188 | a field is mentioned in a concatenation exactly when it is mentioned in one part |
| Approval.AdjustRevisionsFields | services/shift_approval.py:157-188 | a field has a revision exactly when its key was given with a different value |
| Approval.Locate | services/shift_approval.py:149 | the first row with that key, or `None` when no row has it |
| Approval.EditTarget | services/shift_approval.py:149-152 | the editable row with that key, or `None` when the row is missing or not editable |
| Approval.AdjustRows | services/shift_approval.py:149-194 | the table keeps its length |
| Approval.Revise | services/shift_approval.py:155-188 | the three comparisons append exactly the adjustment's revisions |
| Approval.Step | services/shift_approval.py:19-343 | no call removes rows |
| Approval.Run | services/shift_approval.py:19-343 | no sequence of calls removes rows |
| Approval.StepKeepsKeys | services/shift_approval.py:19-343 | a row keeps its position and its key across every call |
| Approval.StepKeepsPublished | services/shift_approval.py:19-343 | no call changes a published row |
| Approval.StepProducesNoPendingOrRejected | services/shift_approval.py:19-343 | no call moves a row into `Pending` or `Rejected` |
| Approval.RunKeepsPublished | services/shift_approval.py:19-343 | across any run of calls, a published row stays exactly as it was |
| Approval.RunNeverRejects | services/shift_approval.py:339-343 | from a table with no `Rejected` row, no run ever produces one; rejection sends rows back to `Draft` |
| Approval.HappyPath | services/shift_approval.py:101-291 | start-adjustment, adjustment, approval and publication take a draft to `Published`, one version later, with approver and publisher recorded |
| Approval.ApproveNeedsAdjustment | services/shift_approval.py:235-240 | approving leaves `Draft` and `Adjusting` rows unchanged |
| Approval.DraftsOf | services/shift_approval.py:75-84 | exactly the group's rows in `Draft`, `Adjusting` or `Adjusted` |
| Approval.PublishedFor | services/shift_approval.py:379-385 | exactly the worker's published rows dated in the range |
| Approval.ScheduleKeyOrder | services/shift_approval.py:386 | ordering by the key is ordering by date, then start time |
| Approval.AdjustKeepsKeys | services/shift_approval.py:191-198 | replacing a row by one with the same key, and logging revisions about it, keeps the table well keyed |
| Approval.GroupKeepsKeys | services/shift_approval.py:109-110 | a group operation keeps the table well keyed |
| Approval.ShiftStore.constructor | services/shift_approval.py:15 | the store starts empty and well keyed |
| Approval.ShiftStore.CreateDraftShifts | services/shift_approval.py:30-49 | appends the drafts with fresh keys and logs the count; revisions are untouched |
| Approval.ShiftStore.GetDraftShifts | services/shift_approval.py:71-86 | refused (`None`) exactly when the caller may not adjust; otherwise the group's rows in preparation |
| Approval.ShiftStore.ApplyGroup | services/shift_approval.py:235-245 | the loop applies the step to every row and counts the selected ones |
| Approval.ShiftStore.StartAdjustment | services/shift_approval.py:100-122 | the group's drafts become `Adjusting`; logs the group |
| Approval.ShiftStore.FindShift | services/shift_approval.py:149 | the lookup by key |
| Approval.KeyedEditTarget | services/shift_approval.py:149-152 | with keys assigned 1, 2, … the row with key `id` is at position `id - 1`, so the lookup succeeds exactly when that row exists and is editable |
| Approval.ShiftStore.AdjustShift | services/shift_approval.py:147-211 | succeeds exactly when row `shiftId` exists and is editable; on success stores the adjusted row, appends its revisions and logs their count; on failure changes nothing |
| Approval.ShiftStore.ApproveShifts | services/shift_approval.py:233-257 | the group's `Adjusted` and `Pending` rows become `Approved`; logs how many |
| Approval.ShiftStore.PublishShifts | services/shift_approval.py:279-303 | the group's `Approved` rows become `Published`; logs how many |
| Approval.ShiftStore.RejectShifts | services/shift_approval.py:326-355 | the group's `Adjusted`, `Pending` and `Approved` rows go back to `Draft` with rejecter, time and reason; logs how many and why |
| Approval.ShiftStore.GetPublishedShiftsForUser | services/shift_approval.py:378-389 | exactly the worker's published rows in the range, as a permutation of the table's matches, sorted by date and start time |

## Left out

- The database, sessions, commits and the `except` branches. Each service call is one successful atomic transaction. A failing commit and its FAILURE audit entry are not modelled.
- `datetime.now()`, `datetime.utcnow()`: a `now` parameter, one value per call. The source reads the clock once per row.
- Audit-log entries: kept to the action, actor, resource id and structured data. The `resource_type` and the free-text formatting of `data_accessed` are not modelled.
- `create_draft_shifts`: the model assigns fresh consecutive keys. It ignores any key already set on an input object; the source passes such objects to `session.add` as given.
- `adjust_shift`: `new_data` can carry only `user_id`, `start_time` and `end_time`. Other keys and explicit `None` values are not modelled.
- Floating point: hours are integer minutes. The comparisons `hours > cap`, `6 < duration <= 8` and `min_hours <= duration <= max_hours` are exact on minutes (the last uses `real`). The `:.1f` rounding in detail texts is not modelled.
- Detail texts of violations: a structured `Detail` value. `format_violations_for_display` takes a `render` function for it.
- Worker names come from a map (`shift.user.name`, or "不明" when absent).
- `validate_date_format` (`strptime` with four formats and the current year) is a `parseDate` parameter of `ParseShiftRequestMessage`. That makes it parameter-trusted rather than modelled.
- `\d` is taken as the ASCII digits only. Python's `\d` also matches other Unicode decimal digits.
- `Validators.IsPrintable` approximates `str.isprintable()` by its control, separator and common format characters. It does not carry the full Unicode category table.
- The LP solver (PuLP/CBC) is a parameter returning an outcome. Only feasibility of an optimal answer is used, and the objective weights are recorded but optimality is not proved.
- `shift_vars` (a three-level dictionary) is flattened into the list of its variables, in insertion order.
- `check_all_violations` visits the workers in the iteration order of a Python `set` of ints. `CollectUserViolations` leaves that order unspecified: it returns the order taken as a ghost result and states that each worker appears once, so which worker's block comes first is not pinned down.
- `check_all_violations` skips a worker with no shifts (`continue`). That branch can never run, since the worker ids come from the shifts, so it is not modelled.
- `Optimizer.ScheduleFromRequests`, `Optimizer.CandidateRequest`: assume unique request ids (primary keys). Without that, `next(...)` could return a different request with the same id.
- SQL result order without `ORDER BY` is taken to be table order. Ties under `ORDER BY date, start_time` are left in the order the sort chooses, so `GetPublishedShiftsForUser` states a permutation, not a particular tie order.
- `to_dict`, `__repr__`, `get_duration_hours` as a float, the relationships, `required_skill_level` and `predicted_traffic` are not modelled.
- `LaborLaw.WeekKey`: the weekly key is modelled as the pair (calendar year, ISO week), as written; `WeekKeyMergesYearEnds` shows the resulting merge of year-end weeks.

## Findings

| source | as written | input that shows it | evidently intended | confidence | as-written member | corrected member |
|---|---|---|---|---|---|---|
| utils/validators.py:200-201 | `re.match(r'^U[0-9a-f]{32}$', line_id)`: Python's `$` also matches before a final newline | "U0123456789abcdef0123456789abcdef\n" is accepted | exactly "U" and 32 lower-case hex digits, nothing after | high (not executed) | Validators.ValidateLineIdAsWritten, Validators.LineIdTrailingNewlineAccepted | Validators.ValidateLineId, Validators.LineIdCheckDifference |
