# Dashboard renderer model

A Dafny model of the rendering core of the e-ink dashboard publisher
(`postNewDashboard` in `src/server.js`). The publisher reads an HTML template,
fills its `{{...}}` placeholders one `String.prototype.replace` call at a time,
and posts the page to the display's API. The values come from:

- the current weather and a six-day forecast;
- a countdown to a configured target date;
- a 42-cell month grid;
- the first five upcoming calendar events.

The model has six modules:

- `Text` covers strings: `indexOf`, first-occurrence `replace`, the decimal text of numbers, and chains of substitutions. It proves what a chain does to a template that holds its placeholders, each at most once, in any order.
- `Dates` covers the calendar arithmetic of JavaScript `Date` on the local clock. This includes the constructor's normalisation of an out-of-range month or day, `getDay()` and `setFullYear`. It also holds the `daysUntil` countdown as written and a corrected countdown.
- `WeatherCodes` holds the two WMO code tables, `weatherCodeToText` and `weatherCodeToIconSrc`.
- `Events` models the selection of upcoming events: filter by start, stable sort by start, first five.
- `MonthGrid` models the month-grid loop: the layout from the `Date` constructor, the three branches of the cell markup, and the 42 placeholder replacements.
- `Dashboard` models the events block with its `count` guard, the forecast loop, and the whole page as one chain of substitutions.

The code loops become methods proved against the specification functions:

- `Text.ReplaceChain` runs a chain one `replace` at a time;
- `MonthGrid.CellContent` and `MonthGrid.FillMonthGrid` model the grid loop;
- `Dashboard.RenderEventList` models the `map` with its counter;
- `Dashboard.RenderForecast` models the forecast loop;
- `Dashboard.RenderCalendar` and `Dashboard.RenderDashboard` model the page.

The calls into other code are parameters of the model:

- locale formatting (`toLocaleDateString`, `toLocaleTimeString`) is a `Dashboard.Locale` of functions from an instant to text;
- the icon images are the `iconSrc` function of `Dashboard.Locale`, from an `Icon` to its data URI;
- the weather payload is a `Dashboard.Weather` value;
- the parsed calendar is a sequence of `Events.Event` values.

Months are 0-based, as `getMonth()` returns them. An instant is a count of milliseconds on the local clock: the day number since 1 January of year 1, times 86 400 000, plus the milliseconds of the day.

The roll-forward at `src/server.js:27` moves a passed target to next year, which only makes sense for a date that recurs every year, such as an anniversary. The code does not count to the next anniversary, though: it compares full dates, and when the target is before now it moves the target to `now.getFullYear() + 1`, whatever the target's own year. The page model renders the countdown as written (`Dates.DaysUntil`) and labels it with the date that countdown reaches (`Dates.RolledTarget`), since `setFullYear` changes the target in place before the label is formatted. `Dates.DaysUntilNextOccurrence` counts to the next anniversary; it is the corrected half of the entry under Findings. A target that is still ahead is kept as it is, with its own year, in both the code and the model.

## Model

| member | source | states |
|---|---|---|
| WeatherCodes.ConditionText | src/server.js:206-252 | the label is "Unknown" exactly when the code is not one of the 26 codes the switch lists |
| WeatherCodes.ConditionTextByGroup | src/server.js:206-252 | every code of a group of fall-through cases gets that group's label |
| WeatherCodes.TextGroupsCoverKnownCodes | src/server.js:206-252 | the label groups together hold exactly the known codes |
| WeatherCodes.TextGroupsDistinct | src/server.js:206-252 | two different groups have different labels, so two codes share a label only within a group |
| WeatherCodes.ConditionIcon | src/server.js:157-204 | the icon is the default image exactly when the code is not a known code |
| WeatherCodes.ConditionIconByGroup | src/server.js:157-204 | every code of an image group gets that group's image; groups whose data URIs are identical in the source (51 and 61; 53, 55, 63, 65, 80, 81 and 82; 73, 75, 77, 85 and 86) are one group |
| WeatherCodes.IconGroupsCoverKnownCodes | src/server.js:157-204 | the image groups together hold exactly the known codes |
| WeatherCodes.IconGroupsDistinct | src/server.js:157-204 | two different image groups have different images |
| WeatherCodes.TablesAgreeOnKnownCodes | src/server.js:157-252 | the label is "Unknown" exactly when the icon is the default: both switches know the same codes |
| Dates.DaysInMonth | src/server.js:63 | a month has 28 to 31 days, and 29 exactly for February of a leap year |
| Dates.DaysBeforeMonthStep | src/server.js:63 | the table of days before each month adds up month by month to the months' lengths |
| Dates.YearStep | src/server.js:62 | the days before a year grow by 366 over a leap year and by 365 over any other |
| Dates.DayNumberInYear | src/server.js:62-63 | a valid date's day number lies between the first day of its year and the first day of the next |
| Dates.DayNumberInjective | src/server.js:95-100 | two valid dates with the same day number are equal, so `getFullYear`, `getMonth` and `getDate` of a day are well defined |
| Dates.LastDayThenFirst | src/server.js:63 | the day after the last of a month is the first of the next month, also from December to January |
| Dates.MonthEndIsDayZeroOfNext | src/server.js:63-73 | `new Date(y, m + 1, 0)` is the last day of month `m`, so its `getDate()` is the month's length |
| Dates.DayZeroIsPrevMonthEnd | src/server.js:70 | `new Date(y, m, 0)` is the last day of the previous month, in the previous year for January, and directly precedes the first of month `m` |
| Dates.DayNumber | src/server.js:62-70 | `new Date(y, m, d)` as a day count, with a month or day out of range moved into the neighbouring year or month; stated by `Dates.DayNumberInYear`, `Dates.DayNumberInjective`, `Dates.LastDayThenFirst` and `Dates.DayZeroIsPrevMonthEnd` |
| Dates.Weekday | src/server.js:66 | `getDay()` is between 0 and 6; `Dates.WeekdayAfter` makes it advance by one a day and `Dates.WeekdayAnchor` pins it to the calendar |
| Dates.WeekdayAnchor | src/server.js:66 | 1 March 2024 (month 2, counting from 0) is a Friday: `getDay()` gives 5 |
| Dates.InstantOf | src/server.js:27-28 | a `Date` as milliseconds on the local clock, the scale on which the code compares and subtracts dates; stated by `Dates.InstantOrder` |
| Dates.InstantOrder | src/server.js:27 | one moment is before another exactly when its day is earlier, or it is the same day and its time of day is earlier |
| Dates.PrevMonthEnd | src/server.js:70 | `new Date(y, m, 0)` read back as a date: a valid date that is the last day of its month; `Dates.DayZeroIsPrevMonthEnd` places it just before the 1st of month `m` |
| Dates.WeekdayAfter | src/server.js:66 | the weekday advances by one per day, modulo 7 |
| Dates.CeilDays | src/server.js:28 | `Math.ceil(ms / 86400000)` is the least whole number of days covering `ms` |
| Dates.WithYear | src/server.js:27 | `setFullYear` keeps month, day and time of day; its effect is stated by `Dates.NextYearIsAhead` and `Dates.AnniversariesIncrease` |
| Dates.RolledTarget | src/server.js:27 | the date `daysUntil` counts to is never before now |
| Dates.NextYearIsAhead | src/server.js:27 | the target's month and day in next year are after every moment of this year |
| Dates.DaysUntil | src/server.js:26-30 | the countdown as written is never negative; it is at least 1 when the target has passed; otherwise it is the rounded-up number of days to the target |
| Dates.CountdownExamples | src/server.js:26-30 | on 1 March 2024 a target of 10 March 2024 is 9 days away; on 15 March 2024 the target rolls to 10 March 2025, 360 days away |
| Dates.DaysUntilSkipsAYear | src/server.js:27 | on 1 January 2025 a target of 10 March 2024 counts 433 days as written, where the next 10 March is 68 days away |
| Dates.NextOccurrence | src/server.js:26-30 | the next anniversary of the target on or after now; stated by `Dates.NextOccurrenceWithinAYear` and `Dates.NextOccurrenceIsNext` |
| Dates.NextOccurrenceIsNext | src/server.js:26-30 | when the target has passed, no anniversary on or after now comes before the next occurrence |
| Dates.EarlierYearsBeforeNow | src/server.js:27 | the target's month and day in a year before now's year are before now |
| Dates.AnniversariesIncrease | src/server.js:27 | a target's month and day in a later year are later |
| Dates.NextOccurrenceWithinAYear | src/server.js:26-30 | the next occurrence of the target is never before now, and at most 366 days after now when the target has passed |
| Dates.DaysUntilNextOccurrence | src/server.js:26-30 | the corrected countdown is never negative, at most 366 when the target has passed, and the rounded-up number of days to the target when the target is ahead |
| Dates.NextOccurrenceAgrees | src/server.js:26-30 | the corrected countdown equals the one as written whenever the target's year is not before now's year |
| Events.Upcoming | src/server.js:55 | the filter keeps no more events than the feed has, and only events that start at or after now |
| Events.UpcomingCounts | src/server.js:55 | the filter keeps each event that starts at or after now as many times as the feed lists it, and drops every other event |
| Events.UpcomingKeepsOrder | src/server.js:55 | among the events sharing a start time, the filter keeps the feed's order |
| Events.InsertByStart | src/server.js:56 | inserting into a sorted list gives a sorted list one longer |
| Events.SortByStart | src/server.js:56 | the sort returns a list sorted by start time, of the same length |
| Events.SortIsPermutation | src/server.js:56 | the sort returns a permutation of its input |
| Events.SortIsStable | src/server.js:56 | the sort is stable: the events sharing a start time keep their input order |
| Events.SelectUpcoming | src/server.js:53-57 | the selection holds at most five events, sorted by start |
| Events.SelectedFromFeed | src/server.js:53-57 | every selected event is in the feed and starts at or after now; the selection is a sub-multiset of the upcoming events, which are a sub-multiset of the feed |
| Events.SelectedCount | src/server.js:57 | five events are selected when at least five are upcoming, otherwise all upcoming ones |
| Events.SelectedAreEarliest | src/server.js:56-57 | an upcoming event that starts before some selected event is itself selected |
| Events.SelectedTiesInFeedOrder | src/server.js:53-57 | the selected events with a given start time are a prefix of the feed's events with that start time, in feed order |
| MonthGrid.LayoutOf | src/server.js:60-73 | the leading blanks are 0 to 6, the month has 28 to 31 days, and the previous month's last day is 28 to 31 |
| MonthGrid.LayoutExamples | src/server.js:62-73 | February 2015 starts on a Sunday (no leading blanks), has 28 days and follows a 31-day January; March 2025 starts on a Saturday (6 blanks), has 31 days and follows a 28-day February |
| MonthGrid.LayoutFromDateConstructor | src/server.js:62-73 | the layout's numbers are the source's `getDay()` of the 1st, `getDate()` of `new Date(y, m + 1, 0)` and `getDate()` of `new Date(y, m, 0)` |
| MonthGrid.AnyStartsOn | src/server.js:96-101 | `events.some(...)` is true exactly when some event starts on that year, month and day |
| MonthGrid.MonthCells | src/server.js:76 | the grid has 42 cells |
| MonthGrid.Markup | src/server.js:82-109 | a cell's markup contains no `{`, so it never creates a placeholder |
| MonthGrid.MarkupIsSafe | src/server.js:82-109 | no cell's markup contains `{{` or ends in `{`, so no value of the grid can open a placeholder |
| MonthGrid.Placeholder | src/server.js:113 | cell `i`'s placeholder `{{i}}` is a `{{name}}` token with no brace in its name |
| MonthGrid.PlaceholdersDistinct | src/server.js:113 | different cells have different placeholders |
| MonthGrid.GridSubstitutions | src/server.js:76-114 | the loop makes 42 replacements; the `i`-th replaces `{{i}}` |
| MonthGrid.CellContent | src/server.js:77-110 | the loop body's three branches give the markup of cell `i` of the grid |
| MonthGrid.FillMonthGrid | src/server.js:76-114 | the loop's page is the template with the 42 cell replacements applied in order |
| MonthGrid.GridSegments | src/server.js:79-110 | cells before the first of the month are the previous month's, then come the month's days, then the next month's, of which there are at least five |
| MonthGrid.GridNumbering | src/server.js:79-110 | leading cells count up to the previous month's last day; the month's cells are 1 to its length; trailing cells restart at 1 |
| MonthGrid.OneTodayCell | src/server.js:86-89 | exactly one cell is marked today, the one for today's date |
| MonthGrid.EventCellsMarked | src/server.js:94-105 | a cell of the month is marked exactly when one of the events starts on its date |
| MonthGrid.CellIsCalendarDay | src/server.js:62-110 | every cell shows the valid calendar date of consecutive days, and cell `i` is in column `i % 7` of a Sunday-first week |
| MonthGrid.GridPatternsDistinct | src/server.js:113 | the 42 grid placeholders are pairwise distinct |
| MonthGrid.GridFillsItsPlaceholders | src/server.js:76-114 | a template holding any of `{{0}}` to `{{41}}`, each at most once and in any order, between pieces of safe text (no `{{` inside, no `{` at the end; CSS braces are fine), gets cell `i`'s markup in the place of `{{i}}` |
| MonthGrid.CellAt | src/server.js:79-110 | cell `i` is a previous-month day, a day of this month flagged as today and as having an event, or a next-month day; its properties are stated by `MonthGrid.GridSegments`, `MonthGrid.GridNumbering`, `MonthGrid.OneTodayCell` and `MonthGrid.EventCellsMarked` |
| Text.IndexOf | src/server.js:34-36 | `indexOf` returns the first index at or after the start where the pattern occurs, or nothing when it does not occur |
| Text.ReplaceFirstAt | src/server.js:34-36 | `replace` with a string pattern rewrites only the first occurrence and keeps the text around it |
| Text.ReplaceFirstAbsent | src/server.js:34-36 | `replace` returns a text without the pattern unchanged |
| Text.ReplaceFirst | src/server.js:34-36 | `replace` with a string pattern: the first occurrence is replaced, and a text without the pattern is returned as it is; stated by `Text.ReplaceFirstAt` and `Text.ReplaceFirstAbsent` |
| Text.ReplaceFirstAfterSafe | src/server.js:34-36 | a pattern starting with `{{` is never found inside a prefix of safe text, so replacing leaves such a prefix alone |
| Text.SafeConcat | src/server.js:34-131 | two pieces of safe text joined are safe text |
| Text.NatToDecimal | src/server.js:34 | the decimal text of a natural number is digits without a leading zero |
| Text.DecimalRoundTrip | src/server.js:34 | reading the decimal text back gives the number |
| Text.IntToDecimal | src/server.js:35-41 | the text of an integer has a leading minus exactly when the number is negative, and never contains `{` |
| Text.ApplyAllAppend | src/server.js:34-47 | running two chains of `replace` calls one after the other is running their concatenation |
| Text.ApplyAllAbsent | src/server.js:34-131 | a template that contains none of the placeholders comes back unchanged |
| Text.ApplyAll | src/server.js:34-131 | a chain of `replace` calls applies its steps in order, each to the result of the ones before; stated by `Text.ApplyAllAppend` and `Text.ReplaceChain` |
| Text.ApplyAllAfterSafe | src/server.js:34-131 | a prefix of safe text is never changed by a chain of placeholder replacements |
| Text.Concat | src/server.js:130 | `join('')`: stated by `Text.ConcatSnoc` (one more piece adds that piece at the end) and `Text.ConcatAppend` |
| Text.ConcatSnoc | src/server.js:130 | joining pieces with one more at the end gives the join followed by that piece |
| Text.ConcatAppend | src/server.js:130 | joining two runs of pieces gives the two joins one after the other |
| Text.InterleaveFilled | src/server.js:34-131 | a template listing its placeholders once each, in chain order, between pieces of safe text, with safe values, gets every value in its placeholder's place |
| Text.ChainFillsTemplate | src/server.js:34-131 | the same, stated for a chain of placeholder and value pairs |
| Text.TokenOf | src/server.js:34-131 | `{{name}}` is a token when the name holds no brace |
| Text.TokenMismatch | src/server.js:34-131 | a token never occurs at a position inside a different token, whatever follows it |
| Text.ReplaceFirstAfterToken | src/server.js:34-131 | replacing a token leaves a different token in front of the text alone |
| Text.ReplaceFirstAfterClear | src/server.js:34-131 | when the pattern occurs at no position inside a prefix, replacing leaves the prefix alone |
| Text.ReplaceInSlots | src/server.js:34-131 | replacing a token in a template whose slots before it hold safe text or other tokens fills exactly the first slot holding it |
| Text.AbsentFromSlots | src/server.js:34-131 | a token held by no slot of a template of safe pieces and other tokens occurs nowhere in it |
| Text.FillStep | src/server.js:34-131 | one step of a chain fills the slot holding its placeholder, or changes nothing when the template has none |
| Text.FilledInStages | src/server.js:34-131 | after the first `j` steps, every slot whose step has run holds its value and every other slot its placeholder |
| Text.FilledInAnyOrder | src/server.js:34-131 | a template holding distinct token placeholders, each at most once and in any order, between pieces of safe text, with safe values, gets every value in its placeholder's place |
| Text.ChainFillsAnyOrder | src/server.js:34-131 | the same, stated for a chain of placeholder and value pairs |
| Text.DistinctAppend | src/server.js:34-131 | two chains with distinct placeholders, none shared, have distinct placeholders together |
| Text.ReplaceChain | src/server.js:34-36 | running the `replace` calls one at a time gives the chain's result |
| Dashboard.ListItem | src/server.js:122-129 | one event's `<li>`: short date, weekday, title, start and end times; no contract of its own |
| Dashboard.ListItemsAppend | src/server.js:120-130 | the items of two runs of events are the first run's items followed by the second's, so each item depends only on its own event |
| Dashboard.EventsBlock | src/server.js:116-131 | the no-events paragraph or one `<ul>` of one item per event; tied to the loop by `Dashboard.RenderEventList` and `Dashboard.CountGuardNeverFires` |
| Dashboard.RenderEventList | src/server.js:116-132 | no events give the no-events paragraph; otherwise the list holds the items of the first five events, in order, and the counter drops the rest |
| Dashboard.CountGuardNeverFires | src/server.js:119-121 | with at most five events, which the selection guarantees, the counter never drops an item and the list holds one item per event |
| Dashboard.HeaderSubstitutions | src/server.js:34-41 | the date, countdown and current-weather code makes seven replacements |
| Dashboard.DateSubstitutions | src/server.js:34-36 | the date and countdown code makes four replacements |
| Dashboard.CurrentWeatherSubstitutions | src/server.js:40-41 | the current-weather code makes three replacements |
| Dashboard.DateBraced | src/server.js:34-36 | every placeholder of the date and countdown replacements is a `{{name}}` token with no brace in its name |
| Dashboard.WeatherBraced | src/server.js:40-41 | every placeholder of the current-weather replacements is such a token |
| Dashboard.HeaderBraced | src/server.js:34-41 | every placeholder of those seven replacements is such a token |
| Dashboard.DateLabels | src/server.js:34-36 | the date code replaces `{{day}}`, `{{date}}`, `{{countdown}}` and `{{target_date}}`, in that order |
| Dashboard.WeatherLabels | src/server.js:40-41 | the current-weather code replaces `{{temp}}`, `{{weather}}` and `{{weather_details}}`, in that order |
| Dashboard.HeaderLabels | src/server.js:34-41 | the seven header replacements use those seven placeholders in that order |
| Dashboard.LabelPatterns | src/server.js:34-131 | the nine named placeholders of the header and the calendar are tokens whose names neither start nor end with a digit |
| Dashboard.LabelsDistinct | src/server.js:34-131 | those nine placeholders are pairwise distinct |
| Dashboard.HeaderPatterns | src/server.js:34-41 | the header's placeholders are distinct, and none is a forecast, grid or calendar-label placeholder |
| Dashboard.DaySubstitutions | src/server.js:43-46 | each forecast day makes four replacements |
| Dashboard.ForecastSubstitutions | src/server.js:42-47 | the forecast loop makes four replacements for each of days 1 to 5 |
| Dashboard.DayPatternTokens | src/server.js:43-46 | day `i`'s placeholders (for day 1: `{{day+1}}`, `{{low+1}}`, `{{high+1}}`, `{{icon1}}`) are tokens with no brace in their names |
| Dashboard.DayBraced | src/server.js:43-46 | every placeholder of a forecast day is such a token |
| Dashboard.DayLabels | src/server.js:43-46 | a forecast day's four replacements use its four placeholders in source order |
| Dashboard.DayPatternsApart | src/server.js:43-46 | two forecast placeholders are equal only for the same key and the same day |
| Dashboard.DayPatternFamily | src/server.js:43-46 | a forecast placeholder's name starts with a letter and ends with a digit |
| Dashboard.GridPatternFamily | src/server.js:113 | a grid placeholder's name starts with a digit |
| Dashboard.ForecastBraced | src/server.js:42-47 | every placeholder of the forecast loop is a `{{name}}` token with no brace in its name |
| Dashboard.ForecastPlaceholders | src/server.js:42-47 | replacement `k` of the forecast loop fills key `k % 4` of day `k / 4 + 1` |
| Dashboard.ForecastDistinct | src/server.js:42-47 | the forecast loop's 20 placeholders are pairwise distinct |
| Dashboard.ForecastFamily | src/server.js:42-47 | every forecast placeholder's name starts with a letter and ends with a digit |
| Dashboard.ForecastStep | src/server.js:42-47 | each round of the forecast loop appends that day's four replacements to those of the rounds before |
| Dashboard.RenderForecast | src/server.js:42-47 | the loop's page is the page with the replacements of days 1 to 5 applied, day by day |
| Dashboard.RenderCalendar | src/server.js:58-131 | the month label, the grid loop and the events block are applied in order |
| Dashboard.CalendarSubstitutions | src/server.js:58-131 | the month label, the 42 grid cells and the events block make 44 replacements |
| Dashboard.CalendarBraced | src/server.js:58-131 | every placeholder of those 44 replacements is a `{{name}}` token with no brace in its name |
| Dashboard.CalendarPatterns | src/server.js:58-131 | the calendar's placeholders are distinct: `{{month_label}}`, then the 42 grid placeholders, then `{{upcoming_events}}` |
| Dashboard.PageSubstitutions | src/server.js:34-131 | the page is filled by 71 replacements |
| Dashboard.PageBraced | src/server.js:34-131 | every placeholder of the page is a `{{name}}` token with no brace in its name |
| Dashboard.PagePatternsDistinct | src/server.js:34-131 | no two of the page's 71 replacements share a placeholder |
| Dashboard.ThreePartsDistinct | src/server.js:34-131 | header, forecast and calendar replacements, each with distinct placeholders and told apart by the first and last characters of the names, have distinct placeholders together |
| Dashboard.RenderDashboard | src/server.js:20-131 | the rendered page is the template with every replacement of the page applied in source order |
| Dashboard.PageStartsWithHeader | src/server.js:34-41 | the first seven replacements are the date, countdown and current-weather ones |
| Dashboard.HeaderCountdown | src/server.js:35-36 | the countdown placeholder receives the decimal text of `daysUntil` as written, and the target-date placeholder the date that countdown reaches |
| Dashboard.CountdownShown | src/server.js:26-36 | the page shows `daysUntil` as written, labelled with the date it reaches: never negative, the rounded-up days to the target when the target is ahead, and, for a target in now's year or later, equal to the count to the next occurrence and so at most 366 when the target has passed |
| Dashboard.MarkedDaysAreSelectedEvents | src/server.js:53-105 | a marked day of the grid is the start date of an event of the feed that starts at or after now and is among the selected five |
| Dashboard.Noon | src/server.js:43 | the forecast day's date at 12:00, the instant whose weekday the code formats for that day; stated by `Dashboard.NoonWithinDay` |
| Dashboard.NoonWithinDay | src/server.js:43 | noon lies strictly inside its own day, so the weekday formatted from it is that day's |
| Dashboard.PageFillsTemplate | src/server.js:34-131 | a template holding any of the page's placeholders, each at most once and in any order, between pieces of safe text, receives every safe value in its placeholder's place |

## Left out

- Fetching the calendar and the weather, reading the template file and posting the page are outside the model. The same goes for logging, the timer and signal handlers, and the file-name timestamp built from the system clock.
- Parsing the iCalendar feed (`ICAL.parse`, `ICAL.Event`) is outside the model. Each event arrives already parsed: its start and end instants, the local date of its start, and its title. The model does not constrain the start date to agree with the start instant.
- Locale formatting (`toLocaleDateString`, `toLocaleTimeString`) and the icons' base64 data URIs are parameters of the model. `Icon` names each distinct image.
- `Math.round` of floating-point temperatures is not modelled; temperatures and humidity arrive as integers.
- Time zones and daylight saving time are not modelled. All dates and instants are on one local clock with days of 86 400 000 ms, and `new Date(...)` of the weather time and of the target date are taken as that clock's values.
- The `Date` constructor's mapping of years 0 to 99 to 1900 to 1999 is not modelled; years are taken as given.
- JavaScript `replace` expands `$&`, `$1` and similar patterns in a replacement string. `Text.ReplaceFirst` inserts the replacement literally, so a value containing `$` would render differently.
- Dashboard.RenderDashboard: requires a forecast of at least six days and a valid target date. With fewer days the source reads `undefined`, and with an unparsable `TARGET_DATE` it renders `NaN`; neither case is modelled.
- Text.ChainFillsAnyOrder, MonthGrid.GridFillsItsPlaceholders and Dashboard.PageFillsTemplate cover templates that hold each placeholder at most once, in any order, with some possibly missing, whose text between placeholders is safe (no `{{`, no trailing `{`), and values that are safe. A template that repeats a placeholder (the code fills only its first copy), a template with a `{{name}}` the code does not replace, or an event title containing `{{`, is outside these lemmas; `Text.ApplyAllAbsent` and `Dashboard.RenderDashboard` still describe the page in those cases. `Text.InterleaveFilled` and `Text.ChainFillsTemplate` state the in-order case on its own.
- Dashboard.RenderCalendar: requires at most five events, which the selection guarantees; `Dashboard.RenderEventList` alone handles any number.

## Findings

| source | as written | input that shows it | evidently intended | confidence | as-written member | corrected member |
|---|---|---|---|---|---|---|
| src/server.js:26-30 | a target before now is moved to `now.getFullYear() + 1`, even when the target's month and day are still ahead this year | now 1 January 2025, `TARGET_DATE` 2024-03-10: 433 days, to 10 March 2026 | 68 days, to the next 10 March (2025) | not executed | Dates.DaysUntilSkipsAYear | Dates.DaysUntilNextOccurrence |
