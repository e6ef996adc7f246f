# Life Calendar — a verified model of its calendar and progress arithmetic

Life Calendar is made of two browser scripts. `app.js` is the year-progress
page. It shows days passed and left, the ISO week, a dot per day of the year,
twelve month bars, a goal tracker and a PNG export of the grid. `wallpaper.js`
is the wallpaper generator. It keeps a selected theme, device kind and
resolution, paints a phone or desktop wallpaper with a dot per day, and names
the downloaded file after the device and theme.

This project models the integer core of both scripts in Dafny:

- `Calendar` (calendar.dfy): leap years, the month-length table, the ordinal
  day of a date and its inverse (with the overflow of `setDate` into the next
  year), `daysBetween` and `getWeekNumber`. A date is a `(year, month, day)`
  triple at local midnight; the month is a JavaScript month index. Each date
  also has a day number, counted from 1 January of year 1.
- `Layout` (layout.dfy): the rule every grid loop uses to mark a day as
  completed, today or remaining, and the geometry of a row-major grid.
- `LifeCalendarApp` (app.dfy): the `LifeCalendar` page object with its stats,
  day grid, month bars, goal store, goal figures and export grid.
- `Wallpaper` (wallpaper.dfy): the `DEVICES` catalog and the
  `WallpaperGenerator` object with its selection state, its two layouts and
  the download file name.
- `Numeric` and `Text` hold the JavaScript built-ins the scripts use:
  `Math.round` and `Math.ceil` on integer quotients, `trim`, ASCII
  `toLowerCase` and integer-to-text.
- `Wrappers` holds the `Option` and `Result` types the model uses for a value
  that may be absent (a stored goal, an empty form field, an unknown catalog
  key) and for a refused goal.

The page objects are classes. Their event handlers are methods that change
their fields. The grid loops are `for` or `while` loops with invariants.

The generator keeps the selected theme, device kind and resolution in
mutable fields, which its click handlers reassign. The export of `app.js`
draws on a fixed 800x600 canvas with 12-pixel dots and 4-pixel gaps. The
desktop wallpaper grid has 30 columns and the export grid 21.

The page methods compute what the code computes, including two defects
listed under "## Findings"; the corrected definitions sit beside them.

## Model

| member | source | states |
|---|---|---|
| Calendar.IsLeapYear | app.js:29-31 | every leap year is a multiple of 4 |
| Calendar.DaysInYear | app.js:36-38 | a year has 366 days exactly when it is a leap year, and 365 exactly when it is not |
| Calendar.DaysBeforeMonth | app.js:282-312 | the running `dayCount` before month `m`; its own contract is only the bound `31 * m`, while its growth by at least 28 days a month is `DaysBeforeMonthMono` and its agreement with the loop is `MonthBars` |
| Calendar.LeapYearExamples | app.js:29-38 | 1900 is not a leap year, 2000 and 2024 are, 2023 is not; a common year has 365 days and a leap year 366 |
| Calendar.MonthLength | app.js:285-287 | a month has 28 to 31 days, and 29 exactly for February of a leap year |
| Calendar.MonthLengthsSumToYear | app.js:15 | the twelve month lengths, February adjusted, add up to `getDaysInYear` |
| Calendar.YearStartStep | wallpaper.js:104-110 | consecutive 1 Januaries are `getDaysInYear` days apart, so the day count agrees with the leap-year rule |
| Calendar.DaysBeforeMonthMono | app.js:282-313 | the running day count grows by at least 28 days a month |
| Calendar.MonthInsideYear | app.js:289-290 | every month starts and ends inside its year |
| Calendar.DayNumber | app.js:44 | (also app.js:73 and wallpaper.js:113) `new Date(y, m, d)` as a count of days; `DateInsideYear` places it inside its year, and `DayNumberOrder` shows it orders dates by year, month and day |
| Calendar.DateInsideYear | app.js:43-48 | a valid date's ordinal lies in `1..getDaysInYear`, and its day number is its 1 January plus the ordinal minus one |
| Calendar.DayNumberOrder | app.js:437 | comparing two dates compares year, then month, then day |
| Calendar.YearOrder | app.js:437 | dates of different years compare by year |
| Calendar.MonthOrder | app.js:437 | dates of one year compare by month, then day |
| Calendar.DayNumberInjective | app.js:437 | distinct dates are distinct days |
| Calendar.YearOfDayNumberUnique | app.js:57 | a day belongs to one year only |
| Calendar.GetDayOfYear | app.js:43-48 | the result is the date's ordinal, whatever the time of day, and lies in `1..getDaysInYear` |
| Calendar.DayZeroIsPreviousDecember | app.js:44 | day 0 of January is 31 December of the year before |
| Calendar.DayOfYearEnds | wallpaper.js:112-117 | 1 January is day 1 and 31 December is day `getDaysInYear` |
| Calendar.MonthCarry | app.js:74 | overflowing a month by its length moves to the next month, or to January of the next year |
| Calendar.GetDateFromDayOfYear | app.js:72-76 | the date is valid and is day `dayOfYear` counted from 1 January; inside the year it has that ordinal; up to 31 days past the end it is that day of January of the next year |
| Calendar.DateRoundTrip | app.js:72-76 | the date of a date's own ordinal in its own year is that date |
| Calendar.DateOfDayCount | app.js:72-76 | a valid date that is day `dayOfYear` from 1 January has that ordinal in the year when the count is inside it, and lies in January of the next year when it overflows by up to 31 |
| Calendar.DaysBetween | app.js:89-92 | the result is the absolute difference of the day numbers |
| Calendar.DaysBetweenProperties | app.js:89-92 | the distance is symmetric and non-negative, and zero exactly for equal dates |
| Calendar.UtcDay | app.js:55 | the weekday is in `0..6` |
| Calendar.YearContaining | app.js:57 | the year found is the one holding the shifted day |
| Calendar.ThursdayOf | app.js:55-56 | the shift `date + 4 - (getUTCDay() \|\| 7)`; `ThursdayAfterMonday` shows it is the Thursday of the Monday-to-Sunday week |
| Calendar.ThursdayAfterMonday | app.js:55-56 | `getUTCDay() \|\| 7` moves every day to the Thursday of its Monday-to-Sunday week |
| Calendar.WeekYear | app.js:56-57 | the week's Thursday lies in the year found |
| Calendar.WeekNumber | app.js:53-59 | the week number is between 1 and 53 |
| Calendar.WeekNumberIsIso | app.js:53-59 | the week number equals the ISO 8601 week, counted from the week holding 4 January |
| Calendar.SameWeekSameNumber | app.js:53-59 | all seven days of a Monday-to-Sunday week get the same number |
| Calendar.FourthOfJanuaryIsWeekOne | app.js:53-59 | 4 January is always in week 1 of its own year |
| Calendar.WeekNumberWithinYear | app.js:236 | a week-numbering year has 52 or 53 weeks, and no week number exceeds its year's count |
| Calendar.LastWeekOfYear | app.js:53-59 | 28 December is in its own week-numbering year, in the week whose Thursday is the year's last |
| Calendar.FiftyThreeWeeksIn2020 | app.js:236 | the ISO year 2020 has 53 weeks |
| Calendar.WeekFiftyThreeExample | app.js:53-59 | 31 December 2020 and 1 January 2021 are both in week 53 |
| Calendar.WeekOneOfNextYearExample | app.js:53-59 | 30 December 2024 is in week 1 of 2025 |
| Calendar.WeekdayAnchor | app.js:55 | 1 January 2024 is a Monday |
| Numeric.RoundHalfUp | app.js:91 | `Math.round` of a quotient is the nearest integer, halves rounded up |
| Numeric.RoundHalfUpExact | app.js:91 | rounding a whole number of days gives that number |
| Numeric.CeilDiv | app.js:58 | `Math.ceil` of a quotient is the least integer not below it |
| Numeric.PercentInRange | app.js:384 | a rounded percentage of a part of a whole is in `0..100` |
| Numeric.Percentage | app.js:227 | days passed over days in the year, times 100, is above 0, at most 100, and gives back the days passed |
| Text.TrimStart | app.js:428 | drops exactly the leading whitespace |
| Text.TrimEnd | app.js:428 | drops exactly the trailing whitespace |
| Text.Trim | app.js:428 | the trimmed title sits in the title with only whitespace before and after it, and when not empty neither starts nor ends with whitespace, so it is exactly the title without its leading and trailing whitespace |
| Text.TrimEmptyIffBlank | app.js:428-432 | the trimmed title is empty exactly when the title is all whitespace |
| Text.LowerCase | wallpaper.js:508 | every ASCII capital becomes its small letter; other characters stay |
| Text.NatToDecimalRoundTrip | app.js:546 | the year's decimal text reads back as the year |
| Text.IntToDecimal | app.js:546 | the text of a number starts with a minus sign exactly when the number is negative, and the rest is a numeral without leading zeros whose value is the number's magnitude |
| Layout.Classify | app.js:257-263 | a day is completed exactly when it is before the reference day, today exactly on it, remaining exactly after it |
| Layout.CellOf | wallpaper.js:378-381 | the column is below `cols`, and row times `cols` plus column gives back the index |
| Layout.GridRows | wallpaper.js:346 | `Math.ceil(total / cols)` rows: enough for `total` dots, and one fewer would not be |
| Layout.ClassificationCounts | app.js:257-263 | a grid of days `1..n` has one today dot exactly when the reference day is in range, `reference - 1` (clamped) completed dots, and the rest remaining |
| Layout.CellOfInjective | wallpaper.js:378-381 | distinct day indices get distinct cells |
| Layout.CellInsideGrid | wallpaper.js:345-346 | every index below the total lands in a row below `ceil(total / cols)` and a column below `cols` |
| Layout.YearGridRows | wallpaper.js:425-426 | a year fills 27 rows of 14, 13 rows of 30 and 18 rows of 21 |
| Layout.DotGap | wallpaper.js:350 | the gap is half the dot size, rounded up |
| Layout.GridSpan | wallpaper.js:353-354 | (also wallpaper.js:431-432) `gridCols * (dotSize + dotGap) - dotGap`; `CentredGridIsSymmetric` shows the centred grid of this extent leaves equal margins |
| Layout.CentredStart | wallpaper.js:357 | (also wallpaper.js:436) `(extent - span) / 2`; `CentredGridIsSymmetric` shows twice the start plus the span is the extent |
| Layout.DotCentre | wallpaper.js:382-383 | (also wallpaper.js:469-470) `start + index * (dotSize + dotGap) + dotSize / 2`; `CentredGridIsSymmetric` shows mirrored dots sit symmetrically about the middle |
| Layout.CentredGridIsSymmetric | wallpaper.js:353-357 | the centred grid leaves equal margins, and mirrored dots sit symmetrically about the middle |
| LifeCalendarApp.MonthProgress | app.js:292-297 | every month bar is between 0 and 100 |
| LifeCalendarApp.MonthProgressOfDate | app.js:282-313 | months before today's month are full, today's month is filled to `day / length`, later months are empty |
| LifeCalendarApp.MonthBars | app.js:282-313 | the first `n` bars are, in order, the bars of months `0..n-1` computed from the days before each month |
| LifeCalendarApp.MonthBarsOfDate | app.js:282-313 | twelve bars computed from a date's ordinal are full before its month, filled to `day / length` in it, and empty after it |
| LifeCalendarApp.MonthProgressNonIncreasing | app.js:282-313 | the bars never grow from one month to the next |
| LifeCalendarApp.ValidateGoal | app.js:427-445 | a goal is accepted exactly when the trimmed title and both dates are present and start comes before end; a missing field is reported before a bad order |
| LifeCalendarApp.ValidateGoalMeaning | app.js:428-440 | acceptance means a title with a non-blank character and a start earlier in calendar order than the end |
| LifeCalendarApp.GoalStatsAsWritten | app.js:381-384 | total days is the distance of the dates; days passed is the distance from the start capped by the total; days left is the distance to the end; the percentage is `Math.round(100 * passed / total)`, in `0..100`, and 0 for an empty goal |
| LifeCalendarApp.GoalProgress | app.js:381-384 | the same total and percentage formula, but nothing has passed before the start and nothing is left after the end; a goal whose end has come has all its days passed and shows 100%; inside the range passed and left add up to the total and agree with the figures as written |
| LifeCalendarApp.GoalExample | app.js:381-384 | 1 to 11 January 2024 seen on 6 January gives 10 days, 5 passed, 5 left, 50% |
| LifeCalendarApp.GoalBeforeStartExample | app.js:381-384 | a goal not yet started shows 5 days passed and 50% as written, 0 and 0% once corrected |
| LifeCalendarApp.GoalAfterEndExample | app.js:381-384 | a finished goal shows 5 days left as written, 0 once corrected |
| LifeCalendarApp.WeekHeaderAsWritten | app.js:236 | the header shows the week number and the literal total 52 |
| LifeCalendarApp.WeekHeader | app.js:236 | the header shows the week number and its year's real week count, which is 52 or 53 and never below the week |
| LifeCalendarApp.WeekHeaderOverflowExample | app.js:236 | on 31 December 2020 the header reads "Week 53 of 52" as written and "Week 53 of 53" once corrected |
| LifeCalendarApp.ExportCentre | app.js:519-522 | a dot of any of the 21 columns, with its gap, lies in the horizontally centred band of the canvas, and no dot starts above `startY` |
| LifeCalendarApp.ExportDotsFit | app.js:509-522 | every export dot of a year is a whole circle on the 800x600 canvas between the subtitle and the footer, and no two dots share a centre |
| LifeCalendarApp.LifeCalendar.constructor | app.js:194-201 | the page starts from today's date, its ordinal and its year's length, with the stored goal |
| LifeCalendarApp.LifeCalendar.RenderStats | app.js:224-237 | days passed and days remaining add up to the year; the progress ratio is in `(0, 100]` and gives back the days passed; the header is the ISO week and the literal 52 |
| LifeCalendarApp.LifeCalendar.RenderCalendarGrid | app.js:249-269 | one dot per day in order, each with the date of that ordinal in the current year, classified against today; exactly one today dot, and it carries today's date |
| LifeCalendarApp.LifeCalendar.RenderMonthlyProgress | app.js:282-313 | twelve bars; the running count equals the days before each month; each bar matches the month's position relative to today |
| LifeCalendarApp.LifeCalendar.SaveGoal | app.js:356-358 | the new goal replaces any stored one |
| LifeCalendarApp.LifeCalendar.ClearGoal | app.js:360-369 | no goal is stored afterwards |
| LifeCalendarApp.LifeCalendar.RenderGoalGrid | app.js:406-419 | one dot per goal day in order, classified against days passed; no today dot when nothing has passed; completed dots are `daysPassed - 1`, clamped |
| LifeCalendarApp.LifeCalendar.DisplayGoal | app.js:371-398 | the view shows the goal's title, its figures as written, and a grid of as many dots as the goal has days classified against days passed, with one today dot unless nothing has passed |
| LifeCalendarApp.LifeCalendar.LoadGoal | app.js:348-354 | a goal is shown exactly when one is stored, with the stored title, its figures as written, and a grid of as many dots as the goal has days classified against days passed |
| LifeCalendarApp.LifeCalendar.SubmitGoal | app.js:427-445 | a refused goal leaves the store unchanged and reports why; an accepted one is stored and displayed with its trimmed title, its figures as written, and a grid of as many dots as the goal has days classified against days passed |
| LifeCalendarApp.LifeCalendar.ExportCalendar | app.js:509-546 | 800x600 canvas, one dot per day at the centre of cell `((d-1)/21, (d-1)%21)`, 18 rows, file `life-calendar-<year>.png` |
| Wallpaper.FindDevice | wallpaper.js:495 | the entry found has the key looked up; when none is found no entry has that key |
| Wallpaper.FirstKeyOfKind | wallpaper.js:204-216 | a key is chosen exactly when some entry has the kind, and it is the key of the first such entry in table order |
| Wallpaper.FirstKeyOfKindAt | wallpaper.js:209-213 | the first entry of a kind is the one chosen |
| Wallpaper.FirstKeyIsListed | wallpaper.js:204-216 | a chosen resolution can always be looked up in the catalog |
| Wallpaper.FirstPhoneResolution | wallpaper.js:83-98 | choosing phones selects 1290x2796 |
| Wallpaper.FirstDesktopResolution | wallpaper.js:83-98 | choosing desktops selects 1920x1080 |
| Wallpaper.FirstTabletResolution | wallpaper.js:83-98 | choosing tablets selects 2048x2732 |
| Wallpaper.UnknownKindHasNoResolution | wallpaper.js:83-98 | a kind the catalog does not list selects nothing |
| Wallpaper.ReplaceNonAlphanumeric | wallpaper.js:508 | same length; every character other than an ASCII letter or digit becomes a hyphen, the others stay |
| Wallpaper.SanitizeDeviceName | wallpaper.js:508 | each character of the sanitised name is the name's own letter or digit lower-cased, or a hyphen where the name has anything else; so it has the name's length and only `[a-z0-9-]` |
| Wallpaper.SanitizeIsIdempotent | wallpaper.js:508 | sanitising a sanitised name changes nothing |
| Wallpaper.WallpaperFileName | wallpaper.js:508-509 | the name is `life-calendar-`, then exactly `SanitizeDeviceName` of the device name, then `-<theme>.png` |
| Wallpaper.PhoneNameReplaced | wallpaper.js:508 | the non-alphanumeric characters of "iPhone 15 Pro Max" become hyphens: `iPhone-15-Pro-Max` |
| Wallpaper.PhoneNameLowered | wallpaper.js:508 | `iPhone-15-Pro-Max` lower-cases to `iphone-15-pro-max` |
| Wallpaper.TabletNameReplaced | wallpaper.js:508 | `iPad Pro 12.9"` becomes `iPad-Pro-12-9-` |
| Wallpaper.TabletNameLowered | wallpaper.js:508 | `iPad-Pro-12-9-` lower-cases to `ipad-pro-12-9-` |
| Wallpaper.PhoneNameSanitised | wallpaper.js:508 | the first catalog entry, "iPhone 15 Pro Max", becomes `iphone-15-pro-max` |
| Wallpaper.TabletNameSanitised | wallpaper.js:508 | the catalog's `iPad Pro 12.9"` becomes `ipad-pro-12-9-` |
| Wallpaper.PhoneFileName | wallpaper.js:508-509 | the midnight wallpaper for the iPhone 15 Pro Max is `life-calendar-iphone-15-pro-max-midnight.png` |
| Wallpaper.WallpaperGenerator.constructor | wallpaper.js:129-136 | the generator starts with the midnight theme, resolution 1290x2796, the phone kind, and today's ordinal and year length |
| Wallpaper.WallpaperGenerator.LoadTheme | wallpaper.js:194-202 | the saved theme is used, or midnight when none (or an empty one) is saved |
| Wallpaper.WallpaperGenerator.UpdateResolutionOptions | wallpaper.js:204-216 | the resolution becomes the first catalog key of the current kind, and stays when no entry has that kind |
| Wallpaper.WallpaperGenerator.SelectDevice | wallpaper.js:151-159 | the clicked kind becomes current and its first resolution is selected |
| Wallpaper.WallpaperGenerator.SelectResolution | wallpaper.js:162-166 | the selected key becomes current |
| Wallpaper.WallpaperGenerator.SelectTheme | wallpaper.js:169-178 | the clicked theme becomes current |
| Wallpaper.WallpaperGenerator.PaintGrid | wallpaper.js:378-404 | day `i + 1` goes to cell `(i / cols, i % cols)` in a row below `ceil(total / cols)`, classified against today; exactly one today dot and `dayOfYear - 1` completed dots |
| Wallpaper.WallpaperGenerator.RenderPhoneLayout | wallpaper.js:341-419 | 14 columns and 27 rows; the grid is centred horizontally (`2 * startX + gridWidth == w`, mirrored columns symmetric); days left plus today's ordinal is the year |
| Wallpaper.WallpaperGenerator.RenderDesktopLayout | wallpaper.js:421-492 | 30 columns and 13 rows; the grid is centred vertically; days left plus today's ordinal is the year |
| Wallpaper.WallpaperGenerator.RenderWallpaper | wallpaper.js:322-326 | phones and tablets get 14 columns, every other kind 30 |
| Wallpaper.WallpaperGenerator.DownloadWallpaper | wallpaper.js:494-512 | a download exists exactly when the resolution key and the theme are known; it has the device's size and the name `life-calendar-<sanitised name>-<theme>.png` |

## Left out

- Particle backgrounds, the noise texture and all canvas drawing (gradients, fonts, shadows, text placement): cosmetic, random or floating-point pixel work with no integer contract.
- The dot size `Math.round(w * 0.035)` and `Math.round(h * 0.025)`: it depends on floating-point products, so the layouts take the dot size as an input.
- The phone grid's `startY = h * 0.35` and the desktop grid's `startX = w * 0.55`: fixed floating-point fractions; only the centred axis of each layout is modelled.
- `toFixed(1)` and `Math.round(progress)` on the percentage and month labels: float formatting; the model keeps the exact ratios as reals.
- `formatDate` and `formatDateShort`: locale formatting by `toLocaleDateString` is not part of this model.
- Time zones and daylight saving: dates are local midnights and days are exact day numbers, so the one-hour shift a DST change can cause in `getDayOfYear` and the UTC parsing of goal date strings are not modelled.
- JavaScript maps years 0 to 99 in `new Date(y, m, d)` to 1900 to 1999, and limits dates to about 275,760 years either way; the model uses the proleptic Gregorian calendar for every integer year.
- LifeCalendarApp.GoalStatsAsWritten: the percentage is rounded exactly from the integer ratio; the source multiplies a float quotient by 100 first, which can differ at exact halves.
- Date-string parsing of the goal form: the dates arrive as optional calendar dates, with an empty field as none.
- Local storage, JSON, DOM updates, `alert`, clipboard copy, data URLs, link clicks and event binding: browser I/O; the stored goal is a field of the page object and each handler is a method.
- The page's theme switcher (`loadTheme`, `setTheme`, `bindThemeEvents` in app.js): DOM and storage only.
- The `THEMES` colour table: colour data; only its keys are modelled, to decide whether a download can find its theme.
- Preview scaling of the wallpaper canvas: floating-point sizing of an on-screen copy.
- Text.LowerCase: lower-cases ASCII letters only; `toLowerCase` on other letters and on UTF-16 surrogate pairs is not modelled, since the catalog names are ASCII.
- The update of the resolution `<select>` element in `updateResolutionOptions`: DOM only; the field it mirrors is modelled.

## Findings

| source | as written | input that shows it | evidently intended | confidence | as-written member | corrected member |
|---|---|---|---|---|---|---|
| app.js:381-384 | `daysBetween` returns an absolute distance, so `Math.max(0, …)` never acts: before the start, days passed counts the days still to wait; after the end, days left counts the days since the end | goal 2024-01-11 to 2024-01-21 seen on 2024-01-06 shows 5 days passed and 50%; goal 2024-01-01 to 2024-01-11 seen on 2024-01-16 shows 5 days left | signed differences clamped to the goal: 0 passed and 0% before the start, 0 left after the end | high, by reading; not executed | LifeCalendarApp.GoalStatsAsWritten, LifeCalendarApp.GoalBeforeStartExample, LifeCalendarApp.GoalAfterEndExample, LifeCalendarApp.LifeCalendar.DisplayGoal | LifeCalendarApp.GoalProgress |
| app.js:236 | the header is "Week N of 52" with a literal 52, while ISO years can have 53 weeks | 2020-12-31 reads "Week 53 of 52" | the week count of the date's ISO week-numbering year | high, by reading; not executed | LifeCalendarApp.WeekHeaderAsWritten, LifeCalendarApp.WeekHeaderOverflowExample, LifeCalendarApp.LifeCalendar.RenderStats | LifeCalendarApp.WeekHeader |
