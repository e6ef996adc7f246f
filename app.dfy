/** The year-progress page (app.js): the `LifeCalendar` object with its year
    statistics, the day grid, the month bars, the goal tracker and the PNG
    export of the grid. */
module LifeCalendarApp {
  import opened Wrappers
  import opened Numeric
  import opened Text
  import opened Calendar
  import opened Layout

  /** A goal as stored: its trimmed title and its start and end dates. */
  datatype Goal = Goal(title: string, startDate: Date, endDate: Date)

  /** Why a goal submission is refused: "Please fill in all fields" or
      "End date must be after start date". */
  datatype GoalError = MissingField | EndNotAfterStart

  /** The figures shown for a goal. */
  datatype GoalStats = GoalStats(totalDays: int, daysPassed: int, daysLeft: int, percent: int)

  /** What `displayGoal` puts on the page. */
  datatype GoalView = GoalView(title: string, stats: GoalStats, dots: seq<Dot<()>>)

  /** The stat cards and header of the page. */
  datatype YearStats = YearStats(daysPassed: int, daysRemaining: int, progress: real, week: int, weeksInYear: int)

  /** Pixel centre of a dot on the export canvas. */
  datatype Centre = Centre(x: int, y: int)

  /** The exported picture: canvas size, dots and download file name. */
  datatype ExportImage = ExportImage(width: int, height: int, dots: seq<Dot<Centre>>, fileName: string)

  predicate GoalDatesValid(g: Goal) {
    ValidDate(g.startDate) && ValidDate(g.endDate)
  }

  // ----- Monthly progress -----

  /** The bar of a month that starts after `daysBefore` days of the year and
      has `daysInMonth` days: full once the month's last day is reached, the
      fraction of its days up to and including the reference day while inside
      it, empty before it. */
  function MonthProgress(dayOfYear: int, daysBefore: int, daysInMonth: int): (p: real)
    requires daysInMonth > 0
    ensures 0.0 <= p <= 100.0
  {
    var monthStart := daysBefore + 1;
    var monthEnd := daysBefore + daysInMonth;
    if dayOfYear >= monthEnd then 100.0
    else if dayOfYear >= monthStart then ((dayOfYear - monthStart + 1) as real / daysInMonth as real) * 100.0
    else 0.0
  }

  /** Seen from a date, the months before its month are full, its own month is
      filled to `day / monthLength`, and later months are empty. */
  lemma MonthProgressOfDate(d: Date, k: int)
    requires ValidDate(d) && 0 <= k < 12
    ensures MonthProgress(Ordinal(d), DaysBeforeMonth(d.year, k), MonthLength(d.year, k)) ==
      if k < d.month then 100.0
      else if k == d.month then (d.day as real / MonthLength(d.year, k) as real) * 100.0
      else 0.0
  {
    var p := MonthProgress(Ordinal(d), DaysBeforeMonth(d.year, k), MonthLength(d.year, k));
    if k < d.month {
      DaysBeforeMonthMono(d.year, k + 1, d.month);
      assert DaysBeforeMonth(d.year, k) + MonthLength(d.year, k) <= Ordinal(d);
      assert p == 100.0;
    } else if k > d.month {
      DaysBeforeMonthMono(d.year, d.month + 1, k);
      assert Ordinal(d) < DaysBeforeMonth(d.year, k) + 1;
      assert p == 0.0;
    } else {
      assert Ordinal(d) - (DaysBeforeMonth(d.year, k) + 1) + 1 == d.day;
      assert p == (d.day as real / MonthLength(d.year, k) as real) * 100.0;
    }
  }

  /** The bars of the first `n` months, seen from day `reference` of `year`. */
  ghost function MonthBars(year: int, reference: int, n: int): (bars: seq<real>)
    requires 0 <= n <= 12
    ensures |bars| == n
    ensures forall k :: 0 <= k < n ==>
      bars[k] == MonthProgress(reference, DaysBeforeMonth(year, k), MonthLength(year, k))
  {
    if n == 0 then [] else MonthBars(year, reference, n - 1) + [MonthProgress(reference, DaysBeforeMonth(year, n - 1), MonthLength(year, n - 1))]
  }

  /** Twelve bars computed from a date's ordinal are full before its month,
      filled to `day / monthLength` in it, and empty after it. */
  lemma MonthBarsOfDate(d: Date, progress: seq<real>)
    requires ValidDate(d) && |progress| == 12
    requires forall k :: 0 <= k < 12 ==>
      progress[k] == MonthProgress(Ordinal(d), DaysBeforeMonth(d.year, k), MonthLength(d.year, k))
    ensures forall k :: 0 <= k < 12 ==>
      progress[k] == if k < d.month then 100.0
                     else if k == d.month then (d.day as real / MonthLength(d.year, k) as real) * 100.0
                     else 0.0
  {
    forall k | 0 <= k < 12
      ensures progress[k] == if k < d.month then 100.0
                             else if k == d.month then (d.day as real / MonthLength(d.year, k) as real) * 100.0
                             else 0.0
    {
      MonthProgressOfDate(d, k);
    }
  }

  /** The bars never grow from one month to the next. */
  lemma MonthProgressNonIncreasing(year: int, dayOfYear: int, k: int)
    requires 0 <= k < 11
    ensures MonthProgress(dayOfYear, DaysBeforeMonth(year, k), MonthLength(year, k)) >=
            MonthProgress(dayOfYear, DaysBeforeMonth(year, k + 1), MonthLength(year, k + 1))
  {
  }

  // ----- Goals -----

  /** The goal form's checks, in the order the click handler makes them: the
      trimmed title and both dates must be filled in, then the start must come
      before the end. */
  function ValidateGoal(title: string, startDate: Option<Date>, endDate: Option<Date>): (r: Result<Goal, GoalError>)
    requires startDate.Some? ==> ValidDate(startDate.value)
    requires endDate.Some? ==> ValidDate(endDate.value)
    ensures r.Success? <==>
      Trim(title) != [] && startDate.Some? && endDate.Some? && DayNumber(startDate.value) < DayNumber(endDate.value)
    ensures r.Failure? && r.error == MissingField <==> Trim(title) == [] || startDate.None? || endDate.None?
    ensures r.Success? ==>
      r.value == Goal(Trim(title), startDate.value, endDate.value) && GoalDatesValid(r.value) &&
      DaysBetween(r.value.startDate, r.value.endDate) >= 1
  {
    var t := Trim(title);
    if t == [] || startDate.None? || endDate.None? then Failure(MissingField)
    else if DayNumber(startDate.value) >= DayNumber(endDate.value) then Failure(EndNotAfterStart)
    else Success(Goal(t, startDate.value, endDate.value))
  }

  /** A title of blanks is as empty as no title, and the dates are compared in
      calendar order. */
  lemma ValidateGoalMeaning(title: string, startDate: Date, endDate: Date)
    requires ValidDate(startDate) && ValidDate(endDate)
    ensures ValidateGoal(title, Some(startDate), Some(endDate)).Success? <==>
      (exists i :: 0 <= i < |title| && !IsJsWhitespace(title[i])) &&
      (startDate.year < endDate.year ||
       (startDate.year == endDate.year &&
        (startDate.month < endDate.month || (startDate.month == endDate.month && startDate.day < endDate.day))))
  {
    TrimEmptyIffBlank(title);
    DayNumberOrder(startDate, endDate);
  }

  /** `displayGoal`'s figures as written: `daysBetween` is an absolute
      distance, so the `Math.max(0, ...)` guards never act; before the start
      `daysPassed` counts the days still to wait, and after the end `daysLeft`
      counts the days since the end. */
  function GoalStatsAsWritten(start: Date, end: Date, today: Date): (s: GoalStats)
    requires 0 <= start.month < 12 && 0 <= end.month < 12 && 0 <= today.month < 12
    ensures s.totalDays == Abs(DayNumber(end) - DayNumber(start))
    ensures s.daysPassed == Min(s.totalDays, Abs(DayNumber(today) - DayNumber(start)))
    ensures s.daysLeft == Abs(DayNumber(end) - DayNumber(today))
    ensures 0 <= s.daysPassed <= s.totalDays
    ensures 0 <= s.percent <= 100 && (s.totalDays == 0 ==> s.percent == 0)
    ensures s.totalDays > 0 ==> s.percent == RoundHalfUp(100 * s.daysPassed, s.totalDays)
  {
    var totalDays := DaysBetween(start, end);
    var daysPassed := Max(0, Min(totalDays, DaysBetween(start, today)));
    var daysLeft := Max(0, DaysBetween(today, end));
    if totalDays > 0 then
      PercentInRange(daysPassed, totalDays);
      GoalStats(totalDays, daysPassed, daysLeft, RoundHalfUp(100 * daysPassed, totalDays))
    else
      GoalStats(totalDays, daysPassed, daysLeft, 0)
  }

  /** The goal figures with the signed day differences the guards were
      written for: nothing has passed before the start, nothing is left after
      the end, and inside the range passed and left days add up to the total. */
  function GoalProgress(start: Date, end: Date, today: Date): (s: GoalStats)
    requires 0 <= start.month < 12 && 0 <= end.month < 12 && 0 <= today.month < 12
    ensures s.totalDays == Abs(DayNumber(end) - DayNumber(start))
    ensures 0 <= s.daysPassed <= s.totalDays && s.daysLeft >= 0
    ensures 0 <= s.percent <= 100 && (s.totalDays == 0 ==> s.percent == 0)
    ensures s.totalDays > 0 ==> s.percent == RoundHalfUp(100 * s.daysPassed, s.totalDays)
    ensures DayNumber(today) <= DayNumber(start) ==> s.daysPassed == 0 && s.percent == 0
    ensures DayNumber(today) >= DayNumber(end) ==> s.daysLeft == 0
    ensures DayNumber(start) <= DayNumber(end) <= DayNumber(today) ==>
      s.daysPassed == s.totalDays && (s.totalDays > 0 ==> s.percent == 100)
    ensures DayNumber(start) <= DayNumber(today) <= DayNumber(end) ==>
      s.daysPassed + s.daysLeft == s.totalDays && s == GoalStatsAsWritten(start, end, today)
  {
    var totalDays := DaysBetween(start, end);
    var daysPassed := Max(0, Min(totalDays, DayNumber(today) - DayNumber(start)));
    var daysLeft := Max(0, DayNumber(end) - DayNumber(today));
    if totalDays > 0 then
      PercentInRange(daysPassed, totalDays);
      RoundHalfUpExact(0, totalDays);
      RoundHalfUpExact(100, totalDays);
      GoalStats(totalDays, daysPassed, daysLeft, RoundHalfUp(100 * daysPassed, totalDays))
    else
      GoalStats(totalDays, daysPassed, daysLeft, 0)
  }

  /** 1 to 11 January 2024 seen on 6 January: 10 days, 5 passed, 5 left, 50%. */
  lemma GoalExample()
    ensures GoalProgress(Date(2024, 0, 1), Date(2024, 0, 11), Date(2024, 0, 6)) == GoalStats(10, 5, 5, 50)
    ensures GoalStatsAsWritten(Date(2024, 0, 1), Date(2024, 0, 11), Date(2024, 0, 6)) == GoalStats(10, 5, 5, 50)
  {
    RoundHalfUpExact(50, 10);
  }

  /** A goal of 11 to 21 January 2024 seen on 6 January has not started, yet
      the figures as written show 5 days passed and 50%. */
  lemma GoalBeforeStartExample()
    ensures GoalStatsAsWritten(Date(2024, 0, 11), Date(2024, 0, 21), Date(2024, 0, 6)) == GoalStats(10, 5, 15, 50)
    ensures GoalProgress(Date(2024, 0, 11), Date(2024, 0, 21), Date(2024, 0, 6)) == GoalStats(10, 0, 15, 0)
  {
    RoundHalfUpExact(50, 10);
  }

  /** A goal of 1 to 11 January 2024 seen on 16 January is over, yet the
      figures as written show 5 days left. */
  lemma GoalAfterEndExample()
    ensures GoalStatsAsWritten(Date(2024, 0, 1), Date(2024, 0, 11), Date(2024, 0, 16)) == GoalStats(10, 10, 5, 100)
    ensures GoalProgress(Date(2024, 0, 1), Date(2024, 0, 11), Date(2024, 0, 16)) == GoalStats(10, 10, 0, 100)
  {
    RoundHalfUpExact(100, 10);
  }

  // ----- Week header -----

  /** The header "Week N of 52" as written: the total is the literal 52. */
  function WeekHeaderAsWritten(today: Date): (header: (int, int))
    requires ValidDate(today)
    ensures 1 <= header.0 <= 53 && header.1 == 52
  {
    (WeekNumber(today), 52)
  }

  /** The header with the number of weeks of the date's ISO week-numbering
      year, which is never below the week shown. */
  function WeekHeader(today: Date): (header: (int, int))
    requires ValidDate(today)
    ensures 1 <= header.0 <= header.1 && (header.1 == 52 || header.1 == 53)
    ensures header.0 == WeekHeaderAsWritten(today).0
  {
    WeekNumberWithinYear(today);
    (WeekNumber(today), WeeksInWeekYear(WeekYear(today)))
  }

  /** On 31 December 2020 the header as written reads "Week 53 of 52". */
  lemma WeekHeaderOverflowExample()
    ensures WeekHeaderAsWritten(Date(2020, 11, 31)) == (53, 52)
    ensures WeekHeader(Date(2020, 11, 31)) == (53, 53)
  {
    WeekFiftyThreeExample();
    FiftyThreeWeeksIn2020();
  }

  // ----- Export geometry -----

  const ExportWidth: int := 800
  const ExportHeight: int := 600
  const ExportCols: int := 21
  const ExportDotSize: int := 12
  const ExportDotGap: int := 4
  const ExportStartY: int := 120
  /** `(width - gridWidth) / 2` with `gridWidth = gridCols * (dotSize + dotGap)`; 464 / 2 is exact. */
  const ExportStartX: int := (ExportWidth - ExportCols * (ExportDotSize + ExportDotGap)) / 2

  /** The pixel centre of the export dot in `cell`: a dot of any of the 21
      columns, with the gap after it, lies inside the horizontally centred grid
      band, and no dot starts above `startY`. */
  function ExportCentre(cell: Cell): (c: Centre)
    ensures 0 <= cell.col < ExportCols ==>
      ExportStartX <= c.x - ExportDotSize / 2 &&
      c.x + ExportDotSize / 2 + ExportDotGap <= ExportWidth - ExportStartX
    ensures 0 <= cell.row ==> ExportStartY <= c.y - ExportDotSize / 2
  {
    Centre(ExportStartX + cell.col * (ExportDotSize + ExportDotGap) + ExportDotSize / 2,
           ExportStartY + cell.row * (ExportDotSize + ExportDotGap) + ExportDotSize / 2)
  }

  /** Each of up to 366 export dots is a whole circle on the 800x600 canvas,
      below the subtitle line (y = 80) and above the footer line (y = 570),
      and no two dots share a centre. */
  lemma ExportDotsFit(i: int, j: int)
    requires 0 <= i < 366 && 0 <= j < 366
    ensures var c := ExportCentre(CellOf(i, ExportCols));
      0 <= c.x - ExportDotSize / 2 && c.x + ExportDotSize / 2 <= ExportWidth &&
      80 < c.y - ExportDotSize / 2 && c.y + ExportDotSize / 2 < ExportHeight - 30
    ensures ExportCentre(CellOf(i, ExportCols)) == ExportCentre(CellOf(j, ExportCols)) ==> i == j
  {
    CellInsideGrid(i, 366, ExportCols);
    YearGridRows(366);
    if ExportCentre(CellOf(i, ExportCols)) == ExportCentre(CellOf(j, ExportCols)) {
      CellOfInjective(i, j, ExportCols);
    }
  }

  // ----- The page object -----

  class LifeCalendar {
    const today: Date
    const year: int
    const dayOfYear: int
    const totalDays: int
    /** The goal entry of local storage. */
    var storedGoal: Option<Goal>

    ghost predicate Valid()
      reads this
    {
      ValidDate(today) && year == today.year && dayOfYear == Ordinal(today) &&
      totalDays == DaysInYear(year) && 1 <= dayOfYear <= totalDays &&
      (storedGoal.Some? ==> GoalDatesValid(storedGoal.value))
    }

    /** The page as loaded at `now`, with `saved` as the stored goal. */
    constructor (now: Instant, saved: Option<Goal>)
      requires ValidInstant(now)
      requires saved.Some? ==> GoalDatesValid(saved.value)
      ensures Valid()
      ensures today == now.date && dayOfYear == GetDayOfYear(now) && storedGoal == saved
    {
      today := now.date;
      year := now.date.year;
      dayOfYear := GetDayOfYear(now);
      totalDays := DaysInYear(now.date.year);
      storedGoal := saved;
    }

    /** `renderStats`: days passed (today included), days remaining, the
        progress ratio and the ISO week. */
    method RenderStats() returns (stats: YearStats)
      requires Valid()
      ensures stats.daysPassed + stats.daysRemaining == totalDays
      ensures stats.daysPassed == dayOfYear && 0 <= stats.daysRemaining < totalDays
      ensures stats.progress == Percentage(dayOfYear, totalDays)
      ensures (stats.week, stats.weeksInYear) == WeekHeaderAsWritten(today)
      ensures stats.week == WeekNumber(today) && stats.weeksInYear == 52
    {
      var daysPassed := dayOfYear;
      var daysRemaining := totalDays - dayOfYear;
      var progress := Percentage(dayOfYear, totalDays);
      var header := WeekHeaderAsWritten(today);
      stats := YearStats(daysPassed, daysRemaining, progress, header.0, header.1);
    }

    /** `renderCalendarGrid`: one dot per day of the year, in order, each with
        its date, classified against today. */
    method RenderCalendarGrid() returns (dots: seq<Dot<Date>>)
      requires Valid()
      ensures |dots| == totalDays && ClassifiedDots(dots, dayOfYear)
      ensures forall k :: 0 <= k < |dots| ==>
        ValidDate(dots[k].place) && dots[k].place.year == year && Ordinal(dots[k].place) == k + 1
      ensures CountState(dots, Today) == 1 && CountState(dots, Completed) == dayOfYear - 1
      ensures dots[dayOfYear - 1].state == Today && dots[dayOfYear - 1].place == today
    {
      DateInsideYear(today);
      dots := [];
      for day := 1 to totalDays + 1
        invariant |dots| == day - 1
        invariant ClassifiedDots(dots, dayOfYear)
        invariant forall k :: 0 <= k < |dots| ==>
          ValidDate(dots[k].place) && dots[k].place.year == year && Ordinal(dots[k].place) == k + 1
      {
        var date := GetDateFromDayOfYear(day, year);
        dots := dots + [Dot(day, date, Classify(day, dayOfYear))];
      }
      ClassificationCounts(dots, dayOfYear);
      var mine := dots[dayOfYear - 1].place;
      DateInsideYear(mine);
      DayNumberInjective(mine, today);
    }

    /** `renderMonthlyProgress`: twelve bars, computed with a running count of
        the days before each month. */
    method RenderMonthlyProgress() returns (progress: seq<real>)
      requires Valid()
      ensures |progress| == 12
      ensures forall k :: 0 <= k < 12 ==>
        progress[k] == MonthProgress(dayOfYear, DaysBeforeMonth(year, k), MonthLength(year, k))
      ensures forall k :: 0 <= k < 12 ==>
        progress[k] == if k < today.month then 100.0
                       else if k == today.month then (today.day as real / MonthLength(year, k) as real) * 100.0
                       else 0.0
    {
      var dayCount := 0;
      progress := [];
      for index := 0 to 12
        invariant dayCount == DaysBeforeMonth(year, index)
        invariant progress == MonthBars(year, dayOfYear, index)
      {
        var daysInMonth := MonthLength(year, index);
        var p := MonthProgress(dayOfYear, dayCount, daysInMonth);
        progress := progress + [p];
        dayCount := dayCount + daysInMonth;
      }
      MonthBarsOfDate(today, progress);
    }

    /** `saveGoal`: the new goal replaces any stored one. */
    method SaveGoal(goal: Goal)
      requires Valid() && GoalDatesValid(goal)
      modifies this
      ensures Valid() && storedGoal == Some(goal)
    {
      storedGoal := Some(goal);
    }

    /** `clearGoal`: no goal is stored afterwards. */
    method ClearGoal()
      requires Valid()
      modifies this
      ensures Valid() && storedGoal == None
    {
      storedGoal := None;
    }

    /** `renderGoalGrid`: one dot per day of the goal, classified against the
        number of days passed. */
    method RenderGoalGrid(goalDays: int, daysPassed: int) returns (dots: seq<Dot<()>>)
      ensures |dots| == Max(0, goalDays) && ClassifiedDots(dots, daysPassed)
      ensures CountState(dots, Today) == if 1 <= daysPassed <= goalDays then 1 else 0
      ensures CountState(dots, Completed) == Clamp(daysPassed - 1, 0, |dots|)
    {
      dots := [];
      var day := 1;
      while day <= goalDays
        invariant 1 <= day <= Max(1, goalDays + 1)
        invariant |dots| == day - 1 && ClassifiedDots(dots, daysPassed)
      {
        dots := dots + [Dot(day, (), Classify(day, daysPassed))];
        day := day + 1;
      }
      ClassificationCounts(dots, daysPassed);
    }

    /** `displayGoal` on day `now`: the goal's figures and its grid. */
    method DisplayGoal(goal: Goal, now: Date) returns (view: GoalView)
      requires GoalDatesValid(goal) && ValidDate(now)
      ensures view.title == goal.title
      ensures view.stats == GoalStatsAsWritten(goal.startDate, goal.endDate, now)
      ensures |view.dots| == view.stats.totalDays && ClassifiedDots(view.dots, view.stats.daysPassed)
      ensures CountState(view.dots, Today) == if view.stats.daysPassed == 0 then 0 else 1
    {
      var stats := GoalStatsAsWritten(goal.startDate, goal.endDate, now);
      var dots := RenderGoalGrid(stats.totalDays, stats.daysPassed);
      view := GoalView(goal.title, stats, dots);
    }

    /** `loadGoal`: shows the stored goal, if there is one. */
    method LoadGoal(now: Date) returns (view: Option<GoalView>)
      requires Valid() && ValidDate(now)
      ensures view.Some? <==> storedGoal.Some?
      ensures view.Some? ==>
        view.value.title == storedGoal.value.title &&
        view.value.stats == GoalStatsAsWritten(storedGoal.value.startDate, storedGoal.value.endDate, now) &&
        |view.value.dots| == view.value.stats.totalDays &&
        ClassifiedDots(view.value.dots, view.value.stats.daysPassed)
    {
      view := None;
      if storedGoal.Some? {
        var v := DisplayGoal(storedGoal.value, now);
        view := Some(v);
      }
    }

    /** The "set goal" click handler: a refused submission leaves the stored
        goal alone; an accepted one replaces it and is displayed. */
    method SubmitGoal(title: string, startDate: Option<Date>, endDate: Option<Date>, now: Date)
      returns (outcome: Result<GoalView, GoalError>)
      requires Valid() && ValidDate(now)
      requires startDate.Some? ==> ValidDate(startDate.value)
      requires endDate.Some? ==> ValidDate(endDate.value)
      modifies this
      ensures Valid()
      ensures outcome.Failure? <==> ValidateGoal(title, startDate, endDate).Failure?
      ensures outcome.Failure? ==>
        outcome.error == ValidateGoal(title, startDate, endDate).error && storedGoal == old(storedGoal)
      ensures outcome.Success? ==>
        storedGoal == Some(ValidateGoal(title, startDate, endDate).value) &&
        outcome.value.title == Trim(title) &&
        outcome.value.stats == GoalStatsAsWritten(startDate.value, endDate.value, now) &&
        |outcome.value.dots| == outcome.value.stats.totalDays &&
        ClassifiedDots(outcome.value.dots, outcome.value.stats.daysPassed)
    {
      var checked := ValidateGoal(title, startDate, endDate);
      if checked.Failure? {
        return Failure(checked.error);
      }
      SaveGoal(checked.value);
      var view := DisplayGoal(checked.value, now);
      outcome := Success(view);
    }

    /** The grid part of `exportCalendar`: 21 columns of 12-pixel dots with
        4-pixel gaps on an 800x600 canvas, and the file name. */
    method ExportCalendar() returns (image: ExportImage)
      requires Valid()
      ensures image.width == ExportWidth && image.height == ExportHeight
      ensures |image.dots| == totalDays && ClassifiedDots(image.dots, dayOfYear)
      ensures forall k :: 0 <= k < |image.dots| ==> image.dots[k].place == ExportCentre(CellOf(k, ExportCols))
      ensures GridRows(totalDays, ExportCols) == 18
      ensures image.fileName == "life-calendar-" + IntToDecimal(year) + ".png"
    {
      var gridWidth := ExportCols * (ExportDotSize + ExportDotGap);
      var startX := (ExportWidth - gridWidth) / 2;
      var dots: seq<Dot<Centre>> := [];
      for day := 1 to totalDays + 1
        invariant |dots| == day - 1 && ClassifiedDots(dots, dayOfYear)
        invariant forall k :: 0 <= k < |dots| ==> dots[k].place == ExportCentre(CellOf(k, ExportCols))
      {
        var col := (day - 1) % ExportCols;
        var row := (day - 1) / ExportCols;
        var x := startX + col * (ExportDotSize + ExportDotGap) + ExportDotSize / 2;
        var y := ExportStartY + row * (ExportDotSize + ExportDotGap) + ExportDotSize / 2;
        dots := dots + [Dot(day, Centre(x, y), Classify(day, dayOfYear))];
      }
      YearGridRows(totalDays);
      image := ExportImage(ExportWidth, ExportHeight, dots, "life-calendar-" + IntToDecimal(year) + ".png");
    }
  }
}
