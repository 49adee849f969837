/** The calendar of the dashboard: a Sunday-first grid of 42 cells, six weeks,
    holding the tail of the previous month, the current month with today and
    event days marked, and the head of the next month. Each cell's markup
    replaces the template's `{{i}}` placeholder. */
module MonthGrid {
  import opened Text
  import opened Dates
  import opened Events

  /** The three numbers the grid is laid out from: how many cells the previous
      month fills (`firstDayOfWeek`), the length of the month (`daysInMonth`)
      and the last day of the previous month (`prevMonthLastDay`). */
  datatype Layout = Layout(lead: int, days: int, prevLast: int)

  predicate ValidLayout(l: Layout)
  {
    0 <= l.lead < 7 && 28 <= l.days <= 31 && 28 <= l.prevLast <= 31
  }

  /** The layout of month `m` of year `y`: the weekday of its first day, its
      length and the length of the month before it. */
  function LayoutOf(y: int, m: int): (l: Layout)
    requires 0 <= m < 12
    ensures ValidLayout(l)
  {
    Layout(Weekday(DayNumber(LocalDate(y, m, 1))), DaysInMonth(y, m), PrevMonthEnd(y, m).day)
  }

  /** The numbers the source gets from `Date` are the ones `LayoutOf` computes:
      `new Date(y, m, 1).getDay()`, `new Date(y, m + 1, 0).getDate()` and
      `new Date(y, m, 0).getDate()`. */
  lemma LayoutFromDateConstructor(y: int, m: int)
    requires 0 <= m < 12
    ensures LayoutOf(y, m).lead == Weekday(DayNumber(LocalDate(y, m, 1)))
    ensures IsDateOf(LocalDate(y, m, LayoutOf(y, m).days), DayNumber(LocalDate(y, m + 1, 0)))
    ensures var p := PrevMonthEnd(y, m);
            IsDateOf(LocalDate(p.year, p.month, LayoutOf(y, m).prevLast), DayNumber(LocalDate(y, m, 0)))
  {
    MonthEndIsDayZeroOfNext(y, m);
    DayZeroIsPrevMonthEnd(y, m);
  }

  /** February 2015 starts on a Sunday and fills four whole weeks after a
      31-day January; March 2025 starts on a Saturday after a 28-day February. */
  lemma LayoutExamples()
    ensures LayoutOf(2015, 1) == Layout(0, 28, 31)
    ensures LayoutOf(2025, 2) == Layout(6, 31, 28)
  {
    assert DaysBeforeYear(2015) == 735598;
    assert DaysBeforeYear(2025) == 739251;
  }

  /** What one cell shows: a day of the previous month, a day of the current
      month with its two markers, or a day of the next month. */
  datatype Cell =
    | PrevMonth(day: nat)
    | ThisMonth(day: nat, isToday: bool, hasEvent: bool)
    | NextMonth(day: nat)

  /** `events.some(...)`: whether an event starts on year `y`, month `m`, day `day`. */
  function AnyStartsOn(events: seq<Event>, d: LocalDate): (b: bool)
    ensures b <==> exists k :: 0 <= k < |events| && events[k].startDate == d
  {
    if events == [] then false
    else events[0].startDate == d || AnyStartsOn(events[1..], d)
  }

  /** Cell `i` of the grid of the month of `today`, given the events shown. */
  function CellAt(l: Layout, i: int, today: LocalDate, events: seq<Event>): Cell
    requires ValidLayout(l) && 0 <= i < 42
  {
    if i < l.lead then PrevMonth(l.prevLast - l.lead + i + 1)
    else if i < l.lead + l.days then
      var day := i - l.lead + 1;
      ThisMonth(day, day == today.day, AnyStartsOn(events, LocalDate(today.year, today.month, day)))
    else NextMonth(i - (l.lead + l.days) + 1)
  }

  /** The 42 cells of the grid of the month of `today`. */
  function MonthCells(today: LocalDate, events: seq<Event>): (cells: seq<Cell>)
    requires ValidDate(today)
    ensures |cells| == 42
  {
    var l := LayoutOf(today.year, today.month);
    seq(42, i requires 0 <= i < 42 => CellAt(l, i, today, events))
  }

  /** The markup of a cell: a plain day number for an unmarked day of the
      month, otherwise spans, the has-event span wrapping the today span. */
  function Markup(c: Cell): (s: string)
    ensures Plain(s)
  {
    match c
    case PrevMonth(day) => "<span class=\"prev-month\">" + NatToDecimal(day) + "</span>"
    case ThisMonth(day, isToday, hasEvent) =>
      var plain := if isToday then "<span class=\"today\">" + NatToDecimal(day) + "</span>" else NatToDecimal(day);
      if hasEvent then "<span class=\"has-event\">" + plain + "</span>" else plain
    case NextMonth(day) => "<span class=\"next-month\">" + NatToDecimal(day) + "</span>"
  }

  /** The placeholder of cell `i`: `{{i}}`. */
  function Placeholder(i: nat): (p: string)
    ensures Token(p)
  {
    var digits := NatToDecimal(i);
    TokenOf(digits);
    "{{" + digits + "}}"
  }

  /** The 42 `.replace` steps of the grid loop, in loop order. */
  function GridSubstitutions(today: LocalDate, events: seq<Event>): (subs: seq<Substitution>)
    requires ValidDate(today)
    ensures |subs| == 42 && AllBraced(subs)
    ensures forall i :: 0 <= i < 42 ==> subs[i].placeholder == Placeholder(i)
  {
    var cells := MonthCells(today, events);
    seq(42, i requires 0 <= i < 42 => Substitution(Placeholder(i), Markup(cells[i])))
  }

  /** The body of the grid loop: the source's three branches build the markup of cell `i`. */
  method CellContent(i: int, daysFromPrevMonth: int, daysInMonth: int, prevMonthLastDay: int,
                     today: LocalDate, events: seq<Event>) returns (cellContent: string)
    requires ValidLayout(Layout(daysFromPrevMonth, daysInMonth, prevMonthLastDay)) && 0 <= i < 42
    ensures cellContent == Markup(CellAt(Layout(daysFromPrevMonth, daysInMonth, prevMonthLastDay), i, today, events))
  {
    if i < daysFromPrevMonth {
      var day := prevMonthLastDay - daysFromPrevMonth + i + 1;
      cellContent := "<span class=\"prev-month\">" + NatToDecimal(day) + "</span>";
    } else if i < daysFromPrevMonth + daysInMonth {
      var day := i - daysFromPrevMonth + 1;
      var isToday := day == today.day;
      if isToday {
        cellContent := "<span class=\"today\">" + NatToDecimal(day) + "</span>";
      } else {
        cellContent := NatToDecimal(day);
      }
      var hasEvents := AnyStartsOn(events, LocalDate(today.year, today.month, day));
      if hasEvents {
        cellContent := "<span class=\"has-event\">" + cellContent + "</span>";
      }
    } else {
      var day := i - (daysFromPrevMonth + daysInMonth) + 1;
      cellContent := "<span class=\"next-month\">" + NatToDecimal(day) + "</span>";
    }
  }

  /** The grid loop: each cell's markup replaces the cell's placeholder in the page. */
  method FillMonthGrid(html: string, today: LocalDate, events: seq<Event>) returns (out: string)
    requires ValidDate(today)
    ensures out == ApplyAll(html, GridSubstitutions(today, events))
  {
    var currentMonth := today.month;
    var currentYear := today.year;
    var firstDayOfWeek := Weekday(DayNumber(LocalDate(currentYear, currentMonth, 1)));
    var daysFromPrevMonth := firstDayOfWeek;
    // `new Date(y, m, 0).getDate()` and `new Date(y, m + 1, 0).getDate()`; see LayoutFromDateConstructor.
    var prevMonthLastDay := PrevMonthEnd(currentYear, currentMonth).day;
    var daysInMonth := DaysInMonth(currentYear, currentMonth);
    ghost var subs := GridSubstitutions(today, events);
    out := html;
    for i := 0 to 42
      invariant out == ApplyAll(html, subs[..i])
    {
      var cellContent := CellContent(i, daysFromPrevMonth, daysInMonth, prevMonthLastDay, today, events);
      out := ReplaceFirst(out, Placeholder(i), cellContent);
      assert subs[..i + 1][..i] == subs[..i];
    }
    assert subs[..42] == subs;
  }

  // ---------------------------------------------------------------------------
  // The shape of the grid

  /** The first `lead` cells belong to the previous month, the next `days` to
      the current month and the rest, at least five, to the next month. */
  lemma GridSegments(l: Layout, today: LocalDate, events: seq<Event>, i: int)
    requires ValidLayout(l) && 0 <= i < 42
    ensures CellAt(l, i, today, events).PrevMonth? <==> i < l.lead
    ensures CellAt(l, i, today, events).ThisMonth? <==> l.lead <= i < l.lead + l.days
    ensures CellAt(l, i, today, events).NextMonth? <==> l.lead + l.days <= i
    ensures 42 - (l.lead + l.days) >= 5
  {
  }

  /** Leading cells count up to the previous month's last day, the month's
      cells are 1, 2, ..., `days` and trailing cells are 1, 2, ... again. */
  lemma GridNumbering(l: Layout, today: LocalDate, events: seq<Event>, i: int)
    requires ValidLayout(l) && 0 <= i < 42
    ensures l.lead > 0 ==> CellAt(l, l.lead - 1, today, events).day == l.prevLast
    ensures i + 1 < 42 && CellAt(l, i, today, events).PrevMonth? && CellAt(l, i + 1, today, events).PrevMonth?
            ==> CellAt(l, i + 1, today, events).day == CellAt(l, i, today, events).day + 1
    ensures CellAt(l, i, today, events).ThisMonth? ==> CellAt(l, i, today, events).day == i - l.lead + 1
    ensures CellAt(l, i, today, events).NextMonth? ==> CellAt(l, i, today, events).day == i - l.lead - l.days + 1
    ensures l.lead + l.days < 42 ==> CellAt(l, l.lead + l.days, today, events) == NextMonth(1)
    ensures 1 <= CellAt(l, i, today, events).day
  {
  }

  /** Exactly one cell is today's: the one for `today.day`. */
  lemma OneTodayCell(today: LocalDate, events: seq<Event>, i: int)
    requires ValidDate(today) && 0 <= i < 42
    ensures var l := LayoutOf(today.year, today.month);
            var c := MonthCells(today, events)[i];
            (c.ThisMonth? && c.isToday) <==> i == l.lead + today.day - 1
  {
  }

  /** A day of the month is marked for events exactly when one of the given
      events starts on that year, month and day. */
  lemma EventCellsMarked(today: LocalDate, events: seq<Event>, i: int)
    requires ValidDate(today) && 0 <= i < 42
    ensures var l := LayoutOf(today.year, today.month);
            var c := MonthCells(today, events)[i];
            (c.ThisMonth? && c.hasEvent)
            <==> l.lead <= i < l.lead + l.days &&
                 exists e :: e in events && e.startDate == LocalDate(today.year, today.month, i - l.lead + 1)
  {
  }

  // ---------------------------------------------------------------------------
  // The grid is a calendar

  /** The date a cell stands for. */
  function CellDate(y: int, m: int, c: Cell): LocalDate
    requires 0 <= m < 12
  {
    match c
    case PrevMonth(day) => LocalDate(PrevMonthEnd(y, m).year, PrevMonthEnd(y, m).month, day)
    case ThisMonth(day, _, _) => LocalDate(y, m, day)
    case NextMonth(day) => if m == 11 then LocalDate(y + 1, 0, day) else LocalDate(y, m + 1, day)
  }

  /** Cell `i` is the `i`-th day counted from the Sunday on or before the first
      of the month: a valid date, in column `i % 7` of a Sunday-first week. */
  lemma CellIsCalendarDay(today: LocalDate, events: seq<Event>, i: int)
    requires ValidDate(today) && 0 <= i < 42
    ensures var y, m := today.year, today.month;
            var dn := DayNumber(LocalDate(y, m, 1)) - LayoutOf(y, m).lead + i;
            IsDateOf(CellDate(y, m, MonthCells(today, events)[i]), dn) && Weekday(dn) == i % 7
  {
    var y, m := today.year, today.month;
    var l := LayoutOf(y, m);
    var c := MonthCells(today, events)[i];
    WeekdayAfter(DayNumber(LocalDate(y, m, 1)), i - l.lead);
    if i < l.lead {
      PrevMonthCellDate(y, m, i);
    } else if i < l.lead + l.days {
      ThisMonthCellDate(y, m, i);
    } else {
      NextMonthCellDate(y, m, i);
    }
  }

  lemma PrevMonthCellDate(y: int, m: int, i: int)
    requires 0 <= m < 12 && 0 <= i < LayoutOf(y, m).lead
    ensures var l := LayoutOf(y, m);
            IsDateOf(CellDate(y, m, PrevMonth(l.prevLast - l.lead + i + 1)), DayNumber(LocalDate(y, m, 1)) - l.lead + i)
  {
    DayZeroIsPrevMonthEnd(y, m);
  }

  lemma ThisMonthCellDate(y: int, m: int, i: int)
    requires 0 <= m < 12 && LayoutOf(y, m).lead <= i < LayoutOf(y, m).lead + LayoutOf(y, m).days
    ensures var l := LayoutOf(y, m);
            IsDateOf(LocalDate(y, m, i - l.lead + 1), DayNumber(LocalDate(y, m, 1)) - l.lead + i)
  {
  }

  lemma NextMonthCellDate(y: int, m: int, i: int)
    requires 0 <= m < 12 && LayoutOf(y, m).lead + LayoutOf(y, m).days <= i < 42
    ensures var l := LayoutOf(y, m);
            IsDateOf(CellDate(y, m, NextMonth(i - l.lead - l.days + 1)), DayNumber(LocalDate(y, m, 1)) - l.lead + i)
  {
    LastDayThenFirst(y, m);
    assert DayNumber(LocalDate(y, m + 1, 1)) == DayNumber(CellDate(y, m, NextMonth(1)));
  }

  // ---------------------------------------------------------------------------
  // Filling the template

  /** Different cells have different placeholders. */
  lemma PlaceholdersDistinct(i: nat, j: nat)
    requires i != j
    ensures Placeholder(i) != Placeholder(j)
  {
    var a, b := NatToDecimal(i), NatToDecimal(j);
    if Placeholder(i) == Placeholder(j) {
      assert a == Placeholder(i)[2..|Placeholder(i)| - 2];
      assert b == Placeholder(j)[2..|Placeholder(j)| - 2];
      DecimalRoundTrip(i);
      DecimalRoundTrip(j);
    }
  }

  /** No cell's markup can open a placeholder. */
  lemma MarkupIsSafe(cells: seq<Cell>)
    ensures forall i :: 0 <= i < |cells| ==> Safe(Markup(cells[i]))
  {
    forall i | 0 <= i < |cells|
      ensures Safe(Markup(cells[i]))
    {
      PlainIsSafe(Markup(cells[i]));
    }
  }

  /** The 42 grid placeholders are distinct tokens. */
  lemma GridPatternsDistinct(today: LocalDate, events: seq<Event>)
    requires ValidDate(today)
    ensures DistinctPatterns(Placeholders(GridSubstitutions(today, events)))
  {
    var pats := Placeholders(GridSubstitutions(today, events));
    forall k, k' | 0 <= k < k' < |pats|
      ensures pats[k] != pats[k']
    {
      PlaceholdersDistinct(k, k');
    }
  }

  /** A template holding any of `{{0}}` to `{{41}}`, each at most once and in
      any order, between pieces of safe text (single braces allowed, as in a
      style sheet), receives cell `i`'s markup in place of `{{i}}`. Slot `s` of
      the template holds the placeholder of cell `order[s]`. */
  lemma GridFillsItsPlaceholders(parts: seq<string>, order: seq<nat>, today: LocalDate, events: seq<Event>)
    requires ValidDate(today) && |parts| == |order| + 1 && Arrangement(order, 42)
    requires forall k :: 0 <= k < |parts| ==> Safe(parts[k])
    ensures var cells := MonthCells(today, events);
            ApplyAll(Interleave(parts, Arrange(seq(42, i requires 0 <= i => Placeholder(i)), order)), GridSubstitutions(today, events))
            == Interleave(parts, Arrange(seq(42, i requires 0 <= i < 42 => Markup(cells[i])), order))
  {
    var subs := GridSubstitutions(today, events);
    GridValuesSafe(today, events);
    GridPatternsDistinct(today, events);
    ChainFillsAnyOrder(parts, subs, order);
    GridColumns(today, events);
  }

  /** Every value of the grid chain is safe text. */
  lemma GridValuesSafe(today: LocalDate, events: seq<Event>)
    requires ValidDate(today)
    ensures var subs := GridSubstitutions(today, events);
            forall k :: 0 <= k < |subs| ==> Safe(subs[k].value)
  {
    MarkupIsSafe(MonthCells(today, events));
  }

  /** The placeholders and values of the grid chain, cell by cell. */
  lemma GridColumns(today: LocalDate, events: seq<Event>)
    requires ValidDate(today)
    ensures var subs := GridSubstitutions(today, events);
            var cells := MonthCells(today, events);
            Placeholders(subs) == seq(42, i requires 0 <= i => Placeholder(i))
            && Values(subs) == seq(42, i requires 0 <= i < 42 => Markup(cells[i]))
  {
  }
}
