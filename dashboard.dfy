/** The page the dashboard publishes: the HTML template with its placeholders
    replaced one `replace` at a time, from the current weather and forecast,
    the countdown to a target date, the month grid and the upcoming events. */
module Dashboard {
  import opened Text
  import opened Dates
  import opened WeatherCodes
  import opened Events
  import opened MonthGrid

  /** The locale formatting the page asks for, as functions of an instant:
      `toLocaleDateString('en-US', ...)` with `{ weekday: 'long' }`,
      `{ month: 'long' }`, `{ month: 'long', day: 'numeric' }` and
      `{ month: 'numeric', day: 'numeric' }`, `toLocaleTimeString('en-US',
      { hour: 'numeric', minute: '2-digit' })`, and the data URI of each icon. */
  datatype Locale = Locale(
    weekdayName: int -> string,
    monthName: int -> string,
    monthDay: int -> string,
    shortDate: int -> string,
    timeOfDay: int -> string,
    iconSrc: Icon -> string)

  /** One day of the forecast, temperatures already rounded by `Math.round`. */
  datatype DailyForecast = DailyForecast(date: LocalDate, code: int, high: int, low: int)

  /** The weather payload: the current local time, temperature, weather code and
      relative humidity, and the daily forecast starting with today. */
  datatype Weather = Weather(time: Moment, temperature: int, code: int, humidity: int, daily: seq<DailyForecast>)

  // ---------------------------------------------------------------------------
  // The events block

  /** One `<li>` of the events block. */
  function ListItem(loc: Locale, e: Event): string
  {
    "<li>(" + loc.shortDate(e.startMs) + ") " + loc.weekdayName(e.startMs) + "<br> " + e.title + "<br>"
    + loc.timeOfDay(e.startMs) + " - " + loc.timeOfDay(e.endMs) + "</li>"
  }

  /** The `<li>` items of `events`: one per event, in order. */
  function ListItems(loc: Locale, events: seq<Event>): (items: seq<string>)
    ensures |items| == |events|
    ensures forall k :: 0 <= k < |events| ==> items[k] == ListItem(loc, events[k])
  {
    seq(|events|, k requires 0 <= k < |events| => ListItem(loc, events[k]))
  }

  /** The items of two runs of events are the items of the first run followed
      by those of the second: each event's item depends on that event alone. */
  lemma ListItemsAppend(loc: Locale, a: seq<Event>, b: seq<Event>)
    ensures Concat(ListItems(loc, a + b)) == Concat(ListItems(loc, a)) + Concat(ListItems(loc, b))
  {
    assert ListItems(loc, a + b) == ListItems(loc, a) + ListItems(loc, b);
    ConcatAppend(ListItems(loc, a), ListItems(loc, b));
  }

  /** The events block: the no-events paragraph, or a list of one item per event, in order. */
  function EventsBlock(loc: Locale, events: seq<Event>): string
  {
    if events == [] then "<p>No events</p>" else "<ul>" + Concat(ListItems(loc, events)) + "</ul>"
  }

  function Min(a: int, b: int): int
  {
    if a < b then a else b
  }

  /** The events-block code: a `map` over the events with a counter that
      returns an empty string from the sixth event on, joined into a `<ul>`. */
  method RenderEventList(loc: Locale, events: seq<Event>) returns (block: string)
    ensures events == [] ==> block == "<p>No events</p>"
    ensures events != [] ==> block == "<ul>" + Concat(ListItems(loc, events[..Min(|events|, 5)])) + "</ul>"
  {
    if |events| == 0 {
      block := "<p>No events</p>";
    } else {
      var count := 0;
      var eventList := "";
      for k := 0 to |events|
        invariant count == Min(k, 5)
        invariant eventList == Concat(ListItems(loc, events[..count]))
      {
        var item: string;
        if count >= 5 {
          item := "";
        } else {
          item := ListItem(loc, events[k]);
          assert ListItems(loc, events[..count + 1]) == ListItems(loc, events[..count]) + [item];
          ConcatSnoc(ListItems(loc, events[..count]), item);
          count := count + 1;
        }
        eventList := eventList + item;
      }
      block := "<ul>" + eventList + "</ul>";
    }
  }

  /** With at most five events the counter never cuts the list: the block is
      `EventsBlock`, one item per event. */
  lemma CountGuardNeverFires(loc: Locale, events: seq<Event>)
    requires |events| <= 5
    ensures events != [] ==> "<ul>" + Concat(ListItems(loc, events[..Min(|events|, 5)])) + "</ul>" == EventsBlock(loc, events)
  {
    assert events[..|events|] == events;
  }

  // ---------------------------------------------------------------------------
  // The substitution chain

  /** `new Date(`${date}T12:00`)`: noon of a forecast day. */
  function Noon(d: LocalDate): int
  {
    InstantOf(Moment(d, 43_200_000))
  }

  /** Noon lies inside its own day, so the weekday formatted from it is the
      forecast day's own, clear of either midnight. */
  lemma NoonWithinDay(d: LocalDate)
    ensures DayNumber(d) * 86_400_000 < Noon(d) < (DayNumber(d) + 1) * 86_400_000
  {
  }

  /** The date, countdown and current-weather steps, in source order. */
  function HeaderSubstitutions(loc: Locale, w: Weather, target: LocalDate): (subs: seq<Substitution>)
    requires ValidMoment(w.time) && ValidDate(target) && |w.daily| >= 1
    ensures |subs| == 7
  {
    DateSubstitutions(loc, w.time, target) + CurrentWeatherSubstitutions(w)
  }

  /** The weekday, the date, the countdown and the date it counts to. */
  function DateSubstitutions(loc: Locale, now: Moment, target: LocalDate): (subs: seq<Substitution>)
    requires ValidMoment(now) && ValidDate(target)
    ensures |subs| == 4
  {
    var instant := InstantOf(now);
    var targetMoment := Moment(target, 0);
    [Substitution(Braced("day"), loc.weekdayName(instant)),
     Substitution(Braced("date"), loc.monthName(instant) + " " + NatToDecimal(now.date.day)),
     Substitution(Braced("countdown"), IntToDecimal(DaysUntil(targetMoment, now))),
     Substitution(Braced("target_date"), loc.monthDay(RolledTarget(targetMoment, now)))]
  }

  /** The current temperature, the condition, and today's high, low and humidity. */
  function CurrentWeatherSubstitutions(w: Weather): (subs: seq<Substitution>)
    requires |w.daily| >= 1
    ensures |subs| == 3
  {
    [Substitution(Braced("temp"), IntToDecimal(w.temperature)),
     Substitution(Braced("weather"), ConditionText(w.code)),
     Substitution(Braced("weather_details"),
       "High: " + IntToDecimal(w.daily[0].high) + "°F<br>Low: " + IntToDecimal(w.daily[0].low)
       + "°F<br>Humidity: " + IntToDecimal(w.humidity) + "%")]
  }

  /** The names of a forecast day's placeholders, before the day's number. */
  const DayKeys: seq<string> := ["day+", "low+", "high+", "icon"]

  /** Forecast day `i`'s placeholder for `key`, such as `{{day+1}}` or `{{icon3}}`. */
  function DayPattern(key: string, i: nat): string
  {
    Braced(key + NatToDecimal(i))
  }

  /** The four steps for forecast day `i`. */
  function DaySubstitutions(loc: Locale, f: DailyForecast, i: nat): (subs: seq<Substitution>)
    ensures |subs| == 4
  {
    [Substitution(DayPattern("day+", i), loc.weekdayName(Noon(f.date))),
     Substitution(DayPattern("low+", i), IntToDecimal(f.low)),
     Substitution(DayPattern("high+", i), IntToDecimal(f.high)),
     Substitution(DayPattern("icon", i), loc.iconSrc(ConditionIcon(f.code)))]
  }

  /** The steps for forecast days 1 to `n - 1`, in loop order. */
  function ForecastSubstitutions(loc: Locale, daily: seq<DailyForecast>, n: nat): (subs: seq<Substitution>)
    requires n <= |daily|
    ensures |subs| == if n == 0 then 0 else 4 * (n - 1)
  {
    if n <= 1 then [] else ForecastSubstitutions(loc, daily, n - 1) + DaySubstitutions(loc, daily[n - 1], n - 1)
  }

  /** The month label, grid and events-block steps. */
  function CalendarSubstitutions(loc: Locale, now: Moment, events: seq<Event>): (subs: seq<Substitution>)
    requires ValidMoment(now)
    ensures |subs| == 44
  {
    [Substitution(Braced("month_label"), loc.monthName(InstantOf(now)) + " " + IntToDecimal(now.date.year))]
    + GridSubstitutions(now.date, events)
    + [Substitution(Braced("upcoming_events"), EventsBlock(loc, events))]
  }

  /** Every step of the page, in source order. The events shown are the
      selection from the feed; the countdown is `daysUntil` as written and the
      target label is the date it counts to. */
  function PageSubstitutions(loc: Locale, w: Weather, target: LocalDate, feed: seq<Event>): (subs: seq<Substitution>)
    requires ValidMoment(w.time) && ValidDate(target) && |w.daily| >= 6
    ensures |subs| == 71
  {
    HeaderSubstitutions(loc, w, target) + ForecastSubstitutions(loc, w.daily, 6)
    + CalendarSubstitutions(loc, w.time, SelectUpcoming(feed, InstantOf(w.time)))
  }

  // Every step of the page replaces a `{{...}}` placeholder.

  lemma DayBraced(loc: Locale, f: DailyForecast, i: nat)
    ensures AllBraced(DaySubstitutions(loc, f, i))
  {
    DayPatternTokens(i);
  }

  /** Each of forecast day `i`'s placeholders is a `{{name}}` token. */
  lemma DayPatternTokens(i: nat)
    ensures forall j :: 0 <= j < 4 ==> Token(DayPattern(DayKeys[j], i))
  {
    var d := NatToDecimal(i);
    forall j | 0 <= j < 4
      ensures Token(DayPattern(DayKeys[j], i))
    {
      var name := DayKeys[j] + d;
      forall c | 0 <= c < |name|
        ensures name[c] != '{' && name[c] != '}'
      {
        if c >= |DayKeys[j]| {
          assert name[c] == d[c - |DayKeys[j]|];
        }
      }
      TokenOf(name);
    }
  }

  lemma {:induction false} ForecastBraced(loc: Locale, daily: seq<DailyForecast>, n: nat)
    requires n <= |daily|
    ensures AllBraced(ForecastSubstitutions(loc, daily, n))
  {
    if n > 1 {
      ForecastBraced(loc, daily, n - 1);
      DayBraced(loc, daily[n - 1], n - 1);
      AppendBraced(ForecastSubstitutions(loc, daily, n - 1), DaySubstitutions(loc, daily[n - 1], n - 1));
    }
  }

  lemma HeaderBraced(loc: Locale, w: Weather, target: LocalDate)
    requires ValidMoment(w.time) && ValidDate(target) && |w.daily| >= 1
    ensures AllBraced(HeaderSubstitutions(loc, w, target))
  {
    DateBraced(loc, w.time, target);
    WeatherBraced(w);
    AppendBraced(DateSubstitutions(loc, w.time, target), CurrentWeatherSubstitutions(w));
  }

  lemma DateBraced(loc: Locale, now: Moment, target: LocalDate)
    requires ValidMoment(now) && ValidDate(target)
    ensures AllBraced(DateSubstitutions(loc, now, target))
  {
    DateLabels(loc, now, target);
    LabelPatterns();
  }

  lemma WeatherBraced(w: Weather)
    requires |w.daily| >= 1
    ensures AllBraced(CurrentWeatherSubstitutions(w))
  {
    WeatherLabels(w);
    LabelPatterns();
  }

  /** The date steps fill the first four labels. */
  lemma DateLabels(loc: Locale, now: Moment, target: LocalDate)
    requires ValidMoment(now) && ValidDate(target)
    ensures var subs := DateSubstitutions(loc, now, target);
            forall k :: 0 <= k < |subs| ==> subs[k].placeholder == Braced(LabelNames[k])
  {
    var subs := DateSubstitutions(loc, now, target);
    assert subs[0].placeholder == Braced(LabelNames[0]) && subs[1].placeholder == Braced(LabelNames[1])
        && subs[2].placeholder == Braced(LabelNames[2]) && subs[3].placeholder == Braced(LabelNames[3]);
  }

  /** The current-weather steps fill the next three labels. */
  lemma WeatherLabels(w: Weather)
    requires |w.daily| >= 1
    ensures var subs := CurrentWeatherSubstitutions(w);
            forall k :: 0 <= k < |subs| ==> subs[k].placeholder == Braced(LabelNames[k + 4])
  {
    var subs := CurrentWeatherSubstitutions(w);
    assert subs[0].placeholder == Braced(LabelNames[4]) && subs[1].placeholder == Braced(LabelNames[5])
        && subs[2].placeholder == Braced(LabelNames[6]);
  }

  /** The names of the header's seven placeholders, then of the calendar's two labels. */
  const LabelNames: seq<string> :=
    ["day", "date", "countdown", "target_date", "temp", "weather", "weather_details", "month_label", "upcoming_events"]

  /** A name of lower-case letters and underscores. */
  predicate Lettered(name: string)
  {
    forall i :: 0 <= i < |name| ==> 'a' <= name[i] <= 'z' || name[i] == '_'
  }

  /** The label placeholders are tokens, of neither the forecast nor the grid family. */
  lemma LabelPattern(name: string)
    requires |name| >= 1 && Lettered(name)
    ensures Token(Braced(name)) && Family(Braced(name)) == 0
  {
    TokenOf(name);
    BracedName(name);
    var p := Braced(name);
    assert p[2] == name[0] && p[|p| - 3] == name[|name| - 1];
  }

  /** The nine label placeholders are tokens of neither the forecast nor the
      grid family. */
  lemma LabelPatterns()
    ensures forall k :: 0 <= k < |LabelNames| ==> Token(Braced(LabelNames[k])) && Family(Braced(LabelNames[k])) == 0
  {
    LabelPattern("day");
    LabelPattern("date");
    LabelPattern("countdown");
    LabelPattern("target_date");
    LabelPattern("temp");
    LabelPattern("weather");
    LabelPattern("weather_details");
    LabelPattern("month_label");
    LabelPattern("upcoming_events");
  }

  /** The nine label placeholders are distinct: no two names share both their
      length and their first letter. */
  lemma LabelsDistinct()
    ensures forall k, k' :: 0 <= k < k' < |LabelNames| ==> Braced(LabelNames[k]) != Braced(LabelNames[k'])
  {
    forall k, k' | 0 <= k < k' < |LabelNames|
      ensures Braced(LabelNames[k]) != Braced(LabelNames[k'])
    {
      BracedName(LabelNames[k]);
      BracedName(LabelNames[k']);
    }
  }

  lemma CalendarBraced(loc: Locale, now: Moment, events: seq<Event>)
    requires ValidMoment(now)
    ensures AllBraced(CalendarSubstitutions(loc, now, events))
  {
    var first := [Substitution(Braced("month_label"), loc.monthName(InstantOf(now)) + " " + IntToDecimal(now.date.year))];
    var grid := GridSubstitutions(now.date, events);
    var last := [Substitution(Braced("upcoming_events"), EventsBlock(loc, events))];
    AppendBraced(first, grid);
    AppendBraced(first + grid, last);
  }

  lemma PageBraced(loc: Locale, w: Weather, target: LocalDate, feed: seq<Event>)
    requires ValidMoment(w.time) && ValidDate(target) && |w.daily| >= 6
    ensures AllBraced(PageSubstitutions(loc, w, target, feed))
  {
    var header := HeaderSubstitutions(loc, w, target);
    var forecast := ForecastSubstitutions(loc, w.daily, 6);
    var calendar := CalendarSubstitutions(loc, w.time, SelectUpcoming(feed, InstantOf(w.time)));
    HeaderBraced(loc, w, target);
    ForecastBraced(loc, w.daily, 6);
    CalendarBraced(loc, w.time, SelectUpcoming(feed, InstantOf(w.time)));
    AppendBraced(header, forecast);
    AppendBraced(header + forecast, calendar);
  }

  /** The forecast loop over days 1 to 5, four `replace` calls per day. */
  method RenderForecast(page: string, loc: Locale, daily: seq<DailyForecast>) returns (html: string)
    requires |daily| >= 6
    ensures html == ApplyAll(page, ForecastSubstitutions(loc, daily, 6))
  {
    html := page;
    for i := 1 to 6
      invariant html == ApplyAll(page, ForecastSubstitutions(loc, daily, i))
    {
      ghost var before := ForecastSubstitutions(loc, daily, i);
      var day := DaySubstitutions(loc, daily[i], i);
      ForecastStep(loc, daily, i);
      html := ReplaceChain(html, day);
      ApplyAllAppend(page, before, day);
    }
  }

  /** One more round of the forecast loop appends that day's four steps. */
  lemma ForecastStep(loc: Locale, daily: seq<DailyForecast>, i: nat)
    requires 1 <= i < |daily|
    ensures ForecastSubstitutions(loc, daily, i + 1) == ForecastSubstitutions(loc, daily, i) + DaySubstitutions(loc, daily[i], i)
  {
  }

  /** The month label, the month grid and the events block. */
  method RenderCalendar(page: string, loc: Locale, now: Moment, events: seq<Event>) returns (html: string)
    requires ValidMoment(now) && |events| <= 5
    ensures html == ApplyAll(page, CalendarSubstitutions(loc, now, events))
  {
    var monthLabel := Substitution(Braced("month_label"), loc.monthName(InstantOf(now)) + " " + IntToDecimal(now.date.year));
    html := ReplaceFirst(page, monthLabel.placeholder, monthLabel.value);
    ApplyAllSnoc(page, [], monthLabel);
    assert [] + [monthLabel] == [monthLabel];

    var grid := GridSubstitutions(now.date, events);
    html := FillMonthGrid(html, now.date, events);
    ApplyAllAppend(page, [monthLabel], grid);

    var eventList := RenderEventList(loc, events);
    CountGuardNeverFires(loc, events);
    var block := Substitution(Braced("upcoming_events"), eventList);
    html := ReplaceFirst(html, block.placeholder, block.value);
    ApplyAllSnoc(page, [monthLabel] + grid, block);
  }

  /** The rendering part of `postNewDashboard`: the template goes through the
      date and weather `replace` calls, the forecast loop, the month grid and
      the events block, in the source's order. */
  method RenderDashboard(template: string, loc: Locale, w: Weather, target: LocalDate, feed: seq<Event>)
    returns (html: string)
    requires ValidMoment(w.time) && ValidDate(target) && |w.daily| >= 6
    ensures html == ApplyAll(template, PageSubstitutions(loc, w, target, feed))
  {
    ghost var h := HeaderSubstitutions(loc, w, target);
    ghost var f := ForecastSubstitutions(loc, w.daily, 6);
    var header := ReplaceChain(template, HeaderSubstitutions(loc, w, target));
    var forecast := RenderForecast(header, loc, w.daily);
    var events := SelectUpcoming(feed, InstantOf(w.time));
    html := RenderCalendar(forecast, loc, w.time, events);
    ghost var c := CalendarSubstitutions(loc, w.time, events);
    ApplyAllAppend(template, h, f);
    ApplyAllAppend(template, h + f, c);
  }

  // ---------------------------------------------------------------------------
  // What the page shows

  /** Only selected events mark the grid: a marked day is the start date of an
      upcoming event of the feed, and never of one beyond the first five. */
  lemma MarkedDaysAreSelectedEvents(w: Weather, feed: seq<Event>, i: int)
    requires ValidMoment(w.time) && 0 <= i < 42
    ensures var events := SelectUpcoming(feed, InstantOf(w.time));
            var c := MonthCells(w.time.date, events)[i];
            c.ThisMonth? && c.hasEvent ==>
              exists e :: e in events && e in feed && e.startMs >= InstantOf(w.time)
                          && e.startDate == LocalDate(w.time.date.year, w.time.date.month, c.day)
  {
    var events := SelectUpcoming(feed, InstantOf(w.time));
    EventCellsMarked(w.time.date, events, i);
    SelectedFromFeed(feed, InstantOf(w.time));
    GridNumbering(LayoutOf(w.time.date.year, w.time.date.month), w.time.date, events, i);
  }

  /** The countdown shown is `daysUntil` as written, labelled with the date it
      counts to: never negative, the days still to go when the target is ahead,
      and, for a target in now's year or later, the same as the count to the
      next occurrence, so at most a year and a day when the target has passed. */
  lemma CountdownShown(loc: Locale, w: Weather, target: LocalDate, feed: seq<Event>)
    requires ValidMoment(w.time) && ValidDate(target) && |w.daily| >= 6
    ensures var t := Moment(target, 0);
            var days := DaysUntil(t, w.time);
            PageSubstitutions(loc, w, target, feed)[2] == Substitution(Braced("countdown"), IntToDecimal(days))
            && PageSubstitutions(loc, w, target, feed)[3] == Substitution(Braced("target_date"), loc.monthDay(RolledTarget(t, w.time)))
            && 0 <= days
            && (InstantOf(t) >= InstantOf(w.time) ==> days == CeilDays(InstantOf(t) - InstantOf(w.time)))
            && (target.year >= w.time.date.year ==> days == DaysUntilNextOccurrence(t, w.time))
            && (target.year >= w.time.date.year && InstantOf(t) < InstantOf(w.time) ==> days <= 366)
  {
    PageStartsWithHeader(loc, w, target, feed);
    HeaderCountdown(loc, w, target);
    if target.year >= w.time.date.year {
      NextOccurrenceAgrees(Moment(target, 0), w.time);
    }
  }

  lemma PageStartsWithHeader(loc: Locale, w: Weather, target: LocalDate, feed: seq<Event>)
    requires ValidMoment(w.time) && ValidDate(target) && |w.daily| >= 6
    ensures PageSubstitutions(loc, w, target, feed)[..7] == HeaderSubstitutions(loc, w, target)
  {
  }

  lemma HeaderCountdown(loc: Locale, w: Weather, target: LocalDate)
    requires ValidMoment(w.time) && ValidDate(target) && |w.daily| >= 1
    ensures HeaderSubstitutions(loc, w, target)[2]
         == Substitution(Braced("countdown"), IntToDecimal(DaysUntil(Moment(target, 0), w.time)))
    ensures HeaderSubstitutions(loc, w, target)[3]
         == Substitution(Braced("target_date"), loc.monthDay(RolledTarget(Moment(target, 0), w.time)))
  {
    var d := DateSubstitutions(loc, w.time, target);
    assert HeaderSubstitutions(loc, w, target)[..4] == d;
  }

  // ---------------------------------------------------------------------------
  // No two steps of the page share a placeholder

  /** Tells the three kinds of page placeholder apart by the first and last
      character of the name: a digit first for a grid cell, a digit last for a
      forecast day, neither for the rest. */
  function Family(p: string): nat
  {
    if |p| < 5 then 0
    else if '0' <= p[2] <= '9' then 2
    else if '0' <= p[|p| - 3] <= '9' then 1
    else 0
  }

  /** Every placeholder of `subs` is of family `f`. */
  predicate InFamily(subs: seq<Substitution>, f: nat)
  {
    forall k :: 0 <= k < |subs| ==> Family(subs[k].placeholder) == f
  }

  lemma DayPatternFamily(j: nat, i: nat)
    requires j < 4
    ensures Family(DayPattern(DayKeys[j], i)) == 1
  {
    var d := NatToDecimal(i);
    var name := DayKeys[j] + d;
    var p := DayPattern(DayKeys[j], i);
    BracedName(name);
    assert p[2] == p[2..|p| - 2][0] == name[0] == DayKeys[j][0];
    assert p[|p| - 3] == p[2..|p| - 2][|name| - 1] == name[|name| - 1] == d[|d| - 1];
  }

  lemma GridPatternFamily(i: nat)
    ensures Family(Placeholder(i)) == 2
  {
    var d := NatToDecimal(i);
    assert Placeholder(i)[2] == d[0];
  }

  /** Two forecast placeholders are the same only for the same key and day. */
  lemma DayPatternsApart(j: nat, i: nat, j': nat, i': nat)
    requires j < 4 && j' < 4 && (j != j' || i != i')
    ensures DayPattern(DayKeys[j], i) != DayPattern(DayKeys[j'], i')
  {
    var p, q := DayPattern(DayKeys[j], i), DayPattern(DayKeys[j'], i');
    if p == q {
      var d, d' := NatToDecimal(i), NatToDecimal(i');
      var n, n' := DayKeys[j] + d, DayKeys[j'] + d';
      BracedName(n);
      BracedName(n');
      assert n == p[2..|p| - 2] == n';
      assert DayKeys[j][0] == n[0] == DayKeys[j'][0];
      assert j == j';
      assert d == n[|DayKeys[j]|..] == d';
      DecimalRoundTrip(i);
      DecimalRoundTrip(i');
    }
  }

  /** Forecast day `i`'s steps fill its four keys in order. */
  lemma DayLabels(loc: Locale, f: DailyForecast, i: nat)
    ensures var subs := DaySubstitutions(loc, f, i);
            forall j :: 0 <= j < 4 ==> subs[j].placeholder == DayPattern(DayKeys[j], i)
  {
  }

  /** Step `k` of the forecast fills key `k % 4` of day `k / 4 + 1`. */
  lemma {:induction false} ForecastPlaceholders(loc: Locale, daily: seq<DailyForecast>, n: nat)
    requires n <= |daily|
    ensures var subs := ForecastSubstitutions(loc, daily, n);
            forall k :: 0 <= k < |subs| ==> subs[k].placeholder == DayPattern(DayKeys[k % 4], k / 4 + 1)
  {
    if n > 1 {
      ForecastPlaceholders(loc, daily, n - 1);
      var a := ForecastSubstitutions(loc, daily, n - 1);
      var b := DaySubstitutions(loc, daily[n - 1], n - 1);
      DayLabels(loc, daily[n - 1], n - 1);
      var subs := ForecastSubstitutions(loc, daily, n);
      assert subs == a + b;
      forall k | 0 <= k < |subs|
        ensures subs[k].placeholder == DayPattern(DayKeys[k % 4], k / 4 + 1)
      {
        if k < |a| {
          assert subs[k] == a[k];
        } else {
          var j := k - |a|;
          assert subs[k] == b[j];
          assert k == 4 * (n - 2) + j;
          assert k % 4 == j && k / 4 + 1 == n - 1;
        }
      }
    }
  }

  /** The forecast's placeholders are distinct. */
  lemma ForecastDistinct(loc: Locale, daily: seq<DailyForecast>, n: nat)
    requires n <= |daily|
    ensures DistinctPatterns(Placeholders(ForecastSubstitutions(loc, daily, n)))
  {
    ForecastPlaceholders(loc, daily, n);
    var subs := ForecastSubstitutions(loc, daily, n);
    forall k, k' | 0 <= k < k' < |subs|
      ensures Placeholders(subs)[k] != Placeholders(subs)[k']
    {
      assert k == 4 * (k / 4) + k % 4 && k' == 4 * (k' / 4) + k' % 4;
      DayPatternsApart(k % 4, k / 4 + 1, k' % 4, k' / 4 + 1);
    }
  }

  /** Every forecast placeholder is of the forecast family. */
  lemma ForecastFamily(loc: Locale, daily: seq<DailyForecast>, n: nat)
    requires n <= |daily|
    ensures InFamily(ForecastSubstitutions(loc, daily, n), 1)
  {
    ForecastPlaceholders(loc, daily, n);
    var subs := ForecastSubstitutions(loc, daily, n);
    forall k | 0 <= k < |subs|
      ensures Family(subs[k].placeholder) == 1
    {
      DayPatternFamily(k % 4, k / 4 + 1);
    }
  }

  /** The header's seven steps fill the first seven labels. */
  lemma HeaderLabels(loc: Locale, w: Weather, target: LocalDate)
    requires ValidMoment(w.time) && ValidDate(target) && |w.daily| >= 1
    ensures var subs := HeaderSubstitutions(loc, w, target);
            forall k :: 0 <= k < |subs| ==> subs[k].placeholder == Braced(LabelNames[k])
  {
    var date := DateSubstitutions(loc, w.time, target);
    var weather := CurrentWeatherSubstitutions(w);
    DateLabels(loc, w.time, target);
    WeatherLabels(w);
    var subs := HeaderSubstitutions(loc, w, target);
    forall k | 0 <= k < |subs|
      ensures subs[k].placeholder == Braced(LabelNames[k])
    {
      if k < 4 {
        assert subs[k] == date[k];
      } else {
        assert subs[k] == weather[k - 4];
      }
    }
  }

  /** The calendar's placeholders are distinct: the month label, the 42 cells,
      then the events block. */
  lemma CalendarPatterns(loc: Locale, now: Moment, events: seq<Event>)
    requires ValidMoment(now)
    ensures var subs := CalendarSubstitutions(loc, now, events);
            DistinctPatterns(Placeholders(subs))
            && subs[0].placeholder == Braced(LabelNames[7]) && subs[43].placeholder == Braced(LabelNames[8])
            && forall k :: 1 <= k < 43 ==> Family(subs[k].placeholder) == 2
  {
    var first := [Substitution(Braced("month_label"), loc.monthName(InstantOf(now)) + " " + IntToDecimal(now.date.year))];
    var grid := GridSubstitutions(now.date, events);
    var last := [Substitution(Braced("upcoming_events"), EventsBlock(loc, events))];
    GridPatternsDistinct(now.date, events);
    forall k | 0 <= k < 42
      ensures Family(grid[k].placeholder) == 2
    {
      GridPatternFamily(k);
    }
    LabelPatterns();
    assert first[0].placeholder == Braced(LabelNames[7]) && last[0].placeholder == Braced(LabelNames[8]);
    LabelsDistinct();
    DistinctAppend(first, grid);
    DistinctAppend(first + grid, last);
    var subs := CalendarSubstitutions(loc, now, events);
    forall k | 1 <= k < 43
      ensures Family(subs[k].placeholder) == 2
    {
      assert subs[k] == grid[k - 1];
    }
  }

  /** The header's placeholders are distinct, of neither the forecast nor
      the grid family, and neither calendar label's. */
  lemma HeaderPatterns(loc: Locale, w: Weather, target: LocalDate)
    requires ValidMoment(w.time) && ValidDate(target) && |w.daily| >= 1
    ensures var subs := HeaderSubstitutions(loc, w, target);
            DistinctPatterns(Placeholders(subs))
            && forall k :: 0 <= k < |subs| ==>
                 Family(subs[k].placeholder) == 0 && subs[k].placeholder != Braced(LabelNames[7]) && subs[k].placeholder != Braced(LabelNames[8])
  {
    HeaderLabels(loc, w, target);
    LabelPatterns();
    LabelsDistinct();
  }

  /** No two of the page's 71 steps share a placeholder. */
  lemma PagePatternsDistinct(loc: Locale, w: Weather, target: LocalDate, feed: seq<Event>)
    requires ValidMoment(w.time) && ValidDate(target) && |w.daily| >= 6
    ensures DistinctPatterns(Placeholders(PageSubstitutions(loc, w, target, feed)))
  {
    var header := HeaderSubstitutions(loc, w, target);
    var forecast := ForecastSubstitutions(loc, w.daily, 6);
    var calendar := CalendarSubstitutions(loc, w.time, SelectUpcoming(feed, InstantOf(w.time)));
    HeaderPatterns(loc, w, target);
    ForecastDistinct(loc, w.daily, 6);
    ForecastFamily(loc, w.daily, 6);
    CalendarPatterns(loc, w.time, SelectUpcoming(feed, InstantOf(w.time)));
    LabelPatterns();
    ThreePartsDistinct(header, forecast, calendar);
    assert PageSubstitutions(loc, w, target, feed) == header + forecast + calendar;
  }

  /** Header, forecast and calendar steps with distinct placeholders each, told
      apart by family and by the two calendar labels, have distinct
      placeholders together. */
  lemma ThreePartsDistinct(header: seq<Substitution>, forecast: seq<Substitution>, calendar: seq<Substitution>)
    requires |calendar| == 44
    requires DistinctPatterns(Placeholders(header)) && DistinctPatterns(Placeholders(forecast)) && DistinctPatterns(Placeholders(calendar))
    requires forall k :: 0 <= k < |header| ==>
               Family(header[k].placeholder) == 0 && header[k].placeholder != calendar[0].placeholder && header[k].placeholder != calendar[43].placeholder
    requires InFamily(forecast, 1)
    requires Family(calendar[0].placeholder) == 0 && Family(calendar[43].placeholder) == 0
    requires forall k :: 1 <= k < 43 ==> Family(calendar[k].placeholder) == 2
    ensures DistinctPatterns(Placeholders(header + forecast + calendar))
  {
    DistinctAppend(header, forecast);
    var front := header + forecast;
    forall a, b | 0 <= a < |front| && 0 <= b < |calendar|
      ensures front[a].placeholder != calendar[b].placeholder
    {
      if a < |header| {
        assert front[a] == header[a];
      } else {
        assert front[a] == forecast[a - |header|];
      }
    }
    DistinctAppend(front, calendar);
  }

  /** A template that holds any of the page's placeholders, each at most once
      and in any order, between pieces of safe text, receives each safe value
      in its placeholder's place. Slot `s` of the template holds the
      placeholder of step `order[s]`. */
  lemma PageFillsTemplate(parts: seq<string>, order: seq<nat>, loc: Locale, w: Weather, target: LocalDate, feed: seq<Event>)
    requires ValidMoment(w.time) && ValidDate(target) && |w.daily| >= 6
    requires |parts| == |order| + 1 && Arrangement(order, |PageSubstitutions(loc, w, target, feed)|)
    requires forall k :: 0 <= k < |parts| ==> Safe(parts[k])
    requires forall k :: 0 <= k < |PageSubstitutions(loc, w, target, feed)| ==> Safe(PageSubstitutions(loc, w, target, feed)[k].value)
    ensures var subs := PageSubstitutions(loc, w, target, feed);
            ApplyAll(Interleave(parts, Arrange(Placeholders(subs), order)), subs) == Interleave(parts, Arrange(Values(subs), order))
  {
    PageBraced(loc, w, target, feed);
    PagePatternsDistinct(loc, w, target, feed);
    ChainFillsAnyOrder(parts, PageSubstitutions(loc, w, target, feed), order);
  }
}
