/** The upcoming-event selection of the dashboard: the calendar's events are
    kept when they start at or after now, sorted by start time with ties in
    feed order (the array sort is stable), and cut to the first five. */
module Events {
  import opened Dates

  /** A parsed calendar event: `startDate.toJSDate()` and `endDate.toJSDate()`
      as instants in milliseconds, the local calendar date of the start (what
      its `getFullYear()`, `getMonth()` and `getDate()` report) and `summary`. */
  datatype Event = Event(startMs: int, endMs: int, startDate: LocalDate, title: string)

  /** `.filter(event => event.startDate.toJSDate() >= now)`. */
  function Upcoming(events: seq<Event>, now: int): (r: seq<Event>)
    ensures |r| <= |events|
    ensures forall k :: 0 <= k < |r| ==> r[k].startMs >= now
  {
    if events == [] then []
    else (if events[0].startMs >= now then [events[0]] else []) + Upcoming(events[1..], now)
  }

  /** The events of `s` that start at instant `t`, in the order of `s`. */
  function WithStart(s: seq<Event>, t: int): seq<Event>
  {
    if s == [] then [] else (if s[0].startMs == t then [s[0]] else []) + WithStart(s[1..], t)
  }

  predicate SortedByStart(s: seq<Event>)
  {
    forall i, j :: 0 <= i < j < |s| ==> s[i].startMs <= s[j].startMs
  }

  /** Whether every event of `s` starts at or after `t`. */
  predicate StartsFrom(s: seq<Event>, t: int)
  {
    forall k :: 0 <= k < |s| ==> t <= s[k].startMs
  }

  lemma SortedCons(x: Event, s: seq<Event>)
    requires SortedByStart(s) && StartsFrom(s, x.startMs)
    ensures SortedByStart([x] + s)
  {
  }

  /** Puts `e` before the first element that starts strictly later, so after
      every element that starts at the same time. */
  function InsertByStart(e: Event, s: seq<Event>): (r: seq<Event>)
    requires SortedByStart(s)
    ensures SortedByStart(r)
    ensures |r| == |s| + 1
    ensures r[0] == e || (s != [] && r[0] == s[0])
  {
    if s == [] || e.startMs < s[0].startMs then
      SortedCons(e, s);
      [e] + s
    else
      var rest := InsertByStart(e, s[1..]);
      assert StartsFrom(rest, s[0].startMs);
      SortedCons(s[0], rest);
      [s[0]] + rest
  }

  /** `.sort((a, b) => a.startDate.toJSDate() - b.startDate.toJSDate())`: ascending by start. */
  function SortByStart(s: seq<Event>): (r: seq<Event>)
    ensures SortedByStart(r)
    ensures |r| == |s|
  {
    if s == [] then [] else InsertByStart(s[|s| - 1], SortByStart(s[..|s| - 1]))
  }

  /** The filter, sort and `.slice(0, 5)` chain: the events the dashboard shows. */
  function SelectUpcoming(events: seq<Event>, now: int): (r: seq<Event>)
    ensures |r| <= 5
    ensures SortedByStart(r)
  {
    var sorted := SortByStart(Upcoming(events, now));
    if |sorted| <= 5 then sorted else sorted[..5]
  }

  // ---------------------------------------------------------------------------
  // Permutations

  /** The filter keeps each upcoming event as often as the feed lists it and drops the others. */
  lemma {:induction false} UpcomingCounts(events: seq<Event>, now: int)
    ensures forall e :: multiset(Upcoming(events, now))[e] == if e.startMs >= now then multiset(events)[e] else 0
  {
    if events != [] {
      UpcomingCounts(events[1..], now);
      assert events == [events[0]] + events[1..];
    }
  }

  lemma {:induction false} InsertIsPermutation(e: Event, s: seq<Event>)
    requires SortedByStart(s)
    ensures multiset(InsertByStart(e, s)) == multiset(s) + multiset{e}
  {
    if s != [] && e.startMs >= s[0].startMs {
      InsertIsPermutation(e, s[1..]);
      assert s == [s[0]] + s[1..];
    }
  }

  /** The sort is a permutation of its input. */
  lemma {:induction false} SortIsPermutation(s: seq<Event>)
    ensures multiset(SortByStart(s)) == multiset(s)
  {
    if s != [] {
      var init, last := s[..|s| - 1], s[|s| - 1];
      calc {
        multiset(SortByStart(s));
        multiset(InsertByStart(last, SortByStart(init)));
        { InsertIsPermutation(last, SortByStart(init)); }
        multiset(SortByStart(init)) + multiset{last};
        { SortIsPermutation(init); }
        multiset(init) + multiset{last};
        { assert s == init + [last]; }
        multiset(s);
      }
    }
  }

  /** Every selected event is upcoming and comes from the feed, no more often than the feed lists it. */
  lemma SelectedFromFeed(events: seq<Event>, now: int)
    ensures multiset(SelectUpcoming(events, now)) <= multiset(Upcoming(events, now)) <= multiset(events)
    ensures forall e :: e in SelectUpcoming(events, now) ==> e in events && e.startMs >= now
  {
    var u := Upcoming(events, now);
    var sorted := SortByStart(u);
    var r := SelectUpcoming(events, now);
    UpcomingCounts(events, now);
    SortIsPermutation(u);
    assert sorted == r + sorted[|r|..];
    forall e | e in r
      ensures e in events && e.startMs >= now
    {
      assert e in multiset(u);
    }
  }

  // ---------------------------------------------------------------------------
  // Stability

  lemma {:induction false} WithStartAppend(a: seq<Event>, b: seq<Event>, t: int)
    ensures WithStart(a + b, t) == WithStart(a, t) + WithStart(b, t)
  {
    if a != [] {
      var head := if a[0].startMs == t then [a[0]] else [];
      calc {
        WithStart(a + b, t);
        { assert (a + b)[0] == a[0] && (a + b)[1..] == a[1..] + b; }
        head + WithStart(a[1..] + b, t);
        { WithStartAppend(a[1..], b, t); }
        head + (WithStart(a[1..], t) + WithStart(b, t));
        WithStart(a, t) + WithStart(b, t);
      }
    } else {
      assert a + b == b;
    }
  }

  /** No element of a sorted sequence starts at `t` when its first one starts after `t`. */
  lemma {:induction false} WithStartAfter(s: seq<Event>, t: int)
    requires SortedByStart(s) && s != [] && s[0].startMs > t
    ensures WithStart(s, t) == []
  {
    if |s| > 1 {
      WithStartAfter(s[1..], t);
    } else {
      assert s[1..] == [];
    }
  }

  /** Inserting `e` appends it to the events of its own start time and leaves the others alone. */
  lemma {:induction false} InsertKeepsTies(e: Event, s: seq<Event>, t: int)
    requires SortedByStart(s)
    ensures WithStart(InsertByStart(e, s), t) == WithStart(s, t) + (if e.startMs == t then [e] else [])
  {
    if s == [] {
    } else if e.startMs < s[0].startMs {
      if e.startMs == t {
        WithStartAfter(s, t);
      }
      assert ([e] + s)[1..] == s;
    } else {
      InsertKeepsTies(e, s[1..], t);
      assert ([s[0]] + InsertByStart(e, s[1..]))[1..] == InsertByStart(e, s[1..]);
    }
  }

  /** The sort is stable: the events sharing a start time keep their feed order. */
  lemma {:induction false} SortIsStable(s: seq<Event>, t: int)
    ensures WithStart(SortByStart(s), t) == WithStart(s, t)
  {
    if s != [] {
      var init, last := s[..|s| - 1], s[|s| - 1];
      SortIsStable(init, t);
      InsertKeepsTies(last, SortByStart(init), t);
      assert s == init + [last];
      WithStartAppend(init, [last], t);
      assert [last][1..] == [];
    }
  }

  /** The filter keeps the feed order of the events it keeps. */
  lemma {:induction false} UpcomingKeepsOrder(s: seq<Event>, now: int, t: int)
    ensures WithStart(Upcoming(s, now), t) == if t >= now then WithStart(s, t) else []
  {
    if s != [] {
      UpcomingKeepsOrder(s[1..], now, t);
      WithStartAppend(if s[0].startMs >= now then [s[0]] else [], Upcoming(s[1..], now), t);
    }
  }

  // ---------------------------------------------------------------------------
  // What the selection is

  /** Five events are shown when at least five are upcoming, otherwise all of them. */
  lemma SelectedCount(events: seq<Event>, now: int)
    ensures |SelectUpcoming(events, now)| == if |Upcoming(events, now)| < 5 then |Upcoming(events, now)| else 5
  {
  }

  /** The selection is the earliest upcoming events: an upcoming event that
      starts before some selected event is itself selected. */
  lemma SelectedAreEarliest(events: seq<Event>, now: int, e: Event, i: int)
    requires e in events && e.startMs >= now
    requires 0 <= i < |SelectUpcoming(events, now)| && e.startMs < SelectUpcoming(events, now)[i].startMs
    ensures e in SelectUpcoming(events, now)
  {
    var sorted := SortByStart(Upcoming(events, now));
    UpcomingIsSorted(events, now, e);
    SortedPrefixHoldsEarlier(sorted, |SelectUpcoming(events, now)|, e, i);
  }

  /** Every upcoming event of the feed is in the sorted list. */
  lemma UpcomingIsSorted(events: seq<Event>, now: int, e: Event)
    requires e in events && e.startMs >= now
    ensures e in SortByStart(Upcoming(events, now))
  {
    var u := Upcoming(events, now);
    UpcomingCounts(events, now);
    SortIsPermutation(u);
    assert e in multiset(SortByStart(u));
  }

  /** In a sorted list, an element that starts before the `i`-th one lies in every prefix containing the `i`-th. */
  lemma SortedPrefixHoldsEarlier(s: seq<Event>, n: int, e: Event, i: int)
    requires SortedByStart(s) && e in s
    requires 0 <= i < n <= |s| && e.startMs < s[i].startMs
    ensures e in s[..n]
  {
    var j :| 0 <= j < |s| && s[j] == e;
    assert s[..n][j] == e;
  }

  /** Within one start time, the selection lists the feed's events in feed order
      and is a prefix of them. */
  lemma SelectedTiesInFeedOrder(events: seq<Event>, now: int, t: int)
    requires t >= now
    ensures WithStart(SelectUpcoming(events, now), t) <= WithStart(events, t)
  {
    var u := Upcoming(events, now);
    var sorted := SortByStart(u);
    var r := SelectUpcoming(events, now);
    SortIsStable(u, t);
    UpcomingKeepsOrder(events, now, t);
    assert sorted == r + sorted[|r|..];
    WithStartAppend(r, sorted[|r|..], t);
  }
}
