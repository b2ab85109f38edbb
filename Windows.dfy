/**
 Visitor counts of the dashboard's four cards: the number of visit records in
 the current and the previous day, week, month and year, and the
 period-over-period trend of each.

 Instants are integers (milliseconds). The calendar boundaries that the
 dashboard obtains from its date library (`new Date()`, `startOfWeek` with
 weeks starting on Monday, `startOfMonth`, `startOfYear`, `subMonths`,
 `subYears`) are inputs; `subDays(t, n)` and `subWeeks(t, 1)` are taken as
 whole multiples of a 24-hour day.
 */
module Windows {
  import opened Common

  /** A record's `date_created` after `parseISO`: a valid instant or an Invalid Date. */
  datatype ParsedDate = Date(ms: int) | InvalidDate

  /** `isWithinInterval(d, { start, end })`: both ends included; an Invalid Date is never within. */
  predicate Within(d: ParsedDate, start: int, end: int)
  {
    d.Date? && start <= d.ms <= end
  }

  function InWindow(start: int, end: int): ParsedDate -> bool
  {
    d => Within(d, start, end)
  }

  /** Indices of the records that lie in `[start, end]`: the reference count. */
  ghost function MatchingIndices(records: seq<ParsedDate>, start: int, end: int): set<int>
  {
    set i | 0 <= i < |records| && Within(records[i], start, end)
  }

  /** `getVisitorsInRange(start, end)`: the length of the filtered record list. */
  function VisitorsInRange(records: seq<ParsedDate>, start: int, end: int): (n: nat)
    ensures n <= |records|
  {
    |Filter(records, InWindow(start, end))|
  }

  /** The count is exactly the number of records whose instant lies in `[start, end]`. */
  lemma {:induction false} VisitorsInRangeCountsMatches(records: seq<ParsedDate>, start: int, end: int)
    ensures VisitorsInRange(records, start, end) == |MatchingIndices(records, start, end)|
  {
    if records == [] {
      assert MatchingIndices(records, start, end) == {};
    } else {
      var k := |records| - 1;
      var front := records[..k];
      assert records == front + [records[k]];
      FilterAppend(front, [records[k]], InWindow(start, end));
      VisitorsInRangeCountsMatches(front, start, end);
      var m := MatchingIndices(front, start, end);
      assert k !in m;
      if Within(records[k], start, end) {
        assert MatchingIndices(records, start, end) == m + {k};
      } else {
        assert MatchingIndices(records, start, end) == m;
      }
    }
  }

  /** Widening the interval never lowers the count. */
  lemma WiderWindowCountsMore(records: seq<ParsedDate>, start: int, end: int, start': int, end': int)
    requires start' <= start && end <= end'
    ensures VisitorsInRange(records, start, end) <= VisitorsInRange(records, start', end')
  {
    var narrow := Filter(records, InWindow(start, end));
    var wide := Filter(records, InWindow(start', end'));
    assert multiset(narrow) <= multiset(wide) by {
      forall x ensures multiset(narrow)[x] <= multiset(wide)[x] {
        FilterOccurrences(records, InWindow(start, end), x);
        FilterOccurrences(records, InWindow(start', end'), x);
      }
    }
    SubMultisetSize(multiset(narrow), multiset(wide));
  }

  /** Two intervals that do not overlap count no record twice. */
  lemma DisjointWindowsCountApart(records: seq<ParsedDate>, start1: int, end1: int, start2: int, end2: int)
    requires end1 < start2
    ensures VisitorsInRange(records, start1, end1) + VisitorsInRange(records, start2, end2) <= |records|
  {
    var first := Filter(records, InWindow(start1, end1));
    var second := Filter(records, InWindow(start2, end2));
    assert multiset(first) + multiset(second) <= multiset(records) by {
      forall x ensures (multiset(first) + multiset(second))[x] <= multiset(records)[x] {
        FilterOccurrences(records, InWindow(start1, end1), x);
        FilterOccurrences(records, InWindow(start2, end2), x);
      }
    }
    SubMultisetSize(multiset(first) + multiset(second), multiset(records));
  }

  /** Cutting an interval in two at `mid` splits its count between the two parts. */
  lemma SplitWindow(records: seq<ParsedDate>, start: int, mid: int, end: int)
    requires start <= mid + 1 && mid <= end
    ensures VisitorsInRange(records, start, mid) + VisitorsInRange(records, mid + 1, end)
         == VisitorsInRange(records, start, end)
  {
    var left := Filter(records, InWindow(start, mid));
    var right := Filter(records, InWindow(mid + 1, end));
    var whole := Filter(records, InWindow(start, end));
    assert multiset(left) + multiset(right) == multiset(whole) by {
      forall x ensures (multiset(left) + multiset(right))[x] == multiset(whole)[x] {
        FilterOccurrences(records, InWindow(start, mid), x);
        FilterOccurrences(records, InWindow(mid + 1, end), x);
        FilterOccurrences(records, InWindow(start, end), x);
      }
    }
    calc {
      |left| + |right|;
      |multiset(left)| + |multiset(right)|;
      |multiset(left) + multiset(right)|;
      |multiset(whole)|;
      |whole|;
    }
  }

  /** A factor of a non-negative product with a positive other factor is non-negative. */
  lemma NonNegativeFactor(a: real, b: real)
    requires b > 0.0 && a * b >= 0.0
    ensures a >= 0.0
  {
  }

  /**
   Period-over-period trend: zero when the previous period had no visitors
   (the division-by-zero guard), otherwise `(current - previous) / previous * 100`.
   */
  function Trend(current: nat, previous: nat): (t: real)
    ensures previous == 0 ==> t == 0.0
    ensures previous > 0 ==> t * previous as real == (current - previous) as real * 100.0
    ensures previous > 0 ==> (t >= 0.0 <==> current >= previous)
    ensures t == 0.0 <==> previous == 0 || current == previous
    ensures t >= -100.0
  {
    if previous == 0 then 0.0
    else
      var change := (current - previous) as real / previous as real;
      assert change * previous as real == (current - previous) as real;
      assert (change + 1.0) * previous as real == current as real;
      NonNegativeFactor(change + 1.0, previous as real);
      change * 100.0
  }

  /** Length of a day in milliseconds. */
  const DayMs := 86_400_000

  /** `subDays(t, n)`. */
  function SubDays(t: int, n: int): int
  {
    t - n * DayMs
  }

  /**
   The instants the dashboard takes from its date library: `today` is the
   current instant, with its time of day; the others are midnights.
   `subWeeks(thisWeekStart, 1)` is seven days before `thisWeekStart`;
   `lastMonthStart` and `lastYearStart` come from `subMonths` and `subYears`.
   */
  datatype Calendar = Calendar(
    today: int,
    thisWeekStart: int,
    thisMonthStart: int,
    lastMonthStart: int,
    thisYearStart: int,
    lastYearStart: int)
  {
    /**
     The orderings that the date library guarantees and the dashboard relies
     on: each period starts no later than now, a month starts within its
     year, and a previous month or year starts at least a day before the
     current one.
     */
    predicate Valid()
    {
      && thisWeekStart <= today
      && thisYearStart <= thisMonthStart <= today
      && lastMonthStart <= SubDays(thisMonthStart, 1)
      && lastYearStart <= SubDays(thisYearStart, 1)
    }
  }

  datatype Period = Day | Week | Month | Year

  /** A closed interval `[start, end]` passed to `getVisitorsInRange`. */
  datatype Window = Window(start: int, end: int)

  /**
   The current window of each card: `[today, today]` for the day, a single
   instant, and `[start of the period, today]` for the others.
   */
  function Current(c: Calendar, p: Period): (w: Window)
    ensures w.end == c.today
    ensures p == Day ==> w.start == c.today
    ensures c.Valid() ==> w.start <= w.end
  {
    match p
    case Day => Window(c.today, c.today)
    case Week => Window(c.thisWeekStart, c.today)
    case Month => Window(c.thisMonthStart, c.today)
    case Year => Window(c.thisYearStart, c.today)
  }

  /**
   The previous window of each card: `[yesterday, yesterday]` for the day,
   again a single instant; for the others from the previous period's start
   to `subDays(start of this period, 1)`, the midnight that begins the last
   day of the previous period.
   */
  function Previous(c: Calendar, p: Period): (w: Window)
    ensures w.end == SubDays(Current(c, p).start, 1)
    ensures p == Day ==> w.start == w.end
    ensures c.Valid() ==> w.start <= w.end < Current(c, p).start
  {
    match p
    case Day => Window(SubDays(c.today, 1), SubDays(c.today, 1))
    case Week => Window(SubDays(c.thisWeekStart, 7), SubDays(c.thisWeekStart, 1))
    case Month => Window(c.lastMonthStart, SubDays(c.thisMonthStart, 1))
    case Year => Window(c.lastYearStart, SubDays(c.thisYearStart, 1))
  }

  function Count(records: seq<ParsedDate>, w: Window): nat
  {
    VisitorsInRange(records, w.start, w.end)
  }

  /** Both windows of a card are proper intervals and the previous one ends a whole day before the current one starts. */
  lemma PreviousEndsBeforeCurrent(c: Calendar, p: Period)
    requires c.Valid()
    ensures Previous(c, p).start <= Previous(c, p).end
    ensures Current(c, p).start <= Current(c, p).end
    ensures Previous(c, p).end + DayMs == Current(c, p).start
  {
  }

  /** The current and previous windows of a card never count the same record. */
  lemma CurrentAndPreviousDisjoint(records: seq<ParsedDate>, c: Calendar, p: Period)
    requires c.Valid()
    ensures Count(records, Current(c, p)) + Count(records, Previous(c, p)) <= |records|
  {
    PreviousEndsBeforeCurrent(c, p);
    var cur, prev := Current(c, p), Previous(c, p);
    DisjointWindowsCountApart(records, prev.start, prev.end, cur.start, cur.end);
  }

  /**
   Records in the gap between the two windows of a card, after the midnight
   that ends the previous window and before the current window starts, are
   counted by neither: the two counts together are exactly the records from
   the previous window's start to now, less those in the gap.
   */
  lemma GapBetweenWindowsUncounted(records: seq<ParsedDate>, c: Calendar, p: Period)
    requires c.Valid()
    ensures Count(records, Previous(c, p)) + Count(records, Current(c, p))
         == VisitorsInRange(records, Previous(c, p).start, c.today)
          - VisitorsInRange(records, Previous(c, p).end + 1, Current(c, p).start - 1)
  {
    var prev, cur := Previous(c, p), Current(c, p);
    SplitWindow(records, prev.start, prev.end, c.today);
    SplitWindow(records, prev.end + 1, cur.start - 1, c.today);
  }

  /** A record one millisecond after the previous window's end is in neither window of the card. */
  lemma GapInstantInNeitherWindow(c: Calendar, p: Period)
    requires c.Valid()
    ensures Count([Date(Previous(c, p).end + 1)], Previous(c, p)) == 0
    ensures Count([Date(Previous(c, p).end + 1)], Current(c, p)) == 0
  {
    var r := [Date(Previous(c, p).end + 1)];
    VisitorsInRangeCountsMatches(r, Previous(c, p).start, Previous(c, p).end);
    VisitorsInRangeCountsMatches(r, Current(c, p).start, Current(c, p).end);
    assert MatchingIndices(r, Previous(c, p).start, Previous(c, p).end) == {};
    assert MatchingIndices(r, Current(c, p).start, Current(c, p).end) == {};
  }

  /**
   The daily windows are single instants: the daily count is the number of
   records created at exactly the instant `today`, to the millisecond, not
   the records of today's calendar day.
   */
  lemma DailyCountIsInstantCount(records: seq<ParsedDate>, c: Calendar)
    ensures Count(records, Current(c, Day)) == multiset(records)[Date(c.today)]
  {
    var now := Date(c.today);
    var kept := multiset(Filter(records, InWindow(c.today, c.today)));
    forall x ensures kept[x] == if x == now then multiset(records)[now] else 0 {
      FilterOccurrences(records, InWindow(c.today, c.today), x);
    }
    assert kept == multiset{}[now := multiset(records)[now]];
  }

  /**
   Two records created at midnight on 2024-01-01 and 2024-01-02 (UTC), seen
   at noon on 2024-01-02: neither falls on the daily instants, so the daily
   card shows 0 visitors for today and 0 for yesterday.
   */
  lemma DailyCardMissesEarlierRecordsOfToday()
    ensures var c := Calendar(1704196800000, 1704067200000, 1704067200000, 1701388800000, 1704067200000, 1672531200000);
      && c.Valid()
      && Count([Date(1704067200000), Date(1704153600000)], Current(c, Day)) == 0
      && Count([Date(1704067200000), Date(1704153600000)], Previous(c, Day)) == 0
  {
    var c := Calendar(1704196800000, 1704067200000, 1704067200000, 1701388800000, 1704067200000, 1672531200000);
    var r := [Date(1704067200000), Date(1704153600000)];
    DailyCountIsInstantCount(r, c);
    VisitorsInRangeCountsMatches(r, Previous(c, Day).start, Previous(c, Day).end);
    assert MatchingIndices(r, Previous(c, Day).start, Previous(c, Day).end) == {};
  }

  /** One card's `{ value, trend }`. */
  datatype WindowMetric = WindowMetric(value: nat, trend: real)

  /** The dashboard's `visitorCount` state. */
  datatype VisitorCount = VisitorCount(daily: WindowMetric, weekly: WindowMetric, monthly: WindowMetric, yearly: WindowMetric)

  /**
   `m` is the card of period `p`: its value is the count of the current
   window, and its trend is 0 when the previous window is empty and
   otherwise satisfies trend × previous = (value − previous) × 100.
   */
  ghost predicate IsCard(m: WindowMetric, records: seq<ParsedDate>, c: Calendar, p: Period)
  {
    var prev := Count(records, Previous(c, p));
    && m.value == Count(records, Current(c, p))
    && (prev == 0 ==> m.trend == 0.0)
    && (prev > 0 ==> m.trend * prev as real == (m.value - prev) as real * 100.0)
  }

  /** One card: the current count and its trend against the previous window. */
  function Metric(records: seq<ParsedDate>, c: Calendar, p: Period): (m: WindowMetric)
    requires c.Valid()
    ensures IsCard(m, records, c, p)
    ensures m.value + Count(records, Previous(c, p)) <= |records|
    ensures m.trend >= 0.0 <==> m.value >= Count(records, Previous(c, p))
  {
    var cur := Count(records, Current(c, p));
    var prev := Count(records, Previous(c, p));
    CurrentAndPreviousDisjoint(records, c, p);
    WindowMetric(cur, Trend(cur, prev))
  }

  /**
   All four cards, each the card of its own period. The current windows
   nest: the single instant `today` lies in this week, this month and this
   year, and this month lies in this year.
   */
  function VisitorCounts(records: seq<ParsedDate>, c: Calendar): (v: VisitorCount)
    requires c.Valid()
    ensures IsCard(v.daily, records, c, Day)
    ensures IsCard(v.weekly, records, c, Week)
    ensures IsCard(v.monthly, records, c, Month)
    ensures IsCard(v.yearly, records, c, Year)
    ensures v.daily.value <= v.weekly.value
    ensures v.daily.value <= v.monthly.value <= v.yearly.value
    ensures v.yearly.value <= |records|
  {
    WiderWindowCountsMore(records, c.today, c.today, c.thisWeekStart, c.today);
    WiderWindowCountsMore(records, c.today, c.today, c.thisMonthStart, c.today);
    WiderWindowCountsMore(records, c.thisMonthStart, c.today, c.thisYearStart, c.today);
    VisitorCount(Metric(records, c, Day), Metric(records, c, Week), Metric(records, c, Month), Metric(records, c, Year))
  }

  /** The trend of a card is fixed by its two counts: any two cards of the same period agree. */
  lemma CardIsDetermined(m1: WindowMetric, m2: WindowMetric, records: seq<ParsedDate>, c: Calendar, p: Period)
    requires IsCard(m1, records, c, p) && IsCard(m2, records, c, p)
    ensures m1 == m2
  {
    var prev := Count(records, Previous(c, p)) as real;
    if prev > 0.0 {
      assert m1.trend * prev == m2.trend * prev;
      assert (m1.trend - m2.trend) * prev == 0.0;
    }
  }
}
