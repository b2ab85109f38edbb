# Wayfinder dashboard: station ranking, visitor windows and bar-chart selection

This project models the data logic of the wayfinder dashboard's main page
(`src/components/Dashboard.jsx`) and proves properties of it. The logic is
taken out of its React effects and hooks. It has three parts:

- **Station ranking** (`Ranking.dfy`). The fetched station list is sorted in
  place by decreasing `Visitors_Count`. The first five stations become the
  `{ name, visits }` entries of the "Top 5 Most Visited Stations" pie chart.
  The same sorted array becomes the list of all stations for the bar chart.
- **Visitor windows** (`Windows.dfy`). `getVisitorsInRange(start, end)` counts
  the visit records whose creation instant lies in the closed interval
  `[start, end]`. The dashboard takes this count over the current and previous
  day, week, month and year, and computes each card's trend. The trend is 0
  when the previous count is 0, and `(current - previous) / previous * 100`
  otherwise. The windows are modelled exactly as the code builds them:
  - The daily windows `[today, today]` and `[yesterday, yesterday]` are single
    instants, because `today` is `new Date()` and keeps its time of day.
  - The daily previous window ends at `subDays(today, 1)`, the same time of
    day one day earlier.
  - Each weekly, monthly and yearly previous window ends at
    `subDays(start, 1)`, where `start` begins the current period. That is the
    midnight that begins the last day of the previous period, so the rest of
    that day falls in neither window.
- **Bar-chart selection** (`StationChart.dfy`). The component keeps a list of
  selected station names as state:
  - it is seeded with every name once data arrives;
  - a per-station toggle removes or appends a name;
  - select-all applies to the search results;
  - the search is a case-insensitive substring test.
  The chart rows are the selection's stations. The `top10` and `least10`
  filters sort those rows in place and keep at most ten.

`Common.dfy` holds what the three parts share: `Option` and `Result`,
`Array.prototype.filter` on sequences, and an in-place sort with a numeric
comparator.

Instants are integers in milliseconds. A record's `date_created` is given
already parsed: a `Date(ms)` or an `InvalidDate`. `isWithinInterval` is never
true of an `InvalidDate`. The calendar boundaries come from the date library
and are inputs, in a `Calendar` value:

- `today`;
- the starts of this week, this month and this year;
- the starts of last month and last year.

`Calendar.Valid` states the orderings that the code relies on.
`subDays(t, n)` is `t - n` days of 24 hours, and `subWeeks(t, 1)` is seven
such days.

Three consequences of the code as written:
- The ranking sorts the Stations collection by its own `Visitors_Count`
  field. No visit records are counted for it and no id-to-name lookup
  tables are used.
- The daily card counts only records created at the single instant `today`,
  and yesterday's count only those at the single instant one day earlier.
  `Windows.DailyCardMissesEarlierRecordsOfToday` works through an example:
  records at midnight on 2024-01-01 and 2024-01-02, seen at noon on
  2024-01-02, give 0 visitors for today and 0 for yesterday.
- A record whose `date_created` does not parse is an Invalid Date. It is kept
  in the list but is never within an interval, so no card counts it. The
  model does the same, with `InvalidDate`.

## Model

| member | source | states |
|---|---|---|
| Ranking.RankStations | src/components/Dashboard.jsx:303-315 | after sorting the fetched array in place, the list of all stations is that same array, ordered non-increasing by `Visitors_Count`, a permutation of what was fetched; the top stations are the top-five entries of it |
| Ranking.TopStations | src/components/Dashboard.jsx:307-313 | there are min(5, n) top entries; the i-th is `{ name: Station_Name, visits: Visitors_Count }` of the i-th sorted station |
| Ranking.TopStationsDominate | src/components/Dashboard.jsx:303-313 | over a list ordered most visited first, the top entries are non-increasing and no station left out has more visits than any station kept |
| Common.SortInPlace | src/components/Dashboard.jsx:303-305 | `array.sort` with a numeric comparator leaves the array ordered by the comparator's key and a permutation of its old contents |
| Common.Filter | src/components/Dashboard.jsx:347-350 | `filter` never returns more elements than it is given |
| Common.FilterOccurrences | src/components/Dashboard.jsx:347-350 | `filter` keeps every occurrence of an element that passes the test and none of an element that fails it |
| Windows.VisitorsInRange | src/components/Dashboard.jsx:347-350 | `getVisitorsInRange` is between 0 and the number of records |
| Windows.VisitorsInRangeCountsMatches | src/components/Dashboard.jsx:347-350 | `getVisitorsInRange(s, e)` equals the number of record positions whose instant t satisfies s ≤ t ≤ e |
| Windows.WiderWindowCountsMore | src/components/Dashboard.jsx:347-350 | widening the interval never lowers the count |
| Windows.DisjointWindowsCountApart | src/components/Dashboard.jsx:347-350 | two intervals, the first ending before the second starts, together count at most all records |
| Windows.SplitWindow | src/components/Dashboard.jsx:347-350 | the counts of `[s, m]` and `[m + 1, e]` add up to the count of `[s, e]` |
| Windows.Trend | src/components/Dashboard.jsx:358-363 | the trend is exactly 0 when the previous count is 0; otherwise trend × previous = (current − previous) × 100; the trend is ≥ 0 iff current ≥ previous; it is 0 iff previous is 0 or nothing changed; it is never below −100 |
| Windows.Current | src/components/Dashboard.jsx:327-397 | every current window ends at `today`; the daily one also starts there; with the calendar orderings it is a proper interval |
| Windows.Previous | src/components/Dashboard.jsx:331-401 | every previous window ends at `subDays(start, 1)` of its current window's start; the daily one is a single instant; with the calendar orderings it is a proper interval ending before the current window starts |
| Windows.PreviousEndsBeforeCurrent | src/components/Dashboard.jsx:331-344 | each window is a proper interval, and each previous window ends exactly one day before its current window starts |
| Windows.CurrentAndPreviousDisjoint | src/components/Dashboard.jsx:353-405 | for every card, current count + previous count ≤ number of records |
| Windows.GapBetweenWindowsUncounted | src/components/Dashboard.jsx:334-344 | current + previous counts equal the records from the previous window's start to now, less those strictly between the previous window's end and the current window's start |
| Windows.GapInstantInNeitherWindow | src/components/Dashboard.jsx:336-344 | a record one millisecond after `subDays(start, 1)` is counted by neither window of its card |
| Windows.CardIsDetermined | src/components/Dashboard.jsx:353-411 | the card contract pins the card down: two cards that meet it for the same records, calendar and period are equal |
| Windows.DailyCountIsInstantCount | src/components/Dashboard.jsx:327-357 | the daily count is the number of records created at exactly the instant `today` |
| Windows.DailyCardMissesEarlierRecordsOfToday | src/components/Dashboard.jsx:327-363 | with records at midnight on 2024-01-01 and 2024-01-02, seen at noon on 2024-01-02, the daily card counts 0 for today and 0 for yesterday |
| Windows.Metric | src/components/Dashboard.jsx:353-411 | the card's value is the count of its current window, and its trend is 0 when the previous window's count is 0 and otherwise satisfies trend × previous = (value − previous) × 100; the value plus the previous count is at most the number of records; the trend is ≥ 0 exactly when the value is at least the previous count |
| Windows.VisitorCounts | src/components/Dashboard.jsx:353-418 | each of the daily, weekly, monthly and yearly cards is the card of its period as above; given the calendar orderings, daily ≤ weekly, daily ≤ monthly ≤ yearly, and yearly ≤ number of records |
| StationChart.ToLowerIsLowerCase | src/components/Dashboard.jsx:133 | after `toLowerCase` no character is an ASCII capital, every capital became a lower-case letter, and every other character is unchanged |
| StationChart.ToLowerIdempotent | src/components/Dashboard.jsx:133 | lower-casing a lower-cased string changes nothing |
| StationChart.SearchIgnoresCase | src/components/Dashboard.jsx:131-135 | searching with a lower-cased term finds exactly the stations the term itself finds |
| StationChart.FilteredData | src/components/Dashboard.jsx:131-135 | `filteredData` has at most as many stations as the data, and holds a station exactly when it is one of the data whose name contains the term, ignoring ASCII case |
| StationChart.EmptySearchKeepsAll | src/components/Dashboard.jsx:131-135 | with the empty search term, `filteredData` is the data unchanged |
| StationChart.Names | src/components/Dashboard.jsx:127 | the name list has one entry per station, the i-th being the i-th station's name |
| StationChart.FilteredNamesAreNames | src/components/Dashboard.jsx:208-212 | every name among the search results is the name of a station of the data |
| StationChart.Toggled | src/components/Dashboard.jsx:137-143 | a toggle flips the membership of the toggled name and keeps the membership of every other name; an absent name is appended at the end |
| StationChart.ToggleRemovesEveryOccurrence | src/components/Dashboard.jsx:138-140 | toggling a selected name removes every occurrence of it and keeps every occurrence of every other name |
| StationChart.ToggleKeepsOthersInOrder | src/components/Dashboard.jsx:138-140 | toggling a name that occurs once in the selection removes it and keeps the names before and after it in their order |
| StationChart.ToggleTwiceFromAbsent | src/components/Dashboard.jsx:137-143 | toggling an unselected name twice restores the selection exactly |
| StationChart.Seeded | src/components/Dashboard.jsx:125-129 | the selection becomes all station names when there is data and nothing is selected; otherwise it is unchanged |
| StationChart.AfterSelectAll | src/components/Dashboard.jsx:208-216 | checking select-all selects exactly the names of the stations the search finds, one per search result, the i-th being the name of the i-th result; unchecking empties the selection |
| StationChart.SelectAllChecked | src/components/Dashboard.jsx:204-207 | the checkbox shows as checked exactly when the selection is non-empty and as long as the search results; never when the search finds nothing |
| StationChart.CheckedWithoutSelectingResults | src/components/Dashboard.jsx:204-207 | only lengths are compared: with stations Apple and Banana and the term "an", the only result is Banana, yet selecting just Apple shows the box checked |
| StationChart.SelectAllThenChecked | src/components/Dashboard.jsx:204-216 | after checking select-all, the checkbox shows as checked exactly when the search has results |
| StationChart.FindByName | src/components/Dashboard.jsx:147 | `find` returns nothing exactly when no station has the name; otherwise it returns the first station with that name |
| StationChart.SelectedRows | src/components/Dashboard.jsx:146-154 | the rows succeed exactly when every selected name belongs to a station; then there is one row per selected name, in order, with that station's visitor count |
| StationChart.SortedPrefixIsFirstRanked | src/components/Dashboard.jsx:159-161 | the first n elements of a sorted rearrangement are at most n, sorted, drawn from the rows, and no row left out ranks before a row kept |
| StationChart.SortAndSlice | src/components/Dashboard.jsx:159-161 | `sort(...).slice(0, n)` on a copy of the rows returns the first-ranked rows as above |
| StationChart.ChartData | src/components/Dashboard.jsx:145-165 | fails exactly when a selected name has no station; under `all`, one row per selected name in selection order; under `top10`, at most ten rows, most visited first, none left out more visited than one kept; under `least10`, the same with least visited first |
| StationChart.Selection.constructor | src/components/Dashboard.jsx:117-123 | the component starts with no data, nothing selected, an empty search term and the `all` filter |
| StationChart.Selection.SetData | src/components/Dashboard.jsx:125-129 | new data is stored and the selection is seeded from it; a selection seeded from empty names only stations of the data |
| StationChart.Selection.Toggle | src/components/Dashboard.jsx:137-143 | the selection becomes its toggle; membership of the name flips and no other name's changes; toggling a station's name keeps the selection consistent with the data |
| StationChart.Selection.SelectAll | src/components/Dashboard.jsx:208-216 | the selection becomes the search results' names or nothing, and names only stations of the data |
| StationChart.Selection.Chart | src/components/Dashboard.jsx:145-165 | the chart rows of the current state never fail while every selected name belongs to a station |

## Left out

- Network I/O: the two `axios` GET requests, the `REACT_APP_BASE_URL` configuration and the `console.error` on failure are not modelled. The fetched lists are inputs. `src/api/index.js` holds only fetch wrappers and is not part of this model.
- The date library is not modelled. `new Date()`, `startOfWeek` (Monday start), `startOfMonth`, `startOfYear`, `subMonths` and `subYears` are inputs constrained by `Calendar.Valid`. `subDays` and `subWeeks` are whole 24-hour days, so daylight-saving shifts are not modelled.
- `parseISO` is not modelled: a record arrives as a valid instant or an Invalid Date.
- `parseInt` is not modelled: visitor counts are integers already. So is the numeric coercion in the sort comparator.
- Windows.Trend: computed in exact `real` arithmetic, not IEEE double, so rounding is not modelled.
- Common.SortInPlace: does not state that elements of equal rank keep their input order, although `Array.prototype.sort` is stable.
- Ranking.RankStations: stations with equal `Visitors_Count` are ordered arbitrarily by the contract, although the stable sort keeps them in fetched order. Ties in the top five, and which tied station is fifth, are therefore not pinned down.
- StationChart.SortAndSlice: rows of equal rank are kept and ordered arbitrarily by the contract. The stable sort keeps them in input order, so the cut keeps the earliest of them; the model does not state that.
- StationChart.ChartData: under `top10` and `least10`, rows with equal visitor counts are kept and ordered arbitrarily by the contract. In the code they keep selection order, and the cut at ten keeps the earliest selected.
- Ranking.RankStations: the list of all stations is returned as the sorted contents of the fetched array, not as the same array object. Nothing writes to it after the sort, so the aliasing is not modelled.
- StationChart.ToLower: lower-cases only the ASCII letters A to Z. Unicode case mapping is not modelled.
- React itself is not modelled: rendering, hooks, effect scheduling, memoisation, recharts, framer-motion, colours, `toLocaleString` and the dropdown's open/closed flag are presentation only. So is the commented-out trend display.
- The search-term and chart-filter state: the component never changes them. Their setters are called only from a commented-out input, or from nowhere. So the class has no setters; `FilteredData` and `ChartData` take the term and the filter as parameters.
