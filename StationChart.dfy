/**
 The "All Stations Visit Count" bar chart: the list of selected station
 names, the search filter over the stations, the select-all checkbox, the
 per-station toggles and the rows handed to the chart under the `all`,
 `top10` and `least10` filters.
 */
module StationChart {
  import opened Common
  import opened Ranking

  /** Most rows shown by the `top10` and `least10` filters. */
  const ChartLimit := 10

  /** `toLowerCase` on one character; only the ASCII letters A to Z change. */
  function LowerChar(ch: char): char
  {
    if 'A' <= ch <= 'Z' then (ch as int + 32) as char else ch
  }

  /** `s.toLowerCase()`. */
  function ToLower(s: string): (r: string)
    ensures |r| == |s|
    ensures forall i :: 0 <= i < |s| ==> r[i] == LowerChar(s[i])
  {
    seq(|s|, i requires 0 <= i < |s| => LowerChar(s[i]))
  }

  /** Lower-casing leaves no ASCII capital and changes no character other than one. */
  lemma ToLowerIsLowerCase(s: string)
    ensures forall i :: 0 <= i < |s| ==> !('A' <= ToLower(s)[i] <= 'Z')
    ensures forall i :: 0 <= i < |s| && !('A' <= s[i] <= 'Z') ==> ToLower(s)[i] == s[i]
    ensures forall i :: 0 <= i < |s| && 'A' <= s[i] <= 'Z' ==> 'a' <= ToLower(s)[i] <= 'z'
  {
  }

  /** Lower-casing twice is lower-casing once. */
  lemma ToLowerIdempotent(s: string)
    ensures ToLower(ToLower(s)) == ToLower(s)
  {
    ToLowerIsLowerCase(s);
  }

  /** `term` occurs in `text` starting at index `i`. */
  predicate OccursAt(text: string, term: string, i: int)
  {
    0 <= i && i + |term| <= |text| && text[i..i + |term|] == term
  }

  /** `text.includes(term)`: `term` occurs in `text` as a contiguous piece. */
  predicate Includes(text: string, term: string)
  {
    exists i :: 0 <= i <= |text| - |term| && OccursAt(text, term, i)
  }

  /** The search test of `filteredData`, ignoring the case of ASCII letters. */
  predicate MatchesSearch(term: string, s: Station)
  {
    Includes(ToLower(s.name), ToLower(term))
  }

  /** The search does not depend on the case of the term: a lower-cased term finds the same stations. */
  lemma SearchIgnoresCase(term: string, s: Station)
    ensures MatchesSearch(ToLower(term), s) <==> MatchesSearch(term, s)
  {
    ToLowerIdempotent(term);
  }

  /** `filteredData`: the stations whose name contains the search term, in data order. */
  function FilteredData(data: seq<Station>, term: string): (r: seq<Station>)
    ensures |r| <= |data|
    ensures forall s :: s in r <==> s in data && MatchesSearch(term, s)
  {
    var p := (s: Station) => MatchesSearch(term, s);
    forall s ensures s in Filter(data, p) <==> s in data && MatchesSearch(term, s) {
      FilterMembers(data, p, s);
    }
    Filter(data, p)
  }

  /** The empty search term keeps every station, in order. */
  lemma EmptySearchKeepsAll(data: seq<Station>)
    ensures FilteredData(data, "") == data
  {
    forall s | s in data ensures MatchesSearch("", s) {
      assert OccursAt(ToLower(s.name), ToLower(""), 0);
    }
    FilterKeepsAll(data, s => MatchesSearch("", s));
  }

  /** `data.map((station) => station.Station_Name)`. */
  function Names(data: seq<Station>): (r: seq<string>)
    ensures |r| == |data|
    ensures forall i :: 0 <= i < |data| ==> r[i] == data[i].name
  {
    seq(|data|, i requires 0 <= i < |data| => data[i].name)
  }

  /** The names of the search results are names of stations. */
  lemma FilteredNamesAreNames(data: seq<Station>, term: string)
    ensures forall n :: n in Names(FilteredData(data, term)) ==> n in Names(data)
  {
    forall n | n in Names(FilteredData(data, term)) ensures n in Names(data) {
      var f := FilteredData(data, term);
      var i :| 0 <= i < |f| && Names(f)[i] == n;
      assert f[i] in f;
      var j :| 0 <= j < |data| && data[j] == f[i];
      assert Names(data)[j] == n;
    }
  }

  /**
   `handleStationToggle(name)` on the selection `selected`: a name already
   selected is removed, every occurrence of it; any other name is appended.
   */
  function Toggled(selected: seq<string>, name: string): (r: seq<string>)
    ensures name in r <==> name !in selected
    ensures forall n :: n != name ==> (n in r <==> n in selected)
    ensures name !in selected ==> r == selected + [name]
  {
    var p := (n: string) => n != name;
    if name in selected then
      FilterMembers(selected, p, name);
      assert forall n :: n != name ==> (n in Filter(selected, p) <==> n in selected) by {
        forall n ensures n != name ==> (n in Filter(selected, p) <==> n in selected) {
          FilterMembers(selected, p, n);
        }
      }
      Filter(selected, p)
    else
      selected + [name]
  }

  /** A toggle of a selected name keeps every other occurrence and drops all of that name. */
  lemma ToggleRemovesEveryOccurrence(selected: seq<string>, name: string, n: string)
    requires name in selected
    ensures multiset(Toggled(selected, name))[n] == if n == name then 0 else multiset(selected)[n]
  {
    FilterOccurrences(selected, (m: string) => m != name, n);
  }

  /** Removing a selected name keeps the other names in their order. */
  lemma ToggleKeepsOthersInOrder(before: seq<string>, name: string, after: seq<string>)
    requires name !in before && name !in after
    ensures Toggled(before + [name] + after, name) == before + after
  {
    var p := (n: string) => n != name;
    assert name in before + [name] + after;
    FilterAppend(before + [name], after, p);
    FilterAppend(before, [name], p);
    FilterKeepsAll(before, p);
    FilterKeepsAll(after, p);
    assert Filter([name], p) == [];
  }

  /** Toggling the same name twice restores the selection when the name was absent. */
  lemma ToggleTwiceFromAbsent(selected: seq<string>, name: string)
    requires name !in selected
    ensures Toggled(Toggled(selected, name), name) == selected
  {
    var p := (n: string) => n != name;
    FilterAppend(selected, [name], p);
    FilterKeepsAll(selected, p);
    assert Filter([name], p) == [];
  }

  /**
   The effect that seeds the selection when the chart's data arrives: all
   station names, but only when there is data and nothing is selected yet.
   */
  function Seeded(data: seq<Station>, selected: seq<string>): (r: seq<string>)
    ensures |data| > 0 && selected == [] ==> r == Names(data)
    ensures !(|data| > 0 && selected == []) ==> r == selected
  {
    if |data| > 0 && |selected| == 0 then Names(data) else selected
  }

  /** The select-all checkbox's `onChange`: the names of the search results when checked, none otherwise. */
  function AfterSelectAll(data: seq<Station>, term: string, checked: bool): (r: seq<string>)
    ensures checked ==> forall n :: n in r <==> exists s :: s in data && MatchesSearch(term, s) && s.name == n
    ensures checked ==> |r| == |FilteredData(data, term)|
    ensures checked ==> forall i :: 0 <= i < |r| ==> r[i] == FilteredData(data, term)[i].name
    ensures checked ==> forall n :: n in r ==> n in Names(data)
    ensures !checked ==> r == []
  {
    FilteredNamesAreNames(data, term);
    if checked then
      var f := FilteredData(data, term);
      assert forall n :: n in Names(f) <==> exists s :: s in data && MatchesSearch(term, s) && s.name == n by {
        forall n ensures n in Names(f) <==> exists s :: s in data && MatchesSearch(term, s) && s.name == n {
          if n in Names(f) {
            var i :| 0 <= i < |f| && Names(f)[i] == n;
            assert f[i] in f;
          }
          if exists s :: s in data && MatchesSearch(term, s) && s.name == n {
            var s :| s in data && MatchesSearch(term, s) && s.name == n;
            var i :| 0 <= i < |f| && f[i] == s;
            assert Names(f)[i] == n;
          }
        }
      }
      Names(f)
    else []
  }

  /**
   The select-all checkbox is shown checked: as many names selected as search
   results, and at least one result. Only the lengths are compared, not the names.
   */
  function SelectAllChecked(data: seq<Station>, term: string, selected: seq<string>): (b: bool)
    ensures b <==> selected != [] && |selected| == |FilteredData(data, term)|
    ensures FilteredData(data, term) == [] ==> !b
  {
    |selected| == |FilteredData(data, term)| && |FilteredData(data, term)| > 0
  }

  /**
   Since only lengths are compared, the checkbox can show checked while a
   search result is unselected: with stations Apple and Banana, the term "an"
   finds only Banana, and selecting just Apple shows the box checked.
   */
  lemma CheckedWithoutSelectingResults()
    ensures var data := [Station("Apple", 3), Station("Banana", 5)];
      && FilteredData(data, "an") == [Station("Banana", 5)]
      && SelectAllChecked(data, "an", ["Apple"])
      && "Banana" !in ["Apple"]
  {
    var data := [Station("Apple", 3), Station("Banana", 5)];
    assert OccursAt(ToLower("Banana"), ToLower("an"), 1);
    assert !MatchesSearch("an", Station("Apple", 3)) by {
      var apple, an := ToLower("Apple"), ToLower("an");
      assert |an| == 2 && an[1] == 'n';
      assert forall k :: 0 <= k < |apple| ==> apple[k] != 'n';
      forall i | 0 <= i <= |apple| - |an| ensures !OccursAt(apple, an, i) {
        assert apple[i..i + |an|][1] == apple[i + 1];
      }
    }
  }

  /** Checking select-all shows the checkbox checked exactly when the search has results. */
  lemma SelectAllThenChecked(data: seq<Station>, term: string)
    ensures SelectAllChecked(data, term, AfterSelectAll(data, term, true)) <==> |FilteredData(data, term)| > 0
  {
  }

  /** `data[i]` is the first station named `name`. */
  predicate FirstNamedAt(data: seq<Station>, name: string, i: int)
  {
    0 <= i < |data| && data[i].name == name && forall k :: 0 <= k < i ==> data[k].name != name
  }

  /** `data.find((s) => s.Station_Name === name)`: the first station with that name, if any. */
  function FindByName(data: seq<Station>, name: string): (r: Option<Station>)
    ensures r.None? <==> name !in Names(data)
    ensures r.Some? ==> exists i :: 0 <= i < |data| && FirstNamedAt(data, name, i) && data[i] == r.value
  {
    if data == [] then None
    else if data[0].name == name then
      assert FirstNamedAt(data, name, 0);
      Some(data[0])
    else
      var r := FindByName(data[1..], name);
      assert name in Names(data) <==> name in Names(data[1..]) by {
        assert forall k :: 0 <= k < |data| - 1 ==> Names(data[1..])[k] == Names(data)[k + 1];
      }
      if r.Some? then
        var i :| 0 <= i < |data| - 1 && FirstNamedAt(data[1..], name, i) && data[1..][i] == r.value;
        assert FirstNamedAt(data, name, i + 1) && data[i + 1] == r.value;
        r
      else r
  }

  /** A bar of the chart: `{ name, visitors }`. */
  datatype Row = Row(name: string, visitors: int)

  /**
   `selectedStations.map(...)`: one row per selected name, in selection
   order, with the visitor count of the first station of that name. A name
   with no station makes `station` undefined and the access to its
   `Visitors_Count` throws, which is the error result here.
   */
  function SelectedRows(data: seq<Station>, selected: seq<string>): (r: Result<seq<Row>>)
    ensures r.Ok? <==> forall n :: n in selected ==> n in Names(data)
    ensures r.Ok? ==> |r.value| == |selected|
    ensures r.Ok? ==> forall i :: 0 <= i < |selected| ==>
      r.value[i] == Row(selected[i], FindByName(data, selected[i]).value.visitorsCount)
  {
    if selected == [] then Ok([])
    else
      match FindByName(data, selected[0])
      case None => Err("TypeError: station is undefined")
      case Some(s) =>
        match SelectedRows(data, selected[1..])
        case Err(e) => Err(e)
        case Ok(rest) =>
          assert forall n :: n in selected ==> n == selected[0] || n in selected[1..];
          Ok([Row(selected[0], s.visitorsCount)] + rest)
  }

  /** The chart filter: every selected station, the ten most visited, or the ten least visited. */
  datatype ChartFilter = All | Top10 | Least10

  /** The comparator `(a, b) => b.visitors - a.visitors` as a rank. */
  function MostVisitorsFirst(r: Row): int { -r.visitors }

  /** The comparator `(a, b) => a.visitors - b.visitors` as a rank. */
  function FewestVisitorsFirst(r: Row): int { r.visitors }

  /**
   `r` is what `rows.sort(...).slice(0, n)` leaves: at most `n` rows, as many
   as there are when fewer, drawn from `rows`, ordered by `rank`, and no row
   left out ranks strictly before a row kept.
   */
  ghost predicate FirstRanked<T>(r: seq<T>, rows: seq<T>, rank: T -> int, n: nat)
  {
    && |r| == (if |rows| < n then |rows| else n)
    && SortedBy(r, rank)
    && multiset(r) <= multiset(rows)
    && forall x, y :: x in multiset(rows) - multiset(r) && y in r ==> rank(y) <= rank(x)
  }

  /** In a sorted sequence, nothing after position `k` ranks before anything up to it. */
  lemma SortedSplitOrdered<T>(sorted: seq<T>, rank: T -> int, k: nat)
    requires SortedBy(sorted, rank) && k <= |sorted|
    ensures forall x, y :: x in sorted[k..] && y in sorted[..k] ==> rank(y) <= rank(x)
  {
    forall x, y | x in sorted[k..] && y in sorted[..k] ensures rank(y) <= rank(x) {
      var j :| 0 <= j < |sorted| - k && sorted[k..][j] == x;
      var i :| 0 <= i < k && sorted[..k][i] == y;
      assert sorted[i] == y && sorted[k + j] == x;
    }
  }

  /** Splitting a rearrangement of `rows` at `k`: what `rows` has beyond the first part is the second part. */
  lemma PrefixSplitMultiset<T>(sorted: seq<T>, rows: seq<T>, k: nat)
    requires multiset(sorted) == multiset(rows) && k <= |sorted|
    ensures multiset(sorted[..k]) <= multiset(rows)
    ensures multiset(rows) - multiset(sorted[..k]) == multiset(sorted[k..])
  {
    assert sorted == sorted[..k] + sorted[k..];
    assert multiset(sorted) == multiset(sorted[..k]) + multiset(sorted[k..]);
  }

  /** A prefix of a sorted sequence is sorted. */
  lemma PrefixSorted<T>(sorted: seq<T>, rank: T -> int, k: nat)
    requires SortedBy(sorted, rank) && k <= |sorted|
    ensures SortedBy(sorted[..k], rank)
  {
    forall i, j | 0 <= i < j < k ensures rank(sorted[..k][i]) <= rank(sorted[..k][j]) {
      assert sorted[..k][i] == sorted[i] && sorted[..k][j] == sorted[j];
    }
  }

  /** The first `n` elements of a sorted rearrangement of `rows` are the first-ranked ones. */
  lemma SortedPrefixIsFirstRanked<T>(sorted: seq<T>, rows: seq<T>, rank: T -> int, n: nat)
    requires SortedBy(sorted, rank)
    requires multiset(sorted) == multiset(rows)
    ensures FirstRanked(sorted[..if |sorted| < n then |sorted| else n], rows, rank, n)
  {
    var k := if |sorted| < n then |sorted| else n;
    PrefixSplitMultiset(sorted, rows, k);
    PrefixSorted(sorted, rank, k);
    SortedSplitOrdered(sorted, rank, k);
    forall x, y | x in multiset(rows) - multiset(sorted[..k]) && y in sorted[..k] ensures rank(y) <= rank(x) {
      assert x in multiset(sorted[k..]);
    }
  }

  /** `rows.sort((a, b) => rank(a) - rank(b)).slice(0, n)` on a fresh copy of `rows`. */
  method SortAndSlice<T>(rows: seq<T>, rank: T -> int, n: nat) returns (r: seq<T>)
    ensures FirstRanked(r, rows, rank, n)
  {
    var a := new T[|rows|](i requires 0 <= i < |rows| => rows[i]);
    assert a[..] == rows;
    SortInPlace(a, rank);
    var sorted := a[..];
    SortedPrefixIsFirstRanked(sorted, rows, rank, n);
    r := sorted[..if a.Length < n then a.Length else n];
  }

  /**
   `chartData`: the rows of the bar chart. Under `all` the rows of the
   selection, in selection order; under `top10` the ten most visited of them,
   most visited first; under `least10` the ten least visited, least visited
   first.
   */
  method ChartData(data: seq<Station>, selected: seq<string>, filter: ChartFilter) returns (rows: Result<seq<Row>>)
    ensures rows.Err? <==> exists n :: n in selected && n !in Names(data)
    ensures rows.Ok? && filter == All ==> rows == SelectedRows(data, selected)
    ensures rows.Ok? && filter == Top10 ==> FirstRanked(rows.value, SelectedRows(data, selected).value, MostVisitorsFirst, ChartLimit)
    ensures rows.Ok? && filter == Least10 ==> FirstRanked(rows.value, SelectedRows(data, selected).value, FewestVisitorsFirst, ChartLimit)
  {
    var selectedData := SelectedRows(data, selected);
    if selectedData.Err? {
      return selectedData;
    }
    match filter
    case Top10 =>
      var r := SortAndSlice(selectedData.value, MostVisitorsFirst, ChartLimit);
      rows := Ok(r);
    case Least10 =>
      var r := SortAndSlice(selectedData.value, FewestVisitorsFirst, ChartLimit);
      rows := Ok(r);
    case All =>
      rows := selectedData;
  }

  /**
   The state of the bar-chart component: the stations it is given and the
   names selected in its dropdown. The search term and the chart filter are
   component state too, but nothing in the component changes them from
   their initial values, `""` and `all`.
   */
  class Selection {
    var data: seq<Station>
    var selected: seq<string>
    var searchTerm: string
    var filter: ChartFilter

    /** Every selected name belongs to a station of the data. */
    ghost predicate Consistent()
      reads this
    {
      forall n :: n in selected ==> n in Names(data)
    }

    /** The first render: no data yet, nothing selected, empty search, filter `all`. */
    constructor ()
      ensures data == [] && selected == [] && searchTerm == "" && filter == All
      ensures Consistent()
    {
      data := [];
      selected := [];
      searchTerm := "";
      filter := All;
    }

    /** A render with new data, followed by the seeding effect that depends on it. */
    method SetData(newData: seq<Station>)
      modifies this`data, this`selected
      ensures data == newData
      ensures selected == Seeded(newData, old(selected))
      ensures old(selected) == [] ==> Consistent()
    {
      data := newData;
      selected := Seeded(newData, selected);
    }

    /** `handleStationToggle(name)`. */
    method Toggle(name: string)
      modifies this`selected
      ensures selected == Toggled(old(selected), name)
      ensures (name in selected) != (name in old(selected))
      ensures forall n :: n != name ==> (n in selected <==> n in old(selected))
      ensures old(Consistent()) && name in Names(data) ==> Consistent()
    {
      selected := Toggled(selected, name);
    }

    /** The select-all checkbox's `onChange`. */
    method SelectAll(checked: bool)
      modifies this`selected
      ensures selected == AfterSelectAll(data, searchTerm, checked)
      ensures Consistent()
    {
      selected := AfterSelectAll(data, searchTerm, checked);
    }

    /** The rows of the bar chart in the current state; a consistent selection never fails. */
    method Chart() returns (rows: Result<seq<Row>>)
      ensures Consistent() ==> rows.Ok?
      ensures rows.Ok? && filter == All ==> rows == SelectedRows(data, selected)
    {
      rows := ChartData(data, selected, filter);
    }
  }
}
