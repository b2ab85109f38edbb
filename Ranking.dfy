/**
 Station ranking of the dashboard: the fetched station list is sorted in
 place, most visited first; its first five stations feed the "Top 5 Most
 Visited Stations" pie chart and the whole sorted list feeds the bar chart of
 all stations.
 */
module Ranking {
  import opened Common

  /** A row of the Stations collection, reduced to `Station_Name` and `Visitors_Count`. */
  datatype Station = Station(name: string, visitorsCount: int)

  /** A chart entry: a station name with its visit count. */
  datatype Entry = Entry(name: string, visits: int)

  /** Number of stations shown in the top-stations pie chart. */
  const TopCount := 5

  /** The comparator `(a, b) => b.Visitors_Count - a.Visitors_Count` as a rank: fewer visits rank later. */
  function ByVisitorsDesc(s: Station): int
  {
    -s.visitorsCount
  }

  /** No station is followed by one with more visitors: ordered by `ByVisitorsDesc`. */
  ghost predicate NonIncreasing(s: seq<Station>)
  {
    SortedBy(s, ByVisitorsDesc)
  }

  /** Pie-chart entry of a station: `{ name: Station_Name, visits: Visitors_Count }`. */
  function ToEntry(s: Station): Entry
  {
    Entry(s.name, s.visitorsCount)
  }

  /** `sorted.slice(0, 5).map(...)`: the entries of the first five stations. */
  function TopStations(sorted: seq<Station>): (top: seq<Entry>)
    ensures |top| == if |sorted| < TopCount then |sorted| else TopCount
    ensures forall i :: 0 <= i < |top| ==> top[i] == ToEntry(sorted[i])
  {
    var n := if |sorted| < TopCount then |sorted| else TopCount;
    seq(n, i requires 0 <= i < n => ToEntry(sorted[i]))
  }

  /**
   In a list ordered most visited first, the top entries are themselves in
   non-increasing order, and no station left out of them has more visits
   than any station kept.
   */
  lemma TopStationsDominate(sorted: seq<Station>)
    requires NonIncreasing(sorted)
    ensures forall i, j :: 0 <= i < j < |TopStations(sorted)| ==>
      TopStations(sorted)[i].visits >= TopStations(sorted)[j].visits
    ensures forall i, j :: 0 <= i < |TopStations(sorted)| <= j < |sorted| ==>
      TopStations(sorted)[i].visits >= sorted[j].visitorsCount
  {
  }

  /**
   The ranking block of the dashboard's fetch: sorts the fetched array in
   place by decreasing `Visitors_Count`, takes the top-five entries and keeps
   the same, now sorted, array as the list of all stations.
   */
  method RankStations(stations: array<Station>) returns (topStations: seq<Entry>, allStations: seq<Station>)
    modifies stations
    ensures allStations == stations[..]
    ensures NonIncreasing(allStations)
    ensures multiset(allStations) == old(multiset(stations[..]))
    ensures topStations == TopStations(allStations)
  {
    SortInPlace(stations, ByVisitorsDesc);
    allStations := stations[..];
    topStations := TopStations(allStations);
  }
}
