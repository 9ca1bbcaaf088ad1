/**
 * The server's NOTAM service: the in-memory record list with its last-update
 * stamp, the filtered query, lookups by id, airport and radius, the grouped
 * statistics, and the refresh and save steps that replace and persist the
 * list.
 */
module Service {
  import opened Wrappers
  import opened Text
  import opened Seqs
  import opened Notams

  /** The query of `getKSANotams(filters)`, as strings; `""` means "not given". */
  datatype Filters = Filters(notamType: string, airport: string, radius: string, lat: string, lng: string)

  const NoFilters: Filters := Filters("", "", "", "", "")

  /** The reply `{notams, total, lastUpdate, filters}`. */
  datatype QueryResult = QueryResult(notams: seq<Notam>, total: nat, lastUpdate: Option<string>, filters: Filters)

  /** A count dictionary: its `(key, count)` entries in JavaScript's key order (first insertion). */
  type Counts = seq<(string, nat)>

  /** The reply of `getNotamStats()`. */
  datatype StatsSummary = StatsSummary(
    total: nat,
    byType: Counts,
    byAirport: Counts,
    byStatus: Counts,
    byPriority: Counts,
    lastUpdate: Option<string>)

  /** What the JSON data file holds after a save: `{notams, lastUpdate, total}`. */
  datatype SavedFile = SavedFile(notams: seq<Notam>, lastUpdate: Option<string>, total: nat)

  /** `parseFloat`, which is not modelled. */
  type NumberParser = string -> real

  // ---------------------------------------------------------------------------
  // The query

  /** The radius filter is applied only when radius, latitude and longitude are all given. */
  predicate RadiusApplies(f: Filters)
  {
    f.radius != "" && f.lat != "" && f.lng != ""
  }

  /** The type filter, when given, passes the record. */
  predicate TypeStage(n: Notam, f: Filters)
  {
    f.notamType != "" ==> TypeMatches(n, f.notamType)
  }

  /** The airport filter, when given, passes the record. */
  predicate AirportStage(n: Notam, f: Filters)
  {
    f.airport != "" ==> AirportMatches(n, f.airport)
  }

  /** The radius filter, when it applies, passes the record. */
  predicate RadiusStage(n: Notam, f: Filters, parse: NumberParser, dist: Distance)
  {
    RadiusApplies(f) ==> WithinRadius(n, parse(f.lat), parse(f.lng), parse(f.radius), dist)
  }

  /** A record passes every filter that is given. */
  predicate Selected(n: Notam, f: Filters, parse: NumberParser, dist: Distance)
  {
    TypeStage(n, f) && AirportStage(n, f) && RadiusStage(n, f, parse, dist)
  }

  /** The records of `data` that pass every given filter, in their order. */
  function Selection(data: seq<Notam>, f: Filters, parse: NumberParser, dist: Distance): seq<Notam>
  {
    Filter(data, n => Selected(n, f, parse, dist))
  }

  /** The query keeps some of the records, in their order, and exactly those that pass. */
  lemma SelectionSpec(data: seq<Notam>, f: Filters, parse: NumberParser, dist: Distance)
    ensures IsSubsequence(Selection(data, f, parse, dist), data)
    ensures forall n :: n in Selection(data, f, parse, dist) <==> n in data && Selected(n, f, parse, dist)
    ensures forall n :: multiset(Selection(data, f, parse, dist))[n] == if Selected(n, f, parse, dist) then multiset(data)[n] else 0
  {
    FilterIsSubsequence(data, n => Selected(n, f, parse, dist));
    forall n
      ensures n in Selection(data, f, parse, dist) <==> n in data && Selected(n, f, parse, dist)
      ensures multiset(Selection(data, f, parse, dist))[n] == if Selected(n, f, parse, dist) then multiset(data)[n] else 0
    {
      FilterMembership(data, n' => Selected(n', f, parse, dist), n);
      FilterCount(data, n' => Selected(n', f, parse, dist), n);
    }
  }

  /** With no filter given the query returns the whole data set. */
  lemma NoFiltersSelectsAll(data: seq<Notam>, parse: NumberParser, dist: Distance)
    ensures Selection(data, NoFilters, parse, dist) == data
  {
    FilterAll(data, n => Selected(n, NoFilters, parse, dist));
  }

  /** Filtering by type and then by airport selects what the query with both filters selects. */
  lemma TypeThenAirport(data: seq<Notam>, t: string, icao: string, parse: NumberParser, dist: Distance)
    requires t != "" && icao != ""
    ensures ByAirport(ByType(data, t), icao) == Selection(data, Filters(t, icao, "", "", ""), parse, dist)
  {
    var f := Filters(t, icao, "", "", "");
    FilterStage(data, n => TypeMatches(n, t), true, n => AirportMatches(n, icao), n => Selected(n, f, parse, dist));
  }

  /** The type and airport filters can be applied in either order. */
  lemma AirportThenType(data: seq<Notam>, t: string, icao: string)
    ensures ByAirport(ByType(data, t), icao) == ByType(ByAirport(data, icao), t)
  {
    FilterCommutes(data, n => TypeMatches(n, t), n => AirportMatches(n, icao));
  }

  /**
   * `getNotamsByAirport(icao)` answers what the query with only the airport
   * filter answers, except for the empty code: the query then applies no
   * filter, while `getNotamsByAirport("")` matches nothing.
   */
  lemma ByAirportIsAirportQuery(data: seq<Notam>, icao: string, parse: NumberParser, dist: Distance)
    ensures icao != "" ==> ByAirport(data, icao) == Selection(data, Filters("", icao, "", "", ""), parse, dist)
    ensures icao == "" ==> ByAirport(data, icao) == []
  {
    if icao != "" {
      FilterExtensional(data, n => AirportMatches(n, icao), n => Selected(n, Filters("", icao, "", "", ""), parse, dist));
    } else {
      forall n ensures !AirportMatches(n, icao) {
        EmptyAirportMatchesNothing(n);
      }
      FilterNone(data, n => AirportMatches(n, icao));
    }
  }

  /** `getNotamsByRadius` answers what the query with only the radius filter answers. */
  lemma ByRadiusIsRadiusQuery(data: seq<Notam>, r: string, lat: string, lng: string, parse: NumberParser, dist: Distance)
    requires r != "" && lat != "" && lng != ""
    ensures ByRadius(data, parse(lat), parse(lng), parse(r), dist) == Selection(data, Filters("", "", r, lat, lng), parse, dist)
  {
    FilterExtensional(data, n => WithinRadius(n, parse(lat), parse(lng), parse(r), dist),
                      n => Selected(n, Filters("", "", r, lat, lng), parse, dist));
  }

  /** Without a latitude and a longitude, a given radius filters nothing out. */
  lemma RadiusNeedsCentre(data: seq<Notam>, t: string, icao: string, r: string, parse: NumberParser, dist: Distance)
    ensures Selection(data, Filters(t, icao, r, "", ""), parse, dist) == Selection(data, Filters(t, icao, "", "", ""), parse, dist)
  {
    FilterExtensional(data, n => Selected(n, Filters(t, icao, r, "", ""), parse, dist),
                      n => Selected(n, Filters(t, icao, "", "", ""), parse, dist));
  }

  // ---------------------------------------------------------------------------
  // Lookup by id

  /** `i` is the first position of a record with this id. */
  predicate FirstWithId(data: seq<Notam>, id: string, i: int)
  {
    0 <= i < |data| && data[i].id == id && forall j :: 0 <= j < i ==> data[j].id != id
  }

  /** `getNotamById(id)`: `notamData.find(notam => notam.id === id)`. */
  function FindById(data: seq<Notam>, id: string): (r: Option<Notam>)
    ensures r.None? <==> forall i :: 0 <= i < |data| ==> data[i].id != id
    ensures r.Some? ==> exists i :: FirstWithId(data, id, i) && data[i] == r.value
  {
    if data == [] then None
    else if data[0].id == id then
      assert FirstWithId(data, id, 0);
      Some(data[0])
    else
      var r := FindById(data[1..], id);
      if r.Some? then
        var i :| FirstWithId(data[1..], id, i) && data[1..][i] == r.value;
        assert FirstWithId(data, id, i + 1);
        r
      else r
  }

  // ---------------------------------------------------------------------------
  // Statistics

  /** `(counts[k] || 0)`. */
  function CountFor(c: Counts, k: string): nat
  {
    if c == [] then 0 else if c[0].0 == k then c[0].1 else CountFor(c[1..], k)
  }

  /** The sum of all counts. */
  function Sum(c: Counts): nat
  {
    if c == [] then 0 else c[0].1 + Sum(c[1..])
  }

  function KeysOf(c: Counts): seq<string>
  {
    if c == [] then [] else [c[0].0] + KeysOf(c[1..])
  }

  /** Each key appears once and every count is positive, as in a dictionary built by `Bump`. */
  ghost predicate WellFormed(c: Counts)
  {
    c == [] || (c[0].1 > 0 && c[0].0 !in KeysOf(c[1..]) && WellFormed(c[1..]))
  }

  /**
   * `counts[k] = (counts[k] || 0) + 1`: the count of `k` goes up by one, a
   * new key is added at the end, and nothing else changes.
   */
  function Bump(c: Counts, k: string): (r: Counts)
    ensures CountFor(r, k) == CountFor(c, k) + 1
    ensures forall k' :: k' != k ==> CountFor(r, k') == CountFor(c, k')
    ensures Sum(r) == Sum(c) + 1
    ensures forall x :: x in KeysOf(r) <==> x in KeysOf(c) || x == k
    ensures WellFormed(c) ==> WellFormed(r)
  {
    if c == [] then [(k, 1)]
    else if c[0].0 == k then
      var r := [(k, c[0].1 + 1)] + c[1..];
      assert r[1..] == c[1..];
      r
    else
      var b := Bump(c[1..], k);
      assert ([c[0]] + b)[1..] == b;
      [c[0]] + b
  }

  /** The dictionary that counting `ks` one by one, from an empty one, produces. */
  function Tally(ks: seq<string>): (r: Counts)
    ensures Sum(r) == |ks|
    ensures forall k :: CountFor(r, k) == multiset(ks)[k]
    ensures forall k :: k in KeysOf(r) <==> k in ks
    ensures WellFormed(r)
  {
    if ks == [] then []
    else
      var init, last := ks[..|ks| - 1], ks[|ks| - 1];
      assert ks == init + [last];
      Bump(Tally(init), last)
  }

  /** Counting one more record of a list extends the tally of its prefix by one `Bump`. */
  lemma TallyStep(ns: seq<Notam>, f: Notam -> string, i: int)
    requires 0 <= i < |ns|
    ensures Tally(Map(ns[..i + 1], f)) == Bump(Tally(Map(ns[..i], f)), f(ns[i]))
  {
    var ks := Map(ns[..i + 1], f);
    assert ks[..i] == Map(ns[..i], f);
  }

  function TypeOf(n: Notam): string { n.notamType }

  function AirportOf(n: Notam): string { n.airport }

  function StatusOf(n: Notam): string { n.status }

  function PriorityOf(n: Notam): string { n.priority }

  // ---------------------------------------------------------------------------
  // The service object

  class NotamService {
    var notamData: seq<Notam>
    var lastUpdate: Option<string>
    /** The data file's content; `None` while nothing has been written. */
    ghost var saved: Option<SavedFile>
    /** The JavaScript runtime's `parseFloat`. */
    const parseNumber: NumberParser
    /** The service's `calculateDistance`. */
    const distance: Distance

    constructor (parseNumber: NumberParser, distance: Distance)
      ensures notamData == [] && lastUpdate == None && saved == None
      ensures this.parseNumber == parseNumber && this.distance == distance
    {
      notamData := [];
      lastUpdate := None;
      saved := None;
      this.parseNumber := parseNumber;
      this.distance := distance;
    }

    /** `getKSANotams(filters)` over the records held in memory. */
    method GetKSANotams(filters: Filters) returns (r: QueryResult)
      ensures r.notams == Selection(notamData, filters, parseNumber, distance)
      ensures r.total == |r.notams|
      ensures r.lastUpdate == lastUpdate && r.filters == filters
    {
      var parse, dist := parseNumber, distance;
      var filteredNotams := notamData;
      FilterAll(notamData, n => true);
      FilterStage(notamData, n => true, filters.notamType != "", n => TypeMatches(n, filters.notamType),
                  n => TypeStage(n, filters));
      if filters.notamType != "" {
        filteredNotams := ByType(filteredNotams, filters.notamType);
      }
      FilterStage(notamData, n => TypeStage(n, filters), filters.airport != "", n => AirportMatches(n, filters.airport),
                  n => TypeStage(n, filters) && AirportStage(n, filters));
      if filters.airport != "" {
        filteredNotams := ByAirport(filteredNotams, filters.airport);
      }
      FilterStage(notamData, n => TypeStage(n, filters) && AirportStage(n, filters), RadiusApplies(filters),
                  n => WithinRadius(n, parse(filters.lat), parse(filters.lng), parse(filters.radius), dist),
                  n => Selected(n, filters, parse, dist));
      if RadiusApplies(filters) {
        var centerLat := parse(filters.lat);
        var centerLng := parse(filters.lng);
        var radius := parse(filters.radius);
        filteredNotams := ByRadius(filteredNotams, centerLat, centerLng, radius, dist);
      }
      r := QueryResult(filteredNotams, |filteredNotams|, lastUpdate, filters);
    }

    /**
     * `getNotamStats()`: one pass counting the records by type, airport,
     * status and priority; every dictionary's counts add up to the total.
     */
    method GetNotamStats() returns (s: StatsSummary)
      ensures s.total == |notamData| && s.lastUpdate == lastUpdate
      ensures s.byType == Tally(Map(notamData, TypeOf))
      ensures s.byAirport == Tally(Map(notamData, AirportOf))
      ensures s.byStatus == Tally(Map(notamData, StatusOf))
      ensures s.byPriority == Tally(Map(notamData, PriorityOf))
      ensures Sum(s.byType) == s.total && Sum(s.byAirport) == s.total
      ensures Sum(s.byStatus) == s.total && Sum(s.byPriority) == s.total
    {
      var byType, byAirport, byStatus, byPriority := [], [], [], [];
      var i := 0;
      while i < |notamData|
        invariant 0 <= i <= |notamData|
        invariant byType == Tally(Map(notamData[..i], TypeOf))
        invariant byAirport == Tally(Map(notamData[..i], AirportOf))
        invariant byStatus == Tally(Map(notamData[..i], StatusOf))
        invariant byPriority == Tally(Map(notamData[..i], PriorityOf))
      {
        var notam := notamData[i];
        TallyStep(notamData, TypeOf, i);
        TallyStep(notamData, AirportOf, i);
        TallyStep(notamData, StatusOf, i);
        TallyStep(notamData, PriorityOf, i);
        byType := Bump(byType, notam.notamType);
        byAirport := Bump(byAirport, notam.airport);
        byStatus := Bump(byStatus, notam.status);
        byPriority := Bump(byPriority, notam.priority);
        i := i + 1;
      }
      assert notamData[..i] == notamData;
      s := StatsSummary(|notamData|, byType, byAirport, byStatus, byPriority, lastUpdate);
    }

    /**
     * `saveToCache()`: writes the records and the stamp to the data file. A
     * failed write is logged and swallowed, leaving the file as it was.
     */
    method SaveToCache(writeSucceeds: bool)
      modifies this
      ensures notamData == old(notamData) && lastUpdate == old(lastUpdate)
      ensures saved == if writeSucceeds then Some(SavedFile(notamData, lastUpdate, |notamData|)) else old(saved)
    {
      if writeSucceeds {
        saved := Some(SavedFile(notamData, lastUpdate, |notamData|));
      }
    }

    /**
     * `refreshNotamData()`: the records fetched from the two sources replace
     * the list, the stamp becomes `now`, and the result is saved.
     */
    method RefreshNotamData(fromApi: seq<Notam>, manual: seq<Notam>, now: string, writeSucceeds: bool) returns (r: seq<Notam>)
      modifies this
      ensures notamData == fromApi + manual && lastUpdate == Some(now) && r == notamData
      ensures saved == if writeSucceeds then Some(SavedFile(notamData, lastUpdate, |notamData|)) else old(saved)
    {
      notamData := fromApi + manual;
      lastUpdate := Some(now);
      SaveToCache(writeSucceeds);
      r := notamData;
    }
  }
}
