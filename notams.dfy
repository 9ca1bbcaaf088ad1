/**
 * The NOTAM record and the record-level tests that both the server's query
 * code and the browser client apply to it.
 */
module Notams {
  import opened Wrappers
  import opened Text
  import opened Seqs

  /**
   * One notice. A text field that JavaScript may hold as `undefined` is the
   * empty string here (both are falsy); a coordinate is `None` when absent.
   * Dates are millisecond timestamps.
   */
  datatype Notam = Notam(
    id: string,
    number: string,
    notamType: string,
    status: string,
    airport: string,
    airportName: string,
    latitude: Option<real>,
    longitude: Option<real>,
    startDate: int,
    endDate: int,
    description: string,
    message: string,
    category: string,
    priority: string,
    created: int,
    updated: int)

  /** An abstract great-circle distance in km (the Haversine formula is not modelled). */
  type Distance = (real, real, real, real) -> real

  /** The type test: `notam.type && notam.type.toLowerCase().includes(t.toLowerCase())`. */
  predicate TypeMatches(n: Notam, t: string)
  {
    n.notamType != "" && Contains(ToLower(n.notamType), ToLower(t))
  }

  /** `notam.airport && notam.airport.toUpperCase() === icao.toUpperCase()`. */
  predicate AirportMatches(n: Notam, icao: string)
  {
    n.airport != "" && ToUpper(n.airport) == ToUpper(icao)
  }

  /** `notam.status && notam.status.toUpperCase() === s.toUpperCase()`. */
  predicate StatusMatches(n: Notam, s: string)
  {
    n.status != "" && ToUpper(n.status) == ToUpper(s)
  }

  /** `notam.priority && notam.priority.toUpperCase() === p.toUpperCase()`. */
  predicate PriorityMatches(n: Notam, p: string)
  {
    n.priority != "" && ToUpper(n.priority) == ToUpper(p)
  }

  /** A JavaScript number is falsy when it is absent or zero. */
  predicate Truthy(x: Option<real>)
  {
    x.Some? && x.value != 0.0
  }

  /**
   * The radius test: records without a truthy latitude and longitude are
   * excluded; the rest are kept when their distance from the centre is at
   * most `radius`.
   */
  predicate WithinRadius(n: Notam, lat: real, lng: real, radius: real, dist: Distance)
  {
    Truthy(n.latitude) && Truthy(n.longitude)
    && dist(lat, lng, n.latitude.value, n.longitude.value) <= radius
  }

  /** The type filter as a stage: the records of `ns` whose type contains `t`. */
  function ByType(ns: seq<Notam>, t: string): seq<Notam>
  {
    Filter(ns, n => TypeMatches(n, t))
  }

  /** `getNotamsByAirport(icao)` on the list `ns`, on the server and in the client alike. */
  function ByAirport(ns: seq<Notam>, icao: string): seq<Notam>
  {
    Filter(ns, n => AirportMatches(n, icao))
  }

  /** `getNotamsByRadius(lat, lng, radius)` on the list `ns`, on the server and in the client alike. */
  function ByRadius(ns: seq<Notam>, lat: real, lng: real, radius: real, dist: Distance): seq<Notam>
  {
    Filter(ns, n => WithinRadius(n, lat, lng, radius, dist))
  }

  /**
   * The type filter keeps, in order, exactly the records with a non-empty
   * type whose lower-case form has the lower-case filter at some position.
   */
  lemma ByTypeExactly(ns: seq<Notam>, t: string)
    ensures IsSubsequence(ByType(ns, t), ns)
    ensures forall n :: n in ByType(ns, t) <==> n in ns && n.notamType != "" && HasSubstring(ToLower(n.notamType), ToLower(t))
    ensures forall n :: multiset(ByType(ns, t))[n] ==
              if n.notamType != "" && HasSubstring(ToLower(n.notamType), ToLower(t)) then multiset(ns)[n] else 0
  {
    FilterIsSubsequence(ns, n => TypeMatches(n, t));
    forall n
      ensures n in ByType(ns, t) <==> n in ns && n.notamType != "" && HasSubstring(ToLower(n.notamType), ToLower(t))
      ensures multiset(ByType(ns, t))[n] ==
                if n.notamType != "" && HasSubstring(ToLower(n.notamType), ToLower(t)) then multiset(ns)[n] else 0
    {
      FilterMembership(ns, n' => TypeMatches(n', t), n);
      FilterCount(ns, n' => TypeMatches(n', t), n);
      ContainsAt(ToLower(n.notamType), ToLower(t));
    }
  }

  /**
   * The airport filter keeps, in order, exactly the records with a non-empty
   * code equal to the filter up to case, whichever case the comparison folds to.
   */
  lemma ByAirportExactly(ns: seq<Notam>, icao: string)
    ensures IsSubsequence(ByAirport(ns, icao), ns)
    ensures forall n :: n in ByAirport(ns, icao) <==> n in ns && n.airport != "" && ToLower(n.airport) == ToLower(icao)
    ensures forall n :: multiset(ByAirport(ns, icao))[n] ==
              if n.airport != "" && ToLower(n.airport) == ToLower(icao) then multiset(ns)[n] else 0
  {
    FilterIsSubsequence(ns, n => AirportMatches(n, icao));
    forall n
      ensures n in ByAirport(ns, icao) <==> n in ns && n.airport != "" && ToLower(n.airport) == ToLower(icao)
      ensures multiset(ByAirport(ns, icao))[n] ==
                if n.airport != "" && ToLower(n.airport) == ToLower(icao) then multiset(ns)[n] else 0
    {
      FilterMembership(ns, n' => AirportMatches(n', icao), n);
      FilterCount(ns, n' => AirportMatches(n', icao), n);
      UpperEqualIffLowerEqual(n.airport, icao);
    }
  }

  /**
   * The radius filter keeps, in order, exactly the records with a non-zero
   * latitude and longitude whose distance from the centre is at most `radius`.
   */
  lemma ByRadiusExactly(ns: seq<Notam>, lat: real, lng: real, radius: real, dist: Distance)
    ensures IsSubsequence(ByRadius(ns, lat, lng, radius, dist), ns)
    ensures forall n :: n in ByRadius(ns, lat, lng, radius, dist) <==>
              && n in ns && n.latitude.Some? && n.latitude.value != 0.0
              && n.longitude.Some? && n.longitude.value != 0.0
              && dist(lat, lng, n.latitude.value, n.longitude.value) <= radius
    ensures forall n :: multiset(ByRadius(ns, lat, lng, radius, dist))[n] ==
              if WithinRadius(n, lat, lng, radius, dist) then multiset(ns)[n] else 0
  {
    FilterIsSubsequence(ns, n => WithinRadius(n, lat, lng, radius, dist));
    forall n
      ensures n in ByRadius(ns, lat, lng, radius, dist) <==> n in ns && WithinRadius(n, lat, lng, radius, dist)
      ensures multiset(ByRadius(ns, lat, lng, radius, dist))[n] == if WithinRadius(n, lat, lng, radius, dist) then multiset(ns)[n] else 0
    {
      FilterMembership(ns, n' => WithinRadius(n', lat, lng, radius, dist), n);
      FilterCount(ns, n' => WithinRadius(n', lat, lng, radius, dist), n);
    }
  }

  /** The five type codes of the data set. */
  const TypeCodes: set<string> := {"RWY", "NAV", "COM", "OBST", "AD"}

  /** `getNOTAMCategory`: a type code's category name, `"General"` for anything else. */
  function Category(t: string): (c: string)
    ensures c == "General" <==> t !in TypeCodes
    ensures t == "RWY" <==> c == "Runway"
    ensures t == "NAV" <==> c == "Navigation"
    ensures t == "COM" <==> c == "Communication"
    ensures t == "OBST" <==> c == "Obstruction"
    ensures t == "AD" <==> c == "Aerodrome"
  {
    match t
    case "RWY" => "Runway"
    case "NAV" => "Navigation"
    case "COM" => "Communication"
    case "OBST" => "Obstruction"
    case "AD" => "Aerodrome"
    case _ => "General"
  }

  /** An empty code never matches the airport test: its upper-case form is empty too. */
  lemma EmptyAirportMatchesNothing(n: Notam)
    ensures !AirportMatches(n, "")
  {
  }
}
