/**
 * The browser client's shared state: the reducer that every screen
 * dispatches its actions to, and the client-side filters over the records it
 * holds.
 */
module NotamContext {
  import opened Wrappers
  import opened Seqs
  import opened Notams
  import opened Service

  /** The four text filters; `""` means "no constraint". */
  datatype FilterState = FilterState(notamType: string, airport: string, status: string, priority: string)

  /** A `SET_FILTERS` payload: the filters it mentions, each with its new value. */
  datatype FilterPatch = FilterPatch(notamType: Option<string>, airport: Option<string>, status: Option<string>, priority: Option<string>)

  datatype ClientState = ClientState(
    notams: seq<Notam>,
    loading: bool,
    error: Option<string>,
    filters: FilterState,
    selectedNotam: Option<Notam>,
    stats: Option<StatsSummary>,
    lastUpdate: Option<string>)

  datatype Action =
    | SetLoading(loading: bool)
    | SetError(error: Option<string>)
    | SetNotams(reply: QueryResult)
    | SetFilters(patch: FilterPatch)
    | ClearFilters
    | SetSelectedNotam(notam: Option<Notam>)
    | SetStats(stats: Option<StatsSummary>)
    | RefreshNotams
    | Unknown(name: string)

  const NoClientFilters: FilterState := FilterState("", "", "", "")

  /** `initialState`. */
  const InitialState: ClientState := ClientState([], false, None, NoClientFilters, None, None, None)

  /** `{ ...filters, ...patch }`: every field the patch mentions takes its value, the others stay. */
  function Merge(f: FilterState, p: FilterPatch): (r: FilterState)
    ensures r.notamType == p.notamType.GetOr(f.notamType)
    ensures r.airport == p.airport.GetOr(f.airport)
    ensures r.status == p.status.GetOr(f.status)
    ensures r.priority == p.priority.GetOr(f.priority)
  {
    FilterState(p.notamType.GetOr(f.notamType), p.airport.GetOr(f.airport),
                p.status.GetOr(f.status), p.priority.GetOr(f.priority))
  }

  /**
   * `notamReducer(state, action)`. The contract says, field by field, which
   * actions change that field and to what; every other action leaves it.
   */
  function Reduce(s: ClientState, a: Action): (r: ClientState)
    ensures r.notams == if a.SetNotams? then a.reply.notams else s.notams
    ensures r.lastUpdate == if a.SetNotams? then a.reply.lastUpdate else s.lastUpdate
    ensures r.loading == match a
                         case SetLoading(b) => b
                         case SetError(_) => false
                         case SetNotams(_) => false
                         case RefreshNotams => true
                         case _ => s.loading
    ensures r.error == match a
                       case SetError(e) => e
                       case SetNotams(_) => None
                       case _ => s.error
    ensures r.filters == match a
                         case SetFilters(p) => Merge(s.filters, p)
                         case ClearFilters => NoClientFilters
                         case _ => s.filters
    ensures r.selectedNotam == if a.SetSelectedNotam? then a.notam else s.selectedNotam
    ensures r.stats == if a.SetStats? then a.stats else s.stats
  {
    match a
    case SetLoading(b) => s.(loading := b)
    case SetError(e) => s.(error := e, loading := false)
    case SetNotams(reply) => s.(notams := reply.notams, lastUpdate := reply.lastUpdate, loading := false, error := None)
    case SetFilters(p) => s.(filters := Merge(s.filters, p))
    case ClearFilters => s.(filters := InitialState.filters)
    case SetSelectedNotam(n) => s.(selectedNotam := n)
    case SetStats(st) => s.(stats := st)
    case RefreshNotams => s.(loading := true)
    case Unknown(_) => s
  }

  /** An action the reducer does not know returns the very same state. */
  lemma UnknownActionKeepsState(s: ClientState, name: string)
    ensures Reduce(s, Unknown(name)) == s
  {
  }

  /** Applying the same filter patch twice is applying it once. */
  lemma SetFiltersIdempotent(s: ClientState, p: FilterPatch)
    ensures Reduce(Reduce(s, SetFilters(p)), SetFilters(p)) == Reduce(s, SetFilters(p))
  {
  }

  /** Two patches in a row amount to one patch whose later values win. */
  lemma SetFiltersCompose(s: ClientState, p: FilterPatch, q: FilterPatch)
    ensures Reduce(Reduce(s, SetFilters(p)), SetFilters(q)) ==
            Reduce(s, SetFilters(FilterPatch(
              if q.notamType.Some? then q.notamType else p.notamType,
              if q.airport.Some? then q.airport else p.airport,
              if q.status.Some? then q.status else p.status,
              if q.priority.Some? then q.priority else p.priority)))
  {
  }

  // ---------------------------------------------------------------------------
  // Client-side filtering

  predicate StatusStage(n: Notam, f: FilterState)
  {
    f.status != "" ==> StatusMatches(n, f.status)
  }

  predicate PriorityStage(n: Notam, f: FilterState)
  {
    f.priority != "" ==> PriorityMatches(n, f.priority)
  }

  /** A record passes every non-empty client filter. */
  predicate Passes(n: Notam, f: FilterState)
  {
    && (f.notamType != "" ==> TypeMatches(n, f.notamType))
    && (f.airport != "" ==> AirportMatches(n, f.airport))
    && StatusStage(n, f)
    && PriorityStage(n, f)
  }

  /** `getFilteredNotams()`: the held records through the four optional filters in turn. */
  function GetFilteredNotams(s: ClientState): seq<Notam>
  {
    var f := s.filters;
    var byType := if f.notamType != "" then ByType(s.notams, f.notamType) else s.notams;
    var byAirport := if f.airport != "" then ByAirport(byType, f.airport) else byType;
    var byStatus := if f.status != "" then Filter(byAirport, n => StatusMatches(n, f.status)) else byAirport;
    if f.priority != "" then Filter(byStatus, n => PriorityMatches(n, f.priority)) else byStatus
  }

  /** The four filters in turn select, in order, the records that pass all of them. */
  lemma GetFilteredNotamsSelects(s: ClientState)
    ensures GetFilteredNotams(s) == Filter(s.notams, n => Passes(n, s.filters))
  {
    var f, ns := s.filters, s.notams;
    FilterAll(ns, n => true);
    FilterStage(ns, n => true, f.notamType != "", n => TypeMatches(n, f.notamType),
                n => f.notamType != "" ==> TypeMatches(n, f.notamType));
    FilterStage(ns, n => f.notamType != "" ==> TypeMatches(n, f.notamType),
                f.airport != "", n => AirportMatches(n, f.airport),
                n => (f.notamType != "" ==> TypeMatches(n, f.notamType)) && (f.airport != "" ==> AirportMatches(n, f.airport)));
    FilterStage(ns, n => (f.notamType != "" ==> TypeMatches(n, f.notamType)) && (f.airport != "" ==> AirportMatches(n, f.airport)),
                f.status != "", n => StatusMatches(n, f.status),
                n => (f.notamType != "" ==> TypeMatches(n, f.notamType)) && (f.airport != "" ==> AirportMatches(n, f.airport)) && StatusStage(n, f));
    FilterStage(ns, n => (f.notamType != "" ==> TypeMatches(n, f.notamType)) && (f.airport != "" ==> AirportMatches(n, f.airport)) && StatusStage(n, f),
                f.priority != "", n => PriorityMatches(n, f.priority),
                n => Passes(n, f));
  }

  /** The filtered list keeps some held records, in order: exactly those that pass every filter. */
  lemma GetFilteredNotamsExactly(s: ClientState)
    ensures IsSubsequence(GetFilteredNotams(s), s.notams)
    ensures forall n :: n in GetFilteredNotams(s) <==> n in s.notams && Passes(n, s.filters)
    ensures forall n :: multiset(GetFilteredNotams(s))[n] == if Passes(n, s.filters) then multiset(s.notams)[n] else 0
  {
    GetFilteredNotamsSelects(s);
    FilterIsSubsequence(s.notams, n => Passes(n, s.filters));
    forall n
      ensures n in GetFilteredNotams(s) <==> n in s.notams && Passes(n, s.filters)
      ensures multiset(GetFilteredNotams(s))[n] == if Passes(n, s.filters) then multiset(s.notams)[n] else 0
    {
      FilterMembership(s.notams, n' => Passes(n', s.filters), n);
      FilterCount(s.notams, n' => Passes(n', s.filters), n);
    }
  }

  /** With every filter empty the filtered list is every held record. */
  lemma NoFiltersShowsAll(s: ClientState)
    requires s.filters == NoClientFilters
    ensures GetFilteredNotams(s) == s.notams
  {
  }

  /**
   * The provider starts with no records, nothing loading, no error, every
   * filter empty and nothing selected, so its filtered list is empty too;
   * clearing the filters returns them to these initial values.
   */
  lemma InitialStateIsEmpty(s: ClientState)
    ensures InitialState.notams == [] && !InitialState.loading && InitialState.error.None?
    ensures InitialState.selectedNotam.None? && InitialState.stats.None? && InitialState.lastUpdate.None?
    ensures GetFilteredNotams(InitialState) == []
    ensures Reduce(s, ClearFilters).filters == InitialState.filters
  {
  }

  /** After `CLEAR_FILTERS` the filtered list is every held record. */
  lemma ClearFiltersShowsAll(s: ClientState)
    ensures GetFilteredNotams(Reduce(s, ClearFilters)) == s.notams
  {
    NoFiltersShowsAll(Reduce(s, ClearFilters));
  }

  /**
   * The client's type and airport filters select what the server's query
   * selects with the same two filters and no radius.
   */
  lemma ClientAgreesWithServer(s: ClientState, parse: NumberParser, dist: Distance)
    requires s.filters.status == "" && s.filters.priority == ""
    ensures GetFilteredNotams(s) == Selection(s.notams, Filters(s.filters.notamType, s.filters.airport, "", "", ""), parse, dist)
  {
    GetFilteredNotamsSelects(s);
    FilterExtensional(s.notams, n => Passes(n, s.filters),
                      n => Selected(n, Filters(s.filters.notamType, s.filters.airport, "", "", ""), parse, dist));
  }

  /** `getNotamsByAirport(icao)` over the held records. */
  function GetNotamsByAirport(s: ClientState, icao: string): seq<Notam>
  {
    ByAirport(s.notams, icao)
  }

  /** `getNotamsByRadius(lat, lng, radius)` over the held records. */
  function GetNotamsByRadius(s: ClientState, lat: real, lng: real, radius: real, dist: Distance): seq<Notam>
  {
    ByRadius(s.notams, lat, lng, radius, dist)
  }

  /**
   * `getNotamsByAirport(icao)` answers what the filtered list answers with
   * only the airport filter set to `icao`, whatever filters are set now.
   */
  lemma ByAirportIsAirportFilter(s: ClientState, icao: string)
    requires icao != ""
    ensures GetNotamsByAirport(s, icao) == GetFilteredNotams(s.(filters := FilterState("", icao, "", "")))
  {
    var s' := s.(filters := FilterState("", icao, "", ""));
    GetFilteredNotamsSelects(s');
    FilterExtensional(s.notams, n => AirportMatches(n, icao), n => Passes(n, s'.filters));
  }
}
