/**
 * The HTTP routes of the NOTAM API that carry logic: `GET /` answers from the
 * response cache unless asked to refresh, and otherwise queries the service
 * and caches the reply for 15 minutes; `GET /:id` answers 404 for an unknown
 * id. Query-string values are strings, `""` standing for an absent one.
 */
module Routes {
  import opened Wrappers
  import opened Text
  import opened Seqs
  import opened Notams
  import opened Service
  import opened Caching

  /** How long, in seconds, a `GET /` reply stays cached. */
  const ListTtl: int := 900

  /** `value || 'all'`. */
  function OrAll(s: string): string
  {
    if s == "" then "all" else s
  }

  /**
   * The cache key `GET /` builds from its three query values. An absent value
   * and the literal value `all` give the same key, and so do values that move
   * an underscore from one part to the next.
   */
  function CacheKeyAsWritten(notamType: string, airport: string, radius: string): string
  {
    "notams_" + OrAll(notamType) + "_" + OrAll(airport) + "_" + OrAll(radius)
  }

  // ---------------------------------------------------------------------------
  // A cache key that determines its query

  /** One character of a key part: the separator and the escape character are escaped. */
  function EscapeChar(c: char): string
  {
    if c == '\\' then "\\\\" else if c == '_' then "\\u" else [c]
  }

  /** A query value with every underscore escaped, so that it cannot end its part of the key. */
  function Escape(s: string): (e: string)
    ensures '_' !in e
  {
    if s == [] then [] else EscapeChar(s[0]) + Escape(s[1..])
  }

  /** An absent value is `all`; a given one is marked with `=` and escaped. */
  function KeyPart(s: string): string
  {
    if s == "" then "all" else "=" + Escape(s)
  }

  /** The key the list route stores its replies under. */
  function CacheKey(notamType: string, airport: string, radius: string): string
  {
    "notams_" + KeyPart(notamType) + "_" + KeyPart(airport) + "_" + KeyPart(radius)
  }

  /**
   * Reads one key part: the unescaped text up to the first unescaped
   * underscore, and what follows from that underscore on.
   */
  function ReadPart(s: string): (string, string)
  {
    if s == [] then ([], [])
    else if s[0] == '_' then ([], s)
    else if s[0] == '\\' && |s| >= 2 then
      var (d, rest) := ReadPart(s[2..]);
      ([if s[1] == 'u' then '_' else s[1]] + d, rest)
    else
      var (d, rest) := ReadPart(s[1..]);
      ([s[0]] + d, rest)
  }

  /** The query value an unescaped key part stands for. */
  function PartValue(d: string): Option<string>
  {
    if d == "all" then Some("")
    else if d != [] && d[0] == '=' then Some(d[1..])
    else None
  }

  /** The three query values a key stands for, when it is a key at all. */
  function ParseKey(k: string): Option<(string, string, string)>
  {
    if "notams_" <= k then ParseParts(k[7..]) else None
  }

  /** Three key parts separated by underscores. */
  function ParseParts(s: string): Option<(string, string, string)>
  {
    var (p1, r1) := ReadPart(s);
    if r1 == [] then None
    else
      var (p2, r2) := ReadPart(r1[1..]);
      if r2 == [] then None
      else
        var (p3, r3) := ReadPart(r2[1..]);
        if r3 != [] then None
        else
          match (PartValue(p1), PartValue(p2), PartValue(p3))
          case (Some(t), Some(a), Some(r)) => Some((t, a, r))
          case _ => None
  }

  /** Reading a character that is neither the separator nor the escape character. */
  lemma ReadPlainChar(c: char, t: string)
    requires c != '_' && c != '\\'
    ensures ReadPart([c] + t) == ([c] + ReadPart(t).0, ReadPart(t).1)
  {
    assert ([c] + t)[1..] == t;
  }

  /** Reading one escaped character. */
  lemma ReadEscapedChar(c: char, t: string)
    ensures ReadPart(EscapeChar(c) + t) == ([c] + ReadPart(t).0, ReadPart(t).1)
  {
    if c == '\\' || c == '_' {
      assert (EscapeChar(c) + t)[2..] == t;
    } else {
      ReadPlainChar(c, t);
    }
  }

  lemma {:induction false} ReadEscaped(x: string, rest: string)
    requires rest == [] || rest[0] == '_'
    ensures ReadPart(Escape(x) + rest) == (x, rest)
  {
    if x == [] {
      assert Escape(x) + rest == rest;
    } else {
      ReadEscaped(x[1..], rest);
      assert Escape(x) + rest == EscapeChar(x[0]) + (Escape(x[1..]) + rest);
      ReadEscapedChar(x[0], Escape(x[1..]) + rest);
      assert x == [x[0]] + x[1..];
    }
  }

  /** Reading a key part gives back its value and stops at the next separator. */
  lemma ReadKeyPart(x: string, rest: string)
    requires rest == [] || rest[0] == '_'
    ensures ReadPart(KeyPart(x) + rest).1 == rest
    ensures PartValue(ReadPart(KeyPart(x) + rest).0) == Some(x)
  {
    if x == "" {
      assert ReadPart(rest).0 == [];
      ReadPlainChar('l', rest);
      ReadPlainChar('l', "l" + rest);
      ReadPlainChar('a', "ll" + rest);
      assert "all" + rest == ['a'] + ("ll" + rest);
      assert "ll" + rest == ['l'] + ("l" + rest);
      assert "l" + rest == ['l'] + rest;
    } else {
      ReadEscaped(x, rest);
      ReadPlainChar('=', Escape(x) + rest);
      assert KeyPart(x) + rest == ['='] + (Escape(x) + rest);
      var d := ReadPart(KeyPart(x) + rest).0;
      assert d == ['='] + x && d[1..] == x;
    }
  }

  /** Three parts that read back one by one parse as a key body. */
  lemma ParseJoined(p1: string, p2: string, p3: string, d1: string, d2: string, d3: string)
    requires ReadPart(p1 + ("_" + p2 + ("_" + p3))) == (d1, "_" + p2 + ("_" + p3))
    requires ReadPart(p2 + ("_" + p3)) == (d2, "_" + p3)
    requires ReadPart(p3) == (d3, [])
    requires PartValue(d1).Some? && PartValue(d2).Some? && PartValue(d3).Some?
    ensures ParseParts(p1 + ("_" + p2 + ("_" + p3))) == Some((PartValue(d1).value, PartValue(d2).value, PartValue(d3).value))
  {
    assert ("_" + p2 + ("_" + p3))[1..] == p2 + ("_" + p3);
    assert ("_" + p3)[1..] == p3;
  }

  /** Three key parts joined by underscores read back as their three values. */
  lemma ParseJoinedParts(t: string, a: string, r: string)
    ensures ParseParts(KeyPart(t) + ("_" + KeyPart(a) + ("_" + KeyPart(r)))) == Some((t, a, r))
  {
    ReadKeyPart(t, "_" + KeyPart(a) + ("_" + KeyPart(r)));
    ReadKeyPart(a, "_" + KeyPart(r));
    ReadKeyPart(r, []);
    assert KeyPart(r) + [] == KeyPart(r);
    ParseJoined(KeyPart(t), KeyPart(a), KeyPart(r),
                ReadPart(KeyPart(t) + ("_" + KeyPart(a) + ("_" + KeyPart(r)))).0,
                ReadPart(KeyPart(a) + ("_" + KeyPart(r))).0,
                ReadPart(KeyPart(r)).0);
  }

  /** The key is the prefix followed by its three parts and their separators. */
  lemma KeyShape(t: string, a: string, r: string)
    ensures CacheKey(t, a, r) == "notams_" + (KeyPart(t) + ("_" + KeyPart(a) + ("_" + KeyPart(r))))
  {
  }

  /** The prefix is recognised and skipped. */
  lemma ParsePrefixed(body: string)
    ensures ParseKey("notams_" + body) == ParseParts(body)
  {
    assert ("notams_" + body)[7..] == body;
  }

  /** A key gives back the query values it was built from. */
  lemma ParseCacheKey(t: string, a: string, r: string)
    ensures ParseKey(CacheKey(t, a, r)) == Some((t, a, r))
  {
    KeyShape(t, a, r);
    ParsePrefixed(KeyPart(t) + ("_" + KeyPart(a) + ("_" + KeyPart(r))));
    ParseJoinedParts(t, a, r);
  }
  /** Different queries never share a cache entry. */
  lemma CacheKeyInjective(t: string, a: string, r: string, t': string, a': string, r': string)
    ensures CacheKey(t, a, r) == CacheKey(t', a', r') <==> t == t' && a == a' && r == r'
  {
    ParseCacheKey(t, a, r);
    ParseCacheKey(t', a', r');
  }

  /** The filters the list route passes for a query: it never passes a latitude or a longitude. */
  function RouteFilters(q: (string, string, string)): Filters
  {
    Filters(q.0, q.1, q.2, "", "")
  }

  /** On the list route the radius value never filters: no centre is passed with it. */
  lemma RouteNeverFiltersByRadius(data: seq<Notam>, q: (string, string, string), parse: NumberParser, dist: Distance)
    ensures Selection(data, RouteFilters(q), parse, dist) == Selection(data, Filters(q.0, q.1, "", "", ""), parse, dist)
  {
    RadiusNeedsCentre(data, q.0, q.1, q.2, parse, dist);
  }

  // ---------------------------------------------------------------------------
  // GET /

  /** The reply the service gives for the query `q` on its current records. */
  function Expected(svc: NotamService, q: (string, string, string)): (r: QueryResult)
    reads svc
    ensures r.total == |r.notams| && r.filters == RouteFilters(q)
  {
    var ns := Selection(svc.notamData, RouteFilters(q), svc.parseNumber, svc.distance);
    QueryResult(ns, |ns|, svc.lastUpdate, RouteFilters(q))
  }

  /** Every cached reply is the service's reply to the query its key stands for. */
  ghost predicate Coherent(cache: Cache<string, QueryResult>, svc: NotamService)
    reads cache, svc
  {
    forall k :: k in cache.entries ==> ParseKey(k).Some? && cache.entries[k].value == Expected(svc, ParseKey(k).value)
  }

  /**
   * The hit-or-compute step of `GET /` under the key `key`: a live cached
   * reply is returned unless `refresh` is given (any non-empty value counts);
   * otherwise the service is queried and its reply stored for 900 seconds.
   * A lookup of an expired entry removes it first, as `Cache.Get` does.
   */
  method Respond(cache: Cache<string, QueryResult>, svc: NotamService, key: string, f: Filters, refresh: string, now: int)
    returns (r: QueryResult)
    requires cache.Valid()
    modifies cache
    ensures cache.Valid()
    ensures
      var hit := Lookup(old(cache.entries), key, now);
      if hit.Some? && refresh == "" then
        r == hit.value && cache.entries == old(cache.entries) && cache.order == old(cache.order)
      else
        && r.notams == Selection(svc.notamData, f, svc.parseNumber, svc.distance)
        && r.total == |r.notams| && r.lastUpdate == svc.lastUpdate && r.filters == f
        && cache.entries == old(cache.entries)[key := Entry(r, ExpiryAt(now, ListTtl))]
        && cache.order == (if hit.Some? then old(cache.order)
                           else if key in old(cache.entries) then Without(old(cache.order), key) + [key]
                           else old(cache.order) + [key])
  {
    var cachedData := cache.Get(key, now);
    if cachedData.Some? && refresh == "" {
      return cachedData.value;
    }
    r := Store(cache, svc, key, f, now);
  }

  /** The miss path of `Respond`: the service is queried and its reply stored for 900 seconds. */
  method Store(cache: Cache<string, QueryResult>, svc: NotamService, key: string, f: Filters, now: int)
    returns (r: QueryResult)
    requires cache.Valid()
    modifies cache
    ensures cache.Valid()
    ensures r.notams == Selection(svc.notamData, f, svc.parseNumber, svc.distance)
    ensures r.total == |r.notams| && r.lastUpdate == svc.lastUpdate && r.filters == f
    ensures cache.entries == old(cache.entries)[key := Entry(r, ExpiryAt(now, ListTtl))]
    ensures cache.order == if key in old(cache.entries) then old(cache.order) else old(cache.order) + [key]
  {
    r := svc.GetKSANotams(f);
    cache.Set(key, r, now, ListTtl);
  }

  /** `GET /` as written, with the colliding key. */
  method ListNotamsAsWritten(cache: Cache<string, QueryResult>, svc: NotamService,
                             notamType: string, airport: string, radius: string, refresh: string, now: int)
    returns (r: QueryResult)
    requires cache.Valid()
    modifies cache
    ensures cache.Valid()
    ensures
      var key := CacheKeyAsWritten(notamType, airport, radius);
      var hit := Lookup(old(cache.entries), key, now);
      if hit.Some? && refresh == "" then r == hit.value && cache.entries == old(cache.entries) && cache.order == old(cache.order)
      else r == Expected(svc, (notamType, airport, radius))
           && cache.entries == old(cache.entries)[key := Entry(r, ExpiryAt(now, ListTtl))]
           && cache.order == (if hit.Some? then old(cache.order)
                              else if key in old(cache.entries) then Without(old(cache.order), key) + [key]
                              else old(cache.order) + [key])
  {
    r := Respond(cache, svc, CacheKeyAsWritten(notamType, airport, radius), Filters(notamType, airport, radius, "", ""), refresh, now);
  }

  /**
   * `GET /` with the escaped key. Over a cache whose replies all answer
   * their keys' queries, the reply is always the service's answer to this
   * query, cached or not, and the cache stays that way.
   */
  method ListNotams(cache: Cache<string, QueryResult>, svc: NotamService,
                    notamType: string, airport: string, radius: string, refresh: string, now: int)
    returns (r: QueryResult)
    requires cache.Valid()
    modifies cache
    ensures cache.Valid()
    ensures
      var key := CacheKey(notamType, airport, radius);
      var hit := Lookup(old(cache.entries), key, now);
      if hit.Some? && refresh == "" then r == hit.value && cache.entries == old(cache.entries) && cache.order == old(cache.order)
      else r == Expected(svc, (notamType, airport, radius))
           && cache.entries == old(cache.entries)[key := Entry(r, ExpiryAt(now, ListTtl))]
           && cache.order == (if hit.Some? then old(cache.order)
                              else if key in old(cache.entries) then Without(old(cache.order), key) + [key]
                              else old(cache.order) + [key])
    ensures old(Coherent(cache, svc)) ==> Coherent(cache, svc) && r == Expected(svc, (notamType, airport, radius))
  {
    var key := CacheKey(notamType, airport, radius);
    ParseCacheKey(notamType, airport, radius);
    r := Respond(cache, svc, key, Filters(notamType, airport, radius, "", ""), refresh, now);
  }

  // ---------------------------------------------------------------------------
  // GET /:id

  datatype Reply = Ok(notam: Notam) | NotFound(status: int, error: string)

  /** `GET /:id`: the record, or a 404 with `NOTAM not found` exactly when no record has the id. */
  function NotamByIdReply(data: seq<Notam>, id: string): (r: Reply)
    ensures r.NotFound? <==> forall i :: 0 <= i < |data| ==> data[i].id != id
    ensures r.NotFound? ==> r.status == 404 && r.error == "NOTAM not found"
    ensures r.Ok? ==> r.notam in data && r.notam.id == id
  {
    match FindById(data, id)
    case None => NotFound(404, "NOTAM not found")
    case Some(n) => Ok(n)
  }

  // ---------------------------------------------------------------------------
  // The collision, on one record

  /** As written, the type `all` and an absent type give the same key. */
  lemma AllCollidesWithAbsent()
    ensures CacheKeyAsWritten("all", "", "") == CacheKeyAsWritten("", "", "") == "notams_all_all_all"
  {
  }

  /** As written, an underscore inside a value can move between parts without changing the key. */
  lemma UnderscoreCollides()
    ensures CacheKeyAsWritten("a_b", "c", "") == CacheKeyAsWritten("a", "b_c", "") == "notams_a_b_c_all"
  {
  }

  /** A runway notice at King Khalid International. */
  function RunwayNotam(): Notam
  {
    Notam("KSAOERK1", "A0001/2024", "RWY", "ACTIVE", "OERK", "King Khalid International Airport",
          Some(24.9578), Some(46.6989), 0, 1000, "Runway maintenance", "RWY 15/33 CLSD", "Runway", "NORMAL", 0, 0)
  }

  /**
   * With the key as written, `GET /?type=all` after `GET /` answers with the
   * cached full list, although the type filter `all` keeps no runway notice.
   */
  method TypeAllAsWritten() returns (first: QueryResult, second: QueryResult)
    ensures first.notams == [RunwayNotam()] && second.notams == [RunwayNotam()]
    ensures ByType([RunwayNotam()], "all") == []
  {
    var svc := new NotamService((s: string) => 0.0, (a: real, b: real, c: real, d: real) => 0.0);
    svc.notamData := [RunwayNotam()];
    var cache := new Cache<string, QueryResult>();
    NoFiltersSelectsAll(svc.notamData, svc.parseNumber, svc.distance);
    first := ListNotamsAsWritten(cache, svc, "", "", "", "", 0);
    AllCollidesWithAbsent();
    assert Lookup(cache.entries, CacheKeyAsWritten("all", "", ""), 0) == Some(first);
    second := ListNotamsAsWritten(cache, svc, "all", "", "", "", 0);
    TypeAllKeepsNoRunway();
  }

  /**
   * In the other order it is worse: once `GET /?type=all` has cached its
   * empty reply, a plain `GET /` answers with that very reply, no notices
   * and the filters of the other query, for the next 15 minutes, though the
   * unfiltered list holds the one record (`NoFiltersSelectsAll`).
   */
  method TypeAllFirstAsWritten() returns (first: QueryResult, second: QueryResult)
    ensures first.notams == [] && first.filters.notamType == "all" && second == first
  {
    var svc := new NotamService((s: string) => 0.0, (a: real, b: real, c: real, d: real) => 0.0);
    svc.notamData := [RunwayNotam()];
    var cache := new Cache<string, QueryResult>();
    TypeAllKeepsNoRunway();
    FilterExtensional(svc.notamData, n => TypeMatches(n, "all"),
                      n => Selected(n, RouteFilters(("all", "", "")), svc.parseNumber, svc.distance));
    first := ListNotamsAsWritten(cache, svc, "all", "", "", "", 0);
    AllCollidesWithAbsent();
    assert Lookup(cache.entries, CacheKeyAsWritten("", "", ""), 0) == Some(first);
    second := ListNotamsAsWritten(cache, svc, "", "", "", "", 0);
  }

  /** With the escaped key the same two requests get the answers of their own queries. */
  method TypeAll() returns (first: QueryResult, second: QueryResult)
    ensures first.notams == [RunwayNotam()] && second.notams == []
  {
    var svc := new NotamService((s: string) => 0.0, (a: real, b: real, c: real, d: real) => 0.0);
    svc.notamData := [RunwayNotam()];
    var cache := new Cache<string, QueryResult>();
    NoFiltersSelectsAll(svc.notamData, svc.parseNumber, svc.distance);
    first := ListNotams(cache, svc, "", "", "", "", 0);
    CacheKeyInjective("all", "", "", "", "", "");
    assert cache.entries.Keys == {CacheKey("", "", "")};
    assert Lookup(cache.entries, CacheKey("all", "", ""), 0) == None;
    TypeAllKeepsNoRunway();
    FilterExtensional(svc.notamData, n => TypeMatches(n, "all"),
                      n => Selected(n, RouteFilters(("all", "", "")), svc.parseNumber, svc.distance));
    second := ListNotams(cache, svc, "all", "", "", "", 0);
  }

  /** The type filter `all` does not keep a record of type `RWY`. */
  lemma TypeAllKeepsNoRunway()
    ensures !TypeMatches(RunwayNotam(), "all")
    ensures ByType([RunwayNotam()], "all") == []
  {
    assert ToLower("RWY") == "rwy";
    assert ToLower("all") == "all";
    assert !Contains("rwy", "all");
  }
}
