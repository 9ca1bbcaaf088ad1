/**
 * The dashboard's derived figures: the five newest filtered notices, the
 * high-priority ones, the Active and Pending counters, and the five airports
 * with the most notices.
 */
module Dashboard {
  import opened Seqs
  import opened Notams
  import opened Service
  import opened NotamContext
  import opened NotamList

  /** The records of `s` are ordered newest first, as the dashboard's comparator orders them. */
  ghost predicate NewestFirst(s: seq<Notam>)
  {
    forall i, j :: 0 <= i < j < |s| ==> s[i].created >= s[j].created
  }

  /**
   * `filteredNotams.sort((a, b) => new Date(b.created) - new Date(a.created))`,
   * in place: an insertion sort that moves each record left past the older
   * ones, never past one created at the same instant.
   */
  method SortNewestFirst(a: array<Notam>)
    modifies a
    ensures NewestFirst(a[..])
    ensures multiset(a[..]) == multiset(old(a[..]))
  {
    var i := 0;
    while i < a.Length
      invariant 0 <= i <= a.Length
      invariant NewestFirst(a[..i])
      invariant multiset(a[..]) == multiset(old(a[..]))
    {
      SinkNewest(a, i);
      i := i + 1;
    }
    assert a[..a.Length] == a[..];
  }

  /** Exchanges two records of the array. */
  method Swap(a: array<Notam>, x: int, y: int)
    requires 0 <= x < a.Length && 0 <= y < a.Length
    modifies a
    ensures a[..] == old(a[..])[x := old(a[y])][y := old(a[x])]
    ensures multiset(a[..]) == multiset(old(a[..]))
  {
    a[x], a[y] := a[y], a[x];
  }

  /** One insertion step: `a[i]` moves left past every older record before it. */
  method SinkNewest(a: array<Notam>, i: int)
    requires 0 <= i < a.Length && NewestFirst(a[..i])
    modifies a
    ensures NewestFirst(a[..i + 1])
    ensures multiset(a[..]) == multiset(old(a[..]))
  {
    var j := i;
    while j > 0 && a[j - 1].created < a[j].created
      invariant 0 <= j <= i
      invariant forall p, q :: 0 <= p < q <= i && p != j && q != j ==> a[p].created >= a[q].created
      invariant forall q :: j < q <= i ==> a[j].created > a[q].created
      invariant multiset(a[..]) == multiset(old(a[..]))
    {
      Swap(a, j - 1, j);
      j := j - 1;
    }
  }

  /** The newest-first comparator of the dashboard is the table's `created`, descending. */
  lemma NewestFirstIsCreatedDesc(s: seq<Notam>)
    requires NewestFirst(s)
    ensures Sorted(s, Precedes(Created, Desc))
  {
  }

  lemma CreatedDescIsNewestFirst(s: seq<Notam>)
    requires Sorted(s, Precedes(Created, Desc))
    ensures NewestFirst(s)
  {
    forall i, j | 0 <= i < j < |s| ensures s[i].created >= s[j].created {
      assert !Precedes(Created, Desc)(s[j], s[i]);
    }
  }

  /** The first five of a newest-first list are the five newest: no record left out is newer than one kept. */
  lemma FiveNewest(s: seq<Notam>)
    requires NewestFirst(s)
    ensures NewestFirst(Take(s, 5)) && multiset(Take(s, 5)) <= multiset(s)
    ensures forall n, i :: n in multiset(s) - multiset(Take(s, 5)) && 0 <= i < |Take(s, 5)| ==> n.created <= Take(s, 5)[i].created
  {
    TakeKeepsGreatest(s, (n: Notam) => n.created, 5);
  }

  lemma SameElements(s: seq<Notam>, t: seq<Notam>, n: Notam)
    requires multiset(s) == multiset(t)
    ensures n in s <==> n in t
  {
    assert n in s <==> n in multiset(s);
    assert n in t <==> n in multiset(t);
  }

  /** The high-priority records of a newest-first list, in that order. */
  lemma HighPriorityOfSorted(sorted: seq<Notam>, filtered: seq<Notam>)
    requires NewestFirst(sorted) && multiset(sorted) == multiset(filtered)
    ensures multiset(Filter(sorted, (n: Notam) => n.priority == "HIGH")) == multiset(Filter(filtered, (n: Notam) => n.priority == "HIGH"))
    ensures forall n :: n in Filter(sorted, (n: Notam) => n.priority == "HIGH") <==> n in filtered && n.priority == "HIGH"
    ensures NewestFirst(Filter(sorted, (n: Notam) => n.priority == "HIGH"))
  {
    FilterSameMultiset(sorted, filtered, (n: Notam) => n.priority == "HIGH");
    forall n ensures n in Filter(sorted, (n: Notam) => n.priority == "HIGH") <==> n in filtered && n.priority == "HIGH" {
      FilterMembership(sorted, (n': Notam) => n'.priority == "HIGH", n);
      SameElements(sorted, filtered, n);
    }
    NewestFirstIsCreatedDesc(sorted);
    FilterSorted(sorted, (n: Notam) => n.priority == "HIGH", Precedes(Created, Desc));
    CreatedDescIsNewestFirst(Filter(sorted, (n: Notam) => n.priority == "HIGH"));
  }

  /**
   * `recentNotams` and `highPriorityNotams`. The sort works in place on the
   * filtered list, so the high-priority list is filtered from the sorted
   * one and comes out newest first too.
   */
  method RecentAndHighPriority(filtered: seq<Notam>) returns (recent: seq<Notam>, high: seq<Notam>)
    ensures |recent| == Min(5, |filtered|) && NewestFirst(recent)
    ensures multiset(recent) <= multiset(filtered)
    ensures forall n, i :: n in multiset(filtered) - multiset(recent) && 0 <= i < |recent| ==> n.created <= recent[i].created
    ensures multiset(high) == multiset(Filter(filtered, (n: Notam) => n.priority == "HIGH"))
    ensures forall n :: n in high <==> n in filtered && n.priority == "HIGH"
    ensures NewestFirst(high)
  {
    var a := new Notam[|filtered|](i requires 0 <= i < |filtered| => filtered[i]);
    assert a[..] == filtered;
    SortNewestFirst(a);
    var sorted := a[..];
    FiveNewest(sorted);
    HighPriorityOfSorted(sorted, filtered);
    recent := Take(sorted, 5);
    high := Filter(sorted, (n: Notam) => n.priority == "HIGH");
  }

  // ---------------------------------------------------------------------------
  // The counters

  /** `notams.filter(n => n.status === st).length`, compared case-sensitively. */
  function CountWithStatus(ns: seq<Notam>, st: string): nat
  {
    |Filter(ns, (n: Notam) => n.status == st)|
  }

  /** The Active counter: over every held record, whatever the filters. */
  function ActiveCount(s: ClientState): nat
  {
    CountWithStatus(s.notams, "ACTIVE")
  }

  /** The Pending counter: over every held record, whatever the filters. */
  function PendingCount(s: ClientState): nat
  {
    CountWithStatus(s.notams, "PENDING")
  }

  /** Setting or clearing filters changes neither counter. */
  lemma CountersIgnoreFilters(s: ClientState, a: Action)
    requires a.SetFilters? || a.ClearFilters?
    ensures ActiveCount(Reduce(s, a)) == ActiveCount(s) && PendingCount(Reduce(s, a)) == PendingCount(s)
  {
  }

  /**
   * The counters count the held records, never fewer than the filtered list
   * shows, and together no more than there are records.
   */
  lemma CountersBounds(s: ClientState)
    ensures CountWithStatus(GetFilteredNotams(s), "ACTIVE") <= ActiveCount(s)
    ensures CountWithStatus(GetFilteredNotams(s), "PENDING") <= PendingCount(s)
    ensures ActiveCount(s) + PendingCount(s) <= |s.notams|
  {
    GetFilteredNotamsExactly(s);
    FilterOfSubsequence(GetFilteredNotams(s), s.notams, (n: Notam) => n.status == "ACTIVE");
    FilterOfSubsequence(GetFilteredNotams(s), s.notams, (n: Notam) => n.status == "PENDING");
    FilterDisjointCount(s.notams, (n: Notam) => n.status == "ACTIVE", (n: Notam) => n.status == "PENDING");
  }

  // ---------------------------------------------------------------------------
  // Top airports

  /** `([, a], [, b]) => b - a`: the entry with the larger count goes first. */
  function MoreNotams(): ((string, nat), (string, nat)) -> bool
  {
    (x: (string, nat), y: (string, nat)) => x.1 > y.1
  }

  lemma MoreNotamsIsStrictWeakOrder()
    ensures StrictWeakOrder(MoreNotams())
  {
  }

  /**
   * `Object.entries(stats.byAirport).sort(...)`: every entry, largest count
   * first; airports with equal counts keep their order in the dictionary.
   */
  function AirportRanking(byAirport: Counts): (r: Counts)
    ensures multiset(r) == multiset(byAirport)
    ensures forall i, j :: 0 <= i < j < |r| ==> r[i].1 >= r[j].1
  {
    MoreNotamsIsStrictWeakOrder();
    SortBy(byAirport, MoreNotams())
  }

  /** The ranking is stable: the airports sharing a count appear in dictionary order. */
  lemma AirportRankingStable(byAirport: Counts, e: (string, nat))
    ensures Filter(AirportRanking(byAirport), (y: (string, nat)) => y.1 == e.1) == Filter(byAirport, (y: (string, nat)) => y.1 == e.1)
  {
    MoreNotamsIsStrictWeakOrder();
    SortByStable(byAirport, MoreNotams(), e);
    FilterExtensional(AirportRanking(byAirport), (y: (string, nat)) => Tied(MoreNotams(), y, e), (y: (string, nat)) => y.1 == e.1);
    FilterExtensional(byAirport, (y: (string, nat)) => Tied(MoreNotams(), y, e), (y: (string, nat)) => y.1 == e.1);
  }

  /**
   * `....slice(0, 5)`: at most five airports, by count, largest first, each
   * left-out airport having no more notices than the last one shown.
   */
  function TopAirports(byAirport: Counts): (r: Counts)
    ensures |r| == Min(5, |byAirport|)
    ensures forall i, j :: 0 <= i < j < |r| ==> r[i].1 >= r[j].1
    ensures multiset(r) <= multiset(byAirport)
    ensures forall e, i :: e in multiset(byAirport) - multiset(r) && 0 <= i < |r| ==> e.1 <= r[i].1
  {
    var sorted := AirportRanking(byAirport);
    TakeKeepsGreatest(sorted, (e: (string, nat)) => e.1 as int, 5);
    Take(sorted, 5)
  }

  /** Every entry of a dictionary built by counting has a positive count and a key of the dictionary. */
  lemma {:induction false} WellFormedEntry(c: Counts, k: int)
    requires WellFormed(c) && 0 <= k < |c|
    ensures c[k].1 > 0 && c[k].0 in KeysOf(c)
  {
    if k > 0 {
      WellFormedEntry(c[1..], k - 1);
    }
  }

  /** The top airports of a well-formed dictionary are keys of it, each with at least one notice. */
  lemma TopAirportsAreEntries(c: Counts)
    requires WellFormed(c)
    ensures forall i :: 0 <= i < |TopAirports(c)| ==> TopAirports(c)[i].0 in KeysOf(c) && TopAirports(c)[i].1 > 0
  {
    var r := TopAirports(c);
    forall i | 0 <= i < |r| ensures r[i].0 in KeysOf(c) && r[i].1 > 0 {
      assert r[i] in multiset(c);
      var k :| 0 <= k < |c| && c[k] == r[i];
      WellFormedEntry(c, k);
    }
  }

  /** Over the service's airport counts, the top airports are airports of some notice, each with at least one. */
  lemma TopAirportsOfTally(ks: seq<string>)
    ensures forall i :: 0 <= i < |TopAirports(Tally(ks))| ==> TopAirports(Tally(ks))[i].0 in ks && TopAirports(Tally(ks))[i].1 > 0
  {
    TopAirportsAreEntries(Tally(ks));
  }
}
