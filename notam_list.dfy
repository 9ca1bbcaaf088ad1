/**
 * The NOTAM table: sorting by a clicked column, twenty rows per page, the
 * Previous and Next buttons, the row of at most five page buttons, and the
 * "Showing x to y" line.
 */
module NotamList {
  import opened Text
  import opened Seqs
  import opened Notams

  datatype SortField = Number | Airport | Type | Status | Priority | StartDate | EndDate | Created

  datatype Direction = Asc | Desc

  function Flip(d: Direction): Direction
  {
    if d == Asc then Desc else Asc
  }

  // ---------------------------------------------------------------------------
  // Sorting

  /** `a[field] < b[field]`: text columns compare as strings, date columns as timestamps. */
  function FieldLess(f: SortField, x: Notam, y: Notam): bool
  {
    match f
    case Number => Less(x.number, y.number)
    case Airport => Less(x.airport, y.airport)
    case Type => Less(x.notamType, y.notamType)
    case Status => Less(x.status, y.status)
    case Priority => Less(x.priority, y.priority)
    case StartDate => x.startDate < y.startDate
    case EndDate => x.endDate < y.endDate
    case Created => x.created < y.created
  }

  /**
   * The comparator: `x` goes before `y` when its value is smaller (ascending)
   * or larger (descending); equal values compare as 0.
   */
  function Precedes(f: SortField, d: Direction): (Notam, Notam) -> bool
  {
    (x: Notam, y: Notam) => if d == Asc then FieldLess(f, x, y) else FieldLess(f, y, x)
  }

  lemma FieldLessAsymmetric(f: SortField, x: Notam, y: Notam)
    requires FieldLess(f, x, y)
    ensures !FieldLess(f, y, x)
  {
    match f
    case Number => LessAsymmetric(x.number, y.number);
    case Airport => LessAsymmetric(x.airport, y.airport);
    case Type => LessAsymmetric(x.notamType, y.notamType);
    case Status => LessAsymmetric(x.status, y.status);
    case Priority => LessAsymmetric(x.priority, y.priority);
    case _ =>
  }

  lemma FieldLessNegativeTransitive(f: SortField, x: Notam, y: Notam, z: Notam)
    requires !FieldLess(f, x, y) && !FieldLess(f, y, z)
    ensures !FieldLess(f, x, z)
  {
    match f
    case Number => LessNegativeTransitive(x.number, y.number, z.number);
    case Airport => LessNegativeTransitive(x.airport, y.airport, z.airport);
    case Type => LessNegativeTransitive(x.notamType, y.notamType, z.notamType);
    case Status => LessNegativeTransitive(x.status, y.status, z.status);
    case Priority => LessNegativeTransitive(x.priority, y.priority, z.priority);
    case _ =>
  }

  /** Every column's comparator, in both directions, is one a stable sort can rely on. */
  lemma PrecedesIsStrictWeakOrder(f: SortField, d: Direction)
    ensures StrictWeakOrder(Precedes(f, d))
  {
    var lt := Precedes(f, d);
    forall a, b | lt(a, b) ensures !lt(b, a) {
      if d == Asc { FieldLessAsymmetric(f, a, b); } else { FieldLessAsymmetric(f, b, a); }
    }
    forall a, b, c | !lt(a, b) && !lt(b, c) ensures !lt(a, c) {
      if d == Asc { FieldLessNegativeTransitive(f, a, b, c); } else { FieldLessNegativeTransitive(f, c, b, a); }
    }
  }

  /** `[...notams].sort(comparator)`: the same records, ordered by the column, ties in their old order. */
  function SortedNotams(ns: seq<Notam>, f: SortField, d: Direction): (r: seq<Notam>)
    ensures multiset(r) == multiset(ns)
    ensures forall i, j :: 0 <= i < j < |r| ==> !Precedes(f, d)(r[j], r[i])
  {
    PrecedesIsStrictWeakOrder(f, d);
    SortBy(ns, Precedes(f, d))
  }

  /** Records that compare equal keep their relative order. */
  lemma SortedNotamsStable(ns: seq<Notam>, f: SortField, d: Direction, e: Notam)
    ensures Filter(SortedNotams(ns, f, d), y => Tied(Precedes(f, d), y, e)) == Filter(ns, y => Tied(Precedes(f, d), y, e))
  {
    PrecedesIsStrictWeakOrder(f, d);
    SortByStable(ns, Precedes(f, d), e);
  }

  /** In the initial order, newest first, creation times never increase down the table. */
  lemma NewestFirstOrder(ns: seq<Notam>)
    ensures forall i, j :: 0 <= i < j < |SortedNotams(ns, Created, Desc)| ==>
              SortedNotams(ns, Created, Desc)[i].created >= SortedNotams(ns, Created, Desc)[j].created
  {
    var r := SortedNotams(ns, Created, Desc);
    forall i, j | 0 <= i < j < |r| ensures r[i].created >= r[j].created {
      assert !Precedes(Created, Desc)(r[j], r[i]);
    }
  }

  /** Ascending by a text column: no row's value is smaller than the one above it. */
  lemma AscendingText(ns: seq<Notam>, f: SortField)
    requires f in {Number, Airport, Type, Status, Priority}
    ensures forall i, j :: 0 <= i < j < |SortedNotams(ns, f, Asc)| ==> !FieldLess(f, SortedNotams(ns, f, Asc)[j], SortedNotams(ns, f, Asc)[i])
  {
    var r := SortedNotams(ns, f, Asc);
    forall i, j | 0 <= i < j < |r| ensures !FieldLess(f, r[j], r[i]) {
      assert !Precedes(f, Asc)(r[j], r[i]);
    }
  }

  /**
   * `handleSort(field)`: clicking the sorted column flips the direction;
   * clicking another column sorts by it, ascending.
   */
  function HandleSortStep(current: SortField, dir: Direction, clicked: SortField): (r: (SortField, Direction))
    ensures r.0 == clicked
    ensures r.1 == if clicked == current then Flip(dir) else Asc
  {
    if current == clicked then (current, Flip(dir)) else (clicked, Asc)
  }

  /** Two clicks on the sorted column restore the order; two on another column sort it descending. */
  lemma HandleSortTwice(current: SortField, dir: Direction, clicked: SortField)
    ensures var (f1, d1) := HandleSortStep(current, dir, clicked);
            HandleSortStep(f1, d1, clicked) == if clicked == current then (current, dir) else (clicked, Desc)
  {
  }

  // ---------------------------------------------------------------------------
  // Pages

  const ItemsPerPage: nat := 20

  /** `Math.ceil(n / 20)`. */
  function TotalPages(n: nat): (p: nat)
    ensures n == 0 <==> p == 0
    ensures n > 0 ==> (p - 1) * ItemsPerPage < n <= p * ItemsPerPage
  {
    (n + ItemsPerPage - 1) / ItemsPerPage
  }

  function StartIndex(page: int): int
  {
    (page - 1) * ItemsPerPage
  }

  function EndIndex(page: int): int
  {
    StartIndex(page) + ItemsPerPage
  }

  /** `sortedNotams.slice(startIndex, endIndex)`. */
  function PageItems(ns: seq<Notam>, page: int): (r: seq<Notam>)
    ensures 1 <= page ==> |r| <= ItemsPerPage
    ensures 1 <= page && StartIndex(page) <= |ns| ==> r == ns[StartIndex(page)..Min(EndIndex(page), |ns|)]
    ensures 1 <= page <= TotalPages(|ns|) ==> r != []
  {
    Slice(ns, StartIndex(page), EndIndex(page))
  }

  /** The first `k` pages, one after the other. */
  function FirstPages(ns: seq<Notam>, k: nat): seq<Notam>
  {
    if k == 0 then [] else FirstPages(ns, k - 1) + PageItems(ns, k)
  }

  lemma {:induction false} FirstPagesPrefix(ns: seq<Notam>, k: nat)
    ensures FirstPages(ns, k) == ns[..Min(k * ItemsPerPage, |ns|)]
  {
    if k > 0 {
      FirstPagesPrefix(ns, k - 1);
      if StartIndex(k) <= |ns| {
        assert ns[..Min(k * ItemsPerPage, |ns|)] == ns[..StartIndex(k)] + ns[StartIndex(k)..Min(EndIndex(k), |ns|)];
      } else {
        assert PageItems(ns, k) == [];
      }
    }
  }

  /** The pages, in order, hold every row exactly once. */
  lemma PagesPartition(ns: seq<Notam>)
    ensures FirstPages(ns, TotalPages(|ns|)) == ns
  {
    FirstPagesPrefix(ns, TotalPages(|ns|));
  }

  /** The Previous button: `Math.max(1, currentPage - 1)`. */
  function PreviousPage(current: int): int
  {
    Max(1, current - 1)
  }

  /** The Next button: `Math.min(totalPages, currentPage + 1)`. */
  function NextPage(current: int, total: int): int
  {
    Min(total, current + 1)
  }

  /** Previous and Next keep a page in `[1, total]` there, and move it by at most one. */
  lemma PreviousNextStayInRange(current: int, total: int)
    requires 1 <= current <= total
    ensures 1 <= PreviousPage(current) <= total && 1 <= NextPage(current, total) <= total
    ensures PreviousPage(current) == (if current == 1 then 1 else current - 1)
    ensures NextPage(current, total) == (if current == total then total else current + 1)
  {
  }

  /** The page buttons: `Math.min(5, totalPages)` pages from `max(1, min(totalPages - 4, currentPage - 2))`. */
  function PageWindow(current: int, total: nat): (w: seq<int>)
    ensures |w| == Min(5, total)
    ensures forall i :: 0 <= i < |w| ==> 1 <= w[i] <= total
    ensures forall i :: 0 < i < |w| ==> w[i] == w[i - 1] + 1
    ensures 1 <= current <= total ==> current in w
  {
    var first := Max(1, Min(total - 4, current - 2));
    var w := seq(Min(5, total), i => first + i);
    assert 1 <= current <= total ==> w[current - first] == current;
    w
  }

  /** The page buttons are numbered by the Previous and Next buttons' own page range. */
  lemma PageWindowHoldsNeighbours(current: int, total: nat)
    requires 1 <= current <= total
    ensures PreviousPage(current) in PageWindow(current, total)
    ensures NextPage(current, total) in PageWindow(current, total)
  {
    var w := PageWindow(current, total);
    var first := Max(1, Min(total - 4, current - 2));
    var k := current - first;
    assert 0 <= k < |w| && w[k] == current;
    if current > 1 {
      assert w[k - 1] == current - 1;
    }
    if current < total {
      assert w[k + 1] == current + 1;
    }
  }

  /**
   * "Showing x to y": `startIndex + 1` to `Math.min(endIndex, notams.length)`,
   * for the current page as it is kept, stale or not.
   */
  function ShowingRange(current: int, n: nat): (int, int)
  {
    (StartIndex(current) + 1, Min(EndIndex(current), n))
  }

  /**
   * The current page is not reset when the filters shrink the list: on page
   * 5 of an earlier list, a list of 25 rows shows two page buttons, an empty
   * table and "Showing 81 to 25".
   */
  lemma StalePageShowsInvertedRange(ns: seq<Notam>)
    requires |ns| == 25
    ensures TotalPages(|ns|) == 2
    ensures ShowingRange(5, |ns|) == (81, 25)
    ensures PageItems(ns, 5) == []
  {
  }

  /** The page the table shows: the kept page brought back into `[1, totalPages]`. */
  function ShownPage(current: int, total: nat): (p: int)
    ensures total > 0 ==> 1 <= p <= total
    ensures 1 <= current <= total ==> p == current
  {
    Max(1, Min(current, total))
  }

  /** The range line for the shown page. */
  function ShowingRangeShown(current: int, n: nat): (r: (int, int))
    ensures n > 0 ==> 1 <= r.0 <= r.1 <= n
  {
    ShowingRange(ShownPage(current, TotalPages(n)), n)
  }

  /** On the shown page, the range line counts exactly the rows the table holds. */
  lemma ShowingRangeCountsRows(ns: seq<Notam>, current: int)
    requires ns != []
    ensures var p := ShownPage(current, TotalPages(|ns|));
            var (from, to) := ShowingRangeShown(current, |ns|);
            1 <= from <= to <= |ns| && PageItems(ns, p) == ns[from - 1..to]
  {
  }

  // ---------------------------------------------------------------------------
  // The component's state

  /** The table's `useState` fields. */
  class ListView {
    var sortField: SortField
    var sortDirection: Direction
    var currentPage: int

    /** Newest first, on page 1. */
    constructor ()
      ensures sortField == Created && sortDirection == Desc && currentPage == 1
    {
      sortField := Created;
      sortDirection := Desc;
      currentPage := 1;
    }

    /** A click on the header of `field`. */
    method HandleSort(field: SortField)
      modifies this
      ensures (sortField, sortDirection) == HandleSortStep(old(sortField), old(sortDirection), field)
      ensures currentPage == old(currentPage)
    {
      if sortField == field {
        sortDirection := if sortDirection == Asc then Desc else Asc;
      } else {
        sortField := field;
        sortDirection := Asc;
      }
    }

    method Previous()
      modifies this
      ensures currentPage == PreviousPage(old(currentPage))
      ensures sortField == old(sortField) && sortDirection == old(sortDirection)
    {
      currentPage := Max(1, currentPage - 1);
    }

    method Next(totalPages: int)
      modifies this
      ensures currentPage == NextPage(old(currentPage), totalPages)
      ensures sortField == old(sortField) && sortDirection == old(sortDirection)
    {
      currentPage := Min(totalPages, currentPage + 1);
    }

    /** A click on a page button. */
    method SelectPage(page: int)
      modifies this
      ensures currentPage == page
      ensures sortField == old(sortField) && sortDirection == old(sortDirection)
    {
      currentPage := page;
    }

    /**
     * The rows the table shows for the records `ns`, as corrected: the page of
     * the sorted records that `ShownPage` brings back into range, so never
     * empty while there are records (as written, `ShowingRange` shows the
     * stale page).
     */
    method VisibleRows(ns: seq<Notam>) returns (rows: seq<Notam>)
      ensures rows == PageItems(SortedNotams(ns, sortField, sortDirection), ShownPage(currentPage, TotalPages(|ns|)))
      ensures multiset(rows) <= multiset(ns)
      ensures |rows| <= ItemsPerPage
      ensures ns != [] ==> rows != []
    {
      var sorted := SortedNotams(ns, sortField, sortDirection);
      var page := ShownPage(currentPage, TotalPages(|sorted|));
      rows := PageItems(sorted, page);
      SliceWithin(sorted, StartIndex(page), EndIndex(page));
    }
  }

  /** A slice of `s` is a contiguous part of it, so it holds no more of any element. */
  lemma SliceWithin(s: seq<Notam>, start: int, end: int)
    ensures multiset(Slice(s, start, end)) <= multiset(s)
  {
    var from, to := SliceBound(start, |s|), SliceBound(end, |s|);
    if from < to {
      assert s == s[..from] + s[from..to] + s[to..];
    }
  }
}
