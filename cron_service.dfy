/**
 * The scheduled cleanup of expired notices: the records whose end date has
 * passed are dropped from the service's list, and the rest is saved.
 */
module CronService {
  import opened Wrappers
  import opened Seqs
  import opened Notams
  import opened Service

  /** The records still in force at `now`: those ending strictly after it, in their order. */
  function Unexpired(ns: seq<Notam>, now: int): seq<Notam>
  {
    Filter(ns, (n: Notam) => n.endDate > now)
  }

  /** Every kept record ends after `now`, and every record left out ends at or before it. */
  lemma UnexpiredExactly(ns: seq<Notam>, now: int)
    ensures forall n :: n in Unexpired(ns, now) ==> n in ns && n.endDate > now
    ensures forall n :: n in ns && n !in Unexpired(ns, now) ==> n.endDate <= now
  {
    forall n ensures n in Unexpired(ns, now) <==> n in ns && n.endDate > now {
      FilterMembership(ns, (n': Notam) => n'.endDate > now, n);
    }
  }

  /** The kept records are the old ones with some left out, in their old order. */
  lemma UnexpiredIsSubsequence(ns: seq<Notam>, now: int)
    ensures IsSubsequence(Unexpired(ns, now), ns)
  {
    FilterIsSubsequence(ns, (n: Notam) => n.endDate > now);
  }

  /** A second cleanup at the same instant removes nothing. */
  lemma UnexpiredIdempotent(ns: seq<Notam>, now: int)
    ensures Unexpired(Unexpired(ns, now), now) == Unexpired(ns, now)
  {
    FilterIdempotent(ns, (n: Notam) => n.endDate > now);
  }

  /** A cleanup at a later instant, after one at an earlier one, leaves what it alone would leave. */
  lemma UnexpiredLater(ns: seq<Notam>, t1: int, t2: int)
    requires t1 <= t2
    ensures Unexpired(Unexpired(ns, t1), t2) == Unexpired(ns, t2)
  {
    FilterStage(ns, (n: Notam) => n.endDate > t1, true, (n: Notam) => n.endDate > t2, (n: Notam) => n.endDate > t2);
  }

  /**
   * `cleanupExpiredNOTAMs()`: reads every record through the unfiltered
   * query, keeps those still in force at `now`, makes them the service's
   * list and saves it. `removed` is the count the log line reports.
   */
  method CleanupExpiredNotams(svc: NotamService, now: int, writeSucceeds: bool) returns (removed: int)
    modifies svc
    ensures svc.notamData == Unexpired(old(svc.notamData), now)
    ensures svc.lastUpdate == old(svc.lastUpdate)
    ensures svc.saved == if writeSucceeds then Some(SavedFile(svc.notamData, svc.lastUpdate, |svc.notamData|)) else old(svc.saved)
    ensures removed == |old(svc.notamData)| - |svc.notamData| && removed >= 0
  {
    var notams := svc.GetKSANotams(NoFilters);
    NoFiltersSelectsAll(svc.notamData, svc.parseNumber, svc.distance);
    var activeNotams := Filter(notams.notams, (n: Notam) => n.endDate > now);
    svc.notamData := activeNotams;
    svc.SaveToCache(writeSucceeds);
    removed := |notams.notams| - |activeNotams|;
  }
}
