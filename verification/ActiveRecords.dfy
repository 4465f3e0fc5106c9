/**
  The records a client answers for (crates/client/src/v1_peer.rs, `active_records` in
  `current_record` and in `authenticate_incoming_v1`): at most eight, the soonest to expire
  making room.
*/
module ActiveRecords {
  import opened Base
  import opened Collections

  const MAX_ACTIVE_RECORDS: int := 8

  /** A registered record, seen through its digest and its locator's expiry. */
  datatype Registered = Registered(record: int, expiresAt: u64)

  type Records = map<string, Registered>

  function Live(records: Records, now: u64): Records {
    map d | d in records && records[d].expiresAt > now :: records[d]
  }

  /** Nothing has to go, or one of the live records that expires no later than any other. */
  ghost predicate MayEvict(live: Records, digest: string, evicted: set<string>) {
    if |live| >= 8 && digest !in live
    then exists d :: && evicted == {d} && d in live
                     && forall other | other in live :: live[d].expiresAt <= live[other].expiresAt
    else evicted == {}
  }

  lemma LiveSize(records: Records, now: u64)
    ensures |Live(records, now)| <= |records|
  {
    var keys := Live(records, now).Keys;
    assert records.Keys == keys + (records.Keys - keys);
    assert |records| == |records.Keys| && |Live(records, now)| == |keys|;
  }

  class ActiveSet {
    var records: Records

    ghost predicate Valid()
      reads this
    {
      |records| <= 8
    }

    constructor ()
      ensures Valid() && records == map[]
    {
      records := map[];
    }

    method Retain(now: u64)
      modifies this
      ensures records == Live(old(records), now)
    {
      ghost var before := records;
      var visit := records.Keys;
      while visit != {}
        invariant visit <= before.Keys
        invariant records == map d | d in before && (d in visit || before[d].expiresAt > now) :: before[d]
        decreases |visit|
      {
        var digest :| digest in visit;
        if records[digest].expiresAt <= now { records := records - {digest}; }
        visit := visit - {digest};
      }
    }

    /** `min_by_key` over the expiries. */
    method SoonestToExpire() returns (soonest: Option<string>)
      ensures soonest.Some? <==> records != map[]
      ensures soonest.Some? ==>
                && soonest.value in records
                && forall d | d in records :: records[soonest.value].expiresAt <= records[d].expiresAt
    {
      soonest := None;
      var visit := records.Keys;
      while visit != {}
        invariant visit <= records.Keys
        invariant soonest.None? ==> visit == records.Keys
        invariant soonest.Some? ==>
                    && soonest.value in records
                    && forall d | d in records && d !in visit ::
                         records[soonest.value].expiresAt <= records[d].expiresAt
        decreases |visit|
      {
        var digest :| digest in visit;
        if soonest.None? || records[digest].expiresAt < records[soonest.value].expiresAt { soonest := Some(digest); }
        visit := visit - {digest};
      }
    }

    /** The registration at the end of `current_record`. */
    method Register(digest: string, record: Registered, now: u64) returns (ghost evicted: set<string>)
      requires Valid()
      modifies this
      ensures Valid()
      ensures MayEvict(Live(old(records), now), digest, evicted)
      ensures records == (Live(old(records), now) - evicted)[digest := record]
    {
      hide Live;
      ghost var before := records;
      LiveSize(records, now);
      Retain(now);
      evicted := {};
      if |records| >= MAX_ACTIVE_RECORDS && digest !in records {
        var oldest := SoonestToExpire();
        if oldest.Some? {
          evicted := {oldest.value};
          RemoveSize(records, oldest.value);
          records := records - {oldest.value};
        }
      }
      InsertSize(records, digest, record);
      records := records[digest := record];
    }

    /** The lookup that starts an inbound authentication. */
    method Lookup(digest: string, now: u64) returns (r: Option<Registered>)
      requires Valid()
      modifies this
      ensures Valid() && records == Live(old(records), now)
      ensures r.Some? <==> digest in old(records) && old(records)[digest].expiresAt > now
      ensures r.Some? ==> r.value == old(records)[digest]
    {
      LiveSize(records, now);
      Retain(now);
      r := if digest in records then Some(records[digest]) else None;
    }
  }
}
