/** The bridge's check of an upload response: it is accepted only as an exact partition of the batch. */
module Acknowledgements {
  import opened Base
  import opened EventDisk
  import opened CloudIngest

  const PROTOCOL_VERSION := "1"
  const MAX_BATCH_SIZE := 100

  datatype Request = Request(requestId: string, deviceId: string, ids: seq<EventId>)

  datatype Response = Response(
    protocolVersion: string,
    requestId: string,
    deviceId: string,
    accepted: seq<EventId>,
    duplicates: seq<EventId>,
    rejected: seq<(EventId, string)>,
    commandData: nat)

  /** The response accounts for every requested event once, in one of its three lists. */
  ghost predicate ExactPartition(response: Response, ids: seq<EventId>) {
    && Distinct(ids)
    && multiset(response.accepted) + multiset(response.duplicates) + multiset(RejectedIds(response.rejected)) == multiset(ids)
  }

  ghost predicate ValidAcknowledgement(response: Response, request: Request) {
    && response.protocolVersion == PROTOCOL_VERSION && response.requestId == request.requestId && response.deviceId == request.deviceId
    && response.commandData == 0
    && (forall id :: id in request.ids ==> id != "")
    && (forall r :: r in response.rejected ==> r.1 != "")
    && ExactPartition(response, request.ids)
  }

  // ----- Deciding the partition with two sets -----

  lemma {:induction false} DistinctSize<T>(s: seq<T>)
    requires Distinct(s)
    ensures |set x | x in s| == |s|
  {
    if s != [] {
      var init, last := s[..|s| - 1], s[|s| - 1];
      assert s == init + [last];
      DistinctSize(init);
      assert (set x | x in s) == (set x | x in init) + {last};
      assert last !in init;
    }
  }

  /** Checks one list of the response against the requested ids, adding to the ids seen so far. */
  method CheckIds(ids: seq<EventId>, requested: set<EventId>, seen: set<EventId>, ghost before: seq<EventId>)
    returns (ok: bool, seen': set<EventId>)
    requires Distinct(before) && seen == (set id | id in before) && seen <= requested
    ensures ok <==> Distinct(before + ids) && (forall id :: id in ids ==> id in requested)
    ensures ok ==> seen' == (set id | id in before + ids) && seen' <= requested
  {
    seen' := seen;
    assert before + ids[..0] == before;
    for i := 0 to |ids|
      invariant Distinct(before + ids[..i]) && (forall id :: id in ids[..i] ==> id in requested)
      invariant seen' == (set id | id in before + ids[..i]) && seen' <= requested
    {
      PrefixStep(ids, i);
      var id := ids[i];
      assert before + ids[..i + 1] == (before + ids[..i]) + [id];
      assert id == (before + ids)[|before| + i];
      if id !in requested {
        assert id in ids;
        return false, seen';
      }
      if id in seen' {
        RepeatedId(before, ids, i);
        return false, seen';
      }
      seen' := seen' + {id};
    }
    WholePrefix(ids);
    ok := true;
  }

  lemma RepeatedId(before: seq<EventId>, ids: seq<EventId>, i: nat)
    requires i < |ids| && ids[i] in before + ids[..i]
    ensures !Distinct(before + ids)
  {
    var k :| 0 <= k < |before + ids[..i]| && (before + ids[..i])[k] == ids[i];
    assert (before + ids)[k] == ids[i] == (before + ids)[|before| + i];
  }

  /** The requested ids, if they are distinct and not empty. */
  method RequestedIds(ids: seq<EventId>) returns (ok: bool, requested: set<EventId>)
    ensures ok <==> Distinct(ids) && forall id :: id in ids ==> id != ""
    ensures ok ==> requested == (set id | id in ids)
  {
    requested := {};
    for i := 0 to |ids|
      invariant forall id :: id in ids[..i] ==> id != ""
      invariant requested == (set id | id in ids[..i]) && Distinct(ids[..i])
    {
      PrefixStep(ids, i);
      assert ids[i] in ids;
      if ids[i] == "" {
        return false, requested;
      }
      if ids[i] in requested {
        assert [] + ids == ids && [] + ids[..i] == ids[..i];
        RepeatedId([], ids, i);
        return false, requested;
      }
      requested := requested + {ids[i]};
    }
    WholePrefix(ids);
    ok := true;
  }

  method HaveCodes(rejected: seq<(EventId, string)>) returns (ok: bool)
    ensures ok <==> forall r :: r in rejected ==> r.1 != ""
  {
    for i := 0 to |rejected|
      invariant forall r :: r in rejected[..i] ==> r.1 != ""
    {
      PrefixStep(rejected, i);
      if rejected[i].1 == "" {
        assert rejected[i] in rejected;
        return false;
      }
    }
    WholePrefix(rejected);
    ok := true;
  }

  /** `validateResponse` for an event upload. */
  method ValidateResponse(response: Response, request: Request) returns (ok: bool)
    ensures ok <==> ValidAcknowledgement(response, request)
  {
    if response.protocolVersion != PROTOCOL_VERSION || response.requestId != request.requestId || response.deviceId != request.deviceId {
      return false;
    }
    if response.commandData != 0 {
      return false;
    }
    var requested;
    ok, requested := RequestedIds(request.ids);
    if !ok {
      return;
    }
    ok := HaveCodes(response.rejected);
    if !ok {
      return;
    }
    ok := CheckPartition(response, request.ids, requested);
  }

  method CheckPartition(response: Response, ids: seq<EventId>, requested: set<EventId>) returns (ok: bool)
    requires Distinct(ids) && requested == (set id | id in ids)
    ensures ok <==> ExactPartition(response, ids)
  {
    ghost var all := response.accepted + response.duplicates + RejectedIds(response.rejected);
    assert multiset(all) == multiset(response.accepted) + multiset(response.duplicates) + multiset(RejectedIds(response.rejected));
    SameCounts(ids, all);
    PartsOf(response.accepted, response.duplicates, RejectedIds(response.rejected));
    assert [] + response.accepted == response.accepted;
    var seen: set<EventId>;
    ok, seen := CheckIds(response.accepted, requested, {}, []);
    if !ok {
      return;
    }
    ok, seen := CheckIds(response.duplicates, requested, seen, response.accepted);
    if !ok {
      return;
    }
    ok, seen := CheckIds(RejectedIds(response.rejected), requested, seen, response.accepted + response.duplicates);
    if !ok {
      return;
    }
    DistinctSize(all);
    DistinctSize(ids);
    assert seen == (set id | id in all);
    assert (forall x :: x in all <==> x in ids) ==> seen == requested;
    ok := |seen| == |requested|;
    if ok {
      SubsetEqual(seen, requested);
      forall x ensures x in all <==> x in ids {
        assert x in seen <==> x in requested;
      }
    }
  }

  lemma SubsetEqual<T>(a: set<T>, b: set<T>)
    requires a <= b && |a| == |b|
    ensures a == b
  {
    assert |b - a| == |b| - |a|;
  }

  lemma PartsOf(a: seq<EventId>, b: seq<EventId>, c: seq<EventId>)
    ensures Distinct(a + b + c) ==> Distinct(a) && Distinct(a + b)
    ensures forall x :: x in a + b + c <==> x in a || x in b || x in c
  {
    if Distinct(a + b + c) {
      forall i, j | 0 <= i < j < |a + b| ensures (a + b)[i] != (a + b)[j] {
        assert (a + b + c)[i] == (a + b)[i] && (a + b + c)[j] == (a + b)[j];
      }
      forall i, j | 0 <= i < j < |a| ensures a[i] != a[j] {
        assert (a + b)[i] == a[i] && (a + b)[j] == a[j];
      }
    }
  }

  lemma PartitionMembers(response: Response, ids: seq<EventId>)
    requires ExactPartition(response, ids)
    ensures Distinct(response.accepted + response.duplicates) && Distinct(RejectedIds(response.rejected))
    ensures forall id :: id in ids <==> id in response.accepted + response.duplicates || id in RejectedIds(response.rejected)
    ensures forall id :: id in RejectedIds(response.rejected) ==> id !in response.accepted + response.duplicates
  {
    var confirmed, refused := response.accepted + response.duplicates, RejectedIds(response.rejected);
    var all := confirmed + refused;
    assert multiset(all) == multiset(response.accepted) + multiset(response.duplicates) + multiset(refused);
    SameCounts(ids, all);
    forall i, j | 0 <= i < j < |confirmed| ensures confirmed[i] != confirmed[j] {
      assert all[i] == confirmed[i] && all[j] == confirmed[j];
    }
    forall i, j | 0 <= i < j < |refused| ensures refused[i] != refused[j] {
      assert all[|confirmed| + i] == refused[i] && all[|confirmed| + j] == refused[j];
    }
    forall id | id in refused ensures id !in confirmed {
      var j :| 0 <= j < |refused| && refused[j] == id;
      assert all[|confirmed| + j] == id;
      assert forall i :: 0 <= i < |confirmed| ==> all[i] == confirmed[i];
    }
  }
}
