/** The upload loop: what the exact partition of each answer makes of it is that it drains the queue. */
module EventSync {
  import opened Base
  import opened EventDisk
  import opened EventStores
  import opened EventPipeline
  import opened CloudIngest
  import opened Acknowledgements
  import opened EventIntake
  import opened UploadOutcomes

  /** How one upload attempt ends: not sent, sent but unanswered, or answered. */
  datatype Link = Down | Unanswered | Up

  lemma Drained<V>(before: map<EventId, V>, after: map<EventId, V>, ids: seq<EventId>)
    requires Distinct(ids) && forall id :: id in ids ==> id in before
    requires after.Keys == before.Keys - (set id | id in ids)
    ensures |after| == |before| - |ids|
  {
    DistinctSize(ids);
    assert (set id | id in ids) <= before.Keys;
    assert |after.Keys| == |before.Keys| - |set id | id in ids|;
  }

  /** What the cloud confirmed is in the synced directory, and what it refused is in the failed one. */
  ghost predicate Filed(d: Disk, response: Response) {
    && (forall id :: id in response.accepted || id in response.duplicates ==> id in d.synced)
    && (forall r :: r in response.rejected ==> RejectedEvent(r.0) in d.failed)
  }

  /** Files a validated acknowledgement: confirmed events to the synced directory, refused ones to the failed one. */
  method FileAcknowledgement(store: Store, response: Response, events: seq<Event>, ghost cloud: set<EventId>) returns (ok: bool, ghost ws: seq<Write>)
    requires ExactPartition(response, Ids(events))
    requires forall e :: e in events ==> Holds(store.OnDisk(), e)
    requires forall id :: id in response.accepted || id in response.duplicates ==> id in cloud
    modifies store
    ensures Replay(old(store.OnDisk()), ws, cloud) == Some(store.OnDisk())
    ensures ok ==> store.pending.Keys == old(store.pending).Keys - (set id | id in Ids(events)) && Filed(store.OnDisk(), response)
    ensures store.pending.Keys <= old(store.pending).Keys
    ensures (forall e :: e in events ==> ValidEventId(e.id)) ==> ok
    ensures Files(old(store.OnDisk()), store.OnDisk(), response)
  {
    ghost var start := store.OnDisk();
    ok, ws := FileConfirmed(store, response, events, cloud);
    if !ok {
      return;
    }
    ghost var mid, more, done := store.OnDisk(), [], 0;
    ok, more, done := store.MarkFailed(response.rejected, cloud);
    ReplayAppend(start, ws, mid, more, cloud);
    ws := ws + more;
    FiledInTwo(start, mid, store.OnDisk(), response, done);
    if ok {
      FiledWhole(start, mid, store.OnDisk(), response, Ids(events));
    }
  }

  lemma FiledWhole(start: Disk, mid: Disk, end: Disk, response: Response, ids: seq<EventId>)
    requires ExactPartition(response, ids)
    requires mid.pending.Keys == start.pending.Keys - (set id | id in response.accepted + response.duplicates)
    requires forall id :: id in response.accepted || id in response.duplicates ==> id in mid.synced
    requires RejectedFrom(mid, end, response.rejected[..|response.rejected|])
    ensures end.pending.Keys == start.pending.Keys - (set id | id in ids) && Filed(end, response)
  {
    PartitionMembers(response, ids);
    RefusedIds(response);
    WholePrefix(response.rejected);
    assert end.pending.Keys == mid.pending.Keys - RejectedSet(response.rejected);
  }

  /** The first half: the confirmed events. */
  method FileConfirmed(store: Store, response: Response, events: seq<Event>, ghost cloud: set<EventId>) returns (ok: bool, ghost ws: seq<Write>)
    requires ExactPartition(response, Ids(events))
    requires forall e :: e in events ==> Holds(store.OnDisk(), e)
    requires forall id :: id in response.accepted || id in response.duplicates ==> id in cloud
    modifies store`pending, store`synced
    ensures Replay(old(store.OnDisk()), ws, cloud) == Some(store.OnDisk())
    ensures Files(old(store.OnDisk()), store.OnDisk(), response)
    ensures ok ==>
              && store.pending.Keys == old(store.pending).Keys - (set id | id in response.accepted + response.duplicates)
              && (forall id :: id in response.accepted || id in response.duplicates ==> id in store.synced)
    ensures (forall e :: e in events ==> ValidEventId(e.id)) ==> ok && Rejectable(store.OnDisk(), response.rejected)
  {
    PartitionMembers(response, Ids(events));
    RefusedIds(response);
    var confirmed := response.accepted + response.duplicates;
    ghost var start := store.OnDisk();
    forall id | id in Ids(events)
      ensures ReadablePending(start, id) && ((forall e :: e in events ==> ValidEventId(e.id)) ==> ValidEventId(id))
    {
      var k := MemberOfId(events, id);
      assert Holds(start, events[k]);
    }
    ok, ws := store.MarkSynced(confirmed, cloud);
  }

  /** `syncOnce`: prepare, send, and either file the answer or release the batch. The cloud changes between the writes that prepare
      the batch and those that file the answer. */
  method SyncOnce(store: Store, cloud: EventRepository, batchSize: int, link: Link, limits: Limits, encode: Event -> Encoded)
    returns (ok: bool, processed: int, ghost attempt: Attempt)
    requires limits.device == cloud.device && Sound(store.OnDisk(), cloud.docs.Keys)
    modifies store, cloud
    ensures old(cloud.docs).Keys <= cloud.docs.Keys && Sound(store.OnDisk(), cloud.docs.Keys)
    ensures Leads(old(store.OnDisk()), old(cloud.docs.Keys), attempt.steps, store.OnDisk(), cloud.docs.Keys)
    ensures store.pending.Keys <= old(store.pending).Keys
    ensures ok && processed < batchSize ==> store.pending == map[]
    ensures ok && processed >= batchSize ==> |store.pending| + processed <= |old(store.pending)|
    ensures ok ==> 0 <= processed <= batchSize
    ensures ok && processed > 0 ==>
              && processed == |attempt.sent| && attempt.answer.Some? && ExactPartition(attempt.answer.value, attempt.sent)
              && Filed(store.OnDisk(), attempt.answer.value) && forall id :: id in attempt.sent ==> id !in store.pending
    ensures link.Up? && 0 < batchSize <= MAX_BATCH_SIZE && (forall id :: id in old(store.pending) ==> ValidEventId(id)) ==> ok
    ensures Judged(old(store.OnDisk()), store.OnDisk(), [attempt], encode, limits)
  {
    ghost var start, known := store.OnDisk(), cloud.docs.Keys;
    var events;
    ghost var ws;
    processed := 0;
    ok, events, ws := store.PrepareBatch(batchSize, known);
    ghost var prepared := store.OnDisk();
    WritesLead(start, ws, known, prepared);
    attempt := Attempt([], None, Stores(ws));
    PreparedIsJudged(start, prepared, Ids(events), attempt, encode, limits);
    if !ok || events == [] {
      return;
    }
    ghost var answer, more;
    ok, answer, more := UploadBatch(store, cloud, events, link, limits, encode);
    BatchLeads(start, known, ws, prepared, cloud.docs.Keys, more, store.OnDisk());
    attempt := Attempt(Ids(events), answer, BatchSteps(ws, cloud.docs.Keys, more));
    UploadIsJudged(start, prepared, store.OnDisk(), events, attempt, encode, limits);
    if ok {
      processed := |events|;
      KeysBound(prepared.pending, start.pending);
    }
  }

  /** The part of an attempt that follows the preparation of its batch. */
  method UploadBatch(store: Store, cloud: EventRepository, events: seq<Event>, link: Link, limits: Limits, encode: Event -> Encoded)
    returns (ok: bool, ghost answer: Option<Response>, ghost ws: seq<Write>)
    requires limits.device == cloud.device && Distinct(Ids(events)) && forall e :: e in events ==> Holds(store.OnDisk(), e)
    modifies store, cloud
    ensures old(cloud.docs).Keys <= cloud.docs.Keys && Replay(old(store.OnDisk()), ws, cloud.docs.Keys) == Some(store.OnDisk())
    ensures store.pending.Keys <= old(store.pending).Keys
    ensures ok ==>
              && answer.Some? && ExactPartition(answer.value, Ids(events)) && Filed(store.OnDisk(), answer.value)
              && |store.pending| + |events| == |old(store.pending)|
              && store.pending.Keys == old(store.pending).Keys - (set id | id in Ids(events))
    ensures link.Up? && 0 < |events| <= MAX_BATCH_SIZE && (forall id :: id in old(store.pending) ==> ValidEventId(id)) ==> ok
    ensures answer.None? ==> Releases(old(store.OnDisk()), store.OnDisk(), Ids(events))
    ensures answer.Some? ==>
              && Files(old(store.OnDisk()), store.OnDisk(), answer.value) && ExactPartition(answer.value, Ids(events))
              && exists known :: Sorts(events, encode, limits, known, answer.value)
  {
    ghost var prepared := store.pending;
    AllHeld(store.OnDisk(), events);
    var answered, response := Send(cloud, events, link, limits, encode);
    ok, answer, ws := Conclude(store, answered, response, events, cloud.docs.Keys);
    if ok {
      Drained(prepared, store.pending, Ids(events));
    }
  }

  lemma AllHeld(d: Disk, events: seq<Event>)
    requires forall e :: e in events ==> Holds(d, e)
    ensures (forall e :: e in events ==> e.id in d.pending) && forall id :: id in Ids(events) ==> id in d.pending
  {
    forall id | id in Ids(events) ensures id in d.pending {
      var k :| 0 <= k < |Ids(events)| && Ids(events)[k] == id;
      assert Holds(d, events[k]);
    }
  }

  /** What happens to a batch once it has been sent: the answer is checked and filed, or the batch is released. */
  method Conclude(store: Store, answered: bool, response: Response, events: seq<Event>, ghost cloud: set<EventId>)
    returns (ok: bool, ghost answer: Option<Response>, ghost ws: seq<Write>)
    requires forall e :: e in events ==> Holds(store.OnDisk(), e)
    requires answered ==> ValidAcknowledgement(response, Request("request", response.deviceId, Ids(events)))
    requires answered ==> forall id :: id in response.accepted || id in response.duplicates ==> id in cloud
    modifies store
    ensures Replay(old(store.OnDisk()), ws, cloud) == Some(store.OnDisk())
    ensures store.pending.Keys <= old(store.pending).Keys
    ensures ok ==>
              && answer.Some? && ExactPartition(answer.value, Ids(events)) && Filed(store.OnDisk(), answer.value)
              && store.pending.Keys == old(store.pending).Keys - (set id | id in Ids(events))
    ensures answered && (forall e :: e in events ==> ValidEventId(e.id)) ==> ok
    ensures answer.Some? ==> answered && answer.value == response && Files(old(store.OnDisk()), store.OnDisk(), response)
    ensures answer.None? ==> Releases(old(store.OnDisk()), store.OnDisk(), Ids(events))
    ensures answer.Some? ==> ExactPartition(response, Ids(events))
  {
    var valid := false;
    if answered {
      valid := ValidateResponse(response, Request("request", response.deviceId, Ids(events)));
    }
    if valid {
      answer := Some(response);
      ok, ws := FileAcknowledgement(store, response, events, cloud);
    } else {
      answer := None;
      ok, ws := store.Release(Ids(events), "upload failed", cloud);
      ok := false;
    }
  }

  function BatchSteps(before: seq<Write>, created: set<EventId>, after: seq<Write>): seq<Step> {
    Stores(before) + [CloudCreates(created)] + Stores(after)
  }

  lemma BatchLeads(start: Disk, known: set<EventId>, before: seq<Write>, prepared: Disk, created: set<EventId>, after: seq<Write>, end: Disk)
    requires Replay(start, before, known) == Some(prepared) && known <= created && Replay(prepared, after, created) == Some(end)
    requires Sound(prepared, known)
    ensures Leads(start, known, BatchSteps(before, created, after), end, created) && Sound(end, created)
  {
    SoundGrows(prepared, known, created);
    SoundReplay(prepared, after, created);
    WritesLead(start, before, known, prepared);
    WritesLead(prepared, after, created, end);
    PreparedAndSent(start, known, Stores(before), prepared, created);
    LeadsAppend(start, known, Stores(before) + [CloudCreates(created)], prepared, created, Stores(after), end, created);
  }

  /** One request: it may not reach the cloud, and its answer may not come back. */
  method Send(cloud: EventRepository, events: seq<Event>, link: Link, limits: Limits, encode: Event -> Encoded)
    returns (answered: bool, response: Response)
    requires limits.device == cloud.device
    modifies cloud
    ensures old(cloud.docs).Keys <= cloud.docs.Keys
    ensures answered ==> ValidAcknowledgement(response, Request("request", cloud.device, Ids(events)))
    ensures answered ==> exists known :: Sorts(events, encode, limits, known, response)
    ensures answered ==> forall id :: id in response.accepted || id in response.duplicates ==> id in cloud.docs
    ensures link.Up? && 0 < |events| <= MAX_BATCH_SIZE && Distinct(Ids(events)) && (forall e :: e in events ==> ValidEventId(e.id)) ==> answered
  {
    answered, response := false, Response(PROTOCOL_VERSION, "request", cloud.device, [], [], [], 0);
    if !link.Down? {
      answered, response := Ingest(cloud, events, "request", limits, encode);
      answered := answered && link.Up?;
    }
  }

  lemma PreparedAndSent(start: Disk, known: set<EventId>, steps: seq<Step>, prepared: Disk, created: set<EventId>)
    requires Leads(start, known, steps, prepared, known) && known <= created
    ensures Leads(start, known, steps + [CloudCreates(created)], prepared, created)
  {
    CloudLeads(prepared, known, created);
    assert known + created == created;
    LeadsAppend(start, known, steps, prepared, known, [CloudCreates(created)], prepared, created);
  }

  lemma SoundGrows(d: Disk, cloud: set<EventId>, more: set<EventId>)
    requires Sound(d, cloud) && cloud <= more
    ensures Sound(d, more)
  {
  }

  lemma KeysBound<V>(small: map<EventId, V>, large: map<EventId, V>)
    requires small.Keys <= large.Keys
    ensures |small| <= |large|
  {
    assert |large.Keys - small.Keys| == |large.Keys| - |small.Keys|;
  }

  /** `SyncNow`: repeats while batches are full. It always ends, and when it reports success the queue is empty. With an
      answering cloud it does report success. Its steps continue any run of the event pipeline. */
  method SyncNow(store: Store, cloud: EventRepository, batchSize: int, links: nat -> Link, limits: Limits, encode: Event -> Encoded)
    returns (ok: bool, total: int, ghost steps: seq<Step>, ghost attempts: seq<Attempt>)
    requires limits.device == cloud.device && Sound(store.OnDisk(), cloud.docs.Keys)
    requires 1 <= batchSize <= MAX_BATCH_SIZE
    modifies store, cloud
    ensures ok ==> store.pending == map[]
    ensures Sound(store.OnDisk(), cloud.docs.Keys) && old(cloud.docs).Keys <= cloud.docs.Keys
    ensures Leads(old(store.OnDisk()), old(cloud.docs.Keys), steps, store.OnDisk(), cloud.docs.Keys)
    ensures (forall k: nat :: links(k).Up?) && (forall id :: id in old(store.pending) ==> ValidEventId(id)) ==> ok
    ensures Judged(old(store.OnDisk()), store.OnDisk(), attempts, encode, limits)
  {
    total, steps, attempts := 0, [], [];
    var round: nat := 0;
    ghost var disk, known := store.OnDisk(), cloud.docs.Keys;
    assert Follow(Here(disk, known), []) == Some(Here(disk, known));
    while true
      invariant Sound(store.OnDisk(), cloud.docs.Keys) && known <= cloud.docs.Keys
      invariant store.pending.Keys <= disk.pending.Keys
      invariant Leads(disk, known, steps, store.OnDisk(), cloud.docs.Keys)
      invariant Judged(disk, store.OnDisk(), attempts, encode, limits)
      decreases |store.pending|
    {
      var processed;
      ghost var attempt, disk1, known1 := Attempt([], None, []), store.OnDisk(), cloud.docs.Keys;
      ok, processed, attempt := SyncOnce(store, cloud, batchSize, links(round), limits, encode);
      LeadsAppend(disk, known, steps, disk1, known1, attempt.steps, store.OnDisk(), cloud.docs.Keys);
      JudgedOneMore(disk, disk1, store.OnDisk(), attempts, attempt, encode, limits);
      steps, attempts := steps + attempt.steps, attempts + [attempt];
      total := total + processed;
      if !ok || processed < batchSize {
        return;
      }
      round := round + 1;
    }
  }

  /** So after a successful upload loop every event that the run ever stored is in the cloud, unless it was rejected or its record
      was damaged. */
  lemma DrainedMeansDelivered(states: seq<State>, steps: seq<Step>, more: seq<Step>, disk: Disk, cloud: set<EventId>, id: EventId)
    requires IsRun(states, steps) && id in states[|steps|].put
    requires Leads(states[|steps|].disk, states[|steps|].cloud, more, disk, cloud) && disk.pending == map[]
    ensures id in cloud || RejectedEvent(id) in disk.failed || Quarantined(disk, id)
  {
    var states' := Continues(states, steps, more);
    assert more[..|more|] == more;
    PutGrows(states', steps + more, |steps|, |steps + more|, id);
    NoLossNoFalseSync(states', steps + more, |steps + more|);
    assert Accounted(states'[|steps + more|], id);
  }

  lemma {:induction false} PutGrows(states: seq<State>, steps: seq<Step>, m: nat, n: nat, id: EventId)
    requires IsRun(states, steps) && m <= n <= |steps| && id in states[m].put
    ensures id in states[n].put
    decreases n
  {
    if m < n {
      PutGrows(states, steps, m, n - 1, id);
    }
  }
}
