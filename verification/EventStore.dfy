/** The store object: every method reports the durable writes it made, in order. Stopping it between two of
    them, by a crash or an I/O error, leaves the directories where a prefix of that list leads. */
module EventStores {
  import opened Base
  import opened EventDisk

  predicate LowerHex(c: char) {
    '0' <= c <= '9' || 'a' <= c <= 'f'
  }

  predicate ValidEventId(id: EventId) {
    |id| == 64 && forall i :: 0 <= i < |id| ==> LowerHex(id[i])
  }

  predicate Settled(file: File) {
    file.Readable? && !file.record.state.Uploading?
  }

  /** The queue holds exactly this event under its id. */
  predicate Holds(d: Disk, e: Event) {
    ReadablePending(d, e.id) && d.pending[e.id].record.event == e
  }

  /** A readable record that is still to be uploaded. */
  predicate Uploadable(d: Disk, id: EventId) {
    ReadablePending(d, id) && (d.pending[id].record.state == Pending || d.pending[id].record.state == Uploading)
  }

  /** A readable record in the queue that was rejected before. */
  predicate SetAside(d: Disk, id: EventId) {
    ReadablePending(d, id) && d.pending[id].record.state == Failed
  }

  /** The record as an upload takes it. */
  function Taken(d: Disk, id: EventId): File
    requires ReadablePending(d, id)
  {
    Readable(d.pending[id].record.(state := Uploading, attempts := d.pending[id].record.attempts + 1, error := ""))
  }

  /** What the preparation of a batch makes of the queue: it takes records that are to be uploaded, drops only others, and rejects
      only those that were rejected before. */
  ghost predicate PreparedFrom(d: Disk, d': Disk, taken: seq<EventId>) {
    QueuePrepared(d, d', taken) && OthersPrepared(d, d')
  }

  ghost predicate QueuePrepared(d: Disk, d': Disk, taken: seq<EventId>) {
    && d'.pending.Keys <= d.pending.Keys
    && (forall id :: id in taken ==> Uploadable(d, id) && id in d'.pending && d'.pending[id] == Taken(d, id))
    && (forall id :: id in d'.pending && id !in taken ==> d'.pending[id] == d.pending[id])
    && (forall id :: id in d.pending && id !in d'.pending ==> !Uploadable(d, id))
  }

  ghost predicate OthersPrepared(d: Disk, d': Disk) {
    && d.synced.Keys <= d'.synced.Keys
    && (forall id :: RejectedEvent(id) in d'.failed <==> RejectedEvent(id) in d.failed || (SetAside(d, id) && id !in d'.pending))
    && (forall id :: id in d'.synced ==> id in d.synced || (ReadablePending(d, id) && d.pending[id].record.state == Synced))
  }

  lemma OthersUntouched(d: Disk, d': Disk, id: EventId)
    requires d'.pending - {id} == d.pending - {id}
    ensures forall x :: x != id ==> (x in d'.pending <==> x in d.pending) && (x in d.pending ==> d'.pending[x] == d.pending[x])
  {
    forall x | x != id
      ensures (x in d'.pending <==> x in d.pending) && (x in d.pending ==> d'.pending[x] == d.pending[x])
    {
      assert x in d.pending <==> x in d.pending - {id};
      assert x in d'.pending <==> x in d'.pending - {id};
      if x in d.pending {
        assert (d.pending - {id})[x] == d.pending[x] && (d'.pending - {id})[x] == d'.pending[x];
      }
    }
  }

  ghost function RejectedSet(rejections: seq<(EventId, string)>): set<EventId> {
    set r | r in rejections :: r.0
  }

  /** Each of these records has left the queue for the failed directory, with the code of its rejection; the rest is as it was. */
  ghost predicate RejectedFrom(d: Disk, d': Disk, rejections: seq<(EventId, string)>) {
    && d'.synced == d.synced && d'.pending == d.pending - RejectedSet(rejections)
    && (forall r :: r in rejections ==>
          && ReadablePending(d, r.0) && RejectedEvent(r.0) in d'.failed
          && d'.failed[RejectedEvent(r.0)] == Some(d.pending[r.0].record.(state := Failed, error := r.1)))
    && (forall name :: name in d.failed ==> name in d'.failed)
    && (forall name :: name in d'.failed && !(name.RejectedEvent? && name.id in RejectedSet(rejections)) ==>
          name in d.failed && d'.failed[name] == d.failed[name])
  }

  lemma RejectedOneMore(d: Disk, mid: Disk, d': Disk, rejections: seq<(EventId, string)>, i: nat)
    requires i < |rejections| && RejectedFrom(d, mid, rejections[..i]) && ReadablePending(mid, rejections[i].0)
    requires var id, error := rejections[i].0, rejections[i].1;
             d' == Disk(mid.pending - {id}, mid.synced,
                        mid.failed[RejectedEvent(id) := Some(mid.pending[id].record.(state := Failed, error := error))])
    ensures RejectedFrom(d, d', rejections[..i + 1])
  {
    IdsStep(rejections, i);
    PrefixStep(rejections, i);
    var id := rejections[i].0;
    assert mid.pending[id] == d.pending[id] && id !in RejectedSet(rejections[..i]);
    forall r | r in rejections[..i] ensures r.0 != id {
      assert r.0 in RejectedSet(rejections[..i]);
    }
    assert d'.pending == d.pending - RejectedSet(rejections[..i + 1]);
  }

  ghost predicate AllFailed(rejections: seq<(EventId, string)>, failed: map<FailedName, Option<Record>>) {
    forall r :: r in rejections ==> RejectedEvent(r.0) in failed
  }

  lemma PreparedOneMore(d: Disk, mid: Disk, d': Disk, taken: seq<EventId>, id: EventId, takes: bool)
    requires PreparedFrom(d, mid, taken) && id in mid.pending && id !in taken
    requires forall x :: x != id ==> (x in d'.pending <==> x in mid.pending) && (x in mid.pending ==> d'.pending[x] == mid.pending[x])
    requires id in d'.pending <==> takes
    requires takes <==> Uploadable(mid, id)
    requires takes ==> d'.pending[id] == Taken(mid, id)
    requires forall x :: RejectedEvent(x) in d'.failed <==> RejectedEvent(x) in mid.failed || (x == id && SetAside(mid, id))
    requires forall x :: x in d'.synced ==> x in mid.synced || (x == id && ReadablePending(mid, id) && mid.pending[id].record.state == Synced)
    requires mid.synced.Keys <= d'.synced.Keys
    ensures PreparedFrom(d, d', if takes then taken + [id] else taken)
  {
    QueueOneMore(d, mid, d', taken, id, takes);
    OthersOneMore(d, mid, d', id);
  }

  lemma QueueOneMore(d: Disk, mid: Disk, d': Disk, taken: seq<EventId>, id: EventId, takes: bool)
    requires QueuePrepared(d, mid, taken) && id in mid.pending && id !in taken
    requires forall x :: x != id ==> (x in d'.pending <==> x in mid.pending) && (x in mid.pending ==> d'.pending[x] == mid.pending[x])
    requires id in d'.pending <==> takes
    requires takes <==> Uploadable(mid, id)
    requires takes ==> d'.pending[id] == Taken(mid, id)
    ensures QueuePrepared(d, d', if takes then taken + [id] else taken)
    ensures mid.pending[id] == d.pending[id]
  {
    assert mid.pending[id] == d.pending[id];
  }

  lemma OthersOneMore(d: Disk, mid: Disk, d': Disk, id: EventId)
    requires OthersPrepared(d, mid) && id in mid.pending && id in d.pending && mid.pending[id] == d.pending[id]
    requires forall x :: x != id ==> (x in d'.pending <==> x in mid.pending)
    requires id in d'.pending <==> Uploadable(mid, id)
    requires forall x :: RejectedEvent(x) in d'.failed <==> RejectedEvent(x) in mid.failed || (x == id && SetAside(mid, id))
    requires forall x :: x in d'.synced ==> x in mid.synced || (x == id && ReadablePending(mid, id) && mid.pending[id].record.state == Synced)
    requires mid.synced.Keys <= d'.synced.Keys
    ensures OthersPrepared(d, d')
  {
  }

  /** The queue as recovery leaves it, once all but `left` was visited. */
  ghost predicate RecoveredFrom(d: Disk, d': Disk, left: set<EventId>) {
    && d'.synced == d.synced && left <= d'.pending.Keys <= d.pending.Keys
    && (forall id :: id in left ==> d'.pending[id] == d.pending[id])
    && (forall id :: id in d.pending && id !in left ==> (id in d'.pending <==> Survives(d, id)))
    && (forall id :: id in d'.pending && id !in left ==> RecoveredFile(d.pending[id], d'.pending[id]))
    && (forall id :: id in d.pending && id !in left && id !in d.synced && d.pending[id].Unreadable? ==>
          CorruptCopy(id, d.pending[id].content) in d'.failed)
    && (forall id :: RejectedEvent(id) in d'.failed <==> RejectedEvent(id) in d.failed)
    && d.failed.Keys <= d'.failed.Keys
  }

  /** The record is as it was; only one that was being uploaded is to be uploaded again. */
  predicate RecoveredFile(before: File, after: File) {
    && before.Readable? && after.Readable?
    && if before.record.state == Uploading then after.record == before.record.(state := Pending, error := after.record.error)
       else after == before
  }

  /** The record is as it was, or to be uploaded again. */
  predicate ReleasedFile(before: File, after: File) {
    || after == before
    || (before.Readable? && after.Readable? && after.record == before.record.(state := Pending, error := after.record.error))
  }

  lemma RecoveredOneMore(d: Disk, mid: Disk, d': Disk, left: set<EventId>, id: EventId)
    requires RecoveredFrom(d, mid, left) && id in left && d'.synced == mid.synced
    requires forall x :: x != id ==> (x in d'.pending <==> x in mid.pending) && (x in mid.pending ==> d'.pending[x] == mid.pending[x])
    requires id in d'.pending <==> Survives(mid, id)
    requires id in d'.pending ==> RecoveredFile(mid.pending[id], d'.pending[id])
    requires mid.failed.Keys <= d'.failed.Keys
    requires forall x :: RejectedEvent(x) in d'.failed <==> RejectedEvent(x) in mid.failed
    requires id !in mid.synced && mid.pending[id].Unreadable? ==> CorruptCopy(id, mid.pending[id].content) in d'.failed
    ensures RecoveredFrom(d, d', left - {id})
  {
  }

  /** The batch has distinct events, all held in the queue, and of the queue only `left` was not visited. */
  ghost predicate InHand(d: Disk, events: seq<Event>, left: set<EventId>) {
    && left <= d.pending.Keys
    && Distinct(Ids(events))
    && (forall id :: id in Ids(events) ==> id !in left)
    && (forall e :: e in events ==> Holds(d, e))
    && (forall id :: id in d.pending && id !in left ==> id in Ids(events))
  }

  lemma OneMoreInHand(d: Disk, d': Disk, events: seq<Event>, left: set<EventId>, id: EventId, taken: Option<Event>)
    requires InHand(d, events, left) && id in left
    requires forall x :: x != id ==> (x in d'.pending <==> x in d.pending) && (x in d.pending ==> d'.pending[x] == d.pending[x])
    requires id in d'.pending <==> taken.Some?
    requires taken.Some? ==> taken.value.id == id && Holds(d', taken.value)
    ensures InHand(d', if taken.Some? then events + [taken.value] else events, left - {id})
    ensures taken.Some? ==> Ids(events + [taken.value]) == Ids(events) + [id]
  {
    forall e | e in events ensures e.id != id {
      var k :| 0 <= k < |events| && events[k] == e;
      assert Ids(events)[k] == e.id;
    }
    if taken.Some? {
      var more := events + [taken.value];
      assert Ids(more) == Ids(events) + [id];
      forall e | e in more ensures Holds(d', e) {
        assert e in events || e == taken.value;
        assert e in events ==> Holds(d, e);
      }
    } else {
      forall e | e in events ensures Holds(d', e) {
        assert Holds(d, e);
      }
    }
  }

  lemma IdsStep(rejections: seq<(EventId, string)>, i: nat)
    requires i < |rejections|
    ensures rejections[i] in rejections[..i + 1]
    ensures RejectedSet(rejections[..i + 1]) == RejectedSet(rejections[..i]) + {rejections[i].0}
  {
    PrefixStep(rejections, i);
    assert rejections[i] in rejections[..i + 1];
    assert forall r :: r in rejections[..i] ==> r in rejections[..i + 1];
  }

  /** Distinct events, all readable in the queue. */
  ghost predicate Rejectable(d: Disk, rejections: seq<(EventId, string)>) {
    && (forall i, j :: 0 <= i < j < |rejections| ==> rejections[i].0 != rejections[j].0)
    && forall r :: r in rejections ==> ValidEventId(r.0) && ReadablePending(d, r.0)
  }

  lemma NotYetRejected(d: Disk, rejections: seq<(EventId, string)>, i: nat)
    requires Rejectable(d, rejections) && i < |rejections|
    ensures var id := rejections[i].0;
            ValidEventId(id) && ReadablePending(d, id) && id !in RejectedSet(rejections[..i])
  {
    assert rejections[i] in rejections;
  }

  class Store {
    var pending: map<EventId, File>
    var synced: map<EventId, File>
    var failed: map<FailedName, Option<Record>>

    function OnDisk(): Disk
      reads this
    {
      Disk(pending, synced, failed)
    }

    constructor (disk: Disk)
      ensures OnDisk() == disk
    {
      pending, synced, failed := disk.pending, disk.synced, disk.failed;
    }

    /** `quarantineCorruptLocked`: preserve the bytes, then drop the unreadable queue record. */
    method Quarantine(id: EventId, ghost cloud: set<EventId>) returns (ghost ws: seq<Write>)
      requires id in pending && pending[id].Unreadable?
      modifies this`pending, this`failed
      ensures pending == old(pending) - {id}
      ensures failed == old(failed)[CorruptCopy(id, old(pending)[id].content) := None]
      ensures Replay(old(OnDisk()), ws, cloud) == Some(OnDisk())
    {
      ghost var start := OnDisk();
      ReplayStep(start, [], start, CopyCorrupt(id), cloud);
      failed := failed[CorruptCopy(id, pending[id].content) := None];
      ReplayStep(start, [CopyCorrupt(id)], OnDisk(), RemovePending(id), cloud);
      pending := pending - {id};
      ws := [CopyCorrupt(id), RemovePending(id)];
      assert [] + [CopyCorrupt(id)] == [CopyCorrupt(id)];
      assert [CopyCorrupt(id)] + [RemovePending(id)] == ws;
    }

    /** A record is written to the synced directory before it leaves the queue. */
    method MoveToSynced(id: EventId, ghost cloud: set<EventId>) returns (ghost ws: seq<Write>)
      requires id in pending && pending[id].Readable? && id in cloud
      modifies this`pending, this`synced
      ensures pending == old(pending) - {id}
      ensures synced == old(synced)[id := Readable(old(pending)[id].record.(state := Synced, error := ""))]
      ensures Replay(old(OnDisk()), ws, cloud) == Some(OnDisk())
    {
      ghost var start := OnDisk();
      ReplayStep(start, [], start, CopySynced(id), cloud);
      synced := synced[id := Readable(pending[id].record.(state := Synced, error := ""))];
      ReplayStep(start, [CopySynced(id)], OnDisk(), RemovePending(id), cloud);
      pending := pending - {id};
      ws := [CopySynced(id), RemovePending(id)];
      assert [] + [CopySynced(id)] == [CopySynced(id)];
      assert [CopySynced(id)] + [RemovePending(id)] == ws;
    }

    /** A rejected record is written to the failed directory before it leaves the queue. */
    method MoveToFailed(id: EventId, error: string, ghost cloud: set<EventId>) returns (ghost ws: seq<Write>)
      requires id in pending && pending[id].Readable?
      modifies this`pending, this`failed
      ensures pending == old(pending) - {id}
      ensures failed == old(failed)[RejectedEvent(id) := Some(old(pending)[id].record.(state := Failed, error := error))]
      ensures ws == [CopyFailed(id, error), RemovePending(id)]
      ensures Replay(old(OnDisk()), ws, cloud) == Some(OnDisk())
    {
      ghost var start := OnDisk();
      ReplayStep(start, [], start, CopyFailed(id, error), cloud);
      failed := failed[RejectedEvent(id) := Some(pending[id].record.(state := Failed, error := error))];
      ReplayStep(start, [CopyFailed(id, error)], OnDisk(), RemovePending(id), cloud);
      pending := pending - {id};
      ws := [CopyFailed(id, error), RemovePending(id)];
      assert [] + [CopyFailed(id, error)] == [CopyFailed(id, error)];
      assert [CopyFailed(id, error)] + [RemovePending(id)] == ws;
    }

    /** `MoveToFailed` after other writes. */
    method Reject(id: EventId, error: string, ghost start: Disk, ghost before: seq<Write>, ghost cloud: set<EventId>) returns (ghost ws: seq<Write>)
      requires id in pending && pending[id].Readable? && Replay(start, before, cloud) == Some(OnDisk())
      modifies this`pending, this`failed
      ensures pending == old(pending) - {id}
      ensures failed == old(failed)[RejectedEvent(id) := Some(old(pending)[id].record.(state := Failed, error := error))]
      ensures ws == before + [CopyFailed(id, error), RemovePending(id)] && Replay(start, ws, cloud) == Some(OnDisk())
    {
      ghost var mid := OnDisk();
      ghost var more := MoveToFailed(id, error, cloud);
      ReplayAppend(start, before, mid, more, cloud);
      ws := before + more;
    }

    /** Rewrites a queue record in place; the event itself is never altered. */
    method Restate(id: EventId, state: SyncState, attempts: nat, error: string, ghost cloud: set<EventId>) returns (ghost ws: seq<Write>)
      requires id in pending && pending[id].Readable? && (state.Pending? || state.Uploading?)
      modifies this`pending
      ensures pending == old(pending)[id := Readable(old(pending)[id].record.(state := state, attempts := attempts, error := error))]
      ensures Replay(old(OnDisk()), ws, cloud) == Some(OnDisk())
    {
      ghost var w := Rewrite(id, state, attempts, error);
      ReplayStep(OnDisk(), [], OnDisk(), w, cloud);
      pending := pending[id := Readable(pending[id].record.(state := state, attempts := attempts, error := error))];
      ws := [w];
      assert [] + [w] == ws;
    }

    method Dequeue(id: EventId, ghost cloud: set<EventId>) returns (ghost ws: seq<Write>)
      requires id in pending && id in synced
      modifies this`pending
      ensures pending == old(pending) - {id}
      ensures Replay(old(OnDisk()), ws, cloud) == Some(OnDisk())
    {
      ReplayStep(OnDisk(), [], OnDisk(), RemovePending(id), cloud);
      pending := pending - {id};
      ws := [RemovePending(id)];
      assert [] + [RemovePending(id)] == ws;
    }

    /** One step of recovery. */
    method RecoverOne(id: EventId, ghost cloud: set<EventId>) returns (ghost ws: seq<Write>)
      requires id in pending
      modifies this`pending, this`failed
      ensures Replay(old(OnDisk()), ws, cloud) == Some(OnDisk())
      ensures pending - {id} == old(pending) - {id}
      ensures id in pending <==> Survives(old(OnDisk()), id)
      ensures id in pending ==> RecoveredFile(old(pending)[id], pending[id])
      ensures old(failed).Keys <= failed.Keys
      ensures forall x :: RejectedEvent(x) in failed <==> RejectedEvent(x) in old(failed)
      ensures id !in synced && old(pending)[id].Unreadable? ==> CorruptCopy(id, old(pending)[id].content) in failed
    {
      ws := [];
      if id in synced {
        ws := Dequeue(id, cloud);
      } else if pending[id].Unreadable? {
        ws := Quarantine(id, cloud);
      } else if pending[id].record.state.Uploading? {
        ws := Restate(id, Pending, pending[id].record.attempts, "recovered after an interrupted upload", cloud);
      }
    }

    /** `recoverPending`, run by `Open`: whatever the crash left behind, afterwards no event is both pending and
        synced, no pending record is unreadable, and none is still uploading. */
    method RecoverPending(ghost cloud: set<EventId>) returns (ghost ws: seq<Write>)
      modifies this`pending, this`failed
      ensures Replay(old(OnDisk()), ws, cloud) == Some(OnDisk())
      ensures forall id :: id in pending ==> id !in synced && Settled(pending[id])
      ensures forall id :: id in pending <==> old(Survives(OnDisk(), id))
      ensures forall id :: id in pending ==> id in old(pending) && RecoveredFile(old(pending)[id], pending[id])
      ensures forall id :: QueuedAndRejected(OnDisk(), id) <==> old(QueuedAndRejected(OnDisk(), id) && Survives(OnDisk(), id))
      ensures forall id :: id in old(pending) && id !in synced && old(pending)[id].Unreadable? ==> CorruptCopy(id, old(pending)[id].content) in failed
    {
      ghost var start := OnDisk();
      var left := pending.Keys;
      ws := [];
      while left != {}
        invariant Replay(start, ws, cloud) == Some(OnDisk()) && RecoveredFrom(start, OnDisk(), left)
        decreases left
      {
        var id :| id in left;
        ghost var before := OnDisk();
        ghost var more := RecoverOne(id, cloud);
        ReplayAppend(start, ws, before, more, cloud);
        ws := ws + more;
        OthersUntouched(before, OnDisk(), id);
        RecoveredOneMore(start, before, OnDisk(), left, id);
        left := left - {id};
      }
    }

    /** `PutIfAbsent`: an event enters the queue only if no directory knows its id. */
    method PutIfAbsent(event: Event, now: int, ghost cloud: set<EventId>) returns (ok: bool, created: bool, ghost ws: seq<Write>)
      modifies this`pending
      ensures ok <==> ValidEventId(event.id)
      ensures created <==> ok && !old(Known(OnDisk(), event.id))
      ensures pending == if created then old(pending)[event.id := Readable(Record(event, now, 0, Pending, ""))] else old(pending)
      ensures ok ==> Known(OnDisk(), event.id)
      ensures Replay(old(OnDisk()), ws, cloud) == Some(OnDisk())
    {
      ws := [];
      if !ValidEventId(event.id) {
        return false, false, ws;
      }
      if event.id in pending || event.id in synced || RejectedEvent(event.id) in failed {
        return true, false, ws;
      }
      ghost var w := Create(Record(event, now, 0, Pending, ""));
      ReplayStep(OnDisk(), [], OnDisk(), w, cloud);
      pending := pending[event.id := Readable(Record(event, now, 0, Pending, ""))];
      assert [] + [w] == [w];
      return true, true, [w];
    }

    /** One step of batch preparation: takes the event, or moves a record that does not belong in the queue. */
    method PrepareOne(id: EventId, ghost cloud: set<EventId>) returns (taken: Option<Event>, ghost ws: seq<Write>)
      requires id in pending && Sound(OnDisk(), cloud)
      modifies this
      ensures Replay(old(OnDisk()), ws, cloud) == Some(OnDisk()) && Sound(OnDisk(), cloud)
      ensures pending - {id} == old(pending) - {id}
      ensures id in pending <==> taken.Some?
      ensures taken.Some? ==> taken.value.id == id && pending[id].Readable? && pending[id].record.event == taken.value
      ensures taken.Some? <==> Uploadable(old(OnDisk()), id)
      ensures taken.Some? ==> pending[id] == Taken(old(OnDisk()), id)
      ensures forall x :: RejectedEvent(x) in failed <==> RejectedEvent(x) in old(failed) || (x == id && SetAside(old(OnDisk()), id))
      ensures old(synced).Keys <= synced.Keys
      ensures forall x :: x in synced ==>
                x in old(synced) || (x == id && ReadablePending(old(OnDisk()), id) && old(pending)[id].record.state == Synced)
    {
      ghost var before := OnDisk();
      taken := None;
      if pending[id].Unreadable? {
        ws := Quarantine(id, cloud);
      } else if pending[id].record.state.Failed? {
        ws := MoveToFailed(id, pending[id].record.error, cloud);
      } else if pending[id].record.state.Synced? {
        assert ReadablePending(before, id);
        ws := MoveToSynced(id, cloud);
      } else {
        assert ReadablePending(before, id);
        ws := Restate(id, Uploading, pending[id].record.attempts + 1, "", cloud);
        taken := Some(pending[id].record.event);
      }
      SoundReplay(before, ws, cloud);
    }

    /** `PrepareOne` after other steps. */
    method PrepareNext(id: EventId, ghost start: Disk, ghost before: seq<Write>, ghost ids: seq<EventId>, ghost cloud: set<EventId>)
      returns (taken: Option<Event>, ghost ws: seq<Write>)
      requires id in pending && id !in ids && Replay(start, before, cloud) == Some(OnDisk()) && Sound(OnDisk(), cloud)
      requires PreparedFrom(start, OnDisk(), ids)
      modifies this
      ensures Replay(start, ws, cloud) == Some(OnDisk()) && Sound(OnDisk(), cloud)
      ensures PreparedFrom(start, OnDisk(), if taken.Some? then ids + [id] else ids)
      ensures pending.Keys <= old(pending).Keys
      ensures forall x :: x != id ==> (x in pending <==> x in old(pending)) && (x in old(pending) ==> pending[x] == old(pending)[x])
      ensures id in pending <==> taken.Some?
      ensures taken.Some? ==> taken.value.id == id && Holds(OnDisk(), taken.value)
    {
      ghost var mid := OnDisk();
      ghost var more;
      taken, more := PrepareOne(id, cloud);
      ReplayAppend(start, before, mid, more, cloud);
      ws := before + more;
      OthersUntouched(mid, OnDisk(), id);
      PreparedOneMore(start, mid, OnDisk(), ids, id, taken.Some?);
    }

    /** `PrepareBatch`: marks up to `limit` queue records as uploading. A batch below the limit holds the whole queue. */
    method PrepareBatch(limit: int, ghost cloud: set<EventId>) returns (ok: bool, events: seq<Event>, ghost ws: seq<Write>)
      requires Sound(OnDisk(), cloud)
      modifies this
      ensures ok <==> limit > 0
      ensures !ok ==> OnDisk() == old(OnDisk()) && events == []
      ensures Replay(old(OnDisk()), ws, cloud) == Some(OnDisk()) && Sound(OnDisk(), cloud)
      ensures Distinct(Ids(events)) && (ok ==> |events| <= limit)
      ensures forall e :: e in events ==> Holds(OnDisk(), e)
      ensures pending.Keys <= old(pending).Keys
      ensures ok && |events| < limit ==> forall id :: id in pending ==> id in Ids(events)
      ensures PreparedFrom(old(OnDisk()), OnDisk(), Ids(events))
    {
      ghost var start := OnDisk();
      ws, events := [], [];
      if limit <= 0 {
        return false, events, ws;
      }
      var left := pending.Keys;
      while left != {} && |events| < limit
        invariant |events| <= limit
        invariant Replay(start, ws, cloud) == Some(OnDisk()) && Sound(OnDisk(), cloud)
        invariant PreparedFrom(start, OnDisk(), Ids(events)) && InHand(OnDisk(), events, left)
        decreases left
      {
        var id :| id in left;
        assert id !in Ids(events);
        ghost var before := OnDisk();
        var taken;
        taken, ws := PrepareNext(id, start, ws, Ids(events), cloud);
        OneMoreInHand(before, OnDisk(), events, left, id, taken);
        left := left - {id};
        if taken.Some? {
          events := events + [taken.value];
        }
      }
      ok := true;
    }

    /** `Release`: an upload that failed returns its records to the queue. */
    method Release(ids: seq<EventId>, cause: string, ghost cloud: set<EventId>) returns (ok: bool, ghost ws: seq<Write>)
      modifies this`pending
      ensures Replay(old(OnDisk()), ws, cloud) == Some(OnDisk())
      ensures pending.Keys == old(pending).Keys
      ensures ok ==> forall id :: id in ids && id in pending ==> pending[id].Readable? && pending[id].record.state.Pending?
      ensures forall id :: id in pending ==> ReleasedFile(old(pending)[id], pending[id]) && (id !in ids ==> pending[id] == old(pending)[id])
    {
      ghost var start := OnDisk();
      ws := [];
      for i := 0 to |ids|
        invariant Replay(start, ws, cloud) == Some(OnDisk())
        invariant pending.Keys == old(pending).Keys
        invariant forall id :: id in ids[..i] && id in pending ==> pending[id].Readable? && pending[id].record.state.Pending?
        invariant forall id :: id in pending ==> ReleasedFile(start.pending[id], pending[id]) && (id !in ids ==> pending[id] == start.pending[id])
      {
        var id := ids[i];
        PrefixStep(ids, i);
        if !ValidEventId(id) {
          return false, ws;
        }
        if id !in pending && id in synced {
          continue;
        }
        if id !in pending || pending[id].Unreadable? {
          return false, ws;
        }
        ghost var mid := OnDisk();
        ghost var more := Restate(id, Pending, pending[id].record.attempts, cause, cloud);
        ReplayAppend(start, ws, mid, more, cloud);
        ws := ws + more;
      }
      WholePrefix(ids);
      ok := true;
    }

    /** `MarkSynced`: on success every id has left the queue for the synced directory. */
    method MarkSynced(ids: seq<EventId>, ghost cloud: set<EventId>) returns (ok: bool, ghost ws: seq<Write>)
      requires forall id :: id in ids ==> id in cloud
      modifies this`pending, this`synced
      ensures Replay(old(OnDisk()), ws, cloud) == Some(OnDisk())
      ensures pending.Keys <= old(pending).Keys
      ensures ok ==> pending == old(pending) - (set id | id in ids)
      ensures ok ==> forall id :: id in ids ==> id in synced
      ensures forall id :: id in pending ==> pending[id] == old(pending)[id]
      ensures forall id :: id in old(pending) && id !in pending ==> id in ids && id in synced
      ensures forall id :: id in old(synced) ==> id in synced && synced[id] == old(synced)[id]
      ensures forall id :: id in synced && id !in old(synced) ==>
                id in ids && old(ReadablePending(OnDisk(), id)) && synced[id] == Readable(old(pending)[id].record.(state := Synced, error := ""))
      ensures Distinct(ids) && (forall id :: id in ids ==> ValidEventId(id) && old(ReadablePending(OnDisk(), id))) ==> ok
    {
      ghost var start := OnDisk();
      ws := [];
      for i := 0 to |ids|
        invariant Replay(start, ws, cloud) == Some(OnDisk())
        invariant pending == old(pending) - (set id | id in ids[..i])
        invariant forall id :: id in ids[..i] ==> id in synced
        invariant forall id :: id in start.synced ==> id in synced && synced[id] == start.synced[id]
        invariant forall id :: id in synced && id !in start.synced ==>
                    id in ids && ReadablePending(start, id) && synced[id] == Readable(start.pending[id].record.(state := Synced, error := ""))
      {
        var id := ids[i];
        PrefixStep(ids, i);
        if !ValidEventId(id) {
          return false, ws;
        }
        ghost var mid, more := OnDisk(), [];
        if id in synced {
          if id in pending {
            more := Dequeue(id, cloud);
          }
        } else {
          if id !in pending || pending[id].Unreadable? {
            return false, ws;
          }
          more := MoveToSynced(id, cloud);
        }
        ReplayAppend(start, ws, mid, more, cloud);
        ws := ws + more;
      }
      WholePrefix(ids);
      ok := true;
    }

    /** `MarkFailed`: on success every rejected id has left the queue for the failed directory. */
    method MarkFailed(rejections: seq<(EventId, string)>, ghost cloud: set<EventId>) returns (ok: bool, ghost ws: seq<Write>, ghost done: nat)
      modifies this`pending, this`failed
      ensures Replay(old(OnDisk()), ws, cloud) == Some(OnDisk())
      ensures done <= |rejections| && (ok ==> done == |rejections|)
      ensures RejectedFrom(old(OnDisk()), OnDisk(), rejections[..done]) && ws == RejectionWrites(rejections[..done])
      ensures ok ==> AllFailed(rejections, failed)
      ensures Rejectable(old(OnDisk()), rejections) ==> ok
    {
      ghost var start := OnDisk();
      ws, done := [], 0;
      for i := 0 to |rejections|
        invariant Replay(start, ws, cloud) == Some(OnDisk()) && RejectedFrom(start, OnDisk(), rejections[..i])
        invariant ws == RejectionWrites(rejections[..i])
      {
        var id := rejections[i].0;
        PrefixStep(rejections, i);
        if Rejectable(start, rejections) {
          NotYetRejected(start, rejections, i);
        }
        if !ValidEventId(id) || id !in pending || pending[id].Unreadable? {
          return false, ws, i;
        }
        ghost var before := OnDisk();
        RejectionWritesStep(rejections, i);
        ws := Reject(id, rejections[i].1, start, ws, cloud);
        RejectedOneMore(start, before, OnDisk(), rejections, i);
      }
      WholePrefix(rejections);
      ok, done := true, |rejections|;
    }

    /** `PruneSynced`: removes exactly the synced records first seen before the cutoff; nothing else changes. */
    method PruneSynced(cutoff: int, ghost cloud: set<EventId>) returns (ok: bool, removed: nat, ghost ws: seq<Write>)
      modifies this`synced
      ensures Replay(old(OnDisk()), ws, cloud) == Some(OnDisk())
      ensures forall id :: id in synced ==> id in old(synced) && synced[id] == old(synced)[id]
      ensures forall id :: id in old(synced) && id !in synced ==> old(synced)[id].Readable? && old(synced)[id].record.firstSeenAt < cutoff
      ensures ok ==> forall id :: id in synced ==> synced[id].Readable? && synced[id].record.firstSeenAt >= cutoff
      ensures |synced| + removed == |old(synced)|
    {
      ghost var start := OnDisk();
      ws, removed := [], 0;
      var left := synced.Keys;
      while left != {}
        invariant Replay(start, ws, cloud) == Some(OnDisk())
        invariant |synced| + removed == |start.synced|
        invariant left <= synced.Keys <= start.synced.Keys
        invariant forall id :: id in synced ==> synced[id] == start.synced[id]
        invariant forall id :: id in start.synced && id !in synced ==> start.synced[id].Readable? && start.synced[id].record.firstSeenAt < cutoff
        invariant forall id :: id in synced && id !in left ==> synced[id].Readable? && synced[id].record.firstSeenAt >= cutoff
        decreases left
      {
        var id :| id in left;
        left := left - {id};
        if synced[id].Unreadable? {
          return false, removed, ws;
        }
        if synced[id].record.firstSeenAt < cutoff {
          ReplayStep(start, ws, OnDisk(), RemoveSynced(id), cloud);
          ws := ws + [RemoveSynced(id)];
          assert (synced - {id}).Keys == synced.Keys - {id};
          synced := synced - {id};
          removed := removed + 1;
        }
      }
      ok := true;
    }

    /** `PreserveParseIssue`: a device record that cannot be parsed is kept once. */
    method PreserveParseIssue(raw: string, ghost cloud: set<EventId>) returns (created: bool, ghost ws: seq<Write>)
      modifies this`failed
      ensures created <==> ParseIssue(raw) !in old(failed)
      ensures failed == if created then old(failed)[ParseIssue(raw) := None] else old(failed)
      ensures Replay(old(OnDisk()), ws, cloud) == Some(OnDisk())
    {
      ws := [];
      if ParseIssue(raw) in failed {
        return false, ws;
      }
      ReplayStep(OnDisk(), [], OnDisk(), Preserve(raw), cloud);
      failed := failed[ParseIssue(raw) := None];
      assert [] + [Preserve(raw)] == [Preserve(raw)];
      return true, [Preserve(raw)];
    }
  }
}
