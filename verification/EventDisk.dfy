/** The bridge's event directories and the single durable writes that change them. */
module EventDisk {
  import opened Base

  type EventId = string

  datatype Event = Event(id: EventId, deviceId: string, employeeNo: string, eventTime: int, raw: string)

  function Ids(events: seq<Event>): (ids: seq<EventId>)
    ensures |ids| == |events| && forall i :: 0 <= i < |ids| ==> ids[i] == events[i].id
  {
    Each(events, (e: Event) => e.id)
  }

  datatype SyncState = Pending | Uploading | Synced | Failed

  datatype Record = Record(event: Event, firstSeenAt: int, attempts: nat, state: SyncState, error: string)

  datatype File = Readable(record: Record) | Unreadable(content: string)

  /** Names in the failed directory: a rejected event, a preserved unreadable file, a preserved device record. */
  datatype FailedName = RejectedEvent(id: EventId) | CorruptCopy(id: EventId, content: string) | ParseIssue(raw: string)

  datatype Disk = Disk(pending: map<EventId, File>, synced: map<EventId, File>, failed: map<FailedName, Option<Record>>)

  /** One durable write: an atomic file replacement or a file removal. */
  datatype Write =
    | Create(record: Record)
    | Rewrite(id: EventId, state: SyncState, attempts: nat, error: string)
    | CopySynced(id: EventId)
    | CopyFailed(id: EventId, error: string)
    | CopyCorrupt(id: EventId)
    | RemovePending(id: EventId)
    | RemoveSynced(id: EventId)
    | Preserve(raw: string)

  predicate Known(d: Disk, id: EventId) {
    id in d.pending || id in d.synced || RejectedEvent(id) in d.failed
  }

  predicate ReadablePending(d: Disk, id: EventId) {
    id in d.pending && d.pending[id].Readable?
  }

  /** Recovery keeps a queue record unless it is already synced or cannot be read. */
  predicate Survives(d: Disk, id: EventId) {
    id in d.pending && id !in d.synced && d.pending[id].Readable?
  }

  predicate QueuedAndRejected(d: Disk, id: EventId) {
    id in d.pending && RejectedEvent(id) in d.failed
  }

  /** Every rejection copies the record, then removes it from the queue. */
  function RejectionWrites(rejections: seq<(EventId, string)>): (ws: seq<Write>)
    ensures |ws| == 2 * |rejections|
  {
    seq(2 * |rejections|, i requires 0 <= i < 2 * |rejections| =>
          if i % 2 == 0 then CopyFailed(rejections[i / 2].0, rejections[i / 2].1) else RemovePending(rejections[i / 2].0))
  }

  lemma RejectionWritesStep(rejections: seq<(EventId, string)>, i: nat)
    requires i < |rejections|
    ensures RejectionWrites(rejections[..i + 1]) ==
            RejectionWrites(rejections[..i]) + [CopyFailed(rejections[i].0, rejections[i].1), RemovePending(rejections[i].0)]
  {
    var longer, shorter := RejectionWrites(rejections[..i + 1]), RejectionWrites(rejections[..i]);
    assert forall k :: 0 <= k < |shorter| ==> longer[k] == shorter[k];
  }

  /** The writes the store is entitled to, given the ids the cloud holds a document for. */
  predicate Allowed(d: Disk, w: Write, cloud: set<EventId>) {
    match w
    case Create(record) => !Known(d, record.event.id) && record.state.Pending?
    case Rewrite(id, state, _, _) => ReadablePending(d, id) && (state.Pending? || state.Uploading?)
    case CopySynced(id) => ReadablePending(d, id) && id in cloud
    case CopyFailed(id, _) => ReadablePending(d, id)
    case CopyCorrupt(id) => id in d.pending && d.pending[id].Unreadable?
    case RemovePending(id) =>
      id in d.pending &&
      (id in d.synced || RejectedEvent(id) in d.failed ||
       (d.pending[id].Unreadable? && CorruptCopy(id, d.pending[id].content) in d.failed))
    case RemoveSynced(id) => id in d.synced
    case Preserve(_) => true
  }

  function After(d: Disk, w: Write, cloud: set<EventId>): Disk
    requires Allowed(d, w, cloud)
  {
    match w
    case Create(record) => d.(pending := d.pending[record.event.id := Readable(record)])
    case Rewrite(id, state, attempts, error) =>
      d.(pending := d.pending[id := Readable(d.pending[id].record.(state := state, attempts := attempts, error := error))])
    case CopySynced(id) => d.(synced := d.synced[id := Readable(d.pending[id].record.(state := Synced, error := ""))])
    case CopyFailed(id, error) =>
      d.(failed := d.failed[RejectedEvent(id) := Some(d.pending[id].record.(state := Failed, error := error))])
    case CopyCorrupt(id) => d.(failed := d.failed[CorruptCopy(id, d.pending[id].content) := None])
    case RemovePending(id) => d.(pending := d.pending - {id})
    case RemoveSynced(id) => d.(synced := d.synced - {id})
    case Preserve(raw) => d.(failed := d.failed[ParseIssue(raw) := None])
  }

  /** Where a list of writes leads, if each is allowed when it happens. */
  function Replay(d: Disk, ws: seq<Write>, cloud: set<EventId>): Option<Disk> {
    if ws == [] then Some(d)
    else
      var before := Replay(d, ws[..|ws| - 1], cloud);
      if before.Some? && Allowed(before.value, ws[|ws| - 1], cloud) then Some(After(before.value, ws[|ws| - 1], cloud)) else None
  }

  lemma ReplayStep(d: Disk, ws: seq<Write>, mid: Disk, w: Write, cloud: set<EventId>)
    requires Replay(d, ws, cloud) == Some(mid) && Allowed(mid, w, cloud)
    ensures Replay(d, ws + [w], cloud) == Some(After(mid, w, cloud))
  {
    assert (ws + [w])[..|ws + [w]| - 1] == ws;
  }

  lemma {:induction false} ReplayAppend(d: Disk, first: seq<Write>, mid: Disk, second: seq<Write>, cloud: set<EventId>)
    requires Replay(d, first, cloud) == Some(mid)
    ensures Replay(d, first + second, cloud) == Replay(mid, second, cloud)
  {
    if second == [] {
      assert first + second == first;
    } else {
      ReplayAppend(d, first, mid, second[..|second| - 1], cloud);
      assert (first + second)[..|first + second| - 1] == first + second[..|second| - 1];
    }
  }

  /** Records are filed under their own event id, and a record that claims to be uploaded is. */
  ghost predicate Sound(d: Disk, cloud: set<EventId>) {
    && (forall id :: ReadablePending(d, id) ==> d.pending[id].record.event.id == id && (d.pending[id].record.state.Synced? ==> id in cloud))
    && (forall id :: id in d.synced ==> id in cloud)
  }

  lemma SoundStep(d: Disk, w: Write, cloud: set<EventId>)
    requires Sound(d, cloud) && Allowed(d, w, cloud)
    ensures Sound(After(d, w, cloud), cloud)
  {
    var d' := After(d, w, cloud);
    forall id | ReadablePending(d', id)
      ensures d'.pending[id].record.event.id == id && (d'.pending[id].record.state.Synced? ==> id in cloud)
    {
      assert ReadablePending(d, id) || w.Create?;
    }
  }

  lemma {:induction false} SoundReplay(d: Disk, ws: seq<Write>, cloud: set<EventId>)
    requires Sound(d, cloud)
    ensures Replay(d, ws, cloud).Some? ==> Sound(Replay(d, ws, cloud).value, cloud)
  {
    if ws != [] {
      SoundReplay(d, ws[..|ws| - 1], cloud);
      var before := Replay(d, ws[..|ws| - 1], cloud);
      if before.Some? && Allowed(before.value, ws[|ws| - 1], cloud) {
        SoundStep(before.value, ws[|ws| - 1], cloud);
      }
    }
  }
}
