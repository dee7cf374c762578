/** When an event can be queued and rejected at once. Queue and synced directory are kept apart by recovery; this pair is not. */
module EventExclusion {
  import opened Base
  import opened EventDisk

  ghost predicate Exclusive(d: Disk) {
    forall id :: !QueuedAndRejected(d, id)
  }

  /** A single write keeps the two apart exactly if it is not the copy of a rejected event. */
  lemma WriteKeepsExclusion(d: Disk, w: Write, cloud: set<EventId>)
    requires Exclusive(d) && Allowed(d, w, cloud)
    ensures Exclusive(After(d, w, cloud)) <==> !w.CopyFailed?
  {
    var d' := After(d, w, cloud);
    if w.CopyFailed? {
      assert QueuedAndRejected(d', w.id);
    } else {
      forall id ensures !QueuedAndRejected(d', id) {
        assert !QueuedAndRejected(d, id);
      }
    }
  }

  /** The list copies a rejection of the event and does not go on to remove it from the queue. */
  ghost predicate Unfinished(ws: seq<Write>, id: EventId) {
    exists i :: 0 <= i < |ws| && ws[i].CopyFailed? && ws[i].id == id && forall j :: i < j < |ws| ==> ws[j] != RemovePending(id)
  }

  lemma UnfinishedLast(ws: seq<Write>, id: EventId)
    requires ws != []
    ensures var last := ws[|ws| - 1];
            Unfinished(ws, id) <==>
              (last.CopyFailed? && last.id == id) || (last != RemovePending(id) && Unfinished(ws[..|ws| - 1], id))
  {
    var init, last := ws[..|ws| - 1], ws[|ws| - 1];
    if Unfinished(ws, id) {
      var i :| 0 <= i < |ws| && ws[i].CopyFailed? && ws[i].id == id && forall j :: i < j < |ws| ==> ws[j] != RemovePending(id);
      assert i < |init| ==> init[i] == ws[i];
    }
    if last != RemovePending(id) && Unfinished(init, id) {
      var i :| 0 <= i < |init| && init[i].CopyFailed? && init[i].id == id && forall j :: i < j < |init| ==> init[j] != RemovePending(id);
      assert ws[i] == init[i];
      assert forall j :: i < j < |init| ==> ws[j] == init[j];
    }
  }

  /** After any writes, an event that was not both queued and rejected is so exactly if its last copy was not followed by its removal. */
  lemma {:induction false} ReplayExclusion(d: Disk, ws: seq<Write>, cloud: set<EventId>, id: EventId)
    requires !QueuedAndRejected(d, id) && Replay(d, ws, cloud).Some?
    ensures QueuedAndRejected(Replay(d, ws, cloud).value, id) <==> Unfinished(ws, id)
  {
    if ws != [] {
      ReplayExclusion(d, ws[..|ws| - 1], cloud, id);
      UnfinishedLast(ws, id);
    }
  }

  /** So a list of writes keeps all events apart exactly if it removes every event whose rejection it copies. */
  lemma ReplayKeepsExclusion(d: Disk, ws: seq<Write>, cloud: set<EventId>)
    requires Exclusive(d) && Replay(d, ws, cloud).Some?
    ensures Exclusive(Replay(d, ws, cloud).value) <==> forall id :: !Unfinished(ws, id)
  {
    forall id ensures QueuedAndRejected(Replay(d, ws, cloud).value, id) <==> Unfinished(ws, id) {
      ReplayExclusion(d, ws, cloud, id);
    }
  }

  lemma FollowedByRemoval(rejections: seq<(EventId, string)>, i: nat)
    requires i < 2 * |rejections| && RejectionWrites(rejections)[i].CopyFailed?
    ensures i % 2 == 0 && i + 1 < 2 * |rejections|
    ensures RejectionWrites(rejections)[i + 1] == RemovePending(RejectionWrites(rejections)[i].id)
  {
    assert (i + 1) / 2 == i / 2;
  }

  lemma WholeRejections(rejections: seq<(EventId, string)>, k: nat)
    requires k <= 2 * |rejections|
    ensures (forall id :: !Unfinished(RejectionWrites(rejections)[..k], id)) <==> k % 2 == 0
  {
    var ws := RejectionWrites(rejections)[..k];
    if k % 2 == 1 {
      assert ws[k - 1] == CopyFailed(rejections[(k - 1) / 2].0, rejections[(k - 1) / 2].1);
      assert Unfinished(ws, ws[k - 1].id);
    } else {
      forall id ensures !Unfinished(ws, id) {
        if Unfinished(ws, id) {
          var i :| 0 <= i < |ws| && ws[i].CopyFailed? && ws[i].id == id && forall j :: i < j < |ws| ==> ws[j] != RemovePending(id);
          FollowedByRemoval(rejections, i);
          assert false;
        }
      }
    }
  }

  /** `MarkFailed`, cut off after any number of writes, leaves an event both queued and rejected exactly if it is cut off between
      the two writes of a rejection. */
  lemma RejectionCutOff(d: Disk, rejections: seq<(EventId, string)>, k: nat, cloud: set<EventId>)
    requires Exclusive(d) && k <= 2 * |rejections| && Replay(d, RejectionWrites(rejections)[..k], cloud).Some?
    ensures Exclusive(Replay(d, RejectionWrites(rejections)[..k], cloud).value) <==> k % 2 == 0
  {
    ReplayKeepsExclusion(d, RejectionWrites(rejections)[..k], cloud);
    WholeRejections(rejections, k);
  }
}
