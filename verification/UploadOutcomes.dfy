/** What upload attempts may do to the bridge's directories: an event that is to be uploaded leaves the queue only by an answer of the
    cloud, and for the directory where it belongs. */
module UploadOutcomes {
  import opened Base
  import opened EventDisk
  import opened EventStores
  import opened EventPipeline
  import opened CloudIngest
  import opened Acknowledgements
  import opened EventIntake

  /** What one upload attempt did: the ids it sent and the answer it filed, if it filed one, and the steps it took. */
  datatype Attempt = Attempt(sent: seq<EventId>, answer: Option<Response>, steps: seq<Step>)

  /** Records leave the queue for the directory that the answer says, and nothing else changes; some may be left. */
  ghost predicate Files(d: Disk, d': Disk, response: Response) {
    && (forall id :: id in d'.pending ==> id in d.pending && d'.pending[id] == d.pending[id])
    && (forall id :: id in d.pending && id !in d'.pending ==>
          || ((id in response.accepted || id in response.duplicates) && id in d'.synced)
          || (id in RejectedIds(response.rejected) && RejectedEvent(id) in d'.failed))
    && d.synced.Keys <= d'.synced.Keys && d.failed.Keys <= d'.failed.Keys
    && (forall id :: id in d'.synced ==> id in d.synced || id in response.accepted || id in response.duplicates)
    && (forall id :: RejectedEvent(id) in d'.failed ==> RejectedEvent(id) in d.failed || id in RejectedIds(response.rejected))
  }

  lemma FiledInTwo(d: Disk, mid: Disk, d': Disk, response: Response, done: nat)
    requires Files(d, mid, response) && mid.failed == d.failed
    requires done <= |response.rejected| && RejectedFrom(mid, d', response.rejected[..done])
    ensures Files(d, d', response)
  {
    forall id | id in RejectedSet(response.rejected[..done])
      ensures id in RejectedIds(response.rejected) && RejectedEvent(id) in d'.failed
    {
      var r :| r in response.rejected[..done] && r.0 == id;
      assert r in response.rejected;
      RefusedIds(response);
    }
  }

  lemma RefusedIds(response: Response)
    ensures forall r :: r in response.rejected ==> r.0 in RejectedIds(response.rejected)
    ensures RejectedSet(response.rejected) == (set id | id in RejectedIds(response.rejected))
  {
    forall r | r in response.rejected ensures r.0 in RejectedIds(response.rejected) {
      var k :| 0 <= k < |response.rejected| && response.rejected[k] == r;
      assert RejectedIds(response.rejected)[k] == r.0;
    }
  }

  /** Records of these ids may become pending again; nothing else changes. */
  ghost predicate Releases(d: Disk, d': Disk, ids: seq<EventId>) {
    d'.synced == d.synced && d'.failed == d.failed && d'.pending.Keys == d.pending.Keys &&
    forall id :: id in d.pending ==> ReleasedFile(d.pending[id], d'.pending[id]) && (id !in ids ==> d'.pending[id] == d.pending[id])
  }

  /** Some attempt sent the event and was answered. */
  ghost predicate Answered(attempts: seq<Attempt>, id: EventId) {
    exists a :: a in attempts && a.answer.Some? && id in a.sent
  }

  ghost predicate Refused(attempts: seq<Attempt>, id: EventId) {
    exists a :: a in attempts && a.answer.Some? && id in RejectedIds(a.answer.value.rejected)
  }

  /** What attempts may do to the disk. An event that is to be uploaded stays so, or was answered and is then filed as synced exactly
      if it fits, and otherwise as rejected. Rejected and synced directories gain nothing but such events and records that were
      misplaced in the queue. */
  ghost predicate Judged(d: Disk, d': Disk, attempts: seq<Attempt>, encode: Event -> Encoded, limits: Limits) {
    forall id :: JudgedAt(d, d', attempts, id, encode, limits)
  }

  ghost predicate JudgedAt(d: Disk, d': Disk, attempts: seq<Attempt>, id: EventId, encode: Event -> Encoded, limits: Limits) {
    && (id in d'.pending ==> id in d.pending)
    && (Uploadable(d, id) ==> StillQueued(d, d', id) || (id !in d'.pending && Answered(attempts, id) && FiledRightly(d, d', id, encode, limits)))
    && (Uploadable(d', id) ==> Uploadable(d, id))
    && (SetAside(d', id) ==> SetAside(d, id))
    && (WasSynced(d', id) ==> WasSynced(d, id))
    && (id in d.synced ==> id in d'.synced)
    && (RejectedEvent(id) in d.failed ==> RejectedEvent(id) in d'.failed)
    && (RejectedEvent(id) in d'.failed ==> RejectedEvent(id) in d.failed || SetAside(d, id) || RightlyRejected(d, attempts, id, encode, limits))
    && (id in d'.synced ==> id in d.synced || WasSynced(d, id) || RightlySynced(d, attempts, id, encode, limits))
  }

  ghost predicate StillQueued(d: Disk, d': Disk, id: EventId)
    requires Uploadable(d, id)
  {
    Uploadable(d', id) && d'.pending[id].record.event == d.pending[id].record.event
  }

  ghost predicate FiledRightly(d: Disk, d': Disk, id: EventId, encode: Event -> Encoded, limits: Limits)
    requires Uploadable(d, id)
  {
    if Fit(d.pending[id].record.event, encode, limits) then id in d'.synced else RejectedEvent(id) in d'.failed
  }

  predicate WasSynced(d: Disk, id: EventId) {
    ReadablePending(d, id) && d.pending[id].record.state == Synced
  }

  ghost predicate RightlyRejected(d: Disk, attempts: seq<Attempt>, id: EventId, encode: Event -> Encoded, limits: Limits) {
    Uploadable(d, id) && !Fit(d.pending[id].record.event, encode, limits) && Refused(attempts, id)
  }

  ghost predicate RightlySynced(d: Disk, attempts: seq<Attempt>, id: EventId, encode: Event -> Encoded, limits: Limits) {
    Uploadable(d, id) && Fit(d.pending[id].record.event, encode, limits) && Answered(attempts, id)
  }

  lemma PreparedIsJudged(d: Disk, d': Disk, taken: seq<EventId>, attempt: Attempt, encode: Event -> Encoded, limits: Limits)
    requires PreparedFrom(d, d', taken)
    ensures Judged(d, d', [attempt], encode, limits)
  {
    forall id ensures JudgedAt(d, d', [attempt], id, encode, limits) {
    }
  }

  lemma UploadIsJudged(d: Disk, mid: Disk, d': Disk, events: seq<Event>, attempt: Attempt, encode: Event -> Encoded, limits: Limits)
    requires PreparedFrom(d, mid, Ids(events)) && attempt.sent == Ids(events) && forall e :: e in events ==> Holds(mid, e)
    requires attempt.answer.None? ==> Releases(mid, d', Ids(events))
    requires attempt.answer.Some? ==>
               && Files(mid, d', attempt.answer.value) && ExactPartition(attempt.answer.value, Ids(events))
               && exists known :: Sorts(events, encode, limits, known, attempt.answer.value)
    ensures Judged(d, d', [attempt], encode, limits)
  {
    PreparedIsJudged(d, mid, Ids(events), attempt, encode, limits);
    forall id ensures JudgedAt(d, d', [attempt], id, encode, limits) {
      assert JudgedAt(d, mid, [attempt], id, encode, limits);
      if attempt.answer.None? {
        ReleasedAt(d, mid, d', attempt, id, encode, limits);
      } else {
        PartitionMembers(attempt.answer.value, Ids(events));
        if id in Ids(events) {
          EachSentRightly(d, mid, events, attempt.answer.value, id, encode, limits);
        }
        FiledAt(d, mid, d', attempt, id, encode, limits);
      }
    }
  }

  /** The id was taken from the queue and the answer lists it where its event belongs. */
  ghost predicate SentRightly(d: Disk, mid: Disk, answer: Response, id: EventId, encode: Event -> Encoded, limits: Limits) {
    && Uploadable(d, id) && Uploadable(mid, id) && mid.pending[id].record.event == d.pending[id].record.event
    && (Fit(d.pending[id].record.event, encode, limits) <==> id in answer.accepted || id in answer.duplicates)
    && (!Fit(d.pending[id].record.event, encode, limits) <==> id in RejectedIds(answer.rejected))
  }

  lemma EachSentRightly(d: Disk, mid: Disk, events: seq<Event>, answer: Response, id: EventId, encode: Event -> Encoded, limits: Limits)
    requires PreparedFrom(d, mid, Ids(events)) && (forall e :: e in events ==> Holds(mid, e)) && id in Ids(events)
    requires exists known :: Sorts(events, encode, limits, known, answer)
    ensures SentRightly(d, mid, answer, id, encode, limits)
  {
    var k := MemberOfId(events, id);
    assert events[k] in events && Holds(mid, events[k]);
  }

  lemma ReleasedAt(d: Disk, mid: Disk, d': Disk, attempt: Attempt, id: EventId, encode: Event -> Encoded, limits: Limits)
    requires JudgedAt(d, mid, [attempt], id, encode, limits) && Releases(mid, d', attempt.sent)
    requires id in attempt.sent ==> Uploadable(mid, id)
    ensures JudgedAt(d, d', [attempt], id, encode, limits)
  {
    assert id in mid.pending ==> ReleasedFile(mid.pending[id], d'.pending[id]);
  }

  lemma FiledAt(d: Disk, mid: Disk, d': Disk, attempt: Attempt, id: EventId, encode: Event -> Encoded, limits: Limits)
    requires JudgedAt(d, mid, [attempt], id, encode, limits) && attempt.answer.Some? && Files(mid, d', attempt.answer.value)
    requires id in attempt.answer.value.accepted || id in attempt.answer.value.duplicates || id in RejectedIds(attempt.answer.value.rejected) ==>
               id in attempt.sent && SentRightly(d, mid, attempt.answer.value, id, encode, limits)
    ensures JudgedAt(d, d', [attempt], id, encode, limits)
  {
    assert attempt in [attempt];
    assert id in attempt.sent ==> Answered([attempt], id);
    assert id in RejectedIds(attempt.answer.value.rejected) ==> Refused([attempt], id);
  }

  lemma JudgedOneMore(d: Disk, mid: Disk, d': Disk, attempts: seq<Attempt>, attempt: Attempt, encode: Event -> Encoded, limits: Limits)
    requires Judged(d, mid, attempts, encode, limits) && Judged(mid, d', [attempt], encode, limits)
    ensures Judged(d, d', attempts + [attempt], encode, limits)
  {
    forall id ensures JudgedAt(d, d', attempts + [attempt], id, encode, limits) {
      assert JudgedAt(d, mid, attempts, id, encode, limits) && JudgedAt(mid, d', [attempt], id, encode, limits);
      MoreAttempts(attempts, attempt, id);
      JudgedTwice(d, mid, d', attempts, attempt, id, encode, limits);
    }
  }

  lemma JudgedTwice(d: Disk, mid: Disk, d': Disk, attempts: seq<Attempt>, attempt: Attempt, id: EventId, encode: Event -> Encoded, limits: Limits)
    requires JudgedAt(d, mid, attempts, id, encode, limits) && JudgedAt(mid, d', [attempt], id, encode, limits)
    requires Answered(attempts, id) || Answered([attempt], id) ==> Answered(attempts + [attempt], id)
    requires Refused(attempts, id) || Refused([attempt], id) ==> Refused(attempts + [attempt], id)
    ensures JudgedAt(d, d', attempts + [attempt], id, encode, limits)
  {
  }

  lemma MoreAttempts(attempts: seq<Attempt>, attempt: Attempt, id: EventId)
    ensures Answered(attempts, id) || Answered([attempt], id) ==> Answered(attempts + [attempt], id)
    ensures Refused(attempts, id) || Refused([attempt], id) ==> Refused(attempts + [attempt], id)
  {
    if Answered(attempts, id) {
      var a :| a in attempts && a.answer.Some? && id in a.sent;
      assert a in attempts + [attempt];
    }
    if Refused(attempts, id) {
      var a :| a in attempts && a.answer.Some? && id in RejectedIds(a.answer.value.rejected);
      assert a in attempts + [attempt];
    }
    assert attempt in attempts + [attempt];
  }

  /** So when the loop has emptied the queue, exactly the events that fit have gone to the synced directory, each answered by the
      cloud, and the others to the rejected one. */
  lemma DrainedByAnswers(d: Disk, d': Disk, attempts: seq<Attempt>, encode: Event -> Encoded, limits: Limits, id: EventId)
    requires Judged(d, d', attempts, encode, limits) && d'.pending == map[] && Uploadable(d, id)
    ensures Answered(attempts, id)
    ensures Fit(d.pending[id].record.event, encode, limits) ==> id in d'.synced
    ensures !Fit(d.pending[id].record.event, encode, limits) ==> RejectedEvent(id) in d'.failed
    ensures RejectedEvent(id) in d'.failed ==> RejectedEvent(id) in d.failed || !Fit(d.pending[id].record.event, encode, limits)
    ensures id in d'.synced ==> id in d.synced || Fit(d.pending[id].record.event, encode, limits)
  {
    assert JudgedAt(d, d', attempts, id, encode, limits);
  }
}
