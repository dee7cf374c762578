/** Every event the bridge ever stored, over whole runs: single durable writes in any order the store allows, a
    crash between any two of them, cloud writes whose responses may be lost, and damage to queue files. */
module EventPipeline {
  import opened Base
  import opened EventDisk

  /** `put` is the evidence that must not be lost: what was stored, by id. `pruned` are ids removed by retention. */
  datatype State = State(disk: Disk, cloud: set<EventId>, put: map<EventId, Event>, pruned: set<EventId>)

  datatype Step =
    | Store(write: Write)
    | CloudCreates(ids: set<EventId>)
    | Damage(id: EventId, content: string)

  predicate Can(s: State, step: Step) {
    match step
    case Store(w) => Allowed(s.disk, w, s.cloud)
    case CloudCreates(_) => true
    case Damage(id, _) => id in s.disk.pending
  }

  function Next(s: State, step: Step): State
    requires Can(s, step)
  {
    match step
    case Store(w) =>
      s.(disk := After(s.disk, w, s.cloud),
         put := if w.Create? then s.put[w.record.event.id := w.record.event] else s.put,
         pruned := if w.RemoveSynced? then s.pruned + {w.id} else s.pruned)
    case CloudCreates(ids) => s.(cloud := s.cloud + ids)
    case Damage(id, content) => s.(disk := s.disk.(pending := s.disk.pending[id := Unreadable(content)]))
  }

  const EMPTY := State(Disk(map[], map[], map[]), {}, map[], {})

  ghost predicate IsRun(states: seq<State>, steps: seq<Step>) {
    && |states| == |steps| + 1
    && states[0] == EMPTY
    && forall i :: 0 <= i < |steps| ==> Can(states[i], steps[i]) && states[i + 1] == Next(states[i], steps[i])
  }

  ghost predicate Quarantined(d: Disk, id: EventId) {
    exists content :: CorruptCopy(id, content) in d.failed
  }

  ghost predicate Accounted(s: State, id: EventId) {
    id in s.disk.pending || id in s.disk.synced || RejectedEvent(id) in s.disk.failed || Quarantined(s.disk, id) || id in s.pruned
  }

  /** Wherever a record of the event can be read, it is the event as it was first stored. */
  ghost predicate Unaltered(s: State) {
    && (forall id :: ReadablePending(s.disk, id) ==> id in s.put && s.disk.pending[id].record.event == s.put[id])
    && (forall id :: id in s.disk.synced && s.disk.synced[id].Readable? ==> id in s.put && s.disk.synced[id].record.event == s.put[id])
    && (forall id :: RejectedEvent(id) in s.disk.failed && s.disk.failed[RejectedEvent(id)].Some? ==>
          id in s.put && s.disk.failed[RejectedEvent(id)].value.event == s.put[id])
  }

  ghost predicate Safe(s: State) {
    && (forall id :: id in s.put ==> Accounted(s, id))
    && (forall id :: id in s.pruned ==> id in s.cloud)
    && Sound(s.disk, s.cloud)
    && Unaltered(s)
  }

  lemma AccountedAfterWrite(s: State, w: Write, id: EventId)
    requires Safe(s) && Allowed(s.disk, w, s.cloud) && id in Next(s, Store(w)).put
    ensures Accounted(Next(s, Store(w)), id)
  {
    var s' := Next(s, Store(w));
    if !(w.Create? && w.record.event.id == id) {
      assert Accounted(s, id);
      if Quarantined(s.disk, id) {
        var content :| CorruptCopy(id, content) in s.disk.failed;
        assert CorruptCopy(id, content) in s'.disk.failed;
      } else if w.RemovePending? && w.id == id && !Quarantined(s.disk, id) {
        assert id in s.disk.synced || RejectedEvent(id) in s.disk.failed;
      }
    }
  }

  lemma UnalteredAfterWrite(s: State, w: Write)
    requires Safe(s) && Allowed(s.disk, w, s.cloud)
    ensures Unaltered(Next(s, Store(w)))
  {
    var s' := Next(s, Store(w));
    forall id | ReadablePending(s'.disk, id) ensures id in s'.put && s'.disk.pending[id].record.event == s'.put[id] {
      assert ReadablePending(s.disk, id) || (w.Create? && w.record.event.id == id);
    }
    match w
    case CopySynced(id) => assert ReadablePending(s.disk, id);
    case CopyFailed(id, _) => assert ReadablePending(s.disk, id);
    case _ =>
  }

  lemma SafeStep(s: State, step: Step)
    requires Safe(s) && Can(s, step)
    ensures Safe(Next(s, step))
  {
    var s' := Next(s, step);
    match step
    case Store(w) =>
      SoundStep(s.disk, w, s.cloud);
      UnalteredAfterWrite(s, w);
      forall id | id in s'.put ensures Accounted(s', id) {
        AccountedAfterWrite(s, w, id);
      }
    case CloudCreates(_) =>
      forall id | id in s'.put ensures Accounted(s', id) {
        assert Accounted(s, id);
      }
    case Damage(damaged, _) =>
      forall id | id in s'.put ensures Accounted(s', id) {
        assert Accounted(s, id);
      }
      forall id | ReadablePending(s'.disk, id) ensures ReadablePending(s.disk, id) && s'.disk.pending[id] == s.disk.pending[id] {
      }
  }

  /** No loss and no false sync, at every moment of every run: each stored event is queued, synced, rejected,
      quarantined or pruned; whatever is synced or pruned has a cloud document; no readable record was altered. */
  lemma {:induction false} NoLossNoFalseSync(states: seq<State>, steps: seq<Step>, n: nat)
    requires IsRun(states, steps) && n <= |steps|
    ensures Safe(states[n])
  {
    if n > 0 {
      NoLossNoFalseSync(states, steps, n - 1);
      SafeStep(states[n - 1], steps[n - 1]);
    }
  }

  /** Retention is the only way out: an event that is neither queued, rejected nor quarantined is in the cloud. */
  lemma GoneMeansUploaded(states: seq<State>, steps: seq<Step>, n: nat, id: EventId)
    requires IsRun(states, steps) && n <= |steps| && id in states[n].put
    requires id !in states[n].disk.pending && RejectedEvent(id) !in states[n].disk.failed && !Quarantined(states[n].disk, id)
    ensures id in states[n].cloud
  {
    NoLossNoFalseSync(states, steps, n);
    assert Accounted(states[n], id);
  }

  // ----- What the methods report, as parts of runs -----

  /** Where a list of steps leads, if each is possible when it happens. */
  function Follow(s: State, steps: seq<Step>): Option<State> {
    if steps == [] then Some(s)
    else
      var before := Follow(s, steps[..|steps| - 1]);
      if before.Some? && Can(before.value, steps[|steps| - 1]) then Some(Next(before.value, steps[|steps| - 1])) else None
  }

  /** Disk and cloud, with nothing said of the past. */
  function Here(disk: Disk, cloud: set<EventId>): State {
    State(disk, cloud, map[], {})
  }

  ghost predicate Leads(disk: Disk, cloud: set<EventId>, steps: seq<Step>, disk': Disk, cloud': set<EventId>) {
    var end := Follow(Here(disk, cloud), steps);
    end.Some? && end.value.disk == disk' && end.value.cloud == cloud'
  }

  function Stores(ws: seq<Write>): seq<Step> {
    seq(|ws|, i requires 0 <= i < |ws| => Store(ws[i]))
  }

  lemma {:induction false} FollowAppend(s: State, first: seq<Step>, mid: State, second: seq<Step>)
    requires Follow(s, first) == Some(mid)
    ensures Follow(s, first + second) == Follow(mid, second)
  {
    if second == [] {
      assert first + second == first;
    } else {
      FollowAppend(s, first, mid, second[..|second| - 1]);
      assert (first + second)[..|first + second| - 1] == first + second[..|second| - 1];
    }
  }

  /** The past does not decide what is possible. */
  lemma {:induction false} FollowFrom(s: State, s': State, steps: seq<Step>)
    requires s.disk == s'.disk && s.cloud == s'.cloud
    ensures Follow(s, steps).Some? <==> Follow(s', steps).Some?
    ensures Follow(s, steps).Some? ==>
              Follow(s, steps).value.disk == Follow(s', steps).value.disk && Follow(s, steps).value.cloud == Follow(s', steps).value.cloud
  {
    if steps != [] {
      FollowFrom(s, s', steps[..|steps| - 1]);
    }
  }

  lemma LeadsAppend(disk: Disk, cloud: set<EventId>, first: seq<Step>, disk1: Disk, cloud1: set<EventId>, second: seq<Step>,
                    disk2: Disk, cloud2: set<EventId>)
    requires Leads(disk, cloud, first, disk1, cloud1) && Leads(disk1, cloud1, second, disk2, cloud2)
    ensures Leads(disk, cloud, first + second, disk2, cloud2)
  {
    var mid := Follow(Here(disk, cloud), first).value;
    FollowAppend(Here(disk, cloud), first, mid, second);
    FollowFrom(mid, Here(disk1, cloud1), second);
  }

  lemma {:induction false} WritesLead(disk: Disk, ws: seq<Write>, cloud: set<EventId>, disk': Disk)
    requires Replay(disk, ws, cloud) == Some(disk')
    ensures Leads(disk, cloud, Stores(ws), disk', cloud)
  {
    if ws != [] {
      var init := ws[..|ws| - 1];
      WritesLead(disk, init, cloud, Replay(disk, init, cloud).value);
      assert Stores(ws)[..|ws| - 1] == Stores(init);
    }
  }

  lemma CloudLeads(disk: Disk, cloud: set<EventId>, ids: set<EventId>)
    ensures Leads(disk, cloud, [CloudCreates(ids)], disk, cloud + ids)
  {
    assert [CloudCreates(ids)][..0] == [];
    assert Follow(Here(disk, cloud), []) == Some(Here(disk, cloud));
  }

  /** Steps that lead from where a run stands continue it, and after each of them, wherever they are cut off, the run has the disk
      and the cloud that they lead to. */
  lemma {:induction false} Continues(states: seq<State>, steps: seq<Step>, more: seq<Step>) returns (states': seq<State>)
    requires IsRun(states, steps) && Follow(Here(states[|steps|].disk, states[|steps|].cloud), more).Some?
    ensures IsRun(states', steps + more) && states <= states'
    ensures forall k :: 0 <= k <= |more| ==>
              Leads(states[|steps|].disk, states[|steps|].cloud, more[..k], states'[|steps| + k].disk, states'[|steps| + k].cloud)
  {
    var start := Here(states[|steps|].disk, states[|steps|].cloud);
    if more == [] {
      states' := states;
      assert steps + more == steps && more[..0] == more;
    } else {
      var n := |more| - 1;
      var init, last := more[..n], more[n];
      var before := Continues(states, steps, init);
      assert init[..n] == init;
      var s := before[|steps| + n];
      assert Leads(start.disk, start.cloud, init, s.disk, s.cloud);
      states' := before + [Next(s, last)];
      assert steps + more == (steps + init) + [last];
      forall k | 0 <= k <= |more|
        ensures Leads(start.disk, start.cloud, more[..k], states'[|steps| + k].disk, states'[|steps| + k].cloud)
      {
        if k <= n {
          assert more[..k] == init[..k];
        } else {
          assert more[..k] == more;
        }
      }
    }
  }

  /** In particular the writes that a store method reports, cut off anywhere. */
  lemma ReplayIsRun(states: seq<State>, steps: seq<Step>, ws: seq<Write>) returns (states': seq<State>)
    requires IsRun(states, steps) && Replay(states[|steps|].disk, ws, states[|steps|].cloud).Some?
    ensures IsRun(states', steps + Stores(ws)) && states <= states'
    ensures forall k :: 0 <= k <= |ws| ==>
              Replay(states[|steps|].disk, ws[..k], states[|steps|].cloud) == Some(states'[|steps| + k].disk)
  {
    var s := states[|steps|];
    WritesLead(s.disk, ws, s.cloud, Replay(s.disk, ws, s.cloud).value);
    states' := Continues(states, steps, Stores(ws));
    forall k | 0 <= k <= |ws| ensures Replay(s.disk, ws[..k], s.cloud) == Some(states'[|steps| + k].disk) {
      PrefixReplays(s.disk, ws, s.cloud, k);
      WritesLead(s.disk, ws[..k], s.cloud, Replay(s.disk, ws[..k], s.cloud).value);
      assert Stores(ws)[..k] == Stores(ws[..k]);
    }
  }

  lemma {:induction false} PrefixReplays(d: Disk, ws: seq<Write>, cloud: set<EventId>, k: nat)
    requires k <= |ws| && Replay(d, ws, cloud).Some?
    ensures Replay(d, ws[..k], cloud).Some?
    decreases |ws|
  {
    if k == |ws| {
      assert ws[..k] == ws;
    } else {
      PrefixReplays(d, ws[..|ws| - 1], cloud, k);
      assert ws[..|ws| - 1][..k] == ws[..k];
    }
  }

  /** The queue and the synced directory are the only pair kept apart: a crash between the two writes of a rejection leaves the
      event queued and rejected, in a record that recovery keeps in the queue. */
  lemma RejectedCanStayQueued(event: Event) returns (states: seq<State>, steps: seq<Step>)
    ensures IsRun(states, steps)
    ensures QueuedAndRejected(states[|steps|].disk, event.id) && Survives(states[|steps|].disk, event.id)
  {
    var create := Store(Create(Record(event, 0, 0, Pending, "")));
    var reject := Store(CopyFailed(event.id, "rejected"));
    var queued := Next(EMPTY, create);
    assert ReadablePending(queued.disk, event.id);
    states, steps := [EMPTY, queued, Next(queued, reject)], [create, reject];
  }
}
