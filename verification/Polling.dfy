/** The polling checkpoint. Any number of polls may interleave (the poll loop and the command loop both poll), so the
    checkpoint is not monotone; what it promises is proved over whole runs. Instants are milliseconds. */
module Polling {
  import opened Base
  import opened EventDisk
  import opened EventStores

  const SECOND := 1000

  /** The instant as the device is asked for it: without its fraction of a second. */
  function Floor(t: int): (whole: int)
    ensures whole <= t < whole + SECOND && whole % SECOND == 0
  {
    t / SECOND * SECOND
  }

  lemma FloorBelow(t: int, u: int)
    requires t < Floor(u)
    ensures Floor(t) + SECOND <= Floor(u)
  {
  }

  lemma FloorMonotone(t: int, u: int)
    requires t <= u
    ensures Floor(t) <= Floor(u)
  {
  }

  /** Both settings are validated to lie in these ranges when the configuration is loaded. */
  datatype Settings = Settings(overlap: int, lookback: int) {
    predicate Valid() {
      SECOND <= overlap <= 3600 * SECOND && 3600 * SECOND <= lookback <= 744 * 3600 * SECOND
    }
  }

  function WindowStart(end: int, checkpoint: Option<int>, settings: Settings): int {
    var start := if checkpoint.Some? then checkpoint.value - settings.overlap else end - settings.lookback;
    if start > end then end - settings.overlap else start
  }

  /** The first poll looks back by the lookback, a later one from the checkpoint by the overlap; so does one whose clock has gone back
      behind the checkpoint from its own end. */
  lemma WindowMeaning(end: int, checkpoint: Option<int>, settings: Settings)
    requires settings.Valid()
    ensures checkpoint == None ==> WindowStart(end, checkpoint, settings) == end - settings.lookback
    ensures forall c :: checkpoint == Some(c) && c - settings.overlap <= end ==> WindowStart(end, checkpoint, settings) == c - settings.overlap
    ensures forall c :: checkpoint == Some(c) && c - settings.overlap > end ==> WindowStart(end, checkpoint, settings) == end - settings.overlap
  {
  }

  // ----- The state machine -----

  type RecordId = string

  /** A record on the device: the time stamped on it and the time it could first be found by a search. */
  datatype DeviceRecord = DeviceRecord(stamp: int, visibleAt: int)

  datatype Phase = Begun(end: int) | Ready(end: int, start: int) | Fetched(end: int, todo: set<RecordId>)

  /** `since` is the latest start of an initial lookback; records stamped before it were never asked for. */
  datatype State = State(
    clock: int,
    device: map<RecordId, DeviceRecord>,
    durable: set<RecordId>,
    checkpoint: Option<int>,
    polls: map<int, Phase>,
    since: int)

  datatype Step =
    | Tick(to: int)
    | Appear(id: RecordId, stamp: int)
    | Begin(poll: int)
    | ReadCheckpoint(poll: int)
    | Search(poll: int)
    | Persist(poll: int, id: RecordId)
    | Save(poll: int)
    | Abandon(poll: int)

  predicate Can(s: State, step: Step) {
    match step
    case Tick(to) => s.clock < to
    case Appear(id, _) => id !in s.device
    case Begin(poll) => poll !in s.polls
    case ReadCheckpoint(poll) => poll in s.polls && s.polls[poll].Begun?
    case Search(poll) => poll in s.polls && s.polls[poll].Ready?
    case Persist(poll, id) => poll in s.polls && s.polls[poll].Fetched? && id in s.polls[poll].todo
    case Save(poll) => poll in s.polls && s.polls[poll].Fetched? && s.polls[poll].todo == {}
    case Abandon(poll) => poll in s.polls
  }

  /** What the device holds for a window, whole seconds at both ends. */
  function Matching(device: map<RecordId, DeviceRecord>, start: int, end: int): set<RecordId> {
    set id | id in device && Floor(start) <= device[id].stamp <= Floor(end)
  }

  function Next(s: State, step: Step, settings: Settings): State
    requires Can(s, step)
  {
    match step
    case Tick(to) => s.(clock := to)
    case Appear(id, stamp) => s.(device := s.device[id := DeviceRecord(stamp, s.clock)])
    case Begin(poll) => s.(polls := s.polls[poll := Begun(s.clock)])
    case ReadCheckpoint(poll) =>
      var end := s.polls[poll].end;
      var start := WindowStart(end, s.checkpoint, settings);
      s.(polls := s.polls[poll := Ready(end, start)], since := if s.checkpoint.None? then Max(s.since, start) else s.since)
    case Search(poll) =>
      var phase := s.polls[poll];
      s.(polls := s.polls[poll := Fetched(phase.end, Matching(s.device, phase.start, phase.end))])
    case Persist(poll, id) =>
      var phase := s.polls[poll];
      s.(durable := s.durable + {id}, polls := s.polls[poll := Fetched(phase.end, phase.todo - {id})])
    case Save(poll) => s.(checkpoint := Some(s.polls[poll].end), polls := s.polls - {poll})
    case Abandon(poll) => s.(polls := s.polls - {poll})
  }

  predicate Initial(s: State) {
    s.device == map[] && s.durable == {} && s.checkpoint == None && s.polls == map[]
  }

  ghost predicate IsRun(states: seq<State>, steps: seq<Step>, settings: Settings) {
    && |states| == |steps| + 1
    && Initial(states[0])
    && forall i :: 0 <= i < |steps| ==> Can(states[i], steps[i]) && states[i + 1] == Next(states[i], steps[i], settings)
  }

  // ----- Coverage -----

  /** The record could be found soon enough after the second it is stamped with. */
  predicate Prompt(r: DeviceRecord, settings: Settings) {
    r.visibleAt < Floor(r.stamp) + SECOND + settings.overlap
  }

  /** Every record stamped from `since` on and before `limit`, found before `seen`, is durable or still in hand. */
  ghost predicate Covers(s: State, limit: int, seen: int, todo: set<RecordId>, settings: Settings) {
    forall id :: id in s.device && s.since <= s.device[id].stamp < limit && s.device[id].visibleAt < seen && Prompt(s.device[id], settings)
      ==> id in s.durable || id in todo
  }

  /** What a saved checkpoint means. */
  ghost predicate Covered(s: State, checkpoint: int, settings: Settings) {
    Covers(s, Floor(checkpoint) + 1, checkpoint, {}, settings)
  }

  ghost predicate PhaseOk(s: State, phase: Phase, settings: Settings) {
    && phase.end <= s.clock
    && match phase
       case Begun(_) => true
       case Ready(_, start) => start <= s.since || (start + settings.overlap <= s.clock && Covers(s, Floor(start), s.clock, {}, settings))
       case Fetched(end, todo) => Covers(s, Floor(end) + 1, end, todo, settings)
  }

  ghost predicate Inv(s: State, settings: Settings) {
    && (forall id :: id in s.device ==> s.device[id].visibleAt <= s.clock)
    && (s.checkpoint.Some? ==> s.checkpoint.value <= s.clock && Covered(s, s.checkpoint.value, settings))
    && (forall poll :: poll in s.polls ==> PhaseOk(s, s.polls[poll], settings))
  }

  /** A step adds no record that an earlier claim should have covered, and takes nothing back. */
  lemma CoversKept(s: State, step: Step, limit: int, seen: int, todo: set<RecordId>, todo': set<RecordId>, settings: Settings)
    requires Can(s, step) && Covers(s, limit, seen, todo, settings)
    requires seen <= s.clock
    requires todo <= todo' + Next(s, step, settings).durable
    ensures Covers(Next(s, step, settings), limit, seen, todo', settings)
  {
  }

  /** Below a window that starts an overlap before the clock, nothing prompt can still appear. */
  lemma NothingBelow(s: State, start: int, settings: Settings)
    requires Covers(s, Floor(start), start + settings.overlap, {}, settings)
    ensures Covers(s, Floor(start), s.clock, {}, settings)
  {
    forall id | id in s.device && s.since <= s.device[id].stamp < Floor(start) && Prompt(s.device[id], settings)
      ensures s.device[id].visibleAt < start + settings.overlap
    {
      FloorBelow(s.device[id].stamp, start);
    }
  }

  lemma PhaseKept(s: State, step: Step, phase: Phase, settings: Settings)
    requires Inv(s, settings) && Can(s, step) && PhaseOk(s, phase, settings)
    ensures PhaseOk(Next(s, step, settings), phase, settings)
  {
    var s' := Next(s, step, settings);
    match phase
    case Begun(_) =>
    case Ready(_, start) =>
      if start > s.since {
        assert Covers(s, Floor(start), start + settings.overlap, {}, settings);
        CoversKept(s, step, Floor(start), start + settings.overlap, {}, {}, settings);
        NothingBelow(s', start, settings);
      }
    case Fetched(end, todo) =>
      CoversKept(s, step, Floor(end) + 1, end, todo, todo, settings);
  }

  lemma CheckpointRead(s: State, poll: int, settings: Settings)
    requires Inv(s, settings) && settings.Valid() && Can(s, ReadCheckpoint(poll))
    ensures var s' := Next(s, ReadCheckpoint(poll), settings); PhaseOk(s', s'.polls[poll], settings)
  {
    var s' := Next(s, ReadCheckpoint(poll), settings);
    if s.checkpoint.Some? {
      var c, end := s.checkpoint.value, s.polls[poll].end;
      var start := WindowStart(end, s.checkpoint, settings);
      assert start + settings.overlap <= c;
      FloorMonotone(start, c);
      assert Covers(s', Floor(start), start + settings.overlap, {}, settings) by {
        assert Covered(s, c, settings);
      }
      NothingBelow(s', start, settings);
    }
  }

  /** The search closes the gap between what was covered below its window and its end. */
  lemma Searched(s: State, poll: int, settings: Settings)
    requires Inv(s, settings) && Can(s, Search(poll))
    ensures var s' := Next(s, Search(poll), settings); PhaseOk(s', s'.polls[poll], settings)
  {
    var s' := Next(s, Search(poll), settings);
    var phase := s.polls[poll];
    assert PhaseOk(s, phase, settings);
    var todo := Matching(s.device, phase.start, phase.end);
    forall id | id in s.device && s.since <= s.device[id].stamp < Floor(phase.end) + 1 && s.device[id].visibleAt < phase.end
                && Prompt(s.device[id], settings)
      ensures id in s.durable || id in todo
    {
      if s.device[id].stamp < Floor(phase.start) {
        assert phase.start > s.since;
      }
    }
  }

  lemma InvStep(s: State, step: Step, settings: Settings)
    requires Inv(s, settings) && settings.Valid() && Can(s, step)
    ensures Inv(Next(s, step, settings), settings)
  {
    var s' := Next(s, step, settings);
    forall poll | poll in s'.polls ensures PhaseOk(s', s'.polls[poll], settings) {
      if poll in s.polls && s'.polls[poll] == s.polls[poll] {
        PhaseKept(s, step, s.polls[poll], settings);
      } else {
        match step
        case Begin(_) =>
        case ReadCheckpoint(_) => CheckpointRead(s, poll, settings);
        case Search(_) => Searched(s, poll, settings);
        case Persist(_, id) =>
          var phase := s.polls[poll];
          assert PhaseOk(s, phase, settings);
          CoversKept(s, step, Floor(phase.end) + 1, phase.end, phase.todo, phase.todo - {id}, settings);
      }
    }
    if step.Save? {
      assert PhaseOk(s, s.polls[step.poll], settings);
    } else if s.checkpoint.Some? {
      var c := s.checkpoint.value;
      CoversKept(s, step, Floor(c) + 1, c, {}, {}, settings);
    }
  }

  lemma {:induction false} InvRun(states: seq<State>, steps: seq<Step>, settings: Settings, n: nat)
    requires IsRun(states, steps, settings) && settings.Valid() && n <= |steps|
    ensures Inv(states[n], settings)
  {
    if n > 0 {
      InvRun(states, steps, settings, n - 1);
      InvStep(states[n - 1], steps[n - 1], settings);
    }
  }

  /** Every poll so far that found no checkpoint looked back over this time: the poll's end less the lookback is no later. */
  ghost predicate LookedBack(states: seq<State>, steps: seq<Step>, settings: Settings, n: nat, stamp: int)
    requires IsRun(states, steps, settings) && n <= |steps|
  {
    && states[0].since <= stamp
    && forall i :: 0 <= i < n && steps[i].ReadCheckpoint? && states[i].checkpoint.None? ==>
         steps[i].poll in states[i].polls && states[i].polls[steps[i].poll].end - settings.lookback <= stamp
  }

  /** `since` is the latest of these times. */
  lemma {:induction false} SinceExactly(states: seq<State>, steps: seq<Step>, settings: Settings, n: nat, stamp: int)
    requires IsRun(states, steps, settings) && settings.Valid() && n <= |steps|
    ensures states[n].since <= stamp <==> LookedBack(states, steps, settings, n, stamp)
  {
    if n > 0 {
      SinceExactly(states, steps, settings, n - 1, stamp);
      assert Can(states[n - 1], steps[n - 1]) && states[n] == Next(states[n - 1], steps[n - 1], settings);
      assert LookedBack(states, steps, settings, n, stamp) <==>
             LookedBack(states, steps, settings, n - 1, stamp) &&
             (steps[n - 1].ReadCheckpoint? && states[n - 1].checkpoint.None? ==>
                states[n - 1].polls[steps[n - 1].poll].end - settings.lookback <= stamp);
    }
  }

  /** Whenever the checkpoint holds c, every record stamped within the lookback of every poll that found no checkpoint, no later than
      c without its fraction, and found before c and within `overlap` of the end of its second, is durable. */
  lemma CheckpointCoverage(states: seq<State>, steps: seq<Step>, settings: Settings, n: nat, id: RecordId)
    requires IsRun(states, steps, settings) && settings.Valid() && n <= |steps|
    requires states[n].checkpoint.Some? && id in states[n].device
    requires LookedBack(states, steps, settings, n, states[n].device[id].stamp)
    requires states[n].device[id].stamp <= Floor(states[n].checkpoint.value)
    requires states[n].device[id].visibleAt < states[n].checkpoint.value
    requires states[n].device[id].visibleAt < Floor(states[n].device[id].stamp) + SECOND + settings.overlap
    ensures id in states[n].durable
  {
    InvRun(states, steps, settings, n);
    SinceExactly(states, steps, settings, n, states[n].device[id].stamp);
    assert Covered(states[n], states[n].checkpoint.value, settings);
  }

  lemma Extend(states: seq<State>, steps: seq<Step>, step: Step, settings: Settings) returns (states': seq<State>, steps': seq<Step>)
    requires IsRun(states, steps, settings) && Can(states[|steps|], step)
    ensures IsRun(states', steps', settings)
    ensures states'[|steps'|] == Next(states[|steps|], step, settings)
  {
    states', steps' := states + [Next(states[|steps|], step, settings)], steps + [step];
  }

  /** A whole poll that finds nothing on the device for its window. */
  lemma EmptyPoll(states: seq<State>, steps: seq<Step>, settings: Settings) returns (states': seq<State>, steps': seq<Step>)
    requires IsRun(states, steps, settings) && states[|steps|].polls == map[]
    requires var s := states[|steps|]; Matching(s.device, WindowStart(s.clock, s.checkpoint, settings), s.clock) == {}
    ensures IsRun(states', steps', settings)
    ensures var s, s' := states[|steps|], states'[|steps'|];
            && s'.clock == s.clock && s'.device == s.device && s'.durable == s.durable && s'.polls == map[]
            && s'.checkpoint == Some(s.clock)
            && s'.since == if s.checkpoint.None? then Max(s.since, WindowStart(s.clock, None, settings)) else s.since
  {
    var s := states[|steps|];
    var start := WindowStart(s.clock, s.checkpoint, settings);
    states', steps' := Extend(states, steps, Begin(0), settings);
    states', steps' := Extend(states', steps', ReadCheckpoint(0), settings);
    assert states'[|steps'|].polls[0] == Ready(s.clock, start);
    states', steps' := Extend(states', steps', Search(0), settings);
    states', steps' := Extend(states', steps', Save(0), settings);
    assert states'[|steps'|].polls == map[];
  }

  /** The allowance is exact: a record found any later than that can be missing although the checkpoint has passed it. */
  lemma LaterRecordsCanBeMissed(settings: Settings, stamp: int, visibleAt: int, id: RecordId)
    returns (states: seq<State>, steps: seq<Step>)
    requires settings.Valid()
    requires Floor(stamp) + SECOND + settings.overlap <= visibleAt
    ensures IsRun(states, steps, settings)
    ensures var last := states[|steps|];
            && last.checkpoint.Some? && id in last.device && last.device[id] == DeviceRecord(stamp, visibleAt)
            && LookedBack(states, steps, settings, |steps|, stamp)
            && stamp <= Floor(last.checkpoint.value) && visibleAt < last.checkpoint.value
            && id !in last.durable
  {
    var first := Floor(stamp) + SECOND + settings.overlap;
    states, steps := [State(Floor(stamp), map[], {}, None, map[], stamp - settings.lookback)], [];
    states, steps := EmptyPoll(states, steps, settings);
    states, steps := Extend(states, steps, Tick(first), settings);
    states, steps := EmptyPoll(states, steps, settings);
    if first < visibleAt {
      states, steps := Extend(states, steps, Tick(visibleAt), settings);
    }
    states, steps := Extend(states, steps, Appear(id, stamp), settings);
    states, steps := Extend(states, steps, Tick(visibleAt + SECOND), settings);
    FloorMonotone(stamp, visibleAt + SECOND);
    states, steps := EmptyPoll(states, steps, settings);
    SinceExactly(states, steps, settings, |steps|, stamp);
  }

  // ----- One poll as the bridge performs it -----

  /** What the device answers for a window: events and records it could not parse, or an error. */
  datatype Answer = Failed | Found(events: seq<Event>, issues: seq<string>)

  /** What a poll adds to the directories: a new queue record for each event it found that no directory knew, as it found it, and the
      records it could not parse. */
  ghost predicate OnlyAdds(d: Disk, d': Disk, events: seq<Event>, issues: seq<string>, now: int) {
    && d'.synced == d.synced
    && (forall id :: id in d.pending ==> id in d'.pending && d'.pending[id] == d.pending[id])
    && (forall id :: id in d'.pending && id !in d.pending ==> !Known(d, id) && NewRecord(d'.pending[id], id, events, now))
    && (forall name :: name in d.failed ==> name in d'.failed && d'.failed[name] == d.failed[name])
    && (forall name :: name in d'.failed && name !in d.failed ==> name.ParseIssue? && name.raw in issues)
  }

  ghost predicate NewRecord(file: File, id: EventId, events: seq<Event>, now: int) {
    file.Readable? && file.record.event in events && file.record.event.id == id &&
    file.record.firstSeenAt == now && file.record.attempts == 0 && file.record.state == Pending && file.record.error == ""
  }

  class Poller {
    var checkpoint: Option<int>
    const settings: Settings
    const store: Store

    constructor (settings: Settings, store: Store)
      ensures checkpoint == None && this.settings == settings && this.store == store
    {
      this.settings, this.store, checkpoint := settings, store, None;
    }

    method StoreEvents(events: seq<Event>, now: int, ghost cloud: set<EventId>) returns (ok: bool, ghost ws: seq<Write>)
      modifies store
      ensures Replay(old(store.OnDisk()), ws, cloud) == Some(store.OnDisk())
      ensures ok <==> forall e :: e in events ==> ValidEventId(e.id)
      ensures ok ==> forall e :: e in events ==> Known(store.OnDisk(), e.id)
      ensures forall id :: old(Known(store.OnDisk(), id)) ==> Known(store.OnDisk(), id)
      ensures OnlyAdds(old(store.OnDisk()), store.OnDisk(), events, [], now)
    {
      ghost var before := store.OnDisk();
      ws := [];
      for i := 0 to |events|
        invariant OnlyAdds(before, store.OnDisk(), events, [], now)
        invariant Replay(before, ws, cloud) == Some(store.OnDisk())
        invariant forall e :: e in events[..i] ==> ValidEventId(e.id) && Known(store.OnDisk(), e.id)
        invariant forall id :: Known(before, id) ==> Known(store.OnDisk(), id)
      {
        PrefixStep(events, i);
        ghost var mid, more := store.OnDisk(), [];
        var created;
        ok, created, more := store.PutIfAbsent(events[i], now, cloud);
        ReplayAppend(before, ws, mid, more, cloud);
        ws := ws + more;
        assert events[i] in events;
        if !ok {
          return;
        }
      }
      WholePrefix(events);
      ok := true;
    }

    method KeepIssues(issues: seq<string>, ghost cloud: set<EventId>) returns (ghost ws: seq<Write>)
      modifies store`failed
      ensures Replay(old(store.OnDisk()), ws, cloud) == Some(store.OnDisk())
      ensures forall raw :: raw in issues ==> ParseIssue(raw) in store.failed
      ensures forall name :: name in old(store.failed) ==> name in store.failed && store.failed[name] == old(store.failed)[name]
      ensures forall name :: name in store.failed && name !in old(store.failed) ==> name.ParseIssue? && name.raw in issues
    {
      ghost var before := store.OnDisk();
      ws := [];
      for i := 0 to |issues|
        invariant Replay(before, ws, cloud) == Some(store.OnDisk())
        invariant forall raw :: raw in issues[..i] ==> ParseIssue(raw) in store.failed
        invariant forall name :: name in before.failed ==> name in store.failed && store.failed[name] == before.failed[name]
        invariant forall name :: name in store.failed && name !in before.failed ==> name.ParseIssue? && name.raw in issues
      {
        PrefixStep(issues, i);
        ghost var mid := store.OnDisk();
        var created;
        ghost var more;
        created, more := store.PreserveParseIssue(issues[i], cloud);
        ReplayAppend(before, ws, mid, more, cloud);
        ws := ws + more;
      }
      WholePrefix(issues);
    }

    /** `pollOnce`. The checkpoint moves only after everything in the window is durable; until then, and so at every cut-off,
        it is the one that was read. */
    method PollOnce(end: int, search: (int, int) -> Answer, now: int, ghost cloud: set<EventId>) returns (ok: bool, ghost ws: seq<Write>)
      modifies this`checkpoint, store
      ensures Replay(old(store.OnDisk()), ws, cloud) == Some(store.OnDisk())
      ensures checkpoint == if ok then Some(end) else old(checkpoint)
      ensures var answer := search(Floor(WindowStart(end, old(checkpoint), settings)), Floor(end));
              && (ok ==> answer.Found?
                         && (forall e :: e in answer.events ==> Known(store.OnDisk(), e.id))
                         && (forall raw :: raw in answer.issues ==> ParseIssue(raw) in store.failed))
              && (answer.Found? && (forall e :: e in answer.events ==> ValidEventId(e.id)) ==> ok)
              && (answer.Failed? ==> ws == [] && store.OnDisk() == old(store.OnDisk()))
              && (answer.Found? ==> OnlyAdds(old(store.OnDisk()), store.OnDisk(), answer.events, answer.issues, now))
      ensures forall id :: old(Known(store.OnDisk(), id)) ==> Known(store.OnDisk(), id)
      ensures ok && old(checkpoint).None? && settings.Valid() ==>
                var answer := search(Floor(end - settings.lookback), Floor(end));
                answer.Found? && forall e :: e in answer.events ==> Known(store.OnDisk(), e.id)
    {
      ghost var before := store.OnDisk();
      ws := [];
      ok := false;
      var start := end - settings.lookback;
      if checkpoint.Some? {
        start := checkpoint.value - settings.overlap;
      }
      if start > end {
        start := end - settings.overlap;
      }
      var answer := search(Floor(start), Floor(end));
      if answer.Failed? {
        return;
      }
      ok, ws := StoreEvents(answer.events, now, cloud);
      if !ok {
        return;
      }
      ghost var mid := store.OnDisk();
      ghost var more := KeepIssues(answer.issues, cloud);
      ReplayAppend(before, ws, mid, more, cloud);
      ws := ws + more;
      checkpoint := Some(end);
      ok := true;
    }
  }
}
