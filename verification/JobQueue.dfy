/** The scheduled function that works the job queue: one run of each kind of job, the error handler around it, and a round of
    at most five jobs. */
module JobQueue {
  import opened Base
  import opened Sorting
  import opened CandidateDates
  import opened RecalculationJobs
  import opened JobAccounts
  import opened JobRuns

  const ROUND := 5

  function DateKey(d: int): (int, int) {
    (d, 0)
  }

  /** Adding to a set that remembers insertion order. */
  function AddDate(dates: seq<int>, d: int): (r: seq<int>)
    ensures (set x | x in r) == (set x | x in dates) + {d}
    ensures Distinct(dates) ==> Distinct(r)
  {
    if d in dates then dates else dates + [d]
  }

  function CellsOf(employee: int, dates: seq<int>): set<Cell> {
    set d | d in dates :: (employee, d)
  }

  lemma CellsOfStep(employee: int, dates: seq<int>, d: int)
    ensures CellsOf(employee, dates + [d]) == CellsOf(employee, dates) + {(employee, d)}
  {
    assert d in dates + [d];
  }

  /** The candidate dates of a page of events, each once and in order. */
  method PageDates(events: seq<Entry<int>>, offset: int) returns (ordered: seq<int>)
    ensures forall d :: d in ordered <==> d in EventDates(events, offset)
    ensures forall i, j :: 0 <= i < j < |ordered| ==> ordered[i] < ordered[j]
  {
    var dates: seq<int> := [];
    for i := 0 to |events|
      invariant (set d | d in dates) == EventDates(events[..i], offset) && Distinct(dates)
    {
      PrefixStep(events, i);
      dates := AddDate(dates, LocalDate(events[i].value, offset) - 1);
      dates := AddDate(dates, LocalDate(events[i].value, offset));
    }
    WholePrefix(events);
    ordered := Sort(dates, DateKey);
    SortSorts(dates, DateKey);
    SameMembers(dates, ordered);
    SameCounts(dates, ordered);
    forall i, j | 0 <= i < j < |ordered| ensures ordered[i] < ordered[j] {
      assert !Before(DateKey(ordered[j]), DateKey(ordered[i])) && ordered[i] != ordered[j];
    }
    forall d ensures d in ordered <==> d in EventDates(events, offset) {
      assert d in dates <==> d in (set x | x in dates);
    }
  }

  /** The child documents for a page of assignments. */
  method PolicyBatch(parent: JobId, page: seq<Entry<Assignment>>, from: int, to: int, ghost jobs: map<JobId, Job>)
    returns (batch: map<JobId, Job>)
    ensures jobs + batch == Spawn(jobs, parent, AssignmentChildren(page, from, to))
  {
    ghost var children := AssignmentChildren(page, from, to);
    batch := map[];
    for i := 0 to |page|
      invariant jobs + batch == Spawn(jobs, parent, children[..i])
    {
      PrefixStep(children, i);
      assert children[i] == Entry(page[i].key, AssignmentWork(page[i].value, from, to));
      var assignment := page[i].value;
      var start := if assignment.from > from then assignment.from else from;
      var assignmentEnd := if assignment.to.Some? then assignment.to.value else to;
      var end := if assignmentEnd < to then assignmentEnd else to;
      if start <= end {
        batch := batch[Child(parent, page[i].key) := Job(DateRange(assignment.employee, start, end), Pending, 0)];
      }
    }
    WholePrefix(children);
  }

  /** The child documents for a page of employees. */
  method EmployeeBatch(parent: JobId, page: seq<Entry<int>>, start: int, last: int, ghost jobs: map<JobId, Job>)
    returns (batch: map<JobId, Job>)
    ensures jobs + batch == Spawn(jobs, parent, EmployeeChildren(page, start, last))
  {
    ghost var children := EmployeeChildren(page, start, last);
    batch := map[];
    for i := 0 to |page|
      invariant jobs + batch == Spawn(jobs, parent, children[..i])
    {
      PrefixStep(children, i);
      batch := batch[Child(parent, page[i].key) := Job(DateRange(page[i].value, start, last), Pending, 0)];
    }
    WholePrefix(children);
  }

  /** Up to five pending jobs. */
  method PickPending(jobs: map<JobId, Job>) returns (picked: seq<JobId>)
    ensures |picked| <= ROUND && Distinct(picked)
    ensures forall k :: 0 <= k < |picked| ==> picked[k] in jobs && jobs[picked[k]].progress.Pending?
    ensures |picked| == 0 <==> forall id :: id in jobs ==> !jobs[id].progress.Pending?
  {
    var left := set id | id in jobs && jobs[id].progress.Pending?;
    picked := [];
    while left != {} && |picked| < ROUND
      invariant |picked| <= ROUND && Distinct(picked)
      invariant forall id :: id in left ==> id in jobs && jobs[id].progress.Pending?
      invariant forall k :: 0 <= k < |picked| ==> picked[k] in jobs && jobs[picked[k]].progress.Pending? && picked[k] !in left
      invariant |picked| == 0 ==> forall id :: id in jobs && jobs[id].progress.Pending? ==> id in left
    {
      var id :| id in left;
      picked := picked + [id];
      left := left - {id};
    }
    if |picked| > 0 {
      assert picked[0] in jobs && jobs[picked[0]].progress.Pending?;
    }
  }

  class Queue {
    var jobs: map<JobId, Job>
    var days: set<Cell>
    ghost var committed: multiset<Cell>

    ghost function Current(): State
      reads this
    {
      State(jobs, committed, days)
    }

    constructor (jobs: map<JobId, Job>)
      ensures Current() == State(jobs, multiset{}, {})
    {
      this.jobs, days, committed := jobs, {}, multiset{};
    }

    /** `processEmployeeDateRangeJob`. The write number `failAt`, if there is one, throws: a recalculation, or the final update. */
    method ProcessDateRange(w: World, id: JobId, failAt: Option<nat>) returns (ok: bool, ghost done: set<Cell>)
      requires id in jobs && jobs[id].progress.Pending? && jobs[id].work.DateRange?
      modifies this
      ensures ok ==> Current() == Next(w, old(Current()), Succeeds(id))
      ensures !ok ==> done <= RunCells(w, old(jobs)[id].work) && Current() == old(Current()).(recalculated := old(days) + done)
      ensures failAt.None? ==> ok
    {
      var work := jobs[id].work;
      var cursor, processed: nat := work.cursor, 0;
      done := {};
      while cursor <= work.end && processed < CHUNK_DAYS
        invariant processed <= ChunkDays(work.cursor, work.end) && cursor == work.cursor + processed
        invariant done == DayCells(work.employee, work.cursor, processed) && days == old(days) + done
        invariant jobs == old(jobs) && committed == old(committed)
      {
        if failAt == Some(processed) {
          return false, done;
        }
        days := days + {(work.employee, cursor)};
        done := done + {(work.employee, cursor)};
        cursor := cursor + 1;
        processed := processed + 1;
      }
      assert processed == ChunkDays(work.cursor, work.end);
      if failAt.Some? {
        return false, done;
      }
      var completed := cursor > work.end;
      jobs := jobs[id := jobs[id].(work := DateRange(work.employee, cursor, work.end), progress := if completed then Completed else Pending)];
      committed := committed + multiset(done);
      ok := true;
    }

    /** Recalculates dates in order, unless one of the writes, or the job update after them, throws. */
    method RecalculateDates(employee: int, dates: seq<int>, failAt: Option<nat>) returns (ok: bool, ghost done: set<Cell>)
      modifies this`days
      ensures ok == failAt.None? && days == old(days) + done
      ensures done <= CellsOf(employee, dates) && (ok ==> done == CellsOf(employee, dates))
    {
      done := {};
      for i := 0 to |dates|
        invariant days == old(days) + done && done == CellsOf(employee, dates[..i])
      {
        PrefixStep(dates, i);
        CellsOfStep(employee, dates[..i], dates[i]);
        if failAt.Some? && failAt.value == i {
          return false, done;
        }
        days := days + {(employee, dates[i])};
        done := done + {(employee, dates[i])};
      }
      WholePrefix(dates);
      ok := failAt.None?;
    }

    /** `processIdentityMappingJob`. */
    method ProcessIdentityMapping(w: World, id: JobId, failAt: Option<nat>) returns (ok: bool, ghost done: set<Cell>)
      requires id in jobs && jobs[id].progress.Pending? && jobs[id].work.IdentityMapping?
      modifies this
      ensures ok ==> Current() == Next(w, old(Current()), Succeeds(id))
      ensures !ok ==> done <= RunCells(w, old(jobs)[id].work) && Current() == old(Current()).(recalculated := old(days) + done)
      ensures failAt.None? ==> ok
    {
      var work := jobs[id].work;
      var events := Page(EventsAfter(w, work.identity, work.after), EVENT_PAGE);
      var ordered := PageDates(events, w.offset);
      assert CellsOf(work.mapped, ordered) == RunCells(w, work);
      ok, done := RecalculateDates(work.mapped, ordered, failAt);
      if !ok {
        return;
      }
      if |events| < EVENT_PAGE {
        jobs := jobs[id := jobs[id].(progress := Completed)];
      } else {
        jobs := jobs[id := jobs[id].(work := IdentityMapping(work.identity, work.mapped, Some(events[EVENT_PAGE - 1].key)))];
      }
      committed := committed + multiset(done);
      ok := true;
    }

    /** `processShiftPolicyJob`: the page's child jobs and the cursor go into one batch. */
    method ProcessShiftPolicy(w: World, id: JobId, fails: bool) returns (ok: bool)
      requires id in jobs && jobs[id].progress.Pending? && jobs[id].work.ShiftPolicy?
      modifies this
      ensures ok == !fails
      ensures Current() == if ok then Next(w, old(Current()), Succeeds(id)) else old(Current())
    {
      var work := jobs[id].work;
      var list := AssignmentsAfter(w, work.shift, work.after);
      var page := Page(list, FAN_PAGE);
      assert AssignmentChildren(page, work.from, work.to) == Page(ChildrenLeft(w, work), FAN_PAGE);
      var batch := PolicyBatch(id, page, work.from, work.to, jobs);
      if fails {
        return false;
      }
      var updated := if |page| < FAN_PAGE then jobs[id].(progress := Completed)
                     else jobs[id].(work := ShiftPolicy(work.shift, work.from, work.to, Some(page[FAN_PAGE - 1].key)));
      jobs := jobs + batch;
      jobs := jobs[id := updated];
      assert committed + multiset(RunCells(w, work)) == committed && days + RunCells(w, work) == days;
      ok := true;
    }

    /** `processOrganizationDateRangeJob`. */
    method ProcessOrganization(w: World, id: JobId, fails: bool) returns (ok: bool)
      requires id in jobs && jobs[id].progress.Pending? && jobs[id].work.OrganizationRange?
      modifies this
      ensures ok == !fails
      ensures Current() == if ok then Next(w, old(Current()), Succeeds(id)) else old(Current())
    {
      var work := jobs[id].work;
      var list := EmployeesAfter(w, work.branch, work.after);
      var page := Page(list, FAN_PAGE);
      assert EmployeeChildren(page, work.start, work.last) == Page(ChildrenLeft(w, work), FAN_PAGE);
      var batch := EmployeeBatch(id, page, work.start, work.last, jobs);
      if fails {
        return false;
      }
      var updated := if |page| < FAN_PAGE then jobs[id].(progress := Completed)
                     else jobs[id].(work := OrganizationRange(work.branch, work.start, work.last, Some(page[FAN_PAGE - 1].key)));
      jobs := jobs + batch;
      jobs := jobs[id := updated];
      assert committed + multiset(RunCells(w, work)) == committed && days + RunCells(w, work) == days;
      ok := true;
    }

    /** One job of a round, with the handler that counts its attempts. */
    method ProcessJob(w: World, id: JobId, failAt: Option<nat>) returns (ghost step: Step)
      requires id in jobs && jobs[id].progress.Pending?
      modifies this
      ensures step.id == id && Can(w, old(Current()), step) && Current() == Next(w, old(Current()), step)
      ensures failAt.None? && !old(jobs)[id].work.Malformed? ==> step.Succeeds?
    {
      ghost var done: set<Cell> := {};
      var ok := false;
      match jobs[id].work {
        case DateRange(_, _, _) => ok, done := ProcessDateRange(w, id, failAt);
        case IdentityMapping(_, _, _) => ok, done := ProcessIdentityMapping(w, id, failAt);
        case ShiftPolicy(_, _, _, _) => ok := ProcessShiftPolicy(w, id, failAt.Some?);
        case OrganizationRange(_, _, _, _) => ok := ProcessOrganization(w, id, failAt.Some?);
        case Unsupported =>
          jobs := jobs[id := jobs[id].(progress := Failed)];
          assert committed + multiset(RunCells(w, Unsupported)) == committed && days + RunCells(w, Unsupported) == days;
          ok := true;
        case Malformed =>
      }
      if ok {
        step := Succeeds(id);
      } else {
        var attempts := jobs[id].attempts;
        jobs := jobs[id := jobs[id].(attempts := attempts + 1, progress := if attempts >= MAX_ATTEMPTS then Failed else Pending)];
        step := Throws(id, done);
        assert days == old(days) + done;
      }
    }

    /** One scheduled round: up to five pending jobs, each from its document as it was when the round began. */
    method ProcessRound(w: World, failures: JobId -> Option<nat>) returns (ghost states: seq<State>, ghost steps: seq<Step>)
      requires WorldOk(w) && Inv(w, Current())
      modifies this
      ensures IsRun(w, states, steps) && states[0] == old(Current()) && states[|steps|] == Current()
      ensures Inv(w, Current())
      ensures |steps| <= ROUND && (|steps| == 0 <==> Quiescent(old(Current())))
      ensures forall k :: 0 <= k < |steps| ==>
                steps[k].id in old(jobs) && steps[k].id in states[k].jobs && states[k].jobs[steps[k].id] == old(jobs)[steps[k].id]
      ensures forall i, j :: 0 <= i < j < |steps| ==> steps[i].id != steps[j].id
    {
      var picked := PickPending(jobs);
      states, steps := [Current()], [];
      ghost var snapshot := jobs;
      for i := 0 to |picked|
        invariant IsRun(w, states, steps) && states[0] == old(Current()) && states[|steps|] == Current()
        invariant Inv(w, Current()) && |steps| == i
        invariant Unprocessed(jobs, snapshot, picked, i)
        invariant forall k :: 0 <= k < i ==> steps[k].id == picked[k]
        invariant forall k :: 0 <= k < i ==>
                    picked[k] in snapshot && picked[k] in states[k].jobs && states[k].jobs[picked[k]] == snapshot[picked[k]]
      {
        ghost var before := Current();
        ghost var step := ProcessJob(w, picked[i], failures(picked[i]));
        InvKept(w, before, step);
        ExtendRun(w, states, steps, step);
        RestKept(w, before, step, picked, i, snapshot);
        states, steps := states + [Current()], steps + [step];
      }
    }
  }

  /** Running one job leaves every other existing job's document as it was. */
  lemma OthersKept(w: World, s: State, step: Step, id: JobId)
    requires WorldOk(w) && Inv(w, s) && Can(w, s, step) && id in s.jobs && id != step.id
    ensures id in Next(w, s, step).jobs && Next(w, s, step).jobs[id] == s.jobs[id]
  {
    if step.Succeeds? && FansOut(s.jobs[step.id].work) {
      var page := Page(ChildrenLeft(w, s.jobs[step.id].work), FAN_PAGE);
      PageSpawnable(w, s, step.id);
      SpawnKeys(s.jobs, step.id, page, id);
    }
  }

  /** The jobs of the round from the i-th on still have the documents that the query returned. */
  ghost predicate Unprocessed(jobs: map<JobId, Job>, snapshot: map<JobId, Job>, picked: seq<JobId>, i: nat) {
    forall k :: i <= k < |picked| ==> picked[k] in jobs && picked[k] in snapshot && jobs[picked[k]] == snapshot[picked[k]]
  }

  lemma RestKept(w: World, s: State, step: Step, picked: seq<JobId>, i: nat, snapshot: map<JobId, Job>)
    requires WorldOk(w) && Inv(w, s) && Can(w, s, step) && Distinct(picked) && i < |picked| && step.id == picked[i]
    requires Unprocessed(s.jobs, snapshot, picked, i)
    ensures Unprocessed(Next(w, s, step).jobs, snapshot, picked, i + 1)
  {
    forall k | i < k < |picked|
      ensures picked[k] in Next(w, s, step).jobs && Next(w, s, step).jobs[picked[k]] == s.jobs[picked[k]]
    {
      OthersKept(w, s, step, picked[k]);
    }
  }
}
