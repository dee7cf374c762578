/** Whole runs of the job queue: they end whichever jobs are picked and however often they fail, and when they end without a
    failed job, exactly the promised employee-days have been recalculated. */
module JobRuns {
  import opened Base
  import opened Sorting
  import opened CandidateDates
  import opened RecalculationJobs
  import opened JobAccounts

  /** No child of a pending job's remaining pages exists yet. */
  ghost predicate Inv(w: World, s: State) {
    forall id :: id in s.jobs && s.jobs[id].progress.Pending? && FansOut(s.jobs[id].work) ==>
      NoSuchChildren(s.jobs, id, ChildrenLeft(w, s.jobs[id].work))
  }

  /** What has been committed and what is still owed make up the goal; nothing else was recalculated. */
  ghost predicate Conserves(w: World, s: State, goal: multiset<Cell>) {
    && s.committed + Total(w, s.jobs).owed == goal
    && (forall c :: c in s.recalculated ==> c in goal)
    && (forall c :: c in s.committed ==> c in s.recalculated)
  }

  lemma RunOwed(w: World, job: Job)
    requires job.progress.Pending? && WorldOk(w) && !FansOut(job.work) && !job.work.Malformed?
    ensures JobAccount(w, RunJob(w, job)).effort < JobAccount(w, job).effort
    ensures JobAccount(w, job).owed == multiset(RunCells(w, job.work)) + JobAccount(w, RunJob(w, job)).owed
  {
    match job.work
    case DateRange(_, _, _) => DateRangeRuns(w, job);
    case IdentityMapping(_, _, _) => IdentityMappingRuns(w, job);
    case Unsupported => assert RunCells(w, job.work) == {};
  }

  lemma CellsOwed(w: World, job: Job)
    requires job.progress.Pending? && WorldOk(w)
    ensures multiset(RunCells(w, job.work)) <= JobAccount(w, job).owed
  {
    if FansOut(job.work) || job.work.Malformed? {
      assert RunCells(w, job.work) == {};
    } else {
      RunOwed(w, job);
    }
  }

  /** Cells that move from what is owed to what is committed leave the goal. */
  lemma Moved(before: Account, after: Account, former: Account, latter: Account, rest: Account, cells: set<Cell>,
              committed: multiset<Cell>, goal: multiset<Cell>)
    requires before == Add(former, rest) && after == Add(latter, rest) && committed + before.owed == goal
    requires former.owed == multiset(cells) + latter.owed
    ensures (committed + multiset(cells)) + after.owed == goal
    ensures forall c :: c in cells ==> c in goal
  {
    forall c ensures ((committed + multiset(cells)) + after.owed)[c] == goal[c] {
    }
    forall c | c in cells ensures c in goal {
      assert multiset(cells)[c] > 0;
    }
  }

  lemma ThrowAccounts(w: World, s: State, id: JobId, done: set<Cell>, goal: multiset<Cell>)
    requires WorldOk(w) && Can(w, s, Throws(id, done)) && Conserves(w, s, goal)
    ensures var s' := Next(w, s, Throws(id, done));
            Total(w, s'.jobs).effort < Total(w, s.jobs).effort && Conserves(w, s', goal)
  {
    var job := s.jobs[id];
    TotalChanged(w, s.jobs, id, FailJob(job));
    assert JobAccount(w, FailJob(job)).owed == JobAccount(w, job).owed;
    Owes(w, s, id, done, goal);
  }

  lemma Owes(w: World, s: State, id: JobId, cells: set<Cell>, goal: multiset<Cell>)
    requires WorldOk(w) && id in s.jobs && s.jobs[id].progress.Pending? && cells <= RunCells(w, s.jobs[id].work)
    requires s.committed + Total(w, s.jobs).owed == goal
    ensures forall c :: c in cells ==> c in goal
  {
    CellsOwed(w, s.jobs[id]);
    TotalWithout(w, s.jobs, id);
    forall c | c in cells ensures c in goal {
      assert multiset(RunCells(w, s.jobs[id].work))[c] > 0;
      assert JobAccount(w, s.jobs[id]).owed[c] > 0;
    }
  }

  lemma PlainAccounts(w: World, s: State, id: JobId, goal: multiset<Cell>)
    requires WorldOk(w) && Can(w, s, Succeeds(id)) && !FansOut(s.jobs[id].work) && Conserves(w, s, goal)
    ensures var s' := Next(w, s, Succeeds(id));
            Total(w, s'.jobs).effort < Total(w, s.jobs).effort && Conserves(w, s', goal)
  {
    var job := s.jobs[id];
    var cells := RunCells(w, job.work);
    var after := s.jobs[id := RunJob(w, job)];
    TotalChanged(w, s.jobs, id, RunJob(w, job));
    RunOwed(w, job);
    Moved(Total(w, s.jobs), Total(w, after), JobAccount(w, job), JobAccount(w, RunJob(w, job)), Total(w, s.jobs - {id}), cells,
          s.committed, goal);
    assert Next(w, s, Succeeds(id)).jobs == after;
  }

  lemma PageSpawnable(w: World, s: State, id: JobId)
    requires WorldOk(w) && Inv(w, s) && Can(w, s, Succeeds(id)) && FansOut(s.jobs[id].work)
    ensures Spawnable(s.jobs, id, Page(ChildrenLeft(w, s.jobs[id].work), FAN_PAGE))
  {
    FanRuns(w, s.jobs[id]);
    assert NoSuchChildren(s.jobs, id, ChildrenLeft(w, s.jobs[id].work));
  }

  /** Replacing one job's account by its page's and its own remaining one leaves the sum of what is owed. */
  lemma Shifted(before: Account, after: Account, page: Account, former: Account, latter: Account, rest: Account)
    requires Add(page, before) == Add(former, rest) && after == Add(latter, rest)
    requires page.effort + latter.effort < former.effort && former.owed == page.owed + latter.owed
    ensures after.effort < before.effort && after.owed == before.owed
  {
    forall c ensures after.owed[c] == before.owed[c] {
      assert (page.owed + before.owed)[c] == (former.owed + rest.owed)[c];
    }
  }

  lemma FanOutTotals(w: World, jobs: map<JobId, Job>, id: JobId)
    requires id in jobs && FansOut(jobs[id].work) && jobs[id].progress.Pending? && WorldOk(w)
    requires Spawnable(jobs, id, Page(ChildrenLeft(w, jobs[id].work), FAN_PAGE))
    ensures var after := Spawn(jobs, id, Page(ChildrenLeft(w, jobs[id].work), FAN_PAGE))[id := RunJob(w, jobs[id])];
            Total(w, after).effort < Total(w, jobs).effort && Total(w, after).owed == Total(w, jobs).owed
  {
    var job := jobs[id];
    var page := Page(ChildrenLeft(w, job.work), FAN_PAGE);
    var spawned := Spawn(jobs, id, page);
    SpawnTotal(w, jobs, id, page);
    SpawnKeys(jobs, id, page, id);
    TotalChanged(w, spawned, id, RunJob(w, job));
    FanAccounts(w, job);
    Shifted(Total(w, jobs), Total(w, spawned[id := RunJob(w, job)]), ChildrenAccount(page), JobAccount(w, job),
            JobAccount(w, RunJob(w, job)), Total(w, spawned - {id}));
  }

  lemma FanOutAccounts(w: World, s: State, id: JobId, goal: multiset<Cell>)
    requires WorldOk(w) && Inv(w, s) && Can(w, s, Succeeds(id)) && FansOut(s.jobs[id].work) && Conserves(w, s, goal)
    ensures var s' := Next(w, s, Succeeds(id));
            Total(w, s'.jobs).effort < Total(w, s.jobs).effort && Conserves(w, s', goal)
  {
    PageSpawnable(w, s, id);
    FanOutTotals(w, s.jobs, id);
    var s' := Next(w, s, Succeeds(id));
    assert RunCells(w, s.jobs[id].work) == {} && s'.committed == s.committed && s'.recalculated == s.recalculated;
  }

  lemma InvKept(w: World, s: State, step: Step)
    requires WorldOk(w) && Inv(w, s) && Can(w, s, step)
    ensures Inv(w, Next(w, s, step))
  {
    var s' := Next(w, s, step);
    var fan := step.Succeeds? && FansOut(s.jobs[step.id].work);
    var page := if fan then Page(ChildrenLeft(w, s.jobs[step.id].work), FAN_PAGE) else [];
    if fan {
      PageSpawnable(w, s, step.id);
      FanRuns(w, s.jobs[step.id]);
    }
    forall id | id in s'.jobs && s'.jobs[id].progress.Pending? && FansOut(s'.jobs[id].work)
      ensures NoSuchChildren(s'.jobs, id, ChildrenLeft(w, s'.jobs[id].work))
    {
      if fan {
        SpawnedAreDateRanges(s.jobs, step.id, page, id);
      }
      var left := ChildrenLeft(w, s'.jobs[id].work);
      assert id in s.jobs && s.jobs[id].progress.Pending? && FansOut(s.jobs[id].work);
      var leftBefore := ChildrenLeft(w, s.jobs[id].work);
      assert NoSuchChildren(s.jobs, id, leftBefore);
      forall i | 0 <= i < |left| ensures Child(id, left[i].key) !in s'.jobs {
        if fan {
          SpawnKeys(s.jobs, step.id, page, Child(id, left[i].key));
        }
        if fan && id == step.id {
          assert left[i] == leftBefore[FAN_PAGE + i];
          assert forall j :: 0 <= j < |page| ==> page[j] == leftBefore[j] && Before(page[j].key, left[i].key);
        } else {
          assert left == leftBefore;
        }
      }
    }
  }

  lemma {:induction false} SpawnedAreDateRanges(jobs: map<JobId, Job>, parent: JobId, children: seq<Entry<Option<Work>>>, id: JobId)
    requires DateRanges(children)
    ensures id in Spawn(jobs, parent, children) && !Spawn(jobs, parent, children)[id].work.DateRange? ==>
              id in jobs && Spawn(jobs, parent, children)[id] == jobs[id]
  {
    if children != [] {
      var init := children[..|children| - 1];
      assert forall i :: 0 <= i < |init| ==> init[i] == children[i];
      SpawnedAreDateRanges(jobs, parent, init, id);
    }
  }

  /** Each run of a job, successful or not, uses up effort, and moves employee-days from owed to committed without losing or
      repeating any. */
  lemma StepAccounts(w: World, s: State, step: Step, goal: multiset<Cell>)
    requires WorldOk(w) && Inv(w, s) && Can(w, s, step) && Conserves(w, s, goal)
    ensures var s' := Next(w, s, step);
            Total(w, s'.jobs).effort < Total(w, s.jobs).effort && Conserves(w, s', goal) && Inv(w, s')
  {
    InvKept(w, s, step);
    match step
    case Throws(id, done) => ThrowAccounts(w, s, id, done, goal);
    case Succeeds(id) =>
      if FansOut(s.jobs[id].work) {
        FanOutAccounts(w, s, id, goal);
      } else {
        PlainAccounts(w, s, id, goal);
      }
  }

  // ----- Whole runs -----

  /** Conservation: at every moment of every run, committed and owed employee-days add up to what the first jobs asked for. And
      every run of a job uses up effort, so a run of the queue cannot go on longer than its effort at the start. */
  lemma {:induction false} RunAccounts(w: World, states: seq<State>, steps: seq<Step>, n: nat)
    requires WorldOk(w) && IsRun(w, states, steps) && Initial(states[0]) && n <= |steps|
    ensures Inv(w, states[n])
    ensures Conserves(w, states[n], Total(w, states[0].jobs).owed)
    ensures n + Total(w, states[n].jobs).effort <= Total(w, states[0].jobs).effort
  {
    if n > 0 {
      RunAccounts(w, states, steps, n - 1);
      StepAccounts(w, states[n - 1], steps[n - 1], Total(w, states[0].jobs).owed);
    }
  }

  lemma ExtendRun(w: World, states: seq<State>, steps: seq<Step>, step: Step)
    requires IsRun(w, states, steps) && Can(w, states[|steps|], step)
    ensures IsRun(w, states + [Next(w, states[|steps|], step)], steps + [step])
  {
  }

  ghost predicate Quiescent(s: State) {
    forall id :: id in s.jobs ==> !s.jobs[id].progress.Pending?
  }

  lemma RunsAreBounded(w: World, states: seq<State>, steps: seq<Step>)
    requires WorldOk(w) && IsRun(w, states, steps) && Initial(states[0])
    ensures |steps| <= Total(w, states[0].jobs).effort
  {
    RunAccounts(w, states, steps, |steps|);
  }

  /** A run that has not drained the queue can go on; so every run, carried on while it can be, ends with all jobs completed or
      failed. */
  lemma NotDrainedGoesOn(w: World, s: State)
    ensures !Quiescent(s) <==> exists step :: Can(w, s, step)
  {
    if !Quiescent(s) {
      var id :| id in s.jobs && s.jobs[id].progress.Pending?;
      if s.jobs[id].work.Malformed? {
        assert Can(w, s, Throws(id, {}));
      } else {
        assert Can(w, s, Succeeds(id));
      }
    }
    if exists step :: Can(w, s, step) {
      var step :| Can(w, s, step);
      assert s.jobs[step.id].progress.Pending?;
    }
  }

  ghost predicate AllCompleted(s: State) {
    forall id :: id in s.jobs ==> s.jobs[id].progress.Completed?
  }

  lemma {:induction false} CompletedOweNothing(w: World, jobs: map<JobId, Job>)
    requires forall id :: id in jobs ==> jobs[id].progress.Completed?
    ensures Total(w, jobs) == ZERO
    decreases |jobs|
  {
    if jobs != map[] {
      var id :| id in jobs;
      TotalWithout(w, jobs, id);
      CompletedOweNothing(w, jobs - {id});
    }
  }

  /** When a run has completed every job, it has committed exactly the employee-days that the first jobs owed, as often as they
      owed them, and has recalculated no others. */
  lemma CompletedRunCovers(w: World, states: seq<State>, steps: seq<Step>)
    requires WorldOk(w) && IsRun(w, states, steps) && Initial(states[0]) && AllCompleted(states[|steps|])
    ensures states[|steps|].committed == Total(w, states[0].jobs).owed
    ensures forall c :: c in states[|steps|].recalculated <==> c in Total(w, states[0].jobs).owed
  {
    RunAccounts(w, states, steps, |steps|);
    CompletedOweNothing(w, states[|steps|].jobs);
  }

  // ----- What a job owes -----

  lemma {:induction false} DatesOwedCount(employee: int, cursor: int, end: int, c: Cell)
    ensures DatesOwed(employee, cursor, end)[c] == if c.0 == employee && cursor <= c.1 <= end then 1 else 0
    decreases end - cursor + 1
  {
    if cursor <= end {
      DatesOwedCount(employee, cursor + 1, end, c);
    }
  }

  /** The assignment is the employee's and is in force on the date, and the date is in the policy's range. */
  predicate Covers(a: Assignment, from: int, to: int, c: Cell) {
    a.employee == c.0 && from <= c.1 <= to && a.from <= c.1 && (a.to.Some? ==> c.1 <= a.to.value)
  }

  function CoverCount(list: seq<Entry<Assignment>>, from: int, to: int, c: Cell): nat {
    if list == [] then 0
    else CoverCount(list[..|list| - 1], from, to, c) + if Covers(list[|list| - 1].value, from, to, c) then 1 else 0
  }

  lemma AssignmentOwed(e: Entry<Assignment>, from: int, to: int, c: Cell)
    ensures ChildAccount(Entry(e.key, AssignmentWork(e.value, from, to))).owed[c] == if Covers(e.value, from, to, c) then 1 else 0
  {
    var work := AssignmentWork(e.value, from, to);
    if work.Some? {
      DatesOwedCount(work.value.employee, work.value.cursor, work.value.end, c);
    }
  }

  lemma LastChildOwed(front: seq<Entry<Option<Work>>>, last: Entry<Option<Work>>, c: Cell)
    ensures ChildrenAccount(front + [last]).owed[c] == ChildrenAccount(front).owed[c] + ChildAccount(last).owed[c]
  {
    ChildrenAppend(front, last);
  }

  lemma {:induction false} AssignmentsOwed(list: seq<Entry<Assignment>>, from: int, to: int, c: Cell)
    ensures ChildrenAccount(AssignmentChildren(list, from, to)).owed[c] == CoverCount(list, from, to, c)
  {
    if list != [] {
      var init, last := list[..|list| - 1], list[|list| - 1];
      AssignmentsOwed(init, from, to, c);
      AssignmentOwed(last, from, to, c);
      var child := Entry(last.key, AssignmentWork(last.value, from, to));
      LastChildOwed(AssignmentChildren(init, from, to), child, c);
      assert AssignmentChildren(list, from, to) == AssignmentChildren(init, from, to) + [child];
    }
  }

  lemma {:induction false} CoverCountPositive(list: seq<Entry<Assignment>>, from: int, to: int, c: Cell)
    ensures CoverCount(list, from, to, c) > 0 <==> exists i :: 0 <= i < |list| && Covers(list[i].value, from, to, c)
  {
    if list != [] {
      var init := list[..|list| - 1];
      CoverCountPositive(init, from, to, c);
      assert forall i :: 0 <= i < |init| ==> init[i] == list[i];
    }
  }

  /** What the other jobs of the queue owe. */
  ghost function OthersOwed(w: World, s: State, id: JobId): multiset<Cell> {
    Total(w, s.jobs - {id}).owed
  }

  /** In a run that completes every job, what was committed is what this job owed at first and what the others did. */
  lemma Contribution(w: World, states: seq<State>, steps: seq<Step>, id: JobId, c: Cell)
    requires WorldOk(w) && IsRun(w, states, steps) && Initial(states[0]) && AllCompleted(states[|steps|]) && id in states[0].jobs
    ensures states[|steps|].committed[c] == JobAccount(w, states[0].jobs[id]).owed[c] + OthersOwed(w, states[0], id)[c]
    ensures c in states[|steps|].recalculated <==> c in JobAccount(w, states[0].jobs[id]).owed || c in OthersOwed(w, states[0], id)
  {
    CompletedRunCovers(w, states, steps);
    TotalWithout(w, states[0].jobs, id);
  }

  /** A shift-policy job, in a run that completes every job: it has an employee-day recalculated exactly if the day is in the policy's
      range and some assignment of the shift has that employee on it; and it commits the day once for each such assignment, whatever
      the number of pages. */
  lemma ShiftPolicyCoverage(w: World, states: seq<State>, steps: seq<Step>, id: JobId, shift: int, from: int, to: int, attempts: nat, c: Cell)
    requires WorldOk(w) && IsRun(w, states, steps) && Initial(states[0]) && AllCompleted(states[|steps|]) && id in states[0].jobs
    requires states[0].jobs[id] == Job(ShiftPolicy(shift, from, to, None), Pending, attempts)
    ensures states[|steps|].committed[c] == CoverCount(AssignmentsOf(w, shift), from, to, c) + OthersOwed(w, states[0], id)[c]
    ensures c in states[|steps|].recalculated <==>
            || (exists i :: 0 <= i < |AssignmentsOf(w, shift)| && Covers(AssignmentsOf(w, shift)[i].value, from, to, c))
            || c in OthersOwed(w, states[0], id)
  {
    Contribution(w, states, steps, id, c);
    PolicyOwed(w, shift, from, to, attempts, c);
    CoverCountPositive(AssignmentsOf(w, shift), from, to, c);
  }

  lemma PolicyOwed(w: World, shift: int, from: int, to: int, attempts: nat, c: Cell)
    ensures JobAccount(w, Job(ShiftPolicy(shift, from, to, None), Pending, attempts)).owed[c] == CoverCount(AssignmentsOf(w, shift), from, to, c)
  {
    AllAfter(AssignmentsOf(w, shift), None);
    AssignmentsOwed(AssignmentsOf(w, shift), from, to, c);
  }

  /** A date-range job, in a run that completes every job, commits every one of its dates exactly once, across all its chunks and
      retries. */
  lemma DateRangeCoverage(w: World, states: seq<State>, steps: seq<Step>, id: JobId, employee: int, start: int, end: int, attempts: nat, c: Cell)
    requires WorldOk(w) && IsRun(w, states, steps) && Initial(states[0]) && AllCompleted(states[|steps|]) && id in states[0].jobs
    requires states[0].jobs[id] == Job(DateRange(employee, start, end), Pending, attempts)
    ensures states[|steps|].committed[c] ==
            (if c.0 == employee && start <= c.1 <= end then 1 else 0) + OthersOwed(w, states[0], id)[c]
    ensures c in states[|steps|].recalculated <==> (c.0 == employee && start <= c.1 <= end) || c in OthersOwed(w, states[0], id)
  {
    Contribution(w, states, steps, id, c);
    DatesOwedCount(employee, start, end, c);
  }

  function EmployeeCount(list: seq<Entry<int>>, employee: int): nat {
    if list == [] then 0
    else EmployeeCount(list[..|list| - 1], employee) + if list[|list| - 1].value == employee then 1 else 0
  }

  lemma EmployeeOwed(e: Entry<int>, start: int, last: int, c: Cell)
    ensures ChildAccount(Entry(e.key, Some(DateRange(e.value, start, last)))).owed[c] == if e.value == c.0 && start <= c.1 <= last then 1 else 0
  {
    DatesOwedCount(e.value, start, last, c);
  }

  lemma LastEmployeeChild(list: seq<Entry<int>>, start: int, last: int)
    requires list != []
    ensures EmployeeChildren(list, start, last) ==
            EmployeeChildren(list[..|list| - 1], start, last) + [Entry(list[|list| - 1].key, Some(DateRange(list[|list| - 1].value, start, last)))]
  {
  }

  lemma {:induction false} EmployeesOwed(list: seq<Entry<int>>, start: int, last: int, c: Cell)
    ensures ChildrenAccount(EmployeeChildren(list, start, last)).owed[c] == if start <= c.1 <= last then EmployeeCount(list, c.0) else 0
  {
    if list != [] {
      var init, e := list[..|list| - 1], list[|list| - 1];
      var child := Entry(e.key, Some(DateRange(e.value, start, last)));
      EmployeesOwed(init, start, last, c);
      EmployeeOwed(e, start, last, c);
      LastChildOwed(EmployeeChildren(init, start, last), child, c);
      LastEmployeeChild(list, start, last);
    }
  }

  /** An organization-wide job, in a run that completes every job, commits each date of its range once for each employee document of
      the branch. */
  lemma OrganizationCoverage(w: World, states: seq<State>, steps: seq<Step>, id: JobId, branch: Option<int>, start: int, last: int,
                             attempts: nat, c: Cell)
    requires WorldOk(w) && IsRun(w, states, steps) && Initial(states[0]) && AllCompleted(states[|steps|]) && id in states[0].jobs
    requires states[0].jobs[id] == Job(OrganizationRange(branch, start, last, None), Pending, attempts)
    ensures states[|steps|].committed[c] ==
            (if start <= c.1 <= last then EmployeeCount(EmployeesOf(w, branch), c.0) else 0) + OthersOwed(w, states[0], id)[c]
  {
    Contribution(w, states, steps, id, c);
    OrganizationOwed(w, branch, start, last, attempts, c);
  }

  lemma OrganizationOwed(w: World, branch: Option<int>, start: int, last: int, attempts: nat, c: Cell)
    ensures JobAccount(w, Job(OrganizationRange(branch, start, last, None), Pending, attempts)).owed[c] ==
            if start <= c.1 <= last then EmployeeCount(EmployeesOf(w, branch), c.0) else 0
  {
    AllAfter(EmployeesOf(w, branch), None);
    EmployeesOwed(EmployeesOf(w, branch), start, last, c);
  }

  lemma {:induction false} EventDatesMembers(events: seq<Entry<int>>, offset: int, d: int)
    ensures d in EventDates(events, offset) <==> exists i :: 0 <= i < |events| && d in Candidates(events[i].value, offset)
  {
    if events != [] {
      var init := events[..|events| - 1];
      EventDatesMembers(init, offset, d);
      assert forall i :: 0 <= i < |init| ==> init[i] == events[i];
    }
  }

  lemma {:induction false} EventsOwedMembers(employee: int, events: seq<Entry<int>>, offset: int, c: Cell)
    ensures c in EventsOwed(employee, events, offset) <==>
            c.0 == employee && exists i :: 0 <= i < |events| && c.1 in Candidates(events[i].value, offset)
    decreases |events|
  {
    var page := Page(events, EVENT_PAGE);
    EventDatesMembers(page, offset, c.1);
    var cells := set d | d in EventDates(page, offset) :: (employee, d);
    assert c in multiset(cells) <==> c.0 == employee && c.1 in EventDates(page, offset);
    if |events| >= EVENT_PAGE {
      EventsOwedMembers(employee, events[EVENT_PAGE..], offset, c);
      assert forall i :: 0 <= i < EVENT_PAGE ==> page[i] == events[i];
      assert forall i :: EVENT_PAGE <= i < |events| ==> events[EVENT_PAGE..][i - EVENT_PAGE] == events[i];
    }
  }

  /** An identity-mapping job, in a run that completes every job, recalculates exactly the candidate dates of the identity's events,
      for the mapped employee. */
  lemma IdentityMappingCoverage(w: World, states: seq<State>, steps: seq<Step>, id: JobId, identity: int, mapped: int, attempts: nat, c: Cell)
    requires WorldOk(w) && IsRun(w, states, steps) && Initial(states[0]) && AllCompleted(states[|steps|]) && id in states[0].jobs
    requires states[0].jobs[id] == Job(IdentityMapping(identity, mapped, None), Pending, attempts)
    ensures c in states[|steps|].recalculated <==>
            || (c.0 == mapped && exists i :: 0 <= i < |EventsOf(w, identity)| && c.1 in Candidates(EventsOf(w, identity)[i].value, w.offset))
            || c in OthersOwed(w, states[0], id)
  {
    Contribution(w, states, steps, id, c);
    AllAfter(EventsOf(w, identity), None);
    EventsOwedMembers(mapped, EventsOf(w, identity), w.offset, c);
  }
}
