/** What a job queue still owes: a bound on the runs left, and the employee-days left to commit. Both are sums over the jobs. */
module JobAccounts {
  import opened Base
  import opened Sorting
  import opened RecalculationJobs

  /** Runs that may still be needed, and employee-days still to be committed. */
  datatype Account = Account(effort: nat, owed: multiset<Cell>)

  const ZERO := Account(0, multiset{})

  function Add(a: Account, b: Account): Account {
    Account(a.effort + b.effort, a.owed + b.owed)
  }

  lemma AddLaws(a: Account, b: Account, c: Account)
    ensures Add(a, Add(b, c)) == Add(Add(a, b), c) && Add(a, b) == Add(b, a) && Add(a, ZERO) == a
  {
  }

  // ----- One job -----

  function DatesOwed(employee: int, cursor: int, end: int): multiset<Cell>
    decreases end - cursor + 1
  {
    if end < cursor then multiset{} else multiset{(employee, cursor)} + DatesOwed(employee, cursor + 1, end)
  }

  function ChunksLeft(cursor: int, end: int): nat {
    if end < cursor then 0 else (end - cursor) / CHUNK_DAYS
  }

  function Tries(attempts: nat): (t: nat)
    ensures t >= 1
  {
    if attempts >= MAX_ATTEMPTS then 1 else MAX_ATTEMPTS + 1 - attempts
  }

  function DateRangeAccount(work: Work): Account
    requires work.DateRange?
  {
    Account(ChunksLeft(work.cursor, work.end), DatesOwed(work.employee, work.cursor, work.end))
  }

  /** A job that has just been created. */
  function NewAccount(work: Work): Account
    requires work.DateRange?
  {
    Add(DateRangeAccount(work), Account(Tries(0), multiset{}))
  }

  function ChildAccount(child: Entry<Option<Work>>): Account {
    if child.value.Some? && child.value.value.DateRange? then NewAccount(child.value.value) else ZERO
  }

  function ChildrenAccount(children: seq<Entry<Option<Work>>>): Account {
    if children == [] then ZERO else Add(ChildrenAccount(children[..|children| - 1]), ChildAccount(children[|children| - 1]))
  }

  /** Page by page, each page's dates counted once. */
  function EventsOwed(employee: int, events: seq<Entry<int>>, offset: int): multiset<Cell> {
    var dates := EventDates(Page(events, EVENT_PAGE), offset);
    multiset(set d | d in dates :: (employee, d)) +
    if |events| < EVENT_PAGE then multiset{} else EventsOwed(employee, events[EVENT_PAGE..], offset)
  }

  function WorkAccount(w: World, work: Work): Account {
    match work
    case DateRange(_, _, _) => DateRangeAccount(work)
    case IdentityMapping(identity, mapped, after) =>
      var list := EventsAfter(w, identity, after);
      Account(|list| / EVENT_PAGE, EventsOwed(mapped, list, w.offset))
    case ShiftPolicy(_, _, _, _) => FanAccount(ChildrenLeft(w, work))
    case OrganizationRange(_, _, _, _) => FanAccount(ChildrenLeft(w, work))
    case Unsupported => ZERO
    case Malformed => ZERO
  }

  function FanAccount(children: seq<Entry<Option<Work>>>): Account {
    Add(Account(|children| / FAN_PAGE, multiset{}), ChildrenAccount(children))
  }

  function JobAccount(w: World, job: Job): Account {
    match job.progress
    case Completed => ZERO
    case Failed => Account(0, WorkAccount(w, job.work).owed)
    case Pending => Add(WorkAccount(w, job.work), Account(Tries(job.attempts), multiset{}))
  }

  // ----- All jobs -----

  ghost function Total(w: World, jobs: map<JobId, Job>): Account {
    if jobs == map[] then ZERO
    else
      var id :| id in jobs;
      Add(JobAccount(w, jobs[id]), Total(w, jobs - {id}))
  }

  lemma {:induction false} TotalWithout(w: World, jobs: map<JobId, Job>, id: JobId)
    requires id in jobs
    ensures Total(w, jobs) == Add(JobAccount(w, jobs[id]), Total(w, jobs - {id}))
    decreases |jobs|
  {
    var first :| first in jobs && Total(w, jobs) == Add(JobAccount(w, jobs[first]), Total(w, jobs - {first}));
    if first != id {
      TotalWithout(w, jobs - {first}, id);
      TotalWithout(w, jobs - {id}, first);
      assert jobs - {first} - {id} == jobs - {id} - {first};
      var rest := Total(w, jobs - {id} - {first});
      AddLaws(JobAccount(w, jobs[first]), JobAccount(w, jobs[id]), rest);
      AddLaws(JobAccount(w, jobs[id]), JobAccount(w, jobs[first]), rest);
    }
  }

  lemma TotalNew(w: World, jobs: map<JobId, Job>, id: JobId, job: Job)
    requires id !in jobs
    ensures Total(w, jobs[id := job]) == Add(JobAccount(w, job), Total(w, jobs))
  {
    TotalWithout(w, jobs[id := job], id);
    assert jobs[id := job] - {id} == jobs;
  }

  lemma TotalChanged(w: World, jobs: map<JobId, Job>, id: JobId, job: Job)
    requires id in jobs
    ensures Total(w, jobs) == Add(JobAccount(w, jobs[id]), Total(w, jobs - {id}))
    ensures Total(w, jobs[id := job]) == Add(JobAccount(w, job), Total(w, jobs - {id}))
  {
    TotalWithout(w, jobs, id);
    TotalWithout(w, jobs[id := job], id);
    assert jobs[id := job] - {id} == jobs - {id};
  }

  // ----- Running a job -----

  lemma DayCellsStep(employee: int, cursor: int, days: nat)
    requires days > 0
    ensures multiset(DayCells(employee, cursor, days)) == multiset{(employee, cursor)} + multiset(DayCells(employee, cursor + 1, days - 1))
  {
    var rest := DayCells(employee, cursor + 1, days - 1);
    assert DayCells(employee, cursor, days) == {(employee, cursor)} + rest;
    assert (employee, cursor) !in rest;
  }

  /** The next days and what is owed after them. */
  function Split(employee: int, cursor: int, days: nat, end: int): multiset<Cell> {
    multiset(DayCells(employee, cursor, days)) + DatesOwed(employee, cursor + days, end)
  }

  lemma SplitStep(employee: int, cursor: int, days: nat, end: int)
    requires days > 0
    ensures Split(employee, cursor, days, end) == multiset{(employee, cursor)} + Split(employee, cursor + 1, days - 1, end)
  {
    DayCellsStep(employee, cursor, days);
    assert cursor + 1 + (days - 1) == cursor + days;
  }

  lemma {:induction false} DatesSplit(employee: int, cursor: int, days: nat, end: int)
    requires cursor + days <= end + 1
    ensures DatesOwed(employee, cursor, end) == Split(employee, cursor, days, end)
    decreases days
  {
    if days == 0 {
      assert DayCells(employee, cursor, days) == {};
    } else {
      SplitStep(employee, cursor, days, end);
      DatesSplit(employee, cursor + 1, days - 1, end);
    }
  }

  lemma DateRangeRuns(w: World, job: Job)
    requires job.work.DateRange? && job.progress.Pending?
    ensures JobAccount(w, RunJob(w, job)).effort < JobAccount(w, job).effort
    ensures JobAccount(w, job).owed == multiset(RunCells(w, job.work)) + JobAccount(w, RunJob(w, job)).owed
  {
    var work := job.work;
    var days := ChunkDays(work.cursor, work.end);
    if days > 0 {
      DatesSplit(work.employee, work.cursor, days, work.end);
    } else {
      assert RunCells(w, work) == {};
    }
  }

  lemma IdentityMappingRuns(w: World, job: Job)
    requires job.work.IdentityMapping? && job.progress.Pending? && WorldOk(w)
    ensures JobAccount(w, RunJob(w, job)).effort < JobAccount(w, job).effort
    ensures JobAccount(w, job).owed == multiset(RunCells(w, job.work)) + JobAccount(w, RunJob(w, job)).owed
  {
    var work := job.work;
    var list := EventsAfter(w, work.identity, work.after);
    if |list| >= EVENT_PAGE {
      NextPage(EventsOf(w, work.identity), work.after, EVENT_PAGE);
    }
  }

  lemma ChildrenAppend(front: seq<Entry<Option<Work>>>, last: Entry<Option<Work>>)
    ensures ChildrenAccount(front + [last]) == Add(ChildrenAccount(front), ChildAccount(last))
  {
    assert (front + [last])[..|front|] == front;
  }

  lemma {:induction false} ChildrenJoin(a: seq<Entry<Option<Work>>>, b: seq<Entry<Option<Work>>>)
    ensures ChildrenAccount(a + b) == Add(ChildrenAccount(a), ChildrenAccount(b))
    decreases |b|
  {
    if b == [] {
      assert a + b == a;
    } else {
      var init, last := b[..|b| - 1], b[|b| - 1];
      assert a + b == (a + init) + [last];
      ChildrenAppend(a + init, last);
      ChildrenJoin(a, init);
      AddLaws(ChildrenAccount(a), ChildrenAccount(init), ChildAccount(last));
    }
  }

  ghost predicate NoSuchChildren(jobs: map<JobId, Job>, parent: JobId, children: seq<Entry<Option<Work>>>) {
    forall i :: 0 <= i < |children| ==> Child(parent, children[i].key) !in jobs
  }

  ghost predicate DateRanges(children: seq<Entry<Option<Work>>>) {
    forall i :: 0 <= i < |children| && children[i].value.Some? ==> children[i].value.value.DateRange?
  }

  lemma {:induction false} SpawnKeys(jobs: map<JobId, Job>, parent: JobId, children: seq<Entry<Option<Work>>>, id: JobId)
    ensures id in Spawn(jobs, parent, children) <==>
            id in jobs || (exists i :: 0 <= i < |children| && children[i].value.Some? && id == Child(parent, children[i].key))
    ensures (forall i :: 0 <= i < |children| ==> id != Child(parent, children[i].key)) && id in jobs ==>
              Spawn(jobs, parent, children)[id] == jobs[id]
  {
    if children != [] {
      var init := children[..|children| - 1];
      SpawnKeys(jobs, parent, init, id);
      assert forall i :: 0 <= i < |init| ==> init[i] == children[i];
      assert children[|children| - 1].value.Some? && id == Child(parent, children[|children| - 1].key) ==> id in Spawn(jobs, parent, children);
    }
  }

  /** The children can all be created new. */
  ghost predicate Spawnable(jobs: map<JobId, Job>, parent: JobId, children: seq<Entry<Option<Work>>>) {
    Ascending(children) && NoSuchChildren(jobs, parent, children) && DateRanges(children)
  }

  lemma SpawnableInit(jobs: map<JobId, Job>, parent: JobId, children: seq<Entry<Option<Work>>>)
    requires Spawnable(jobs, parent, children) && children != []
    ensures var init, last := children[..|children| - 1], children[|children| - 1];
            Spawnable(jobs, parent, init) && Child(parent, last.key) !in Spawn(jobs, parent, init)
  {
    var init, last := children[..|children| - 1], children[|children| - 1];
    assert forall i :: 0 <= i < |init| ==> init[i] == children[i];
    SpawnKeys(jobs, parent, init, Child(parent, last.key));
  }

  lemma SpawnLast(w: World, before: map<JobId, Job>, parent: JobId, last: Entry<Option<Work>>)
    requires Child(parent, last.key) !in before && (last.value.Some? ==> last.value.value.DateRange?)
    ensures var jobs := if last.value.None? then before else before[Child(parent, last.key) := Job(last.value.value, Pending, 0)];
            Total(w, jobs) == Add(ChildAccount(last), Total(w, before))
  {
    if last.value.Some? {
      TotalNew(w, before, Child(parent, last.key), Job(last.value.value, Pending, 0));
    } else {
      AddLaws(Total(w, before), ZERO, ZERO);
    }
  }

  lemma Regroup(a: Account, b: Account, c: Account)
    ensures Add(a, Add(b, c)) == Add(Add(b, a), c)
  {
  }

  lemma {:induction false} SpawnTotal(w: World, jobs: map<JobId, Job>, parent: JobId, children: seq<Entry<Option<Work>>>)
    requires Spawnable(jobs, parent, children)
    ensures Total(w, Spawn(jobs, parent, children)) == Add(ChildrenAccount(children), Total(w, jobs))
  {
    if children == [] {
      AddLaws(Total(w, jobs), ZERO, ZERO);
    } else {
      var init, last := children[..|children| - 1], children[|children| - 1];
      SpawnableInit(jobs, parent, children);
      SpawnTotal(w, jobs, parent, init);
      SpawnLast(w, Spawn(jobs, parent, init), parent, last);
      Regroup(ChildAccount(last), ChildrenAccount(init), Total(w, jobs));
    }
  }

  lemma AssignmentChildrenFacts(list: seq<Entry<Assignment>>, from: int, to: int)
    requires Ascending(list)
    ensures Ascending(AssignmentChildren(list, from, to)) && DateRanges(AssignmentChildren(list, from, to))
    ensures |list| >= FAN_PAGE ==> AssignmentChildren(list, from, to)[FAN_PAGE..] == AssignmentChildren(list[FAN_PAGE..], from, to)
  {
  }

  lemma EmployeeChildrenFacts(list: seq<Entry<int>>, start: int, last: int)
    requires Ascending(list)
    ensures Ascending(EmployeeChildren(list, start, last)) && DateRanges(EmployeeChildren(list, start, last))
    ensures |list| >= FAN_PAGE ==> EmployeeChildren(list, start, last)[FAN_PAGE..] == EmployeeChildren(list[FAN_PAGE..], start, last)
  {
  }

  lemma SuffixAscending<T>(list: seq<Entry<T>>, after: Option<Key>)
    requires Ascending(list)
    ensures Ascending(After(list, after))
  {
    var k := AfterIsSuffix(list, after);
  }

  /** A fan-out job after its run still has the children beyond the page. */
  lemma FanRuns(w: World, job: Job)
    requires FansOut(job.work) && job.progress.Pending? && WorldOk(w)
    ensures var left := ChildrenLeft(w, job.work);
            && Ascending(left) && DateRanges(left)
            && (|left| < FAN_PAGE ==> RunJob(w, job) == job.(progress := Completed))
            && (|left| >= FAN_PAGE ==> FansOut(RunJob(w, job).work) && RunJob(w, job).progress.Pending?
                                       && RunJob(w, job).attempts == job.attempts && ChildrenLeft(w, RunJob(w, job).work) == left[FAN_PAGE..])
  {
    match job.work
    case ShiftPolicy(shift, from, to, after) =>
      SuffixAscending(AssignmentsOf(w, shift), after);
      AssignmentChildrenFacts(AssignmentsAfter(w, shift, after), from, to);
      if |AssignmentsAfter(w, shift, after)| >= FAN_PAGE {
        NextPage(AssignmentsOf(w, shift), after, FAN_PAGE);
      }
    case OrganizationRange(branch, start, last, after) =>
      SuffixAscending(EmployeesOf(w, branch), after);
      EmployeeChildrenFacts(EmployeesAfter(w, branch, after), start, last);
      if |EmployeesAfter(w, branch, after)| >= FAN_PAGE {
        NextPage(EmployeesOf(w, branch), after, FAN_PAGE);
      }
  }

  lemma FanSplit(left: seq<Entry<Option<Work>>>)
    requires |left| >= FAN_PAGE
    ensures Add(Account(1, multiset{}), Add(ChildrenAccount(left[..FAN_PAGE]), FanAccount(left[FAN_PAGE..]))) == FanAccount(left)
  {
    assert left == left[..FAN_PAGE] + left[FAN_PAGE..];
    ChildrenJoin(left[..FAN_PAGE], left[FAN_PAGE..]);
  }

  lemma FanAccounts(w: World, job: Job)
    requires FansOut(job.work) && job.progress.Pending? && WorldOk(w)
    ensures var page, after := ChildrenAccount(Page(ChildrenLeft(w, job.work), FAN_PAGE)), JobAccount(w, RunJob(w, job));
            && page.effort + after.effort < JobAccount(w, job).effort
            && JobAccount(w, job).owed == page.owed + after.owed
  {
    FanRuns(w, job);
    if |ChildrenLeft(w, job.work)| >= FAN_PAGE {
      FanSplit(ChildrenLeft(w, job.work));
    }
  }
}
