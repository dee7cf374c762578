/** The recalculation job queue as a state machine: pages with cursors, child jobs, retries. The assignments, employees and
    events a job walks over are fixed while it runs. */
module RecalculationJobs {
  import opened Base
  import opened Sorting
  import opened CandidateDates

  const CHUNK_DAYS := 31
  const FAN_PAGE := 100
  const EVENT_PAGE := 200
  const MAX_ATTEMPTS := 4

  type Key = (int, int)

  /** A document in the order in which a query walks the collection. */
  datatype Entry<+T> = Entry(key: Key, value: T)

  datatype Assignment = Assignment(employee: int, from: int, to: Option<int>)

  /** What the queries read: assignments by shift, employees by branch filter, events by device identity. */
  datatype World = World(
    assignments: map<int, seq<Entry<Assignment>>>,
    employees: map<Option<int>, seq<Entry<int>>>,
    events: map<int, seq<Entry<int>>>,
    offset: int)

  datatype Work =
    | DateRange(employee: int, cursor: int, end: int)
    | ShiftPolicy(shift: int, from: int, to: int, after: Option<Key>)
    | OrganizationRange(branch: Option<int>, start: int, last: int, after: Option<Key>)
    | IdentityMapping(identity: int, mapped: int, after: Option<Key>)
    | Unsupported
    | Malformed

  datatype Progress = Pending | Completed | Failed

  datatype Job = Job(work: Work, progress: Progress, attempts: nat)

  datatype JobId = Root(name: int) | Child(parent: JobId, item: Key)

  /** One employee on one date. */
  type Cell = (int, int)

  /** `recalculated` holds every employee-day written; `committed` counts those of runs that ended in success. */
  datatype State = State(jobs: map<JobId, Job>, committed: multiset<Cell>, recalculated: set<Cell>)

  // ----- Cursor paging -----

  ghost predicate Ascending<T>(list: seq<Entry<T>>) {
    forall i, j :: 0 <= i < j < |list| ==> Before(list[i].key, list[j].key)
  }

  /** The documents after the cursor, as the query selects them. */
  function After<T>(list: seq<Entry<T>>, after: Option<Key>): seq<Entry<T>> {
    if list == [] then []
    else if after.None? || Before(after.value, list[0].key) then [list[0]] + After(list[1..], after)
    else After(list[1..], after)
  }

  function Page<T>(list: seq<T>, size: nat): seq<T> {
    if |list| < size then list else list[..size]
  }

  lemma {:induction false} AllAfter<T>(list: seq<Entry<T>>, after: Option<Key>)
    requires forall i :: 0 <= i < |list| ==> after.None? || Before(after.value, list[i].key)
    ensures After(list, after) == list
  {
    if list != [] {
      AllAfter(list[1..], after);
    }
  }

  lemma {:induction false} AfterIsSuffix<T>(list: seq<Entry<T>>, after: Option<Key>) returns (k: nat)
    requires Ascending(list)
    ensures k <= |list| && After(list, after) == list[k..]
  {
    if list == [] {
      k := 0;
    } else if after.None? || Before(after.value, list[0].key) {
      AllAfter(list, after);
      k := 0;
    } else {
      k := AfterIsSuffix(list[1..], after);
      assert list[1..][k..] == list[k + 1..];
      k := k + 1;
    }
  }

  lemma {:induction false} AfterElement<T>(list: seq<Entry<T>>, i: nat)
    requires Ascending(list) && i < |list|
    ensures After(list, Some(list[i].key)) == list[i + 1..]
  {
    if i == 0 {
      AllAfter(list[1..], Some(list[0].key));
    } else {
      AfterElement(list[1..], i - 1);
      assert list[1..][i..] == list[i + 1..];
    }
  }

  /** After a full page, the cursor set to its last document leaves exactly the rest. */
  lemma NextPage<T>(list: seq<Entry<T>>, after: Option<Key>, size: nat)
    requires Ascending(list) && 0 < size <= |After(list, after)|
    ensures After(list, Some(After(list, after)[size - 1].key)) == After(list, after)[size..]
    ensures Ascending(After(list, after))
  {
    var k := AfterIsSuffix(list, after);
    AfterElement(list, k + size - 1);
    assert list[k..][size..] == list[k + size..];
  }

  // ----- What a run of a job does -----

  ghost predicate WorldOk(w: World) {
    && (forall s :: s in w.assignments ==> Ascending(w.assignments[s]))
    && (forall b :: b in w.employees ==> Ascending(w.employees[b]))
    && (forall e :: e in w.events ==> Ascending(w.events[e]))
  }

  function AssignmentsOf(w: World, shift: int): seq<Entry<Assignment>> {
    if shift in w.assignments then w.assignments[shift] else []
  }

  function EmployeesOf(w: World, branch: Option<int>): seq<Entry<int>> {
    if branch in w.employees then w.employees[branch] else []
  }

  function EventsOf(w: World, identity: int): seq<Entry<int>> {
    if identity in w.events then w.events[identity] else []
  }

  function AssignmentsAfter(w: World, shift: int, after: Option<Key>): seq<Entry<Assignment>> {
    After(AssignmentsOf(w, shift), after)
  }

  function EmployeesAfter(w: World, branch: Option<int>, after: Option<Key>): seq<Entry<int>> {
    After(EmployeesOf(w, branch), after)
  }

  function EventsAfter(w: World, identity: int, after: Option<Key>): seq<Entry<int>> {
    After(EventsOf(w, identity), after)
  }

  /** The child job for one assignment: its dates within the policy's range, if any. */
  function AssignmentWork(a: Assignment, from: int, to: int): Option<Work> {
    var start := if a.from > from then a.from else from;
    var assignmentEnd := if a.to.Some? then a.to.value else to;
    var end := if assignmentEnd < to then assignmentEnd else to;
    if start > end then None else Some(DateRange(a.employee, start, end))
  }

  function AssignmentChildren(list: seq<Entry<Assignment>>, from: int, to: int): seq<Entry<Option<Work>>> {
    seq(|list|, i requires 0 <= i < |list| => Entry(list[i].key, AssignmentWork(list[i].value, from, to)))
  }

  function EmployeeChildren(list: seq<Entry<int>>, start: int, last: int): seq<Entry<Option<Work>>> {
    seq(|list|, i requires 0 <= i < |list| => Entry(list[i].key, Some(DateRange(list[i].value, start, last))))
  }

  predicate FansOut(work: Work) {
    work.ShiftPolicy? || work.OrganizationRange?
  }

  /** The child jobs still to be created. */
  function ChildrenLeft(w: World, work: Work): seq<Entry<Option<Work>>>
    requires FansOut(work)
  {
    match work
    case ShiftPolicy(shift, from, to, after) => AssignmentChildren(AssignmentsAfter(w, shift, after), from, to)
    case OrganizationRange(branch, start, last, after) => EmployeeChildren(EmployeesAfter(w, branch, after), start, last)
  }

  function Spawn(jobs: map<JobId, Job>, parent: JobId, children: seq<Entry<Option<Work>>>): map<JobId, Job> {
    if children == [] then jobs
    else
      var last := children[|children| - 1];
      var before := Spawn(jobs, parent, children[..|children| - 1]);
      if last.value.None? then before else before[Child(parent, last.key) := Job(last.value.value, Pending, 0)]
  }

  /** The dates of one page of events. */
  function EventDates(events: seq<Entry<int>>, offset: int): set<int> {
    if events == [] then {}
    else EventDates(events[..|events| - 1], offset) + Candidates(events[|events| - 1].value, offset)
  }

  function ChunkDays(cursor: int, end: int): nat {
    if end < cursor then 0 else Min(end - cursor + 1, CHUNK_DAYS)
  }

  function DayCells(employee: int, cursor: int, days: nat): set<Cell> {
    set d | cursor <= d < cursor + days :: (employee, d)
  }

  /** The employee-days one run of the job recalculates. */
  function RunCells(w: World, work: Work): set<Cell> {
    match work
    case DateRange(employee, cursor, end) => DayCells(employee, cursor, ChunkDays(cursor, end))
    case IdentityMapping(identity, mapped, after) =>
      set d | d in EventDates(Page(EventsAfter(w, identity, after), EVENT_PAGE), w.offset) :: (mapped, d)
    case _ => {}
  }

  /** The job after a successful run. */
  function RunJob(w: World, job: Job): Job {
    match job.work
    case DateRange(employee, cursor, end) =>
      var next := cursor + ChunkDays(cursor, end);
      job.(work := DateRange(employee, next, end), progress := if next > end then Completed else Pending)
    case IdentityMapping(identity, mapped, after) =>
      var list := EventsAfter(w, identity, after);
      if |list| < EVENT_PAGE then job.(progress := Completed)
      else job.(work := IdentityMapping(identity, mapped, Some(list[EVENT_PAGE - 1].key)))
    case ShiftPolicy(shift, from, to, after) =>
      var list := AssignmentsAfter(w, shift, after);
      if |list| < FAN_PAGE then job.(progress := Completed)
      else job.(work := ShiftPolicy(shift, from, to, Some(list[FAN_PAGE - 1].key)))
    case OrganizationRange(branch, start, last, after) =>
      var list := EmployeesAfter(w, branch, after);
      if |list| < FAN_PAGE then job.(progress := Completed)
      else job.(work := OrganizationRange(branch, start, last, Some(list[FAN_PAGE - 1].key)))
    case Unsupported => job.(progress := Failed)
    case Malformed => job
  }

  function FailJob(job: Job): Job {
    job.(attempts := job.attempts + 1, progress := if job.attempts >= MAX_ATTEMPTS then Failed else Pending)
  }

  /** One job of a scheduler round runs to its commit, or stops with an error after some of its recalculations. */
  datatype Step = Succeeds(id: JobId) | Throws(id: JobId, done: set<Cell>)

  predicate Can(w: World, s: State, step: Step) {
    && step.id in s.jobs && s.jobs[step.id].progress.Pending?
    && match step
       case Succeeds(id) => !s.jobs[id].work.Malformed?
       case Throws(id, done) => !s.jobs[id].work.Unsupported? && done <= RunCells(w, s.jobs[id].work)
  }

  function Next(w: World, s: State, step: Step): State
    requires Can(w, s, step)
  {
    var job := s.jobs[step.id];
    match step
    case Succeeds(id) =>
      var spawned := if FansOut(job.work) then Spawn(s.jobs, id, Page(ChildrenLeft(w, job.work), FAN_PAGE)) else s.jobs;
      var cells := RunCells(w, job.work);
      State(spawned[id := RunJob(w, job)], s.committed + multiset(cells), s.recalculated + cells)
    case Throws(id, done) => s.(jobs := s.jobs[id := FailJob(job)], recalculated := s.recalculated + done)
  }

  ghost predicate IsRun(w: World, states: seq<State>, steps: seq<Step>) {
    && |states| == |steps| + 1
    && forall i :: 0 <= i < |steps| ==> Can(w, states[i], steps[i]) && states[i + 1] == Next(w, states[i], steps[i])
  }

  /** Externally created jobs only, nothing recalculated yet. */
  predicate Initial(s: State) {
    (forall id :: id in s.jobs ==> id.Root?) && s.committed == multiset{} && s.recalculated == {}
  }
}
