/** How often a job may fail: over every run of the queue. */
module JobAttempts {
  import opened Base
  import opened RecalculationJobs

  /** How many of the runs so far were runs of this job that failed. */
  function Failures(steps: seq<Step>, id: JobId): nat {
    if steps == [] then 0
    else
      var last := steps[|steps| - 1];
      Failures(steps[..|steps| - 1], id) + if last.Throws? && last.id == id then 1 else 0
  }

  /** The job ran although its type is not supported. */
  ghost predicate RanUnsupported(states: seq<State>, steps: seq<Step>, id: JobId)
    requires |states| == |steps| + 1
  {
    exists i :: 0 <= i < |steps| && steps[i] == Succeeds(id) && id in states[i].jobs && states[i].jobs[id].work.Unsupported?
  }

  lemma {:induction false} SpawnsNoRoot(jobs: map<JobId, Job>, parent: JobId, children: seq<Entry<Option<Work>>>, id: JobId)
    requires id.Root?
    ensures (id in Spawn(jobs, parent, children) <==> id in jobs) && (id in jobs ==> Spawn(jobs, parent, children)[id] == jobs[id])
  {
    if children != [] {
      SpawnsNoRoot(jobs, parent, children[..|children| - 1], id);
    }
  }

  lemma JobAfterStep(w: World, s: State, step: Step, id: JobId)
    requires Can(w, s, step) && id.Root? && id in s.jobs
    ensures var s' := Next(w, s, step);
            && id in s'.jobs
            && s'.jobs[id] == if step.id != id then s.jobs[id] else if step.Throws? then FailJob(s.jobs[id]) else RunJob(w, s.jobs[id])
  {
    if step.Succeeds? && FansOut(s.jobs[step.id].work) {
      SpawnsNoRoot(s.jobs, step.id, Page(ChildrenLeft(w, s.jobs[step.id].work), FAN_PAGE), id);
    }
  }

  lemma RanUnsupportedLast(states: seq<State>, steps: seq<Step>, id: JobId)
    requires |states| == |steps| + 1 && steps != []
    ensures var n := |steps| - 1;
            RanUnsupported(states, steps, id) <==>
              || RanUnsupported(states[..n + 1], steps[..n], id)
              || (steps[n] == Succeeds(id) && id in states[n].jobs && states[n].jobs[id].work.Unsupported?)
  {
    var n := |steps| - 1;
    var before, init := states[..n + 1], steps[..n];
    if RanUnsupported(states, steps, id) {
      var i :| 0 <= i < |steps| && steps[i] == Succeeds(id) && id in states[i].jobs && states[i].jobs[id].work.Unsupported?;
      assert i < n ==> init[i] == steps[i] && before[i] == states[i];
    }
    if RanUnsupported(before, init, id) {
      var i :| 0 <= i < n && init[i] == Succeeds(id) && id in before[i].jobs && before[i].jobs[id].work.Unsupported?;
      assert steps[i] == Succeeds(id) && states[i] == before[i];
    }
  }

  /** What the number of failures and a run without a supported type say of a job. */
  ghost predicate Accounts(job: Job, failures: nat, unsupported: bool) {
    && job.attempts == failures && failures <= 5
    && (job.progress.Failed? <==> failures == 5 || unsupported)
  }

  lemma AccountsKept(w: World, job: Job, failures: nat, unsupported: bool)
    requires Accounts(job, failures, unsupported) && job.progress.Pending?
    ensures Accounts(FailJob(job), failures + 1, unsupported)
    ensures !job.work.Malformed? ==> Accounts(RunJob(w, job), failures, job.work.Unsupported?)
  {
  }

  lemma LastStep(w: World, states: seq<State>, steps: seq<Step>, id: JobId)
    requires IsRun(w, states, steps) && steps != [] && id.Root? && id in states[|steps| - 1].jobs
    ensures var n := |steps| - 1;
            var job := states[n].jobs[id];
            && id in states[n + 1].jobs
            && if steps[n].id == id then
                 && job.progress.Pending? && (steps[n].Succeeds? ==> !job.work.Malformed?)
                 && states[n + 1].jobs[id] == if steps[n].Throws? then FailJob(job) else RunJob(w, job)
               else states[n + 1].jobs[id] == job
  {
    var n := |steps| - 1;
    JobAfterStep(w, states[n], steps[n], id);
  }

  /** Over every run, a job that was pending at the start has as many attempts as it has failed, and is itself failed exactly from its
      fifth failure on, or once it has run with a type that is not supported. */
  lemma {:induction false} FailsAtFifth(w: World, states: seq<State>, steps: seq<Step>, id: JobId)
    requires IsRun(w, states, steps) && id.Root? && id in states[0].jobs && states[0].jobs[id].progress.Pending? && states[0].jobs[id].attempts == 0
    ensures id in states[|steps|].jobs && Accounts(states[|steps|].jobs[id], Failures(steps, id), RanUnsupported(states, steps, id))
  {
    if steps != [] {
      var n := |steps| - 1;
      var before, init := states[..n + 1], steps[..n];
      FailsAtFifth(w, before, init, id);
      LastStep(w, states, steps, id);
      RanUnsupportedLast(states, steps, id);
      if steps[n].id == id {
        AccountsKept(w, states[n].jobs[id], Failures(init, id), RanUnsupported(before, init, id));
      }
    }
  }
}
