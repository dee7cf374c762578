/** Paths of the command protocol built step by step, newest step outermost. */
module CommandTraces {
  import opened Base
  import opened Commands
  import opened CommandBridge
  import opened CommandProtocol

  datatype Trace = Start(first: State) | Then(before: Trace, step: Step, last: State)

  function First(t: Trace): State {
    if t.Start? then t.first else First(t.before)
  }

  function End(t: Trace): State {
    if t.Start? then t.first else t.last
  }

  ghost predicate Valid(t: Trace) {
    t.Then? ==> Valid(t.before) && Can(End(t.before), t.step) && t.last == Next(End(t.before), t.step)
  }

  ghost predicate SerialTrace(t: Trace) {
    t.Then? ==> SerialTrace(t.before) && (t.step.Send? ==> End(t.before).exchanges == [])
  }

  ghost predicate Reaches(t: Trace, s: State, serial: bool) {
    Valid(t) && End(t) == s && (serial ==> SerialTrace(t))
  }

  lemma Grow(t: Trace, s: State, step: Step, serial: bool) returns (t': Trace)
    requires Reaches(t, s, serial) && Can(s, step) && (serial && step.Send? ==> s.exchanges == [])
    ensures Reaches(t', Next(s, step), serial) && First(t') == First(t)
  {
    t' := Then(t, step, Next(s, step));
  }

  lemma {:induction false} AsPath(t: Trace) returns (states: seq<State>, steps: seq<Step>)
    requires Valid(t)
    ensures IsPath(states, steps) && states[0] == First(t) && states[|steps|] == End(t)
    ensures SerialTrace(t) ==> Serial(states, steps)
  {
    match t
    case Start(first) => states, steps := [first], [];
    case Then(before, step, last) =>
      states, steps := AsPath(before);
      states, steps := states + [last], steps + [step];
  }

  /** A path from where a run stands continues the run. */
  lemma Continue(states: seq<State>, steps: seq<Step>, more: seq<State>, moreSteps: seq<Step>) returns (all: seq<State>)
    requires IsRun(states, steps) && IsPath(more, moreSteps) && more[0] == states[|steps|]
    ensures IsRun(all, steps + moreSteps) && states <= all && all[|steps + moreSteps|] == more[|moreSteps|]
  {
    all := states + more[1..];
    forall i | 0 <= i < |steps + moreSteps|
      ensures Can(all[i], (steps + moreSteps)[i]) && all[i + 1] == Next(all[i], (steps + moreSteps)[i])
    {
      if i >= |steps| {
        assert all[i] == more[i - |steps|] && all[i + 1] == more[i - |steps| + 1];
      }
    }
  }
}
