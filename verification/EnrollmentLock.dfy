/** The fingerprint lock of a device: it names exactly the one enrollment command that is neither finished nor expired, in exactly
    those runs in which no delivery hands out a finished enrollment before it expires. */
module EnrollmentLock {
  import opened Base
  import opened Commands
  import opened CommandProtocol

  predicate OpenEnrollment(cloud: Cloud, id: CommandId) {
    Open(cloud, id) && cloud.commands[id].kind.EnrollFingerprint?
  }

  predicate Active(cloud: Cloud, clock: int, id: CommandId) {
    OpenEnrollment(cloud, id) && !Expired(cloud.commands[id], clock)
  }

  predicate LockNames(cloud: Cloud, id: CommandId) {
    OpenEnrollment(cloud, id) && cloud.commands[id].expiresAt.Some? &&
    cloud.lock == Some(Lock(id, cloud.commands[id].expiresAt.value))
  }

  ghost predicate Locked(cloud: Cloud, clock: int) {
    && (cloud.lock.Some? ==> LockNames(cloud, cloud.lock.value.commandId))
    && (forall id :: Active(cloud, clock, id) ==> LockNames(cloud, id))
  }

  lemma LockedResults(cloud: Cloud, device: string, clock: int, at: int, rs: seq<CommandResult>)
    requires Locked(cloud, clock)
    ensures Locked(ApplyResults(cloud, device, at, rs), clock)
  {
    ResultsComplete(cloud, device, at, rs);
    var post := ApplyResults(cloud, device, at, rs);
    forall id | Active(post, clock, id) ensures LockNames(post, id) {
      assert Active(cloud, clock, id) && LockNames(cloud, id);
    }
  }

  /** The transaction would hand out a finished enrollment that has not expired, which makes it active. */
  predicate WouldReopen(cloud: Cloud, device: string, clock: int, at: int, candidates: seq<CommandId>) {
    var first := FirstDispatchable(cloud, device, at, candidates);
    first.Some? && Finished(cloud, first.value) && cloud.commands[first.value].kind.EnrollFingerprint? &&
    !Expired(cloud.commands[first.value], clock)
  }

  lemma LockedDelivery(cloud: Cloud, device: string, clock: int, at: int, candidates: seq<CommandId>)
    requires Locked(cloud, clock)
    ensures Locked(Deliver(cloud, device, at, candidates).cloud, clock) <==> !WouldReopen(cloud, device, clock, at, candidates)
  {
    DeliveryCommands(cloud, device, at, candidates);
    DeliveryLock(cloud, device, at, candidates);
    FirstDispatchableIsDispatchable(cloud, device, at, candidates);
    var post := Deliver(cloud, device, at, candidates).cloud;
    var first := FirstDispatchable(cloud, device, at, candidates);
    if WouldReopen(cloud, device, clock, at, candidates) {
      assert DeliveredCommand(cloud, post, device, at, candidates, first, first.value);
      assert Active(post, clock, first.value) && !LockNames(post, first.value);
    } else {
      if post.lock.Some? {
        assert DeliveredCommand(cloud, post, device, at, candidates, first, post.lock.value.commandId);
      }
      forall id | Active(post, clock, id) ensures LockNames(post, id) {
        assert DeliveredCommand(cloud, post, device, at, candidates, first, id);
        assert Active(cloud, clock, id) && LockNames(cloud, id);
      }
    }
  }

  lemma LockedEnroll(s: State, step: Step)
    requires Locked(s.cloud, s.clock) && step.Enroll? && Can(s, step)
    ensures Locked(Next(s, step).cloud, s.clock)
  {
    var post := Next(s, step).cloud;
    forall id ensures !Active(s.cloud, s.clock, id) {
      assert Active(s.cloud, s.clock, id) ==> LockNames(s.cloud, id);
    }
    forall id | Active(post, s.clock, id) ensures LockNames(post, id) {
      assert id == step.id || Active(s.cloud, s.clock, id);
    }
  }

  ghost predicate Reopens(s: State, step: Step) {
    step.DeliverSelected? && Can(s, step) &&
    WouldReopen(s.cloud, s.device, s.clock, s.exchanges[step.i].at, s.exchanges[step.i].stage.candidates)
  }

  lemma LockedStep(s: State, step: Step)
    requires Locked(s.cloud, s.clock) && Can(s, step)
    ensures Locked(Next(s, step).cloud, Next(s, step).clock) <==> !Reopens(s, step)
  {
    match step
    case Tick(_) =>
      forall id | Active(s.cloud, s.clock + step.elapsed, id) ensures LockNames(s.cloud, id) {
        assert Active(s.cloud, s.clock, id);
      }
    case Enroll(_, _, _) => LockedEnroll(s, step);
    case Hire(_, _, _, _) =>
      forall id | Active(Next(s, step).cloud, s.clock, id) ensures LockNames(Next(s, step).cloud, id) {
        assert Active(s.cloud, s.clock, id) && LockNames(s.cloud, id);
      }
    case CompleteReported(i) => LockedResults(s.cloud, s.device, s.clock, s.exchanges[i].at, s.exchanges[i].results);
    case DeliverSelected(i) =>
      LockedDelivery(s.cloud, s.device, s.clock, s.exchanges[i].at, s.exchanges[i].stage.candidates);
    case _ =>
  }

  ghost predicate NothingReopened(states: seq<State>, steps: seq<Step>, n: nat)
    requires |states| == |steps| + 1 && n <= |steps|
  {
    forall i :: 0 <= i < n ==> !Reopens(states[i], steps[i])
  }

  lemma {:induction false} RunLocked(states: seq<State>, steps: seq<Step>, n: nat)
    requires IsRun(states, steps) && n <= |steps| && NothingReopened(states, steps, n)
    ensures Locked(states[n].cloud, states[n].clock)
  {
    if n > 0 {
      RunLocked(states, steps, n - 1);
      LockedStep(states[n - 1], steps[n - 1]);
    }
  }

  /** At most one enrollment command is open and unexpired, and it is open and unexpired exactly while the lock names it with its
      own expiry in the future. */
  ghost predicate Exclusive(cloud: Cloud, clock: int) {
    && (forall a, b :: Active(cloud, clock, a) && Active(cloud, clock, b) ==> a == b)
    && (forall id :: Active(cloud, clock, id) <==>
          cloud.lock.Some? && cloud.lock.value.commandId == id && cloud.lock.value.expiresAt > clock)
    && (cloud.lock.Some? ==> LockNames(cloud, cloud.lock.value.commandId))
  }

  lemma ExclusiveIsLocked(cloud: Cloud, clock: int)
    ensures Exclusive(cloud, clock) <==> Locked(cloud, clock)
  {
    if Locked(cloud, clock) {
      forall id ensures Active(cloud, clock, id) ==> LockNames(cloud, id) {
      }
    }
  }

  /** Mutual exclusion holds throughout a run, exchanges overlapping or not, if and only if no delivery hands out a finished
      enrollment before it expires. */
  lemma MutualExclusion(states: seq<State>, steps: seq<Step>)
    requires IsRun(states, steps)
    ensures (forall n :: 0 <= n <= |steps| ==> Exclusive(states[n].cloud, states[n].clock)) <==> NothingReopened(states, steps, |steps|)
  {
    if NothingReopened(states, steps, |steps|) {
      forall n | 0 <= n <= |steps| ensures Exclusive(states[n].cloud, states[n].clock) {
        RunLocked(states, steps, n);
        ExclusiveIsLocked(states[n].cloud, states[n].clock);
      }
    }
    if forall n :: 0 <= n <= |steps| ==> Exclusive(states[n].cloud, states[n].clock) {
      forall i | 0 <= i < |steps| ensures !Reopens(states[i], steps[i]) {
        ExclusiveIsLocked(states[i].cloud, states[i].clock);
        ExclusiveIsLocked(states[i + 1].cloud, states[i + 1].clock);
        LockedStep(states[i], steps[i]);
      }
    }
  }

  /** And so with serial exchanges. */
  lemma MutualExclusionSerial(states: seq<State>, steps: seq<Step>, n: nat)
    requires IsRun(states, steps) && Serial(states, steps) && n <= |steps|
    ensures Exclusive(states[n].cloud, states[n].clock)
  {
    SerialRevivesNothing(states, steps);
    forall i | 0 <= i < |steps| ensures !Reopens(states[i], steps[i]) {
      assert !Revives(states[i], steps[i]);
    }
    MutualExclusion(states, steps);
  }
}
