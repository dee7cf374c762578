/** What every run of the command protocol keeps besides at-most-once: leases, distinct codes, and the failure that a crash reports. */
module CommandPromises {
  import opened Base
  import opened Commands
  import opened CommandBridge
  import opened CommandProtocol
  import opened CommandResults

  // ----- Leases -----

  /** The command is finished, or leased until this time or later. */
  predicate Busy(cloud: Cloud, id: CommandId, until: int) {
    id in cloud.commands &&
    (Terminal(cloud.commands[id]) ||
     (cloud.commands[id].state.Dispatched? && cloud.commands[id].leaseUntil.Some? && until <= cloud.commands[id].leaseUntil.value))
  }

  lemma BusyAfterResults(cloud: Cloud, device: string, at: int, rs: seq<CommandResult>, id: CommandId, until: int)
    requires Busy(cloud, id, until)
    ensures Busy(ApplyResults(cloud, device, at, rs), id, until)
  {
    ResultsComplete(cloud, device, at, rs);
  }

  lemma BusyAfterDelivery(s: State, i: nat, id: CommandId, until: int)
    requires Can(s, DeliverSelected(i)) && !Revives(s, DeliverSelected(i)) && Busy(s.cloud, id, until)
    ensures Busy(Next(s, DeliverSelected(i)).cloud, id, until)
    ensures Handed(s, i) == Some(id) ==> until <= s.exchanges[i].at
  {
    var x, s' := s.exchanges[i], Next(s, DeliverSelected(i));
    FirstDispatchableIsDispatchable(s.cloud, s.device, x.at, x.stage.candidates);
    DeliveryCommands(s.cloud, s.device, x.at, x.stage.candidates);
    assert DeliveredCommand(s.cloud, s'.cloud, s.device, x.at, x.stage.candidates, Handed(s, i), id);
  }

  lemma BusyStep(s: State, step: Step, id: CommandId, until: int)
    requires Can(s, step) && !Revives(s, step) && Busy(s.cloud, id, until)
    ensures Busy(Next(s, step).cloud, id, until)
  {
    match step
    case CompleteReported(i) => BusyAfterResults(s.cloud, s.device, s.exchanges[i].at, s.exchanges[i].results, id, until);
    case DeliverSelected(i) => BusyAfterDelivery(s, i, id, until);
    case _ =>
  }

  lemma BusyFromDelivery(s: State, i: nat, id: CommandId)
    requires Can(s, DeliverSelected(i)) && Handed(s, i) == Some(id)
    ensures Busy(Next(s, DeliverSelected(i)).cloud, id, s.exchanges[i].at + 120_000)
  {
    var x, s' := s.exchanges[i], Next(s, DeliverSelected(i));
    FirstDispatchableIsDispatchable(s.cloud, s.device, x.at, x.stage.candidates);
    DeliveryCommands(s.cloud, s.device, x.at, x.stage.candidates);
    assert DeliveredCommand(s.cloud, s'.cloud, s.device, x.at, x.stage.candidates, Some(id), id);
  }

  lemma {:induction false} RunBusy(states: seq<State>, steps: seq<Step>, m: nat, n: nat, id: CommandId)
    requires IsPath(states, steps) && NothingRevived(states, steps) && m < n <= |steps|
    requires steps[m].DeliverSelected? && Handed(states[m], steps[m].i) == Some(id)
    ensures Busy(states[n].cloud, id, states[m].exchanges[steps[m].i].at + 120_000)
    decreases n
  {
    if n == m + 1 {
      BusyFromDelivery(states[m], steps[m].i, id);
    } else {
      RunBusy(states, steps, m, n - 1, id);
      BusyStep(states[n - 1], steps[n - 1], id, states[m].exchanges[steps[m].i].at + 120_000);
    }
  }

  /** In a run, exchanges overlapping or not, in which no finished command is handed out, a command that was handed out is handed out
      again only to an exchange received two minutes after the first or later. */
  lemma LeaseHolds(states: seq<State>, steps: seq<Step>, m: nat, n: nat, id: CommandId)
    requires IsRun(states, steps) && NothingRevived(states, steps) && m < n < |steps|
    requires steps[m].DeliverSelected? && Handed(states[m], steps[m].i) == Some(id)
    requires steps[n].DeliverSelected? && Handed(states[n], steps[n].i) == Some(id)
    ensures states[m].exchanges[steps[m].i].at + 120_000 <= states[n].exchanges[steps[n].i].at
  {
    RunBusy(states, steps, m, n, id);
    BusyAfterDelivery(states[n], steps[n].i, id, states[m].exchanges[steps[m].i].at + 120_000);
  }

  // ----- Employee codes -----

  predicate SameLetter(a: char, b: char) {
    a == b || ('A' <= a <= 'Z' && 'a' <= b <= 'z' && a as int - 'A' as int == b as int - 'a' as int) ||
    ('a' <= a <= 'z' && 'A' <= b <= 'Z' && a as int - 'a' as int == b as int - 'A' as int)
  }

  /** The codes differ at most in case. */
  predicate SameCode(a: string, b: string) {
    |a| == |b| && forall i :: 0 <= i < |a| ==> SameLetter(a[i], b[i])
  }

  lemma LowerCaseExactly(a: string, b: string)
    ensures LowerCase(a) == LowerCase(b) <==> SameCode(a, b)
  {
    if LowerCase(a) == LowerCase(b) {
      assert |LowerCase(a)| == |a| && |LowerCase(b)| == |b|;
      forall i | 0 <= i < |a| ensures SameLetter(a[i], b[i]) {
        assert LowerCase(a)[i] == LowerCase(b)[i];
      }
    }
  }

  ghost predicate CodesApart(cloud: Cloud) {
    forall e, f :: e in cloud.employees && f in cloud.employees && e != f ==> !SameCode(cloud.employees[e].code, cloud.employees[f].code)
  }

  ghost predicate Registered(cloud: Cloud) {
    forall e :: e in cloud.employees ==> LowerCase(cloud.employees[e].code) in cloud.registry
  }

  lemma CodesStep(s: State, step: Step)
    requires Can(s, step) && CodesApart(s.cloud) && Registered(s.cloud)
    ensures CodesApart(Next(s, step).cloud) && Registered(Next(s, step).cloud)
  {
    match step
    case Hire(employeeId, code, _, _) =>
      forall e | e in s.cloud.employees ensures !SameCode(s.cloud.employees[e].code, code) && !SameCode(code, s.cloud.employees[e].code) {
        LowerCaseExactly(s.cloud.employees[e].code, code);
        LowerCaseExactly(code, s.cloud.employees[e].code);
      }
    case CompleteReported(i) => ResultsComplete(s.cloud, s.device, s.exchanges[i].at, s.exchanges[i].results);
    case DeliverSelected(i) => DeliveryCommands(s.cloud, s.device, s.exchanges[i].at, s.exchanges[i].stage.candidates);
    case _ =>
  }

  /** If no two employees have codes that differ at most in case at the start of a run, none ever have. */
  lemma {:induction false} CodesStayApart(states: seq<State>, steps: seq<Step>, n: nat)
    requires IsRun(states, steps) && CodesApart(states[0].cloud) && n <= |steps|
    ensures CodesApart(states[n].cloud) && Registered(states[n].cloud)
  {
    if n > 0 {
      CodesStayApart(states, steps, n - 1);
      CodesStep(states[n - 1], steps[n - 1]);
    }
  }

  // ----- A crash between receipt and result -----

  /** The step writes or removes the command's receipt. */
  predicate ChangesReceipt(s: State, step: Step, id: CommandId) {
    step.Local? && CanAct(s.bridge, step.act) &&
    match step.act
    case RemoveReceipt => s.bridge.phase.acknowledged[0] == id
    case WriteReceipt => s.bridge.phase.todo[0] == id
    case WriteResult(_) => s.bridge.phase.command == id
    case _ => false
  }

  /** The receipt reports that the work was interrupted. */
  predicate ReportsInterruption(r: CommandResult, id: CommandId) {
    r.commandId == id && !r.succeeded && r.code == Some("execution_interrupted") && r.message.Some? && r.fingerPrintId.None?
  }

  /** Until its result is written, a command's receipt reports a failure, whatever else happens, crashes included. */
  lemma {:induction false} InterruptedUntilResult(states: seq<State>, steps: seq<Step>, m: nat, n: nat, id: CommandId)
    requires IsPath(states, steps) && m < n <= |steps|
    requires steps[m] == Local(WriteReceipt) && ChangesReceipt(states[m], steps[m], id)
    requires forall i :: m < i < n ==> !ChangesReceipt(states[i], steps[i], id)
    ensures id in states[n].bridge.receipts && ReportsInterruption(states[n].bridge.receipts[id], id)
    decreases n
  {
    if n > m + 1 {
      InterruptedUntilResult(states, steps, m, n - 1, id);
    }
  }

  /** So a crash between the receipt and the result is reported as a failure by every exchange that reports the command, and a result
      transaction of such an exchange fails the command if it is open. */
  lemma CrashIsReported(states: seq<State>, steps: seq<Step>, m: nat, n: nat, id: CommandId, k: nat)
    requires IsPath(states, steps) && m < n < |steps|
    requires steps[m] == Local(WriteReceipt) && ChangesReceipt(states[m], steps[m], id)
    requires forall i :: m < i < n ==> !ChangesReceipt(states[i], steps[i], id)
    requires steps[n].Send? && k < |steps[n].reported| && steps[n].reported[k] == id
    ensures var x := states[n + 1].exchanges[|states[n].exchanges|];
            && |x.results| == |steps[n].reported| && ReportsInterruption(x.results[k], id)
  {
    InterruptedUntilResult(states, steps, m, n, id);
  }

  lemma InterruptionFails(s: State, i: nat, k: nat, id: CommandId)
    requires Can(s, CompleteReported(i)) && Last(s.exchanges[i].results, k) && ReportsInterruption(s.exchanges[i].results[k], id)
    requires Open(s.cloud, id) && s.cloud.commands[id].deviceId == s.device
    ensures var s' := Next(s, CompleteReported(i));
            Finished(s'.cloud, id) && s'.cloud.commands[id].state == Failed && s'.cloud.commands[id].resultCode == Some("execution_interrupted")
  {
    ResultsDecide(s.cloud, s.device, s.exchanges[i].at, s.exchanges[i].results, k);
  }
}
