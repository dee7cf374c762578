/** Cloud and bridge of one device as one state machine. An exchange is split at its two transactions
    and the query between them; the bridge is split at every durable write; a response may be lost and the
    bridge may crash at any moment. */
module CommandProtocol {
  import opened Base
  import opened Commands
  import opened CommandBridge

  datatype Stage =
    | Fresh
    | Completed(acknowledged: seq<CommandId>)
    | Selected(acknowledged: seq<CommandId>, candidates: seq<CommandId>)
    | Answered(acknowledged: seq<CommandId>, sent: seq<CommandId>)

  /** An exchange in progress at the cloud. `at` is the time its request was received: both transactions
      use it, however late they commit. */
  datatype Exchange = Exchange(ticket: nat, at: int, results: seq<CommandResult>, stage: Stage)

  datatype State = State(
    device: string,
    clock: int,
    cloud: Cloud,
    exchanges: seq<Exchange>,
    nextTicket: nat,
    bridge: Bridge)

  datatype Step =
    | Tick(elapsed: nat)
    | Enroll(employeeId: string, fingerPrintId: int, id: CommandId)
    | Hire(employeeId: string, code: string, name: string, id: CommandId)
    | Send(reported: seq<CommandId>)
    | CompleteReported(i: nat)
    | Select(i: nat, candidates: seq<CommandId>)
    | DeliverSelected(i: nat)
    | Receive(i: nat)
    | LoseResponse
    | Discard(i: nat)
    | Local(act: Act)

  const REPORT_LIMIT := 20
  const CANDIDATE_LIMIT := 20

  predicate Open(cloud: Cloud, id: CommandId) {
    id in cloud.commands && !Terminal(cloud.commands[id])
  }

  predicate Finished(cloud: Cloud, id: CommandId) {
    id in cloud.commands && Terminal(cloud.commands[id])
  }

  ghost predicate Can(s: State, step: Step) {
    match step
    case Tick(_) => true
    case Enroll(employeeId, fingerPrintId, id) => CanQueueEnrollment(s.cloud, employeeId, fingerPrintId, id, s.clock)
    case Hire(employeeId, code, _, id) => CanCreateEmployee(s.cloud, employeeId, code, id)
    case Send(reported) =>
      s.bridge.phase.Idle? && |reported| <= REPORT_LIMIT && Distinct(reported) &&
      (forall id :: id in reported ==> id in s.bridge.receipts)
    case CompleteReported(i) => i < |s.exchanges| && s.exchanges[i].stage.Fresh?
    case Select(i, candidates) =>
      i < |s.exchanges| && s.exchanges[i].stage.Completed? &&
      |candidates| <= CANDIDATE_LIMIT && Distinct(candidates) && (forall id :: id in candidates ==> Open(s.cloud, id))
    case DeliverSelected(i) => i < |s.exchanges| && s.exchanges[i].stage.Selected?
    case Receive(i) =>
      i < |s.exchanges| && s.exchanges[i].stage.Answered? && s.bridge.phase == Waiting(s.exchanges[i].ticket)
    case LoseResponse => s.bridge.phase.Waiting?
    case Discard(i) => i < |s.exchanges|
    case Local(act) => CanAct(s.bridge, act)
  }

  function Without<T>(s: seq<T>, i: nat): seq<T>
    requires i < |s|
  {
    s[..i] + s[i + 1..]
  }

  ghost function Next(s: State, step: Step): State
    requires Can(s, step)
  {
    match step
    case Tick(elapsed) => s.(clock := s.clock + elapsed)
    case Enroll(employeeId, fingerPrintId, id) =>
      s.(cloud := QueueEnrollment(s.cloud, s.device, employeeId, fingerPrintId, id, s.clock))
    case Hire(employeeId, code, name, id) =>
      s.(cloud := CreateEmployee(s.cloud, s.device, employeeId, code, name, id, s.clock))
    case Send(reported) =>
      var results := seq(|reported|, i requires 0 <= i < |reported| && reported[i] in s.bridge.receipts =>
                           s.bridge.receipts[reported[i]]);
      s.(exchanges := s.exchanges + [Exchange(s.nextTicket, s.clock, results, Fresh)],
         nextTicket := s.nextTicket + 1,
         bridge := s.bridge.(phase := Waiting(s.nextTicket)))
    case CompleteReported(i) =>
      var x := s.exchanges[i];
      s.(cloud := ApplyResults(s.cloud, s.device, x.at, x.results),
         exchanges := s.exchanges[i := x.(stage := Completed(Acknowledged(s.cloud, s.device, x.results)))])
    case Select(i, candidates) =>
      s.(exchanges := s.exchanges[i := s.exchanges[i].(stage := Selected(s.exchanges[i].stage.acknowledged, candidates))])
    case DeliverSelected(i) =>
      var x := s.exchanges[i];
      var d := Deliver(s.cloud, s.device, x.at, x.stage.candidates);
      s.(cloud := d.cloud, exchanges := s.exchanges[i := x.(stage := Answered(x.stage.acknowledged, d.sent))])
    case Receive(i) =>
      s.(exchanges := Without(s.exchanges, i),
         bridge := s.bridge.(phase := Handling(s.exchanges[i].stage.acknowledged, s.exchanges[i].stage.sent)))
    case LoseResponse => s.(bridge := s.bridge.(phase := Idle))
    case Discard(i) => s.(exchanges := Without(s.exchanges, i))
    case Local(act) => s.(bridge := Perform(s.bridge, act))
  }

  /** A fresh device: no lock, no receipt, nothing started. Commands and rows of the past may remain, but no
      open enrollment and no row that belongs to an enrollment. */
  ghost predicate Init(s: State) {
    && s.exchanges == []
    && s.bridge == Bridge(map[], Idle, multiset{})
    && s.cloud.lock.None?
    && (forall id :: id in s.cloud.commands && s.cloud.commands[id].kind.EnrollFingerprint? ==> Terminal(s.cloud.commands[id]))
    && (forall key :: key in s.cloud.rows ==> Owner(s.cloud, key).None?)
    && (forall e :: e in s.cloud.employees ==> LowerCase(s.cloud.employees[e].code) in s.cloud.registry)
  }

  /** The enrollment command a row belongs to. */
  function Owner(cloud: Cloud, key: string): Option<CommandId> {
    if key in cloud.rows && cloud.rows[key].commandId.Some? && cloud.rows[key].commandId.value in cloud.commands &&
       cloud.commands[cloud.rows[key].commandId.value].kind.EnrollFingerprint? &&
       cloud.commands[cloud.rows[key].commandId.value].employeeNo == Some(key)
    then cloud.rows[key].commandId else None
  }

  ghost predicate IsPath(states: seq<State>, steps: seq<Step>) {
    && |states| == |steps| + 1
    && forall i :: 0 <= i < |steps| ==> Can(states[i], steps[i]) && states[i + 1] == Next(states[i], steps[i])
  }

  ghost predicate IsRun(states: seq<State>, steps: seq<Step>) {
    IsPath(states, steps) && Init(states[0])
  }

  // ----- Deliveries of finished commands -----

  /** The command that a delivery transaction would hand out. */
  function Handed(s: State, i: nat): Option<CommandId>
    requires i < |s.exchanges| && s.exchanges[i].stage.Selected?
  {
    FirstDispatchable(s.cloud, s.device, s.exchanges[i].at, s.exchanges[i].stage.candidates)
  }

  /** The step hands out a finished command: it was open when it was selected, and the delivery does not look again. */
  ghost predicate Revives(s: State, step: Step) {
    step.DeliverSelected? && Can(s, step) && Handed(s, step.i).Some? && Finished(s.cloud, Handed(s, step.i).value)
  }

  ghost predicate NothingRevived(states: seq<State>, steps: seq<Step>)
    requires |states| == |steps| + 1
  {
    forall i :: 0 <= i < |steps| ==> !Revives(states[i], steps[i])
  }

  // ----- Serial exchanges -----

  /** No exchange of the device begins while the cloud still works on an earlier one. */
  ghost predicate Serial(states: seq<State>, steps: seq<Step>)
    requires |states| == |steps| + 1
  {
    forall i :: 0 <= i < |steps| ==> (steps[i].Send? ==> states[i].exchanges == [])
  }

  /** There is one exchange at most, and what it selected is still open. */
  ghost predicate Alone(s: State) {
    && |s.exchanges| <= 1
    && forall i :: 0 <= i < |s.exchanges| && s.exchanges[i].stage.Selected? ==>
         forall id :: id in s.exchanges[i].stage.candidates ==> Open(s.cloud, id)
  }

  lemma AloneStep(s: State, step: Step)
    requires Alone(s) && Can(s, step) && (step.Send? ==> s.exchanges == [])
    ensures Alone(Next(s, step))
  {
  }

  lemma AloneRevivesNothing(s: State, step: Step)
    requires Alone(s)
    ensures !Revives(s, step)
  {
    if step.DeliverSelected? && Can(s, step) {
      FirstDispatchableIsDispatchable(s.cloud, s.device, s.exchanges[step.i].at, s.exchanges[step.i].stage.candidates);
    }
  }

  lemma {:induction false} RunAlone(states: seq<State>, steps: seq<Step>, n: nat)
    requires IsRun(states, steps) && Serial(states, steps) && n <= |steps|
    ensures Alone(states[n])
  {
    if n > 0 {
      RunAlone(states, steps, n - 1);
      AloneStep(states[n - 1], steps[n - 1]);
    }
  }

  /** With serial exchanges no finished command is handed out. */
  lemma SerialRevivesNothing(states: seq<State>, steps: seq<Step>)
    requires IsRun(states, steps) && Serial(states, steps)
    ensures NothingRevived(states, steps)
  {
    forall i | 0 <= i < |steps| ensures !Revives(states[i], steps[i]) {
      RunAlone(states, steps, i);
      AloneRevivesNothing(states[i], steps[i]);
    }
  }
}
