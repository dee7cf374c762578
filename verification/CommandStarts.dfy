/** At-most-once execution of commands, for overlapping exchanges too: what a delivery must not forget. */
module CommandStarts {
  import opened Base
  import opened Commands
  import opened CommandBridge
  import opened CommandProtocol

  function AcknowledgedBy(stage: Stage): seq<CommandId> {
    match stage
    case Fresh => []
    case Completed(acknowledged) => acknowledged
    case Selected(acknowledged, _) => acknowledged
    case Answered(acknowledged, _) => acknowledged
  }

  /** An acknowledgement that the bridge is waiting for or acting on takes the command's receipt away. */
  ghost predicate ToBeRemoved(s: State, id: CommandId) {
    match s.bridge.phase
    case Waiting(ticket) =>
      exists i :: 0 <= i < |s.exchanges| && s.exchanges[i].ticket == ticket && id in AcknowledgedBy(s.exchanges[i].stage)
    case Handling(acknowledged, _) => id in acknowledged
    case _ => false
  }

  /** The bridge has the command's receipt and nothing in sight removes it. */
  ghost predicate Held(s: State, id: CommandId) {
    id in s.bridge.receipts && !ToBeRemoved(s, id)
  }

  /** The step hands out a finished command whose work began and whose receipt is gone or about to go. */
  ghost predicate Forgets(s: State, step: Step) {
    Revives(s, step) && Handed(s, step.i).value in s.bridge.starts && !Held(s, Handed(s, step.i).value)
  }

  ghost predicate NothingForgotten(states: seq<State>, steps: seq<Step>)
    requires |states| == |steps| + 1
  {
    forall i :: 0 <= i < |steps| ==> !Forgets(states[i], steps[i])
  }

  /** If work on the command began, the bridge will recognise it. */
  ghost predicate Recognised(s: State, id: CommandId) {
    id in s.bridge.starts ==> Held(s, id)
  }

  ghost predicate TicketsOk(s: State) {
    && (forall i :: 0 <= i < |s.exchanges| ==> s.exchanges[i].ticket < s.nextTicket)
    && (forall i, j :: 0 <= i < j < |s.exchanges| ==> s.exchanges[i].ticket != s.exchanges[j].ticket)
    && (s.bridge.phase.Waiting? ==> s.bridge.phase.ticket < s.nextTicket)
  }

  /** What the bridge has been or is being sent is recognised if it was started. */
  ghost predicate PhaseOk(s: State) {
    match s.bridge.phase
    case Idle => true
    case Waiting(ticket) =>
      forall i :: 0 <= i < |s.exchanges| && s.exchanges[i].ticket == ticket && s.exchanges[i].stage.Answered? ==>
        forall id :: id in s.exchanges[i].stage.sent ==> Recognised(s, id)
    case Handling(_, todo) => forall id :: id in todo ==> Recognised(s, id)
    case Armed(command, rest) =>
      command in s.bridge.receipts && command !in s.bridge.starts && forall id :: id in rest ==> Recognised(s, id)
    case Working(command, rest) => command in s.bridge.receipts && forall id :: id in rest ==> Recognised(s, id)
  }

  /** Work that began is remembered: by a receipt that is held, or by a finished command in the cloud. */
  ghost predicate Remembered(s: State) {
    forall id :: id in s.bridge.starts ==> s.bridge.starts[id] == 1 && (Held(s, id) || Finished(s.cloud, id))
  }

  ghost predicate Inv(s: State) {
    TicketsOk(s) && PhaseOk(s) && Remembered(s)
  }

  lemma RemovalStep(s: State)
    requires Inv(s) && CanAct(s.bridge, RemoveReceipt)
    ensures Inv(Next(s, Local(RemoveReceipt)))
  {
    var acknowledged, s' := s.bridge.phase.acknowledged, Next(s, Local(RemoveReceipt));
    assert forall id :: id in acknowledged[1..] ==> id in acknowledged;
    assert acknowledged[0] in acknowledged;
    forall id | Held(s, id) ensures Held(s', id) {
    }
  }

  lemma ReceiptRemembered(s: State)
    requires Inv(s) && CanAct(s.bridge, WriteReceipt)
    ensures var s' := Next(s, Local(WriteReceipt)); TicketsOk(s') && Remembered(s')
    ensures forall id :: Held(s, id) ==> Held(Next(s, Local(WriteReceipt)), id)
  {
  }

  lemma ReceiptStep(s: State)
    requires Inv(s) && CanAct(s.bridge, WriteReceipt)
    ensures Inv(Next(s, Local(WriteReceipt)))
  {
    var todo, s' := s.bridge.phase.todo, Next(s, Local(WriteReceipt));
    ReceiptRemembered(s);
    assert todo[0] in todo && todo[0] !in s.bridge.starts;
    forall id | id in todo[1..] ensures Recognised(s', id) {
      assert id in todo;
    }
  }

  lemma LocalStep(s: State, act: Act)
    requires Inv(s) && CanAct(s.bridge, act)
    ensures Inv(Next(s, Local(act)))
  {
    var b := s.bridge;
    match act
    case RemoveReceipt => RemovalStep(s);
    case SkipKnown => assert forall id :: id in b.phase.todo[1..] ==> id in b.phase.todo;
    case WriteReceipt => ReceiptStep(s);
    case StartWork => assert forall id :: !ToBeRemoved(Next(s, Local(act)), id);
    case _ =>
  }

  lemma ResultStep(s: State, i: nat)
    requires Inv(s) && Can(s, CompleteReported(i))
    ensures Inv(Next(s, CompleteReported(i)))
  {
    var x, s' := s.exchanges[i], Next(s, CompleteReported(i));
    ResultsComplete(s.cloud, s.device, x.at, x.results);
    AcknowledgedExactly(s.cloud, s.device, x.results);
    forall id | ToBeRemoved(s', id) && !ToBeRemoved(s, id) ensures Finished(s'.cloud, id) {
      var k :| 0 <= k < |s'.exchanges| && s'.exchanges[k].ticket == s.bridge.phase.ticket && id in AcknowledgedBy(s'.exchanges[k].stage);
      assert k == i;
    }
    forall id | Finished(s.cloud, id) ensures Finished(s'.cloud, id) {
    }
    if s.bridge.phase.Waiting? {
      forall k | 0 <= k < |s'.exchanges| && s'.exchanges[k].ticket == s.bridge.phase.ticket && s'.exchanges[k].stage.Answered?
        ensures forall id :: id in s'.exchanges[k].stage.sent ==> Recognised(s', id)
      {
        assert k != i && s'.exchanges[k] == s.exchanges[k];
        assert s.exchanges[i].ticket != s.bridge.phase.ticket;
        forall id ensures ToBeRemoved(s', id) == ToBeRemoved(s, id) {
        }
      }
    }
  }

  lemma DeliveryStep(s: State, i: nat)
    requires Inv(s) && Can(s, DeliverSelected(i)) && !Forgets(s, DeliverSelected(i))
    ensures Inv(Next(s, DeliverSelected(i)))
  {
    var x, s' := s.exchanges[i], Next(s, DeliverSelected(i));
    DeliveryCommands(s.cloud, s.device, x.at, x.stage.candidates);
    var first := Handed(s, i);
    forall id | Finished(s.cloud, id) && first != Some(id) ensures Finished(s'.cloud, id) {
      assert DeliveredCommand(s.cloud, s'.cloud, s.device, x.at, x.stage.candidates, first, id);
    }
    forall id ensures ToBeRemoved(s', id) == ToBeRemoved(s, id) {
      SameAcknowledgements(s, s', id);
    }
  }

  lemma SameAcknowledgements(s: State, s': State, id: CommandId)
    requires s'.bridge == s.bridge && |s'.exchanges| == |s.exchanges|
    requires forall i :: 0 <= i < |s.exchanges| ==>
               s'.exchanges[i].ticket == s.exchanges[i].ticket && AcknowledgedBy(s'.exchanges[i].stage) == AcknowledgedBy(s.exchanges[i].stage)
    ensures ToBeRemoved(s', id) == ToBeRemoved(s, id)
  {
  }

  lemma CreationStep(s: State, cloud: Cloud)
    requires Inv(s)
    requires forall id :: id in s.cloud.commands ==> id in cloud.commands && cloud.commands[id] == s.cloud.commands[id]
    ensures Inv(s.(cloud := cloud))
  {
    forall id ensures ToBeRemoved(s.(cloud := cloud), id) == ToBeRemoved(s, id) {
      SameAcknowledgements(s, s.(cloud := cloud), id);
    }
  }

  lemma SendStep(s: State, reported: seq<CommandId>)
    requires Inv(s) && Can(s, Send(reported))
    ensures Inv(Next(s, Send(reported)))
  {
    var s' := Next(s, Send(reported));
    forall id ensures !ToBeRemoved(s', id) {
    }
  }

  lemma SelectStep(s: State, i: nat, candidates: seq<CommandId>)
    requires Inv(s) && Can(s, Select(i, candidates))
    ensures Inv(Next(s, Select(i, candidates)))
  {
    var s' := Next(s, Select(i, candidates));
    forall id ensures ToBeRemoved(s', id) == ToBeRemoved(s, id) {
      SameAcknowledgements(s, s', id);
    }
  }

  /** Taking an exchange away removes no receipt that was held before. */
  lemma FewerExchanges(s: State, i: nat, id: CommandId)
    requires i < |s.exchanges|
    ensures ToBeRemoved(s.(exchanges := Without(s.exchanges, i)), id) ==> ToBeRemoved(s, id)
  {
    var s' := s.(exchanges := Without(s.exchanges, i));
    if ToBeRemoved(s', id) && s.bridge.phase.Waiting? {
      var k :| 0 <= k < |s'.exchanges| && s'.exchanges[k].ticket == s.bridge.phase.ticket && id in AcknowledgedBy(s'.exchanges[k].stage);
      var j := if k < i then k else k + 1;
      assert s.exchanges[j] == s'.exchanges[k];
    }
  }

  lemma DiscardStep(s: State, i: nat)
    requires Inv(s) && i < |s.exchanges|
    ensures Inv(s.(exchanges := Without(s.exchanges, i)))
  {
    var s' := s.(exchanges := Without(s.exchanges, i));
    forall id ensures ToBeRemoved(s', id) ==> ToBeRemoved(s, id) {
      FewerExchanges(s, i, id);
    }
    assert forall k :: 0 <= k < |s'.exchanges| ==> s'.exchanges[k] == s.exchanges[if k < i then k else k + 1];
  }

  lemma ReceiveStep(s: State, i: nat)
    requires Inv(s) && Can(s, Receive(i))
    ensures Inv(Next(s, Receive(i)))
  {
    var s' := Next(s, Receive(i));
    assert forall id :: ToBeRemoved(s', id) ==> ToBeRemoved(s, id);
    assert forall k :: 0 <= k < |s'.exchanges| ==> s'.exchanges[k] == s.exchanges[if k < i then k else k + 1];
  }

  lemma InvStep(s: State, step: Step)
    requires Inv(s) && Can(s, step) && !Forgets(s, step)
    ensures Inv(Next(s, step))
  {
    match step
    case Tick(_) =>
      forall id ensures ToBeRemoved(Next(s, step), id) == ToBeRemoved(s, id) {
        SameAcknowledgements(s, Next(s, step), id);
      }
    case Enroll(_, _, _) => CreationStep(s, Next(s, step).cloud);
    case Hire(_, _, _, _) => CreationStep(s, Next(s, step).cloud);
    case Send(reported) => SendStep(s, reported);
    case CompleteReported(i) => ResultStep(s, i);
    case Select(i, candidates) => SelectStep(s, i, candidates);
    case DeliverSelected(i) => DeliveryStep(s, i);
    case Receive(i) => ReceiveStep(s, i);
    case LoseResponse =>
    case Discard(i) => DiscardStep(s, i);
    case Local(act) => LocalStep(s, act);
  }

  lemma {:induction false} RunRemembers(states: seq<State>, steps: seq<Step>, n: nat)
    requires IsRun(states, steps) && NothingForgotten(states, steps) && n <= |steps|
    ensures Inv(states[n])
  {
    if n > 0 {
      RunRemembers(states, steps, n - 1);
      InvStep(states[n - 1], steps[n - 1]);
    }
  }

  /** At-most-once: in a run, exchanges overlapping or not, in which no delivery forgets a start, no command's work starts twice. */
  lemma AtMostOnce(states: seq<State>, steps: seq<Step>, n: nat, id: CommandId)
    requires IsRun(states, steps) && NothingForgotten(states, steps) && n <= |steps|
    ensures states[n].bridge.starts[id] <= 1
  {
    RunRemembers(states, steps, n);
    assert id in states[n].bridge.starts || states[n].bridge.starts[id] == 0;
  }

  /** In particular when no delivery hands out a finished command. */
  lemma AtMostOnceUnrevived(states: seq<State>, steps: seq<Step>, n: nat, id: CommandId)
    requires IsRun(states, steps) && NothingRevived(states, steps) && n <= |steps|
    ensures states[n].bridge.starts[id] <= 1
  {
    forall i | 0 <= i < |steps| ensures !Forgets(states[i], steps[i]) {
      assert !Revives(states[i], steps[i]);
    }
    AtMostOnce(states, steps, n, id);
  }

  /** And so with serial exchanges. */
  lemma AtMostOnceSerial(states: seq<State>, steps: seq<Step>, n: nat, id: CommandId)
    requires IsRun(states, steps) && Serial(states, steps) && n <= |steps|
    ensures states[n].bridge.starts[id] <= 1
  {
    SerialRevivesNothing(states, steps);
    AtMostOnceUnrevived(states, steps, n, id);
  }
}
