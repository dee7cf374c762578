/** The converse of at-most-once: once a delivery has forgotten a start, the run can go on to a second one. */
module SecondStart {
  import opened Base
  import opened Commands
  import opened CommandBridge
  import opened CommandProtocol
  import opened CommandStarts
  import opened CommandTraces

  /** The command is open, and at the given later time its lease will have ended and it will not have expired. */
  predicate Redeliverable(s: State, id: CommandId, later: int) {
    && s.clock <= later && Owned(s.cloud, s.device, id)
    && var c := s.cloud.commands[id];
       && !Terminal(c) && !Malformed(c)
       && c.expiresAt.Some? && c.expiresAt.value > later
       && (c.leaseUntil.Some? ==> c.leaseUntil.value <= later)
  }

  /** No exchange was received later than now. */
  ghost predicate Received(s: State) {
    forall i :: 0 <= i < |s.exchanges| ==> s.exchanges[i].at <= s.clock
  }

  lemma {:induction false} RunReceived(states: seq<State>, steps: seq<Step>, n: nat)
    requires IsRun(states, steps) && n <= |steps|
    ensures Received(states[n])
  {
    if n > 0 {
      RunReceived(states, steps, n - 1);
      var s, s' := states[n - 1], states[n];
      assert s' == Next(s, steps[n - 1]);
    }
  }

  lemma {:induction false} RunTickets(states: seq<State>, steps: seq<Step>, n: nat)
    requires IsRun(states, steps) && n <= |steps|
    ensures TicketsOk(states[n])
  {
    if n > 0 {
      RunTickets(states, steps, n - 1);
      TicketsStep(states[n - 1], steps[n - 1]);
    }
  }

  lemma TicketsStep(s: State, step: Step)
    requires TicketsOk(s) && Can(s, step)
    ensures TicketsOk(Next(s, step))
  {
    match step
    case Receive(i) => FewerTickets(s, i);
    case Discard(i) => FewerTickets(s, i);
    case _ =>
  }

  lemma FewerTickets(s: State, i: nat)
    requires TicketsOk(s) && i < |s.exchanges|
    ensures TicketsOk(s.(exchanges := Without(s.exchanges, i)))
  {
  }

  lemma DeliveryKeepsRedeliverable(s: State, i: nat, id: CommandId, later: int)
    requires Can(s, DeliverSelected(i)) && Received(s) && Redeliverable(s, id, later) && s.clock + LEASE <= later
    ensures Redeliverable(Next(s, DeliverSelected(i)), id, later)
  {
    var x, s' := s.exchanges[i], Next(s, DeliverSelected(i));
    DeliveryCommands(s.cloud, s.device, x.at, x.stage.candidates);
    assert DeliveredCommand(s.cloud, s'.cloud, s.device, x.at, x.stage.candidates, Handed(s, i), id);
  }

  // ----- Losing the receipt -----

  /** The bridge acts on the acknowledgements it has received. */
  lemma {:induction false} RemoveAll(t: Trace, s: State, id: CommandId) returns (t': Trace, s': State)
    requires Reaches(t, s, false) && s.bridge.phase.Handling? && (id in s.bridge.receipts ==> id in s.bridge.phase.acknowledged)
    ensures Reaches(t', s', false) && First(t') == First(t)
    ensures s'.bridge.phase == Handling([], s.bridge.phase.todo) && id !in s'.bridge.receipts && s'.bridge.starts == s.bridge.starts
    ensures s' == s.(bridge := s'.bridge)
    decreases |s.bridge.phase.acknowledged|
  {
    t', s' := t, s;
    var acknowledged := s.bridge.phase.acknowledged;
    if acknowledged != [] {
      t' := Grow(t, s, Local(RemoveReceipt), false);
      s' := Next(s, Local(RemoveReceipt));
      assert acknowledged == [acknowledged[0]] + acknowledged[1..];
      t', s' := RemoveAll(t', s', id);
    }
  }

  /** The awaited exchange is brought to its answer. */
  lemma Answer(t: Trace, s: State, i: nat, id: CommandId, later: int) returns (t': Trace, s': State)
    requires Reaches(t, s, false) && i < |s.exchanges| && id in AcknowledgedBy(s.exchanges[i].stage)
    requires Received(s) && Redeliverable(s, id, later) && s.clock + LEASE <= later
    ensures Reaches(t', s', false) && First(t') == First(t)
    ensures s'.bridge == s.bridge && Redeliverable(s', id, later)
    ensures |s'.exchanges| == |s.exchanges| && s'.exchanges[i].ticket == s.exchanges[i].ticket
    ensures s'.exchanges[i].stage.Answered? && id in s'.exchanges[i].stage.acknowledged
  {
    t', s' := t, s;
    if s'.exchanges[i].stage.Completed? {
      t' := Grow(t', s', Select(i, []), false);
      s' := Next(s', Select(i, []));
    }
    if s'.exchanges[i].stage.Selected? {
      DeliveryKeepsRedeliverable(s', i, id, later);
      t' := Grow(t', s', DeliverSelected(i), false);
      s' := Next(s', DeliverSelected(i));
    }
  }

  /** From a state that does not hold the receipt, the bridge comes to be idle without it. */
  lemma LoseReceipt(t: Trace, s: State, id: CommandId, later: int) returns (t': Trace, s': State)
    requires Reaches(t, s, false) && Received(s) && Redeliverable(s, id, later) && !Held(s, id)
    requires id in s.bridge.receipts && s.bridge.phase.Waiting? ==> s.clock + LEASE <= later
    ensures Reaches(t', s', false) && First(t') == First(t)
    ensures s'.bridge.phase.Idle? && id !in s'.bridge.receipts && s'.bridge.starts == s.bridge.starts
    ensures Redeliverable(s', id, later)
  {
    t', s' := t, s;
    if id in s.bridge.receipts && s.bridge.phase.Handling? {
      t', s' := RemoveAll(t, s, id);
    } else if id in s.bridge.receipts {
      var i :| 0 <= i < |s.exchanges| && s.exchanges[i].ticket == s.bridge.phase.ticket && id in AcknowledgedBy(s.exchanges[i].stage);
      t', s' := Answer(t, s, i, id, later);
      var s1 := Next(s', Receive(i));
      t' := Grow(t', s', Receive(i), false);
      t', s' := RemoveAll(t', s1, id);
    }
    t' := Grow(t', s', Local(Crash), false);
    s' := Next(s', Local(Crash));
  }

  // ----- Starting again -----

  lemma FirstOfOne(cloud: Cloud, device: string, at: int, id: CommandId)
    requires Dispatchable(cloud, device, at, id)
    ensures FirstDispatchable(cloud, device, at, [id]) == Some(id) && Deliver(cloud, device, at, [id]).sent == [id]
  {
    assert [id][..0] == [];
    assert FirstDispatchable(cloud, device, at, []) == None;
    DeliveryCommands(cloud, device, at, [id]);
  }

  /** At the later time a new exchange asks for commands and selects this one. */
  lemma AskAgain(t: Trace, s: State, id: CommandId, later: int) returns (t': Trace, s': State)
    requires Reaches(t, s, false) && s.bridge.phase.Idle? && Redeliverable(s, id, later)
    ensures Reaches(t', s', false) && First(t') == First(t) && s'.cloud == s.cloud && s'.device == s.device
    ensures s'.bridge == s.bridge.(phase := Waiting(s.nextTicket))
    ensures s'.exchanges == s.exchanges + [Exchange(s.nextTicket, later, [], Selected([], [id]))]
  {
    var k := |s.exchanges|;
    t' := Grow(t, s, Tick(later - s.clock), false);
    s' := Next(s, Tick(later - s.clock));
    t' := Grow(t', s', Send([]), false);
    s' := Next(s', Send([]));
    assert s'.exchanges[k].results == [];
    assert s'.exchanges == s.exchanges + [Exchange(s.nextTicket, later, [], Fresh)];
    t' := Grow(t', s', CompleteReported(k), false);
    s' := Next(s', CompleteReported(k));
    assert s'.exchanges == s.exchanges + [Exchange(s.nextTicket, later, [], Completed([]))];
    t' := Grow(t', s', Select(k, [id]), false);
    s' := Next(s', Select(k, [id]));
  }

  lemma ObtainAgain(t: Trace, s: State, id: CommandId, later: int) returns (t': Trace, s': State)
    requires Reaches(t, s, false) && s.bridge.phase.Idle? && Redeliverable(s, id, later)
    ensures Reaches(t', s', false) && First(t') == First(t) && s'.bridge == s.bridge.(phase := Handling([], [id]))
  {
    var k := |s.exchanges|;
    t', s' := AskAgain(t, s, id, later);
    FirstOfOne(s'.cloud, s'.device, later, id);
    t' := Grow(t', s', DeliverSelected(k), false);
    s' := Next(s', DeliverSelected(k));
    t' := Grow(t', s', Receive(k), false);
    s' := Next(s', Receive(k));
  }

  lemma StartObtained(t: Trace, s: State, id: CommandId) returns (t': Trace, s': State)
    requires Reaches(t, s, false) && s.bridge.phase == Handling([], [id]) && id !in s.bridge.receipts
    ensures Reaches(t', s', false) && First(t') == First(t) && s'.bridge.starts == s.bridge.starts + multiset{id}
  {
    t' := Grow(t, s, Local(WriteReceipt), false);
    s' := Next(s, Local(WriteReceipt));
    assert s'.bridge.phase == Armed(id, []);
    t' := Grow(t', s', Local(StartWork), false);
    s' := Next(s', Local(StartWork));
  }

  lemma StartAgain(t: Trace, s: State, id: CommandId, later: int) returns (t': Trace, s': State)
    requires Reaches(t, s, false) && s.bridge.phase.Idle? && id !in s.bridge.receipts && Redeliverable(s, id, later)
    ensures Reaches(t', s', false) && First(t') == First(t) && s'.bridge.starts == s.bridge.starts + multiset{id}
  {
    t', s' := ObtainAgain(t, s, id, later);
    t', s' := StartObtained(t', s', id);
  }

  /** When the command that step `DeliverSelected(i)` hands out can be handed out once more: when its lease has ended, or, if its
      receipt must first be lost to an acknowledgement still to come, when a lease given now would have ended. */
  function Again(s: State, i: nat, id: CommandId): int
    requires i < |s.exchanges|
  {
    if id in s.bridge.receipts && s.bridge.phase.Waiting? then s.clock + LEASE else Max(s.clock, s.exchanges[i].at + LEASE)
  }

  predicate Awaited(s: State, i: nat)
    requires i < |s.exchanges|
  {
    s.bridge.phase == Waiting(s.exchanges[i].ticket)
  }

  /** If the bridge waits for that exchange, its answer starts the command at once. */
  lemma AwaitedStartsAgain(s: State, i: nat, id: CommandId) returns (t: Trace, s': State)
    requires Forgets(s, DeliverSelected(i)) && Handed(s, i) == Some(id)
    requires TicketsOk(s) && Awaited(s, i)
    ensures First(t) == Next(s, DeliverSelected(i)) && Reaches(t, s', false) && s'.bridge.starts == s.bridge.starts + multiset{id}
  {
    DeliveryCommands(s.cloud, s.device, s.exchanges[i].at, s.exchanges[i].stage.candidates);
    s' := Next(s, DeliverSelected(i));
    t := Grow(Start(s'), s', Receive(i), false);
    s' := Next(s', Receive(i));
    t, s' := RemoveAll(t, s', id);
    t, s' := StartObtained(t, s', id);
  }

  lemma ForgottenIsRedeliverable(s: State, i: nat, id: CommandId)
    requires Received(s) && Forgets(s, DeliverSelected(i)) && Handed(s, i) == Some(id)
    requires s.cloud.commands[id].expiresAt.Some? && s.cloud.commands[id].expiresAt.value > Again(s, i, id)
    ensures var s' := Next(s, DeliverSelected(i));
            Redeliverable(s', id, Again(s, i, id)) && !Held(s', id) && Received(s') && s'.bridge == s.bridge && s'.clock == s.clock
  {
    var x, s' := s.exchanges[i], Next(s, DeliverSelected(i));
    FirstDispatchableIsDispatchable(s.cloud, s.device, x.at, x.stage.candidates);
    DeliveryCommands(s.cloud, s.device, x.at, x.stage.candidates);
    assert DeliveredCommand(s.cloud, s'.cloud, s.device, x.at, x.stage.candidates, Some(id), id);
    SameAcknowledgements(s, s', id);
  }

  lemma ForgottenStart(s: State, i: nat, id: CommandId) returns (t: Trace, s': State)
    requires Received(s) && Forgets(s, DeliverSelected(i)) && Handed(s, i) == Some(id)
    requires s.cloud.commands[id].expiresAt.Some? && s.cloud.commands[id].expiresAt.value > Again(s, i, id)
    ensures First(t) == Next(s, DeliverSelected(i)) && Reaches(t, s', false) && s'.bridge.starts == s.bridge.starts + multiset{id}
  {
    ForgottenIsRedeliverable(s, i, id);
    s' := Next(s, DeliverSelected(i));
    t, s' := LoseReceipt(Start(s'), s', id, Again(s, i, id));
    t, s' := StartAgain(t, s', id, Again(s, i, id));
  }

  /** A delivery that forgets a start can lead to another start of the command, at once if the bridge waits for its answer, and
      otherwise unless the command expires first: the guard of `CommandStarts.AtMostOnce` is no stronger than it must be. */
  lemma ForgottenStartsAgain(states: seq<State>, steps: seq<Step>, i: nat, id: CommandId) returns (states': seq<State>, steps': seq<Step>)
    requires IsRun(states, steps) && Forgets(states[|steps|], DeliverSelected(i)) && Handed(states[|steps|], i) == Some(id)
    requires var expiry := states[|steps|].cloud.commands[id].expiresAt;
             Awaited(states[|steps|], i) || (expiry.Some? && expiry.value > Again(states[|steps|], i, id))
    ensures IsRun(states', steps') && states <= states' && steps + [DeliverSelected(i)] <= steps'
    ensures states'[|steps'|].bridge.starts == states[|steps|].bridge.starts + multiset{id}
    ensures states'[|steps'|].bridge.starts[id] >= 2
  {
    var s := states[|steps|];
    var s1 := Next(s, DeliverSelected(i));
    var t, s2;
    if Awaited(s, i) {
      RunTickets(states, steps, |steps|);
      t, s2 := AwaitedStartsAgain(s, i, id);
    } else {
      RunReceived(states, steps, |steps|);
      t, s2 := ForgottenStart(s, i, id);
    }
    var more, moreSteps := AsPath(t);
    var prefix := states + [s1];
    assert IsRun(prefix, steps + [DeliverSelected(i)]);
    states' := Continue(prefix, steps + [DeliverSelected(i)], more, moreSteps);
    steps' := steps + [DeliverSelected(i)] + moreSteps;
  }
}
