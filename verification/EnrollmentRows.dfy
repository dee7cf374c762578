/** The enrollment row shown to the operator: once an enrollment is queued for an employee number, the row
    stays with that command until the next enrollment is queued for it, and shows that command's state. */
module EnrollmentRows {
  import opened Base
  import opened Commands
  import opened CommandBridge
  import opened CommandProtocol
  import opened EnrollmentLock

  function Shown(state: CommandState): RowState {
    match state
    case Queued => RowQueued
    case Dispatched => Capturing
    case Succeeded => Enrolled
    case Failed => RowFailed
  }

  /** The row belongs to enrollment `e` and shows its state. */
  predicate Shows(cloud: Cloud, key: string, e: CommandId) {
    key in cloud.rows && e in cloud.commands &&
    cloud.rows[key].commandId == Some(e) && cloud.rows[key].fingerPrintId.Some? &&
    cloud.rows[key].state == Some(Shown(cloud.commands[e].state))
  }

  ghost predicate RowOk(cloud: Cloud, device: string, key: string) {
    Owner(cloud, key).Some? ==>
      var e := Owner(cloud, key).value;
      && Shows(cloud, key, e)
      && cloud.commands[e].deviceId == device && cloud.commands[e].employeeId.Some? && cloud.commands[e].createdAt.Some?
      && LowerCase(key) in cloud.registry
      && forall c :: OpenEnrollment(cloud, c) && c != e && cloud.commands[c].employeeNo == Some(key) ==>
           Expired(cloud.commands[c], cloud.commands[e].createdAt.value)
  }

  ghost predicate RowsOk(cloud: Cloud, device: string) {
    && (forall key :: RowOk(cloud, device, key))
    && (forall c :: OpenEnrollment(cloud, c) ==>
          cloud.commands[c].employeeNo.Some? && Owner(cloud, cloud.commands[c].employeeNo.value).Some?)
    && (forall e :: e in cloud.employees ==> LowerCase(cloud.employees[e].code) in cloud.registry)
  }

  /** A command the bridge can have received: the delivery transaction never hands out unknown kinds. */
  predicate Genuine(cloud: Cloud, id: CommandId) {
    id in cloud.commands && !cloud.commands[id].kind.OtherKind?
  }

  ghost predicate AllGenuine(s: State) {
    && (forall id :: id in s.bridge.receipts ==> Genuine(s.cloud, id) && s.bridge.receipts[id].commandId == id)
    && (forall i :: 0 <= i < |s.exchanges| ==> ExchangeGenuine(s.cloud, s.exchanges[i]))
    && (s.bridge.phase.Handling? ==> forall id :: id in s.bridge.phase.todo ==> Genuine(s.cloud, id))
    && (s.bridge.phase.Armed? || s.bridge.phase.Working? ==>
          Genuine(s.cloud, s.bridge.phase.command) && forall id :: id in s.bridge.phase.rest ==> Genuine(s.cloud, id))
  }

  ghost predicate ExchangeGenuine(cloud: Cloud, x: Exchange) {
    && (forall r :: r in x.results ==> Genuine(cloud, r.commandId))
    && (x.stage.Answered? ==> forall id :: id in x.stage.sent ==> Genuine(cloud, id))
  }

  // ----- Result transactions -----

  lemma {:induction false} ResultsKeepOwner(pre: Cloud, device: string, now: int, rs: seq<CommandResult>, key: string, e: CommandId)
    requires Owner(pre, key) == Some(e) && Shows(pre, key, e)
    requires pre.commands[e].deviceId == device && pre.commands[e].employeeId.Some?
    requires forall r :: r in rs ==> Genuine(pre, r.commandId)
    ensures Shows(ApplyResults(pre, device, now, rs), key, e)
  {
    if rs != [] {
      var init, r := rs[..|rs| - 1], rs[|rs| - 1];
      assert rs == init + [r];
      ResultsKeepOwner(pre, device, now, init, key, e);
      assert Genuine(pre, r.commandId);
    }
  }

  lemma {:induction false} ResultsTakeNoRow(pre: Cloud, device: string, now: int, rs: seq<CommandResult>, key: string)
    requires forall c :: OpenEnrollment(pre, c) ==> pre.commands[c].employeeNo != Some(key)
    ensures
      var post := ApplyResults(pre, device, now, rs);
      key in post.rows && post.rows[key].commandId.Some? ==>
        var id := post.rows[key].commandId.value;
        (key in pre.rows && pre.rows[key].commandId == Some(id)) || (id in pre.commands && !pre.commands[id].kind.EnrollFingerprint?)
  {
    if rs != [] {
      var init, r := rs[..|rs| - 1], rs[|rs| - 1];
      ResultsTakeNoRow(pre, device, now, init, key);
      assert Owned(pre, device, r.commandId) && !Terminal(pre.commands[r.commandId]) && pre.commands[r.commandId].kind.EnrollFingerprint?
        ==> OpenEnrollment(pre, r.commandId);
    }
  }

  lemma RowsAfterResults(pre: Cloud, device: string, now: int, rs: seq<CommandResult>)
    requires RowsOk(pre, device)
    requires forall r :: r in rs ==> Genuine(pre, r.commandId)
    ensures RowsOk(ApplyResults(pre, device, now, rs), device)
    ensures forall key :: Owner(ApplyResults(pre, device, now, rs), key) == Owner(pre, key)
  {
    var post := ApplyResults(pre, device, now, rs);
    ResultsComplete(pre, device, now, rs);
    forall key ensures Owner(post, key) == Owner(pre, key) && RowOk(post, device, key) {
      assert RowOk(pre, device, key);
      if Owner(pre, key).Some? {
        ResultsKeepOwner(pre, device, now, rs, key, Owner(pre, key).value);
      } else {
        ResultsTakeNoRow(pre, device, now, rs, key);
      }
    }
    assert forall c :: OpenEnrollment(post, c) ==> OpenEnrollment(pre, c);
  }

  // ----- Delivery transactions -----

  /** No enrollment was queued after the exchange's request was received. */
  predicate Timely(cloud: Cloud, at: int) {
    forall id :: id in cloud.commands && cloud.commands[id].kind.EnrollFingerprint? && cloud.commands[id].createdAt.Some? ==>
      cloud.commands[id].createdAt.value <= at
  }

  /** One candidate of a delivery writes at most the row of its own employee number, and only with its own id. */
  lemma DeliverOneRow(pre: Cloud, d: Delivery, device: string, now: int, c: CommandId, key: string)
    ensures
      var d' := DeliverOne(pre, d, device, now, c);
      var own := Owned(pre, device, c) && pre.commands[c].employeeNo == Some(key);
      if own && FailsOnDelivery(pre, device, now, c) && RowOrBlank(pre.rows, key).commandId == Some(c) then
        && key in d'.cloud.rows && c in d'.cloud.commands && d'.cloud.commands[c].state == Failed
        && d'.cloud.rows[key].commandId == Some(c) && d'.cloud.rows[key].state == Some(RowFailed)
        && d'.cloud.rows[key].fingerPrintId == RowOrBlank(d.cloud.rows, key).fingerPrintId
      else if own && Dispatchable(pre, device, now, c) && d.sent == [] && pre.commands[c].kind.EnrollFingerprint? then
        && key in d'.cloud.rows && c in d'.cloud.commands && d'.cloud.commands[c].state == Dispatched
        && d'.cloud.rows[key].commandId == Some(c) && d'.cloud.rows[key].state == Some(Capturing)
        && d'.cloud.rows[key].fingerPrintId == RowOrBlank(d.cloud.rows, key).fingerPrintId
      else
        && (key in d'.cloud.rows <==> key in d.cloud.rows)
        && RowOrBlank(d'.cloud.rows, key) == RowOrBlank(d.cloud.rows, key)
  {
  }

  lemma ShowsAfterOne(pre: Cloud, d: Delivery, device: string, now: int, c: CommandId, key: string, e: CommandId)
    requires Owner(pre, key) == Some(e) && Shows(d.cloud, key, e)
    requires c != e && d.sent == [] && Dispatchable(pre, device, now, c) && pre.commands[c].kind.EnrollFingerprint? ==>
               pre.commands[c].employeeNo != Some(key)
    ensures Shows(DeliverOne(pre, d, device, now, c).cloud, key, e)
  {
    DeliverOneRow(pre, d, device, now, c, key);
    DeliverOneCommands(pre, d, device, now, c);
  }

  /** The delivery would hand the row of `key` to another enrollment than `e`. */
  predicate Steals(pre: Cloud, device: string, now: int, candidates: seq<CommandId>, key: string, e: CommandId) {
    var first := FirstDispatchable(pre, device, now, candidates);
    first.Some? && first.value != e && first.value in pre.commands &&
    pre.commands[first.value].kind.EnrollFingerprint? && pre.commands[first.value].employeeNo == Some(key)
  }

  lemma {:induction false} DeliveryKeepsOwner(pre: Cloud, device: string, now: int, candidates: seq<CommandId>, key: string, e: CommandId)
    requires Owner(pre, key) == Some(e) && Shows(pre, key, e)
    requires !Steals(pre, device, now, candidates, key, e)
    ensures Shows(Deliver(pre, device, now, candidates).cloud, key, e)
  {
    if candidates != [] {
      var init, c := candidates[..|candidates| - 1], candidates[|candidates| - 1];
      assert candidates == init + [c];
      DeliveryKeepsOwner(pre, device, now, init, key, e);
      DeliveryCommands(pre, device, now, init);
      ShowsAfterOne(pre, Deliver(pre, device, now, init), device, now, c, key, e);
    }
  }

  /** The owner fails in the same delivery after the other enrollment has been handed out, which gives the row back to it. */
  ghost predicate Restored(pre: Cloud, device: string, now: int, candidates: seq<CommandId>, e: CommandId) {
    && FailsOnDelivery(pre, device, now, e)
    && exists i, j :: 0 <= i < j < |candidates| && Some(candidates[i]) == FirstDispatchable(pre, device, now, candidates) && candidates[j] == e
  }

  lemma RestoredLast(pre: Cloud, device: string, now: int, candidates: seq<CommandId>, e: CommandId)
    requires candidates != []
    ensures var init, first := candidates[..|candidates| - 1], FirstDispatchable(pre, device, now, candidates[..|candidates| - 1]);
            first.Some? ==>
              (Restored(pre, device, now, candidates, e) <==>
                Restored(pre, device, now, init, e) || (candidates[|candidates| - 1] == e && FailsOnDelivery(pre, device, now, e)))
    ensures var first := FirstDispatchable(pre, device, now, candidates[..|candidates| - 1]);
            first.None? ==> !Restored(pre, device, now, candidates, e)
  {
    var init, last := candidates[..|candidates| - 1], candidates[|candidates| - 1];
    assert candidates == init + [last];
    FirstDispatchableIsDispatchable(pre, device, now, init);
    var first := FirstDispatchable(pre, device, now, init);
    if first.Some? {
      var k :| 0 <= k < |init| && init[k] == first.value;
      if Restored(pre, device, now, init, e) {
        var i, j :| 0 <= i < j < |init| && Some(init[i]) == first && init[j] == e;
        assert candidates[i] == init[i] && candidates[j] == init[j];
      }
      if last == e && FailsOnDelivery(pre, device, now, e) {
        assert candidates[k] == first.value && candidates[|init|] == e;
      }
    } else if Restored(pre, device, now, candidates, e) {
      var i, j :| 0 <= i < j < |candidates| && Some(candidates[i]) == FirstDispatchable(pre, device, now, candidates) && candidates[j] == e;
      FirstDispatchableIsDispatchable(pre, device, now, candidates);
      assert false;
    }
  }

  /** After a delivery that hands another enrollment the row of `e`, the row names that one, unless `e` has taken it back. */
  lemma {:induction false} StolenRow(pre: Cloud, device: string, now: int, candidates: seq<CommandId>, key: string, e: CommandId)
    requires Owner(pre, key) == Some(e) && Steals(pre, device, now, candidates, key, e)
    ensures var rows := Deliver(pre, device, now, candidates).cloud.rows;
            && key in rows
            && rows[key].commandId == if Restored(pre, device, now, candidates, e) then Some(e) else FirstDispatchable(pre, device, now, candidates)
  {
    var init, c := candidates[..|candidates| - 1], candidates[|candidates| - 1];
    var d := Deliver(pre, device, now, init);
    DeliverOneRow(pre, d, device, now, c, key);
    DeliveryCommands(pre, device, now, init);
    RestoredLast(pre, device, now, candidates, e);
    if FirstDispatchable(pre, device, now, init).Some? {
      StolenRow(pre, device, now, init, key, e);
    }
  }

  /** When does a delivery leave a row with its enrollment? Exactly when its first dispatchable candidate is not another enrollment
      of the same employee number, or the owner fails after it in the same delivery. */
  lemma RowKeptExactly(pre: Cloud, device: string, now: int, candidates: seq<CommandId>, key: string)
    requires Owner(pre, key).Some? && Shows(pre, key, Owner(pre, key).value)
    ensures Owner(Deliver(pre, device, now, candidates).cloud, key) == Owner(pre, key)
            <==> var e := Owner(pre, key).value;
                 Steals(pre, device, now, candidates, key, e) ==> Restored(pre, device, now, candidates, e)
  {
    var e := Owner(pre, key).value;
    var first := FirstDispatchable(pre, device, now, candidates);
    var post := Deliver(pre, device, now, candidates).cloud;
    DeliveryCommands(pre, device, now, candidates);
    assert DeliveredCommand(pre, post, device, now, candidates, first, e);
    if Steals(pre, device, now, candidates, key, e) {
      StolenRow(pre, device, now, candidates, key, e);
    } else {
      DeliveryKeepsOwner(pre, device, now, candidates, key, e);
    }
  }

  lemma {:induction false} DeliveryTakesNoRow(pre: Cloud, device: string, now: int, candidates: seq<CommandId>, key: string)
    requires Owner(pre, key).None?
    requires var first := FirstDispatchable(pre, device, now, candidates);
             first.Some? && first.value in pre.commands && pre.commands[first.value].kind.EnrollFingerprint? ==>
               pre.commands[first.value].employeeNo != Some(key)
    ensures
      var post := Deliver(pre, device, now, candidates).cloud;
      key in post.rows && post.rows[key].commandId.Some? ==>
        key in pre.rows && pre.rows[key].commandId == post.rows[key].commandId
  {
    if candidates != [] {
      var init, c := candidates[..|candidates| - 1], candidates[|candidates| - 1];
      assert candidates == init + [c];
      FirstDispatchableIsDispatchable(pre, device, now, candidates);
      DeliveryTakesNoRow(pre, device, now, init, key);
      DeliveryCommands(pre, device, now, init);
      DeliverOneRow(pre, Deliver(pre, device, now, init), device, now, c, key);
    }
  }

  /** The delivery hands out no finished command, and no enrollment for a row that belongs to another. */
  ghost predicate Harmless(pre: Cloud, device: string, now: int, candidates: seq<CommandId>) {
    && (var first := FirstDispatchable(pre, device, now, candidates); first.Some? ==> !Finished(pre, first.value))
    && forall key :: Owner(pre, key).Some? ==> !Steals(pre, device, now, candidates, key, Owner(pre, key).value)
  }

  lemma RowsAfterDelivery(pre: Cloud, device: string, now: int, candidates: seq<CommandId>)
    requires RowsOk(pre, device) && Harmless(pre, device, now, candidates)
    ensures RowsOk(Deliver(pre, device, now, candidates).cloud, device)
    ensures forall key :: Owner(Deliver(pre, device, now, candidates).cloud, key) == Owner(pre, key)
  {
    var post := Deliver(pre, device, now, candidates).cloud;
    DeliveryCommands(pre, device, now, candidates);
    FirstDispatchableIsDispatchable(pre, device, now, candidates);
    var first := FirstDispatchable(pre, device, now, candidates);
    forall id | id in pre.commands
      ensures SameRequest(pre.commands[id], post.commands[id]) && (Terminal(pre.commands[id]) ==> Terminal(post.commands[id]))
    {
      assert DeliveredCommand(pre, post, device, now, candidates, first, id);
    }
    assert first.Some? && pre.commands[first.value].kind.EnrollFingerprint? ==> OpenEnrollment(pre, first.value);
    forall key ensures Owner(post, key) == Owner(pre, key) && RowOk(post, device, key) {
      assert RowOk(pre, device, key);
      if Owner(pre, key).Some? {
        DeliveryKeepsOwner(pre, device, now, candidates, key, Owner(pre, key).value);
      } else {
        DeliveryTakesNoRow(pre, device, now, candidates, key);
      }
    }
    assert forall c :: OpenEnrollment(post, c) ==> OpenEnrollment(pre, c);
  }

  /** A timely delivery of open candidates is harmless: an older enrollment of the row has expired by then. */
  lemma TimelyIsHarmless(pre: Cloud, device: string, now: int, candidates: seq<CommandId>)
    requires RowsOk(pre, device) && Timely(pre, now)
    requires forall id :: id in candidates ==> Open(pre, id)
    ensures Harmless(pre, device, now, candidates)
  {
    FirstDispatchableIsDispatchable(pre, device, now, candidates);
    var first := FirstDispatchable(pre, device, now, candidates);
    forall key | Owner(pre, key).Some? ensures !Steals(pre, device, now, candidates, key, Owner(pre, key).value) {
      assert RowOk(pre, device, key);
      assert first.Some? && pre.commands[first.value].kind.EnrollFingerprint? ==> OpenEnrollment(pre, first.value);
    }
  }

  // ----- Creation -----

  lemma RowsAfterEnroll(s: State, step: Step)
    requires RowsOk(s.cloud, s.device) && Locked(s.cloud, s.clock) && step.Enroll? && Can(s, step)
    ensures RowsOk(Next(s, step).cloud, s.device)
    ensures forall key :: Owner(Next(s, step).cloud, key) ==
              if key == s.cloud.employees[step.employeeId].code then Some(step.id) else Owner(s.cloud, key)
  {
    var pre, post := s.cloud, Next(s, step).cloud;
    var code := pre.employees[step.employeeId].code;
    forall key ensures Owner(post, key) == (if key == code then Some(step.id) else Owner(pre, key)) && RowOk(post, s.device, key) {
      assert RowOk(pre, s.device, key);
      forall c | OpenEnrollment(post, c) && c != step.id ensures OpenEnrollment(pre, c) && Expired(pre.commands[c], s.clock) {
        assert OpenEnrollment(pre, c);
        assert Active(pre, s.clock, c) ==> LockNames(pre, c);
      }
    }
    forall c | OpenEnrollment(post, c)
      ensures post.commands[c].employeeNo.Some? && Owner(post, post.commands[c].employeeNo.value).Some?
    {
      assert c != step.id ==> OpenEnrollment(pre, c);
    }
  }

  lemma RowsAfterHire(s: State, step: Step)
    requires RowsOk(s.cloud, s.device) && step.Hire? && Can(s, step)
    ensures RowsOk(Next(s, step).cloud, s.device)
    ensures forall key :: Owner(Next(s, step).cloud, key) == Owner(s.cloud, key)
  {
    var pre, post := s.cloud, Next(s, step).cloud;
    forall key ensures Owner(post, key) == Owner(pre, key) && RowOk(post, s.device, key) {
      assert RowOk(pre, s.device, key);
      assert forall c :: OpenEnrollment(post, c) ==> OpenEnrollment(pre, c);
    }
    forall c | OpenEnrollment(post, c)
      ensures post.commands[c].employeeNo.Some? && Owner(post, post.commands[c].employeeNo.value).Some?
    {
      assert OpenEnrollment(pre, c);
    }
  }

  // ----- Whole runs -----

  lemma GenuineStep(s: State, step: Step)
    requires AllGenuine(s) && Can(s, step)
    ensures AllGenuine(Next(s, step))
  {
    match step
    case CompleteReported(i) =>
      assert ExchangeGenuine(s.cloud, s.exchanges[i]);
      ResultsComplete(s.cloud, s.device, s.exchanges[i].at, s.exchanges[i].results);
      GenuineKept(s, Next(s, step).cloud);
    case DeliverSelected(i) =>
      GenuineDelivery(s, i);
    case Enroll(_, _, _) => GenuineKept(s, Next(s, step).cloud);
    case Hire(_, _, _, _) => GenuineKept(s, Next(s, step).cloud);
    case Local(act) => GenuineLocal(s, act);
    case Send(_) => GenuineSend(s, step);
    case _ =>
  }

  lemma GenuineSend(s: State, step: Step)
    requires AllGenuine(s) && step.Send? && Can(s, step)
    ensures AllGenuine(Next(s, step))
  {
    var s' := Next(s, step);
    var x := s'.exchanges[|s.exchanges|];
    forall r | r in x.results ensures Genuine(s.cloud, r.commandId) {
      var k :| 0 <= k < |x.results| && x.results[k] == r;
      assert step.reported[k] in step.reported;
      assert r == s.bridge.receipts[step.reported[k]];
    }
  }

  lemma GenuineKept(s: State, cloud: Cloud)
    requires AllGenuine(s)
    requires forall id :: Genuine(s.cloud, id) ==> Genuine(cloud, id)
    ensures AllGenuine(s.(cloud := cloud))
  {
    forall i | 0 <= i < |s.exchanges| ensures ExchangeGenuine(cloud, s.exchanges[i]) {
      assert ExchangeGenuine(s.cloud, s.exchanges[i]);
    }
  }

  lemma GenuineDelivery(s: State, i: nat)
    requires AllGenuine(s) && Can(s, DeliverSelected(i))
    ensures AllGenuine(Next(s, DeliverSelected(i)))
  {
    var x := s.exchanges[i];
    var d := Deliver(s.cloud, s.device, x.at, x.stage.candidates);
    var first := FirstDispatchable(s.cloud, s.device, x.at, x.stage.candidates);
    DeliveryCommands(s.cloud, s.device, x.at, x.stage.candidates);
    FirstDispatchableIsDispatchable(s.cloud, s.device, x.at, x.stage.candidates);
    forall id | Genuine(s.cloud, id) ensures Genuine(d.cloud, id) {
      assert DeliveredCommand(s.cloud, d.cloud, s.device, x.at, x.stage.candidates, first, id);
    }
    GenuineKept(s, d.cloud);
    assert ExchangeGenuine(s.cloud, x);
  }

  lemma GenuineLocal(s: State, act: Act)
    requires AllGenuine(s) && CanAct(s.bridge, act)
    ensures AllGenuine(Next(s, Local(act)))
  {
    match act
    case SkipKnown => assert forall id :: id in s.bridge.phase.todo[1..] ==> id in s.bridge.phase.todo;
    case WriteReceipt =>
      assert s.bridge.phase.todo[0] in s.bridge.phase.todo;
      assert forall id :: id in s.bridge.phase.todo[1..] ==> id in s.bridge.phase.todo;
    case _ =>
  }

  lemma RowsStep(s: State, step: Step)
    requires Locked(s.cloud, s.clock) && AllGenuine(s) && RowsOk(s.cloud, s.device) && Can(s, step)
    requires HarmlessStep(s, step)
    ensures RowsOk(Next(s, step).cloud, s.device)
    ensures forall key :: Owner(Next(s, step).cloud, key) ==
              if step.Enroll? && key == s.cloud.employees[step.employeeId].code then Some(step.id) else Owner(s.cloud, key)
  {
    match step
    case CompleteReported(i) =>
      assert ExchangeGenuine(s.cloud, s.exchanges[i]);
      RowsAfterResults(s.cloud, s.device, s.exchanges[i].at, s.exchanges[i].results);
    case DeliverSelected(i) => RowsAfterDelivery(s.cloud, s.device, s.exchanges[i].at, s.exchanges[i].stage.candidates);
    case Enroll(_, _, _) => RowsAfterEnroll(s, step);
    case Hire(_, _, _, _) => RowsAfterHire(s, step);
    case _ =>
  }

  ghost predicate HarmlessStep(s: State, step: Step) {
    step.DeliverSelected? && Can(s, step) ==>
      Harmless(s.cloud, s.device, s.exchanges[step.i].at, s.exchanges[step.i].stage.candidates)
  }

  ghost predicate HarmlessUntil(states: seq<State>, steps: seq<Step>, n: nat)
    requires |states| == |steps| + 1 && n <= |steps|
  {
    forall i :: 0 <= i < n ==> HarmlessStep(states[i], steps[i])
  }

  lemma {:induction false} RunRows(states: seq<State>, steps: seq<Step>, n: nat)
    requires IsRun(states, steps) && n <= |steps| && HarmlessUntil(states, steps, n)
    ensures AllGenuine(states[n]) && RowsOk(states[n].cloud, states[n].device) && Locked(states[n].cloud, states[n].clock)
    ensures states[n].device == states[0].device
  {
    if n > 0 {
      RunRows(states, steps, n - 1);
      var s, step := states[n - 1], steps[n - 1];
      assert HarmlessStep(s, step);
      assert !Revives(s, step);
      LockedStep(s, step);
      GenuineStep(s, step);
      RowsStep(s, step);
    }
  }

  /** Between two states of a run, a row that belongs to an enrollment shows that command's state, and it changes hands only by the
      queueing of another enrollment for its employee number. */
  ghost predicate FollowsItsEnrollment(before: State, step: Step, after: State, key: string) {
    Owner(before.cloud, key).Some? ==>
      var e := Owner(before.cloud, key).value;
      && Shows(before.cloud, key, e)
      && (Owner(after.cloud, key) == Some(e) ||
          (step.Enroll? && step.employeeId in before.cloud.employees && before.cloud.employees[step.employeeId].code == key &&
           Owner(after.cloud, key) == Some(step.id)))
      && Shows(after.cloud, key, Owner(after.cloud, key).value)
  }

  /** Ownership: in a run, exchanges overlapping or not, whose deliveries are harmless. */
  lemma RowFollowsItsEnrollment(states: seq<State>, steps: seq<Step>, n: nat, key: string)
    requires IsRun(states, steps) && n < |steps| && HarmlessUntil(states, steps, n + 1)
    ensures FollowsItsEnrollment(states[n], steps[n], states[n + 1], key)
  {
    RunRows(states, steps, n);
    assert HarmlessStep(states[n], steps[n]);
    RowsStep(states[n], steps[n]);
    assert RowOk(states[n].cloud, states[n].device, key);
    assert RowOk(states[n + 1].cloud, states[n].device, key);
  }

  /** Every delivery transaction of the run is timely. */
  ghost predicate TimelyRun(states: seq<State>, steps: seq<Step>)
    requires IsRun(states, steps)
  {
    forall n :: 0 <= n < |steps| && steps[n].DeliverSelected? && steps[n].i < |states[n].exchanges| ==>
      Timely(states[n].cloud, states[n].exchanges[steps[n].i].at)
  }

  lemma {:induction false} TimelyRunHarmless(states: seq<State>, steps: seq<Step>, n: nat)
    requires IsRun(states, steps) && Serial(states, steps) && TimelyRun(states, steps) && n <= |steps|
    ensures HarmlessUntil(states, steps, n)
  {
    if n > 0 {
      TimelyRunHarmless(states, steps, n - 1);
      RunRows(states, steps, n - 1);
      RunAlone(states, steps, n - 1);
      var s, step := states[n - 1], steps[n - 1];
      if step.DeliverSelected? && Can(s, step) {
        TimelyIsHarmless(s.cloud, s.device, s.exchanges[step.i].at, s.exchanges[step.i].stage.candidates);
      }
    }
  }

  /** In particular with serial exchanges and timely deliveries. */
  lemma RowFollowsItsEnrollmentTimely(states: seq<State>, steps: seq<Step>, n: nat, key: string)
    requires IsRun(states, steps) && Serial(states, steps) && TimelyRun(states, steps) && n < |steps|
    ensures FollowsItsEnrollment(states[n], steps[n], states[n + 1], key)
  {
    TimelyRunHarmless(states, steps, n + 1);
    RowFollowsItsEnrollment(states, steps, n, key);
  }
}
