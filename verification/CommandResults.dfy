/** What reported results and deliveries leave in the command documents and in the rows shown to the operator, said of the documents
    before and after alone. */
module CommandResults {
  import opened Base
  import opened Commands

  /** No later result of the list is about the same command. */
  ghost predicate Last(rs: seq<CommandResult>, k: nat) {
    k < |rs| && forall j :: k < j < |rs| ==> rs[j].commandId != rs[k].commandId
  }

  /** A result for an open command of the device that names an employee. */
  predicate Concerns(pre: Cloud, device: string, r: CommandResult, key: string) {
    Owned(pre, device, r.commandId) && !Terminal(pre.commands[r.commandId]) &&
    pre.commands[r.commandId].employeeId.Some? && pre.commands[r.commandId].employeeNo == Some(key)
  }

  /** Every reported, owned, open command succeeds if and only if its result did, with the result's code, and is otherwise as it was;
      the last result counts if several name it. */
  lemma {:induction false} ResultsDecide(pre: Cloud, device: string, now: int, rs: seq<CommandResult>, k: nat)
    requires Last(rs, k) && Owned(pre, device, rs[k].commandId) && !Terminal(pre.commands[rs[k].commandId])
    ensures var post := ApplyResults(pre, device, now, rs);
            var id := rs[k].commandId;
            && id in post.commands
            && (post.commands[id].state == Succeeded <==> rs[k].succeeded)
            && (post.commands[id].state == Failed <==> !rs[k].succeeded)
            && post.commands[id].resultCode == rs[k].code
            && post.commands[id] == pre.commands[id].(state := post.commands[id].state, resultCode := post.commands[id].resultCode)
  {
    var init := rs[..|rs| - 1];
    if k < |init| {
      assert init[k] == rs[k] && forall j :: k < j < |init| ==> init[j] == rs[j];
      ResultsDecide(pre, device, now, init, k);
      assert rs[|rs| - 1].commandId != rs[k].commandId;
    }
  }

  // ----- Rows after results -----

  /** The row holds another command's fingerprint state, which the synchronization of a user must not hide. */
  predicate OthersFingerprint(rows: map<string, Row>, key: string, id: CommandId) {
    OthersRow(rows, key, id) &&
    match rows[key].state
    case Some(RowQueued) => true
    case Some(Capturing) => true
    case Some(Enrolled) => true
    case Some(RowFailed) => rows[key].fingerPrintId.Some?
    case _ => false
  }

  predicate OthersRow(rows: map<string, Row>, key: string, id: CommandId) {
    key in rows && rows[key].commandId != Some(id)
  }

  /** What the result writes to the row that the results before it left, `before`. */
  predicate RowWritten(c: Command, r: CommandResult, now: int, before: Row, after: Row) {
    && after.state == (if !r.succeeded then Some(RowFailed) else if c.kind == EnrollFingerprint then Some(Enrolled) else Some(UserSynced))
    && after.commandId == Some(r.commandId)
    && (r.succeeded ==> after.lastError == None)
    && (!r.succeeded && r.message.Some? ==> after.lastError == r.message)
    && (!r.succeeded && r.message.None? && r.code.Some? ==> after.lastError == r.code)
    && (!r.succeeded && r.message.None? && r.code.None? ==> after.lastError == Some("Device command failed"))
    && after.userSyncedAt == (if c.kind == UpsertUser && r.succeeded then Some(now) else before.userSyncedAt)
    && (!(c.kind == EnrollFingerprint && r.succeeded) ==> after.fingerPrintId == before.fingerPrintId)
    && (c.kind == EnrollFingerprint && r.succeeded ==>
          && after.fingerPrintId.Some?
          && (r.fingerPrintId.Some? ==> after.fingerPrintId == r.fingerPrintId)
          && (r.fingerPrintId.None? && c.fingerPrintId.Some? ==> after.fingerPrintId == c.fingerPrintId)
          && (r.fingerPrintId.None? && c.fingerPrintId.None? ==> after.fingerPrintId == Some(1)))
    && after.lastUserSyncError == before.lastUserSyncError
  }

  /** The user was synchronized, or not, while the row keeps showing the other command. */
  predicate SyncNoted(r: CommandResult, now: int, before: Row, after: Row) {
    && after.state == before.state && after.commandId == before.commandId && after.lastError == before.lastError
    && after.fingerPrintId == before.fingerPrintId
    && (r.succeeded ==> after.userSyncedAt == Some(now) && after.lastUserSyncError == None)
    && (!r.succeeded ==> after.userSyncedAt == before.userSyncedAt && after.lastUserSyncError.Some?)
    && (!r.succeeded && r.message.Some? ==> after.lastUserSyncError == r.message)
    && (!r.succeeded && r.message.None? && r.code.Some? ==> after.lastUserSyncError == r.code)
  }

  /** What one result does to the row of its employee number. */
  ghost predicate RowShown(pre: Cloud, before: map<string, Row>, after: map<string, Row>, key: string, r: CommandResult, now: int)
    requires r.commandId in pre.commands
  {
    var c, id := pre.commands[r.commandId], r.commandId;
    if c.kind == EnrollFingerprint && OthersRow(pre.rows, key, id) then
      (key in after <==> key in before) && (key in before ==> after[key] == before[key])
    else
      && key in after
      && if c.kind == UpsertUser && OthersFingerprint(pre.rows, key, id) then SyncNoted(r, now, RowOrBlank(before, key), after[key])
         else RowWritten(c, r, now, RowOrBlank(before, key), after[key])
  }

  lemma OneRow(pre: Cloud, post: Cloud, device: string, now: int, r: CommandResult, key: string)
    ensures var rows := ApplyResult(pre, post, device, now, r).rows;
            if Concerns(pre, device, r, key) then RowShown(pre, post.rows, rows, key, r, now)
            else (key in rows <==> key in post.rows) && (key in rows ==> rows[key] == post.rows[key])
  {
  }

  /** After all results the row of an employee number is as the last result about it left it: it shows that result, unless the row
      was another command's, in which case a result about a user is noted beside it if it shows a fingerprint, and a result about a
      fingerprint is not shown at all. A row that no result is about is as it was. */
  lemma {:induction false} RowsAfterAllResults(pre: Cloud, device: string, now: int, rs: seq<CommandResult>, k: nat, key: string)
    requires k <= |rs| && forall j :: k <= j < |rs| ==> !Concerns(pre, device, rs[j], key)
    requires k > 0 ==> Concerns(pre, device, rs[k - 1], key)
    ensures var rows := ApplyResults(pre, device, now, rs).rows;
            if k > 0 then RowShown(pre, ApplyResults(pre, device, now, rs[..k - 1]).rows, rows, key, rs[k - 1], now)
            else (key in rows <==> key in pre.rows) && (key in rows ==> rows[key] == pre.rows[key])
  {
    if rs != [] {
      var init, last := rs[..|rs| - 1], rs[|rs| - 1];
      OneRow(pre, ApplyResults(pre, device, now, init), device, now, last, key);
      if k <= |init| {
        assert forall j :: 0 <= j < |init| ==> init[j] == rs[j];
        RowsAfterAllResults(pre, device, now, init, k, key);
        assert k > 0 ==> init[..k - 1] == rs[..k - 1];
      }
    }
  }

  // ----- Rows after a delivery -----

  /** The row's own command is a candidate that the delivery fails. */
  predicate OwnerFails(pre: Cloud, device: string, now: int, candidates: seq<CommandId>, key: string) {
    key in pre.rows && pre.rows[key].commandId.Some? && pre.rows[key].commandId.value in candidates &&
    OwnFails(pre, device, now, pre.rows[key].commandId.value, key)
  }

  /** The delivery hands out an enrollment for the row. */
  predicate EnrollsHere(pre: Cloud, device: string, now: int, candidates: seq<CommandId>, key: string) {
    var first := FirstDispatchable(pre, device, now, candidates);
    first.Some? && Enrolls(pre, device, now, first.value, key)
  }

  function FailureMessage(c: Command, now: int): string {
    if c.expiresAt.None? || c.expiresAt.value <= now then "Command expired before delivery" else "Stored command is malformed"
  }

  predicate OwnFails(pre: Cloud, device: string, now: int, id: CommandId, key: string) {
    key in pre.rows && pre.rows[key].commandId == Some(id) && FailsOnDelivery(pre, device, now, id) && pre.commands[id].employeeNo == Some(key)
  }

  predicate Enrolls(pre: Cloud, device: string, now: int, id: CommandId, key: string) {
    Dispatchable(pre, device, now, id) && pre.commands[id].kind.EnrollFingerprint? && pre.commands[id].employeeNo == Some(key)
  }

  lemma OneFailed(pre: Cloud, d: Delivery, device: string, now: int, id: CommandId, key: string)
    requires FailsOnDelivery(pre, device, now, id)
    ensures var rows, row := DeliverOne(pre, d, device, now, id).cloud.rows, RowOrBlank(d.cloud.rows, key);
            if OwnFails(pre, device, now, id, key) then
              && key in rows
              && rows[key] == row.(state := Some(RowFailed), commandId := Some(id), lastError := Some(FailureMessage(pre.commands[id], now)))
            else (key in rows <==> key in d.cloud.rows) && (key in rows ==> rows[key] == d.cloud.rows[key])
  {
  }

  lemma OneDelivered(pre: Cloud, d: Delivery, device: string, now: int, id: CommandId, key: string)
    ensures var d' := DeliverOne(pre, d, device, now, id);
            var rows, row := d'.cloud.rows, RowOrBlank(d.cloud.rows, key);
            if OwnFails(pre, device, now, id, key) then
              && key in rows
              && rows[key] == row.(state := Some(RowFailed), commandId := Some(id), lastError := Some(FailureMessage(pre.commands[id], now)))
            else if Enrolls(pre, device, now, id, key) && d.sent == [] then
              key in rows && rows[key] == row.(state := Some(Capturing), commandId := Some(id))
            else (key in rows <==> key in d.cloud.rows) && (key in rows ==> rows[key] == d.cloud.rows[key])
  {
    if FailsOnDelivery(pre, device, now, id) {
      OneFailed(pre, d, device, now, id, key);
    }
  }

  /** A delivery changes a row exactly if it fails the row's own command, which it then shows with the reason, or hands out an
      enrollment for it, which it then shows as being captured. */
  lemma {:induction false} RowsAfterOneDelivery(pre: Cloud, device: string, now: int, candidates: seq<CommandId>, key: string)
    ensures var rows := Deliver(pre, device, now, candidates).cloud.rows;
            var fails, enrolls := OwnerFails(pre, device, now, candidates, key), EnrollsHere(pre, device, now, candidates, key);
            var row := RowOrBlank(pre.rows, key);
            && (key in rows <==> key in pre.rows || enrolls)
            && (!fails && !enrolls && key in rows ==> rows[key] == row)
            && (fails && !enrolls ==>
                  rows[key] == row.(state := Some(RowFailed), lastError := Some(FailureMessage(pre.commands[row.commandId.value], now))))
            && (!fails && enrolls ==>
                  rows[key] == row.(state := Some(Capturing), commandId := FirstDispatchable(pre, device, now, candidates)))
  {
    if candidates != [] {
      var init, last := candidates[..|candidates| - 1], candidates[|candidates| - 1];
      assert candidates == init + [last];
      RowsAfterOneDelivery(pre, device, now, init, key);
      OneDelivered(pre, Deliver(pre, device, now, init), device, now, last, key);
      DeliveryCommands(pre, device, now, init);
      FirstDispatchableIsDispatchable(pre, device, now, init);
    }
  }

  // ----- How long a command can be handed out -----

  /** What the bridge needs in a command: a kind it knows, an employee, the time it was issued, and for a fingerprint a finger. */
  predicate Complete(c: Command) {
    && (c.kind == UpsertUser || (c.kind == EnrollFingerprint && c.fingerPrintId.Some? && 1 <= c.fingerPrintId.value && c.fingerPrintId.value <= 10))
    && c.employeeId.Some? && c.employeeNo.Some? && c.name.Some? && c.createdAt.Some?
  }

  /** A delivery hands out complete commands of its device alone, before they expire, and not while another bridge exchange may still
      be working on them. */
  lemma HandedOut(pre: Cloud, device: string, now: int, candidates: seq<CommandId>)
    ensures var first := FirstDispatchable(pre, device, now, candidates);
            first.Some? ==>
              && first.value in pre.commands && pre.commands[first.value].deviceId == device && Complete(pre.commands[first.value])
              && pre.commands[first.value].expiresAt.Some? && now < pre.commands[first.value].expiresAt.value
              && (pre.commands[first.value].state == Dispatched && pre.commands[first.value].leaseUntil.Some? ==>
                    pre.commands[first.value].leaseUntil.value <= now)
    ensures FirstDispatchable(pre, device, now, candidates).None? ==>
              forall id :: id in candidates && id in pre.commands && pre.commands[id].deviceId == device && Complete(pre.commands[id]) &&
                           pre.commands[id].expiresAt.Some? && now < pre.commands[id].expiresAt.value ==>
                pre.commands[id].state == Dispatched && pre.commands[id].leaseUntil.Some? && now < pre.commands[id].leaseUntil.value
  {
    FirstDispatchableIsDispatchable(pre, device, now, candidates);
  }

  /** An enrollment is queued for a finger from one to ten of a known, active employee whose code the terminals can hold, while no
      unexpired lock is held. */
  lemma EnrollmentGranted(s: Cloud, employeeId: string, fingerPrintId: int, id: CommandId, now: int)
    requires id !in s.commands
    ensures CanQueueEnrollment(s, employeeId, fingerPrintId, id, now) <==>
            && 1 <= fingerPrintId && fingerPrintId <= 10
            && employeeId in s.employees && s.employees[employeeId].active && TerminalCode(s.employees[employeeId].code)
            && !(s.lock.Some? && now < s.lock.value.expiresAt)
  {
  }

  /** Letters, digits, dots, underscores and hyphens, at most 32, the first a letter or digit. */
  predicate TerminalCode(code: string) {
    && 0 < |code| && |code| < 33
    && code[0] != '.' && code[0] != '_' && code[0] != '-'
    && forall i :: 0 <= i < |code| ==>
         'a' <= code[i] <= 'z' || 'A' <= code[i] <= 'Z' || '0' <= code[i] <= '9' || code[i] == '.' || code[i] == '_' || code[i] == '-'
  }

  /** An employee is created with such a code, if nothing is registered under it in lower case. */
  lemma EmployeeGranted(s: Cloud, employeeId: string, code: string, id: CommandId)
    requires id !in s.commands && employeeId !in s.employees
    ensures CanCreateEmployee(s, employeeId, code, id) <==> TerminalCode(code) && LowerCase(code) !in s.registry
  {
  }

  /** A queued enrollment can be handed out for five minutes, and takes the lock for as long. */
  lemma QueuedLife(s: Cloud, device: string, employeeId: string, fingerPrintId: int, id: CommandId, now: int, at: int)
    requires CanQueueEnrollment(s, employeeId, fingerPrintId, id, now)
    ensures var post := QueueEnrollment(s, device, employeeId, fingerPrintId, id, now);
            && FirstDispatchable(post, device, at, [id]) == (if at < now + 300_000 then Some(id) else None)
            && post.lock == Some(Lock(id, now + 300_000))
            && post.commands[id].kind == EnrollFingerprint && post.commands[id].deviceId == device && post.commands[id].state == Queued
            && post.commands[id].employeeNo == Some(s.employees[employeeId].code)
  {
    assert [id][..0] == [];
    assert FirstDispatchable(QueueEnrollment(s, device, employeeId, fingerPrintId, id, now), device, at, []) == None;
  }

  /** A queued user can be handed out for a day. */
  lemma HiredLife(s: Cloud, device: string, employeeId: string, code: string, name: string, id: CommandId, now: int, at: int)
    requires CanCreateEmployee(s, employeeId, code, id)
    ensures var post := CreateEmployee(s, device, employeeId, code, name, id, now);
            && FirstDispatchable(post, device, at, [id]) == (if at < now + 86_400_000 then Some(id) else None)
            && post.commands[id].kind == UpsertUser && post.commands[id].deviceId == device && post.commands[id].state == Queued
            && post.employees[employeeId] == Employee(code, name, true) && post.commands[id].employeeNo == Some(code)
            && code in post.rows && post.rows[code].state == Some(UserPending) && post.rows[code].commandId == Some(id)
  {
    assert [id][..0] == [];
    assert FirstDispatchable(CreateEmployee(s, device, employeeId, code, name, id, now), device, at, []) == None;
  }

  /** A command that was handed out can be handed out again two minutes later and not before, if it has not expired. */
  lemma LeasedLife(pre: Cloud, device: string, now: int, candidates: seq<CommandId>, id: CommandId, at: int)
    requires FirstDispatchable(pre, device, now, candidates) == Some(id)
    ensures var post := Deliver(pre, device, now, candidates).cloud;
            FirstDispatchable(post, device, at, [id]) ==
            if now + 120_000 <= at && id in post.commands && post.commands[id].expiresAt.Some? && at < post.commands[id].expiresAt.value
            then Some(id) else None
  {
    FirstDispatchableIsDispatchable(pre, device, now, candidates);
    DeliveryCommands(pre, device, now, candidates);
    var post := Deliver(pre, device, now, candidates).cloud;
    assert DeliveredCommand(pre, post, device, now, candidates, Some(id), id);
    assert [id][..0] == [];
    assert FirstDispatchable(post, device, at, []) == None;
  }
}
