/** The command, lock and enrollment documents of one device, and the transactions
    that write them. A Firestore transaction reads a snapshot first and buffers its
    writes, so every function below takes `pre`, the documents as they were read,
    and `post`, the documents as written so far. */
module Commands {
  import opened Base

  type CommandId = string

  datatype Kind = UpsertUser | EnrollFingerprint | OtherKind

  datatype CommandState = Queued | Dispatched | Succeeded | Failed

  /** A field that may be missing or of the wrong type in the stored document is an Option. */
  datatype Command = Command(
    deviceId: string,
    kind: Kind,
    state: CommandState,
    employeeId: Option<string>,
    employeeNo: Option<string>,
    name: Option<string>,
    fingerPrintId: Option<int>,
    createdAt: Option<int>,
    expiresAt: Option<int>,
    leaseUntil: Option<int>,
    attempts: nat,
    resultCode: Option<string>)

  datatype Lock = Lock(commandId: CommandId, expiresAt: int)

  datatype RowState = UserPending | UserSynced | RowQueued | Capturing | Enrolled | RowFailed

  /** One `deviceEnrollments` document. Its key is a hash of device and employee number;
      for one device that is the employee number. */
  datatype Row = Row(
    state: Option<RowState>,
    commandId: Option<CommandId>,
    fingerPrintId: Option<int>,
    lastError: Option<string>,
    lastUserSyncError: Option<string>,
    userSyncedAt: Option<int>)

  const BLANK_ROW := Row(None, None, None, None, None, None)

  datatype Employee = Employee(code: string, name: string, active: bool)

  datatype Cloud = Cloud(
    commands: map<CommandId, Command>,
    lock: Option<Lock>,
    rows: map<string, Row>,
    employees: map<string, Employee>,
    registry: set<string>)

  datatype CommandResult = CommandResult(
    commandId: CommandId,
    succeeded: bool,
    code: Option<string>,
    message: Option<string>,
    fingerPrintId: Option<int>)

  const ENROLLMENT_LIFETIME := 5 * 60 * 1000
  const UPSERT_LIFETIME := 24 * 60 * 60 * 1000
  const LEASE := 2 * 60 * 1000

  predicate Terminal(c: Command) {
    c.state.Succeeded? || c.state.Failed?
  }

  predicate Names(lock: Option<Lock>, id: CommandId) {
    lock.Some? && lock.value.commandId == id
  }

  function RowOrBlank(rows: map<string, Row>, key: string): Row {
    if key in rows then rows[key] else BLANK_ROW
  }

  function FirstText(a: Option<string>, b: Option<string>, fallback: string): string {
    if a.Some? then a.value else if b.Some? then b.value else fallback
  }

  // ----- Results reported by the bridge -----

  /** The command exists and belongs to the authenticated device: its result is acknowledged. */
  predicate Owned(pre: Cloud, device: string, id: CommandId) {
    id in pre.commands && pre.commands[id].deviceId == device
  }

  /** The row shows the fingerprint state of another command, which this result must not disturb. */
  predicate KeepsFingerprintState(rows: map<string, Row>, key: string, c: Command, id: CommandId) {
    key in rows && rows[key].commandId != Some(id) &&
    (c.kind.EnrollFingerprint? ||
     (c.kind.UpsertUser? &&
      (rows[key].state in {Some(RowQueued), Some(Capturing), Some(Enrolled)} ||
       (rows[key].state == Some(RowFailed) && rows[key].fingerPrintId.Some?))))
  }

  function RowAfterResult(pre: Cloud, row: Row, key: string, c: Command, r: CommandResult, now: int): Row {
    if KeepsFingerprintState(pre.rows, key, c, r.commandId) then
      if c.kind.UpsertUser? then
        row.(lastUserSyncError := if r.succeeded then None else Some(FirstText(r.message, r.code, "Device user sync failed")),
             userSyncedAt := if r.succeeded then Some(now) else row.userSyncedAt)
      else row
    else
      row.(state := Some(if !r.succeeded then RowFailed else if c.kind.EnrollFingerprint? then Enrolled else UserSynced),
           commandId := Some(r.commandId),
           lastError := if r.succeeded then None else Some(FirstText(r.message, r.code, "Device command failed")),
           userSyncedAt := if c.kind.UpsertUser? && r.succeeded then Some(now) else row.userSyncedAt,
           fingerPrintId :=
             if !c.kind.EnrollFingerprint? || !r.succeeded then row.fingerPrintId
             else if r.fingerPrintId.Some? then r.fingerPrintId
             else if c.fingerPrintId.Some? then c.fingerPrintId
             else Some(1))
  }

  function ApplyResult(pre: Cloud, post: Cloud, device: string, now: int, r: CommandResult): Cloud {
    var id := r.commandId;
    if !Owned(pre, device, id) || Terminal(pre.commands[id]) then post else
    var c := pre.commands[id];
    var writesRow := c.employeeId.Some? && c.employeeNo.Some? &&
                     (KeepsFingerprintState(pre.rows, c.employeeNo.value, c, id) ==> c.kind.UpsertUser?);
    post.(commands := post.commands[id := c.(state := if r.succeeded then Succeeded else Failed, resultCode := r.code)],
          lock := if c.kind.EnrollFingerprint? && Names(pre.lock, id) then None else post.lock,
          rows :=
            if writesRow then
              var key := c.employeeNo.value;
              post.rows[key := RowAfterResult(pre, RowOrBlank(post.rows, key), key, c, r, now)]
            else post.rows)
  }

  function ApplyResults(pre: Cloud, device: string, now: int, rs: seq<CommandResult>): Cloud {
    if rs == [] then pre
    else ApplyResult(pre, ApplyResults(pre, device, now, rs[..|rs| - 1]), device, now, rs[|rs| - 1])
  }

  function Acknowledged(pre: Cloud, device: string, rs: seq<CommandResult>): seq<CommandId> {
    if rs == [] then []
    else
      var before := Acknowledged(pre, device, rs[..|rs| - 1]);
      var id := rs[|rs| - 1].commandId;
      if Owned(pre, device, id) then before + [id] else before
  }

  // ----- Delivery of commands to the bridge -----

  predicate Expired(c: Command, now: int) {
    c.expiresAt.Some? ==> c.expiresAt.value <= now
  }

  predicate Leased(c: Command, now: int) {
    c.state.Dispatched? && c.leaseUntil.Some? && c.leaseUntil.value > now
  }

  predicate Malformed(c: Command) {
    c.kind.OtherKind? || c.employeeId.None? || c.employeeNo.None? || c.name.None? || c.createdAt.None? ||
    (c.kind.EnrollFingerprint? && (c.fingerPrintId.None? || !(1 <= c.fingerPrintId.value <= 10)))
  }

  /** The delivery transaction would hand this command out if none precedes it. */
  predicate Dispatchable(pre: Cloud, device: string, now: int, id: CommandId) {
    Owned(pre, device, id) &&
    var c := pre.commands[id];
    !Expired(c, now) && !Leased(c, now) && !Malformed(c)
  }

  predicate FailsOnDelivery(pre: Cloud, device: string, now: int, id: CommandId) {
    Owned(pre, device, id) &&
    var c := pre.commands[id];
    Expired(c, now) || (!Leased(c, now) && Malformed(c))
  }

  datatype Delivery = Delivery(cloud: Cloud, sent: seq<CommandId>)

  function FailUndelivered(pre: Cloud, post: Cloud, id: CommandId, c: Command, code: string, message: string): Cloud {
    post.(commands := post.commands[id := c.(state := Failed, resultCode := Some(code))],
          lock := if Names(pre.lock, id) then None else post.lock,
          rows :=
            if c.employeeNo.Some? && RowOrBlank(pre.rows, c.employeeNo.value).commandId == Some(id) then
              post.rows[c.employeeNo.value := RowOrBlank(post.rows, c.employeeNo.value).(
                state := Some(RowFailed), commandId := Some(id), lastError := Some(message))]
            else post.rows)
  }

  function Dispatch(post: Cloud, id: CommandId, c: Command, now: int): Cloud
    requires c.employeeNo.Some?
  {
    post.(commands := post.commands[id := c.(state := Dispatched, leaseUntil := Some(now + LEASE), attempts := c.attempts + 1)],
          rows :=
            if c.kind.EnrollFingerprint? then
              post.rows[c.employeeNo.value := RowOrBlank(post.rows, c.employeeNo.value).(
                state := Some(Capturing), commandId := Some(id))]
            else post.rows)
  }

  function DeliverOne(pre: Cloud, d: Delivery, device: string, now: int, id: CommandId): Delivery {
    if !Owned(pre, device, id) then d else
    var c := pre.commands[id];
    if Expired(c, now) then
      d.(cloud := FailUndelivered(pre, d.cloud, id, c, "expired", "Command expired before delivery"))
    else if Leased(c, now) then d
    else if Malformed(c) then
      d.(cloud := FailUndelivered(pre, d.cloud, id, c, "invalid_command", "Stored command is malformed"))
    else if |d.sent| >= 1 then d
    else Delivery(Dispatch(d.cloud, id, c, now), d.sent + [id])
  }

  function Deliver(pre: Cloud, device: string, now: int, candidates: seq<CommandId>): Delivery {
    if candidates == [] then Delivery(pre, [])
    else DeliverOne(pre, Deliver(pre, device, now, candidates[..|candidates| - 1]), device, now, candidates[|candidates| - 1])
  }

  // ----- Creation of commands -----

  function LowerCase(code: string): string {
    seq(|code|, i requires 0 <= i < |code| => if 'A' <= code[i] <= 'Z' then (code[i] as int + 32) as char else code[i])
  }

  predicate ValidCode(code: string) {
    1 <= |code| <= 32 && Alphanumeric(code[0]) &&
    forall i :: 0 <= i < |code| ==> Alphanumeric(code[i]) || code[i] in {'.', '_', '-'}
  }

  predicate Alphanumeric(c: char) {
    'A' <= c <= 'Z' || 'a' <= c <= 'z' || '0' <= c <= '9'
  }

  predicate LockFree(lock: Option<Lock>, now: int) {
    lock.Some? ==> lock.value.expiresAt <= now
  }

  predicate CanQueueEnrollment(s: Cloud, employeeId: string, fingerPrintId: int, id: CommandId, now: int) {
    id !in s.commands && 1 <= fingerPrintId <= 10 &&
    employeeId in s.employees && s.employees[employeeId].active && ValidCode(s.employees[employeeId].code) &&
    LockFree(s.lock, now)
  }

  function QueueEnrollment(s: Cloud, device: string, employeeId: string, fingerPrintId: int, id: CommandId, now: int): Cloud
    requires CanQueueEnrollment(s, employeeId, fingerPrintId, id, now)
  {
    var e := s.employees[employeeId];
    var expiresAt := now + ENROLLMENT_LIFETIME;
    s.(commands := s.commands[id := Command(device, EnrollFingerprint, Queued, Some(employeeId), Some(e.code), Some(e.name),
                                            Some(fingerPrintId), Some(now), Some(expiresAt), None, 0, None)],
       lock := Some(Lock(id, expiresAt)),
       rows := s.rows[e.code := RowOrBlank(s.rows, e.code).(
                 state := Some(RowQueued), commandId := Some(id), fingerPrintId := Some(fingerPrintId), lastError := None)])
  }

  predicate CanCreateEmployee(s: Cloud, employeeId: string, code: string, id: CommandId) {
    id !in s.commands && employeeId !in s.employees && ValidCode(code) && LowerCase(code) !in s.registry
  }

  function CreateEmployee(s: Cloud, device: string, employeeId: string, code: string, name: string, id: CommandId, now: int): Cloud
    requires CanCreateEmployee(s, employeeId, code, id)
  {
    s.(employees := s.employees[employeeId := Employee(code, name, true)],
       registry := s.registry + {LowerCase(code)},
       commands := s.commands[id := Command(device, UpsertUser, Queued, Some(employeeId), Some(code), Some(name),
                                            None, Some(now), Some(now + UPSERT_LIFETIME), None, 0, None)],
       rows := s.rows[code := RowOrBlank(s.rows, code).(
                 state := Some(UserPending), commandId := Some(id), lastError := None)])
  }

  // ----- What the transactions do, without naming their loops -----

  /** The part of a command that no transaction of an exchange rewrites. */
  predicate SameRequest(c: Command, d: Command) {
    d == c.(state := d.state, leaseUntil := d.leaseUntil, attempts := d.attempts, resultCode := d.resultCode)
  }

  predicate Reported(rs: seq<CommandResult>, id: CommandId) {
    exists r :: r in rs && r.commandId == id
  }

  /** The acknowledgements are exactly the reported commands this device owns. */
  lemma {:induction false} AcknowledgedExactly(pre: Cloud, device: string, rs: seq<CommandResult>)
    ensures forall id :: id in Acknowledged(pre, device, rs) <==> Reported(rs, id) && Owned(pre, device, id)
  {
    if rs != [] {
      var last := rs[|rs| - 1];
      assert rs == rs[..|rs| - 1] + [last];
      AcknowledgedExactly(pre, device, rs[..|rs| - 1]);
      forall id ensures Reported(rs, id) <==> Reported(rs[..|rs| - 1], id) || last.commandId == id {
        if Reported(rs[..|rs| - 1], id) {
          var r :| r in rs[..|rs| - 1] && r.commandId == id;
          assert r in rs;
        }
        if last.commandId == id {
          assert last in rs;
        }
      }
    }
  }

  /** A result transaction completes exactly the reported open commands of the device, touches no other
      command, and releases the fingerprint lock exactly when it completes the command the lock names. */
  lemma {:induction false} ResultsComplete(pre: Cloud, device: string, now: int, rs: seq<CommandResult>)
    ensures
      var post := ApplyResults(pre, device, now, rs);
      && post.commands.Keys == pre.commands.Keys
      && post.employees == pre.employees && post.registry == pre.registry
      && (forall id :: id in pre.commands ==>
            if Reported(rs, id) && Owned(pre, device, id) && !Terminal(pre.commands[id])
            then Terminal(post.commands[id]) && SameRequest(pre.commands[id], post.commands[id])
            else post.commands[id] == pre.commands[id])
      && post.lock ==
         (if pre.lock.Some? && Reported(rs, pre.lock.value.commandId) && Owned(pre, device, pre.lock.value.commandId) &&
             !Terminal(pre.commands[pre.lock.value.commandId]) && pre.commands[pre.lock.value.commandId].kind.EnrollFingerprint?
          then None else pre.lock)
  {
    if rs == [] {
      assert forall id :: !Reported(rs, id);
    } else {
      ResultsComplete(pre, device, now, rs[..|rs| - 1]);
      ReportedLast(rs);
    }
  }

  lemma ReportedLast(rs: seq<CommandResult>)
    requires rs != []
    ensures forall id :: Reported(rs, id) <==> Reported(rs[..|rs| - 1], id) || rs[|rs| - 1].commandId == id
  {
    var init, last := rs[..|rs| - 1], rs[|rs| - 1];
    assert rs == init + [last];
    forall id ensures Reported(rs, id) <==> Reported(init, id) || last.commandId == id {
      if Reported(init, id) {
        var r :| r in init && r.commandId == id;
        assert r in rs;
      }
      if last.commandId == id {
        assert last in rs;
      }
    }
  }

  /** The first candidate the delivery transaction would hand out. */
  function FirstDispatchable(pre: Cloud, device: string, now: int, candidates: seq<CommandId>): Option<CommandId> {
    if candidates == [] then None
    else
      var before := FirstDispatchable(pre, device, now, candidates[..|candidates| - 1]);
      var id := candidates[|candidates| - 1];
      if before.Some? then before
      else if Dispatchable(pre, device, now, id) then Some(id)
      else None
  }

  lemma {:induction false} FirstDispatchableIsDispatchable(pre: Cloud, device: string, now: int, candidates: seq<CommandId>)
    ensures
      var first := FirstDispatchable(pre, device, now, candidates);
      && (first.Some? ==> first.value in candidates && Dispatchable(pre, device, now, first.value))
      && (first.None? ==> forall id :: id in candidates ==> !Dispatchable(pre, device, now, id))
      && (first.Some? ==> exists k :: 0 <= k < |candidates| && candidates[k] == first.value &&
                                      forall j :: 0 <= j < k ==> !Dispatchable(pre, device, now, candidates[j]))
  {
    if candidates != [] {
      var init := candidates[..|candidates| - 1];
      assert candidates == init + [candidates[|candidates| - 1]];
      FirstDispatchableIsDispatchable(pre, device, now, init);
    }
  }

  /** The code with which a delivery fails a command. */
  function FailureCode(c: Command, now: int): string {
    if Expired(c, now) then "expired" else "invalid_command"
  }

  /** What one delivery transaction does to one command. */
  predicate DeliveredCommand(pre: Cloud, post: Cloud, device: string, now: int, candidates: seq<CommandId>,
                             first: Option<CommandId>, id: CommandId)
    requires id in pre.commands && id in post.commands
  {
    var c, c' := pre.commands[id], post.commands[id];
    if id in candidates && FailsOnDelivery(pre, device, now, id) then
      c' == c.(state := Failed, resultCode := Some(FailureCode(c, now)))
    else if first == Some(id) then
      c' == c.(state := Dispatched, leaseUntil := Some(now + LEASE), attempts := c.attempts + 1)
    else c' == c
  }

  lemma DeliverOneCommands(pre: Cloud, d: Delivery, device: string, now: int, id: CommandId)
    ensures
      var d' := DeliverOne(pre, d, device, now, id);
      && d'.cloud.employees == d.cloud.employees && d'.cloud.registry == d.cloud.registry
      && (if FailsOnDelivery(pre, device, now, id) then
            && d'.sent == d.sent
            && d'.cloud.commands ==
               d.cloud.commands[id := pre.commands[id].(state := Failed, resultCode := Some(FailureCode(pre.commands[id], now)))]
          else if Dispatchable(pre, device, now, id) && d.sent == [] then
            && d'.sent == [id]
            && d'.cloud.commands ==
               d.cloud.commands[id := pre.commands[id].(state := Dispatched, leaseUntil := Some(now + LEASE),
                                                        attempts := pre.commands[id].attempts + 1)]
          else d' == d)
  {
  }

  /** A delivery transaction hands out at most one command, the first dispatchable candidate; it fails
      exactly the expired and the malformed candidates. Nothing else about any command changes. */
  lemma {:induction false} DeliveryCommands(pre: Cloud, device: string, now: int, candidates: seq<CommandId>)
    ensures
      var d := Deliver(pre, device, now, candidates);
      var first := FirstDispatchable(pre, device, now, candidates);
      && d.sent == (if first.Some? then [first.value] else [])
      && d.cloud.commands.Keys == pre.commands.Keys
      && d.cloud.employees == pre.employees && d.cloud.registry == pre.registry
      && forall id :: id in pre.commands ==> DeliveredCommand(pre, d.cloud, device, now, candidates, first, id)
  {
    if candidates != [] {
      var init, last := candidates[..|candidates| - 1], candidates[|candidates| - 1];
      assert candidates == init + [last];
      DeliveryCommands(pre, device, now, init);
      FirstDispatchableIsDispatchable(pre, device, now, init);
      var d0 := Deliver(pre, device, now, init);
      DeliverOneCommands(pre, d0, device, now, last);
      var d := DeliverOne(pre, d0, device, now, last);
      assert d == Deliver(pre, device, now, candidates);
      assert d.cloud.commands.Keys == pre.commands.Keys;
      var first0, first := FirstDispatchable(pre, device, now, init), FirstDispatchable(pre, device, now, candidates);
      forall id | id in pre.commands ensures DeliveredCommand(pre, d.cloud, device, now, candidates, first, id) {
        assert DeliveredCommand(pre, d0.cloud, device, now, init, first0, id);
        assert id in candidates <==> id in init || id == last;
      }
    }
  }

  /** The lock is dropped exactly when the transaction fails the command the lock names. */
  lemma {:induction false} DeliveryLock(pre: Cloud, device: string, now: int, candidates: seq<CommandId>)
    ensures Deliver(pre, device, now, candidates).cloud.lock ==
            (if pre.lock.Some? && pre.lock.value.commandId in candidates && FailsOnDelivery(pre, device, now, pre.lock.value.commandId)
             then None else pre.lock)
  {
    if candidates != [] {
      var init := candidates[..|candidates| - 1];
      assert candidates == init + [candidates[|candidates| - 1]];
      DeliveryLock(pre, device, now, init);
    }
  }

  /** The delivery transaction does not re-read whether a candidate is still open. Exactly when does it leave every finished
      command as it is? When it would not hand out a finished one, and would fail none that is not failed so already. */
  lemma DeliveryKeepsOutcomes(pre: Cloud, device: string, now: int, candidates: seq<CommandId>)
    ensures
      var d := Deliver(pre, device, now, candidates);
      var first := FirstDispatchable(pre, device, now, candidates);
      (forall id :: id in pre.commands && Terminal(pre.commands[id]) ==>
         id in d.cloud.commands && d.cloud.commands[id] == pre.commands[id])
      <==>
      && !(first.Some? && first.value in pre.commands && Terminal(pre.commands[first.value]))
      && (forall id :: id in candidates && FailsOnDelivery(pre, device, now, id) && Terminal(pre.commands[id]) ==>
            pre.commands[id].state.Failed? && pre.commands[id].resultCode == Some(FailureCode(pre.commands[id], now)))
  {
    DeliveryCommands(pre, device, now, candidates);
    FirstDispatchableIsDispatchable(pre, device, now, candidates);
    var d := Deliver(pre, device, now, candidates);
    var first := FirstDispatchable(pre, device, now, candidates);
    assert first.Some? ==> DeliveredCommand(pre, d.cloud, device, now, candidates, first, first.value);
    assert forall id :: id in candidates && FailsOnDelivery(pre, device, now, id) ==>
             DeliveredCommand(pre, d.cloud, device, now, candidates, first, id);
    assert forall id :: id in pre.commands ==> DeliveredCommand(pre, d.cloud, device, now, candidates, first, id);
  }
}
