/** The repository object that runs the transactions of `Commands` against its documents.
    Each method first reads the documents it decides on and then writes in place. */
module CommandRepositories {
  import opened Base
  import opened Commands

  class CommandRepository {
    const device: string
    var commands: map<CommandId, Command>
    var lock: Option<Lock>
    var rows: map<string, Row>
    var employees: map<string, Employee>
    var registry: set<string>

    function State(): Cloud
      reads this
    {
      Cloud(commands, lock, rows, employees, registry)
    }

    constructor (device: string, state: Cloud)
      ensures State() == state && this.device == device
    {
      this.device := device;
      commands, lock, rows := state.commands, state.lock, state.rows;
      employees, registry := state.employees, state.registry;
    }

    /** The first transaction of an exchange: completes the reported commands. */
    method CompleteCommands(results: seq<CommandResult>, now: int) returns (acknowledged: seq<CommandId>)
      modifies this
      ensures State() == ApplyResults(old(State()), device, now, results)
      ensures acknowledged == Acknowledged(old(State()), device, results)
    {
      var read := State();
      acknowledged := [];
      WholePrefix(results);
      for i := 0 to |results|
        invariant State() == ApplyResults(read, device, now, results[..i])
        invariant acknowledged == Acknowledged(read, device, results[..i])
      {
        PrefixStep(results, i);
        var result := results[i];
        var id := result.commandId;
        if id !in read.commands || read.commands[id].deviceId != device {
          continue;
        }
        var command := read.commands[id];
        if !command.state.Succeeded? && !command.state.Failed? {
          commands := commands[id := command.(state := if result.succeeded then Succeeded else Failed, resultCode := result.code)];
          if command.kind.EnrollFingerprint? && Names(read.lock, id) {
            lock := None;
          }
          if command.employeeId.Some? && command.employeeNo.Some? {
            var key := command.employeeNo.value;
            if KeepsFingerprintState(read.rows, key, command, id) {
              if command.kind.UpsertUser? {
                rows := rows[key := RowAfterResult(read, RowOrBlank(rows, key), key, command, result, now)];
              }
            } else {
              rows := rows[key := RowAfterResult(read, RowOrBlank(rows, key), key, command, result, now)];
            }
          }
        }
        acknowledged := acknowledged + [id];
      }
    }

    method FailUndeliveredCommand(read: Cloud, id: CommandId, command: Command, code: string, message: string)
      modifies this`commands, this`lock, this`rows
      ensures State() == FailUndelivered(read, old(State()), id, command, code, message)
    {
      commands := commands[id := command.(state := Failed, resultCode := Some(code))];
      if Names(read.lock, id) {
        lock := None;
      }
      if command.employeeNo.Some? {
        var key := command.employeeNo.value;
        if RowOrBlank(read.rows, key).commandId == Some(id) {
          rows := rows[key := RowOrBlank(rows, key).(state := Some(RowFailed), commandId := Some(id), lastError := Some(message))];
        }
      }
    }

    /** The second transaction of an exchange: fails expired and malformed candidates, leases at most one. */
    method DeliverCommands(candidates: seq<CommandId>, now: int) returns (values: seq<CommandId>)
      modifies this
      ensures Delivery(State(), values) == Deliver(old(State()), device, now, candidates)
    {
      var read := State();
      values := [];
      WholePrefix(candidates);
      for i := 0 to |candidates|
        invariant Delivery(State(), values) == Deliver(read, device, now, candidates[..i])
      {
        PrefixStep(candidates, i);
        var id := candidates[i];
        if id !in read.commands || read.commands[id].deviceId != device {
          continue;
        }
        var command := read.commands[id];
        if Expired(command, now) {
          FailUndeliveredCommand(read, id, command, "expired", "Command expired before delivery");
          continue;
        }
        if Leased(command, now) {
          continue;
        }
        if Malformed(command) {
          FailUndeliveredCommand(read, id, command, "invalid_command", "Stored command is malformed");
          continue;
        }
        if |values| >= 1 {
          continue;
        }
        commands := commands[id := command.(state := Dispatched, leaseUntil := Some(now + LEASE), attempts := command.attempts + 1)];
        if command.kind.EnrollFingerprint? {
          var key := command.employeeNo.value;
          rows := rows[key := RowOrBlank(rows, key).(state := Some(Capturing), commandId := Some(id))];
        }
        values := values + [id];
      }
    }

    /** `queueFingerprintEnrollment`: takes the device's fingerprint lock, or refuses. */
    method RequestEnrollment(employeeId: string, fingerPrintId: int, id: CommandId, now: int) returns (queued: bool)
      requires id !in commands
      modifies this
      ensures queued <==> old(CanQueueEnrollment(State(), employeeId, fingerPrintId, id, now))
      ensures State() == if queued then QueueEnrollment(old(State()), device, employeeId, fingerPrintId, id, now) else old(State())
    {
      if !(1 <= fingerPrintId <= 10) {
        return false;
      }
      if employeeId !in employees || !employees[employeeId].active {
        return false;
      }
      var employee := employees[employeeId];
      if !ValidCode(employee.code) {
        return false;
      }
      if lock.Some? && lock.value.expiresAt > now {
        return false;
      }
      var expiresAt := now + ENROLLMENT_LIFETIME;
      commands := commands[id := Command(device, EnrollFingerprint, Queued, Some(employeeId), Some(employee.code), Some(employee.name),
                                         Some(fingerPrintId), Some(now), Some(expiresAt), None, 0, None)];
      lock := Some(Lock(id, expiresAt));
      rows := rows[employee.code := RowOrBlank(rows, employee.code).(
                state := Some(RowQueued), commandId := Some(id), fingerPrintId := Some(fingerPrintId), lastError := None)];
      queued := true;
    }

    /** `createEmployeeInFirestore` with a device: registers the code and queues the terminal-user command. */
    method CreateEmployeeOnDevice(employeeId: string, code: string, name: string, id: CommandId, now: int) returns (created: bool)
      requires id !in commands && employeeId !in employees
      modifies this
      ensures created <==> old(CanCreateEmployee(State(), employeeId, code, id))
      ensures State() == if created then CreateEmployee(old(State()), device, employeeId, code, name, id, now) else old(State())
    {
      if !ValidCode(code) || LowerCase(code) in registry {
        return false;
      }
      employees := employees[employeeId := Employee(code, name, true)];
      registry := registry + {LowerCase(code)};
      commands := commands[id := Command(device, UpsertUser, Queued, Some(employeeId), Some(code), Some(name),
                                         None, Some(now), Some(now + UPSERT_LIFETIME), None, 0, None)];
      rows := rows[code := RowOrBlank(rows, code).(state := Some(UserPending), commandId := Some(id), lastError := None)];
      created := true;
    }
  }
}
