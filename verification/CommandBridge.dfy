/** The bridge's side of a command exchange. Receipts are files that survive a crash; the phase
    is memory that does not. One act is at most one durable write. */
module CommandBridge {
  import opened Base
  import opened Commands

  datatype Phase =
    | Idle
    | Waiting(ticket: nat)
    | Handling(acknowledged: seq<CommandId>, todo: seq<CommandId>)
    | Armed(command: CommandId, rest: seq<CommandId>)
    | Working(command: CommandId, rest: seq<CommandId>)

  /** `starts` counts, per command, how often work on the terminal began. */
  datatype Bridge = Bridge(receipts: map<CommandId, CommandResult>, phase: Phase, starts: multiset<CommandId>)

  datatype Act =
    | RemoveReceipt
    | SkipKnown
    | WriteReceipt
    | StartWork
    | WriteResult(result: CommandResult)
    | Done
    | Crash

  /** The fail-safe receipt written before the terminal is touched. */
  function Interrupted(id: CommandId): CommandResult {
    CommandResult(id, false, Some("execution_interrupted"), Some("Bridge stopped before command completion could be confirmed"), None)
  }

  predicate CanAct(b: Bridge, act: Act) {
    match act
    case RemoveReceipt => b.phase.Handling? && b.phase.acknowledged != []
    case SkipKnown => b.phase.Handling? && b.phase.acknowledged == [] && b.phase.todo != [] && b.phase.todo[0] in b.receipts
    case WriteReceipt => b.phase.Handling? && b.phase.acknowledged == [] && b.phase.todo != [] && b.phase.todo[0] !in b.receipts
    case StartWork => b.phase.Armed?
    case WriteResult(result) => (b.phase.Armed? || b.phase.Working?) && result.commandId == b.phase.command
    case Done => b.phase.Handling? && b.phase.acknowledged == [] && b.phase.todo == []
    case Crash => true
  }

  function Perform(b: Bridge, act: Act): Bridge
    requires CanAct(b, act)
  {
    match act
    case RemoveReceipt =>
      b.(receipts := b.receipts - {b.phase.acknowledged[0]}, phase := Handling(b.phase.acknowledged[1..], b.phase.todo))
    case SkipKnown => b.(phase := Handling([], b.phase.todo[1..]))
    case WriteReceipt =>
      var id := b.phase.todo[0];
      b.(receipts := b.receipts[id := Interrupted(id)], phase := Armed(id, b.phase.todo[1..]))
    case StartWork => b.(starts := b.starts + multiset{b.phase.command}, phase := Working(b.phase.command, b.phase.rest))
    case WriteResult(result) => b.(receipts := b.receipts[b.phase.command := result], phase := Handling([], b.phase.rest))
    case Done => b.(phase := Idle)
    case Crash => b.(phase := Idle)
  }

  /** Where a list of acts leads, if every one of them is possible in turn. */
  function PerformAll(b: Bridge, acts: seq<Act>): Option<Bridge> {
    if acts == [] then Some(b)
    else
      var before := PerformAll(b, acts[..|acts| - 1]);
      if before.Some? && CanAct(before.value, acts[|acts| - 1]) then Some(Perform(before.value, acts[|acts| - 1])) else None
  }

  lemma PerformSingle(b: Bridge, act: Act)
    requires CanAct(b, act)
    ensures PerformAll(b, [act]) == Some(Perform(b, act))
  {
    assert [act][..0] == [];
    assert PerformAll(b, []) == Some(b);
  }

  lemma {:induction false} PerformAppend(b: Bridge, first: seq<Act>, mid: Bridge, second: seq<Act>)
    requires PerformAll(b, first) == Some(mid)
    ensures PerformAll(b, first + second) == PerformAll(mid, second)
  {
    if second == [] {
      assert first + second == first;
    } else {
      var init := second[..|second| - 1];
      PerformAppend(b, first, mid, init);
      assert (first + second)[..|first + second| - 1] == first + init;
    }
  }

  /** How the terminal answers one command: a refusal before any contact (the command has expired or
      has an unknown type), or a result obtained from the terminal. */
  datatype Outcome = Refused(result: CommandResult) | Obtained(result: CommandResult)

  /** The receipts after the delivered commands were processed in order. */
  function Settled(receipts: map<CommandId, CommandResult>, commands: seq<CommandId>, outcomes: map<CommandId, Outcome>)
    : map<CommandId, CommandResult>
    requires forall id :: id in commands ==> id in outcomes
  {
    if commands == [] then receipts
    else
      var before := Settled(receipts, commands[..|commands| - 1], outcomes);
      var id := commands[|commands| - 1];
      if id in before then before else before[id := outcomes[id].result]
  }

  /** Processing answers exactly the delivered commands that had no receipt and changes no receipt there was. */
  lemma {:induction false} SettledReceipts(receipts: map<CommandId, CommandResult>, commands: seq<CommandId>, outcomes: map<CommandId, Outcome>)
    requires forall id :: id in commands ==> id in outcomes
    ensures
      var after := Settled(receipts, commands, outcomes);
      && (forall id :: id in after <==> id in receipts || id in commands)
      && (forall id :: id in after ==> after[id] == if id in receipts then receipts[id] else outcomes[id].result)
  {
    if commands != [] {
      var init := commands[..|commands| - 1];
      assert commands == init + [commands[|commands| - 1]];
      SettledReceipts(receipts, init, outcomes);
    }
  }

  class CommandRunner {
    var receipts: map<CommandId, CommandResult>
    ghost var starts: multiset<CommandId>

    ghost function In(phase: Phase): Bridge
      reads this
    {
      Bridge(receipts, phase, starts)
    }

    constructor ()
      ensures In(Idle) == Bridge(map[], Idle, multiset{})
    {
      receipts := map[];
      starts := multiset{};
    }

    /** `RemoveCommandResults`: one file removal per acknowledged command. */
    method RemoveCommandResults(ids: seq<CommandId>, ghost todo: seq<CommandId>) returns (ghost acts: seq<Act>)
      modifies this`receipts
      ensures PerformAll(old(In(Handling(ids, todo))), acts) == Some(In(Handling([], todo)))
      ensures receipts == old(receipts) - (set id | id in ids)
    {
      ghost var before := In(Handling(ids, todo));
      acts := [];
      assert ids[0..] == ids;
      for i := 0 to |ids|
        invariant receipts == old(receipts) - (set id | id in ids[..i])
        invariant PerformAll(before, acts) == Some(In(Handling(ids[i..], todo)))
      {
        ghost var mid := In(Handling(ids[i..], todo));
        assert ids[i..][0] == ids[i] && ids[i..][1..] == ids[i + 1..];
        PrefixStep(ids, i);
        PerformSingle(mid, RemoveReceipt);
        PerformAppend(before, acts, mid, [RemoveReceipt]);
        receipts := receipts - {ids[i]};
        acts := acts + [RemoveReceipt];
      }
      WholePrefix(ids);
      assert ids[|ids|..] == [];
    }

    /** One delivered command: skipped when its receipt exists, otherwise receipt, work, result. */
    method ProcessCommand(id: CommandId, ghost rest: seq<CommandId>, outcome: Outcome) returns (processed: bool, ghost acts: seq<Act>)
      requires outcome.result.commandId == id
      modifies this
      ensures PerformAll(old(In(Handling([], [id] + rest))), acts) == Some(In(Handling([], rest)))
      ensures processed <==> id !in old(receipts)
      ensures receipts == if processed then old(receipts)[id := outcome.result] else old(receipts)
      ensures starts == old(starts) + (if processed && outcome.Obtained? then multiset{id} else multiset{})
    {
      ghost var before := In(Handling([], [id] + rest));
      assert ([id] + rest)[1..] == rest;
      if id in receipts {
        PerformSingle(before, SkipKnown);
        return false, [SkipKnown];
      }
      receipts := receipts[id := Interrupted(id)];
      ghost var armed := In(Armed(id, rest));
      PerformSingle(before, WriteReceipt);
      acts := RunCommand(id, rest, outcome);
      PerformAppend(before, [WriteReceipt], armed, acts);
      acts := [WriteReceipt] + acts;
      processed := true;
    }

    /** The work on the terminal, if the attempt gets that far, and the result over the receipt. */
    method RunCommand(id: CommandId, ghost rest: seq<CommandId>, outcome: Outcome) returns (ghost acts: seq<Act>)
      requires outcome.result.commandId == id && id in receipts
      modifies this
      ensures PerformAll(old(In(Armed(id, rest))), acts) == Some(In(Handling([], rest)))
      ensures receipts == old(receipts)[id := outcome.result]
      ensures starts == old(starts) + (if outcome.Obtained? then multiset{id} else multiset{})
    {
      ghost var armed := In(Armed(id, rest));
      if outcome.Obtained? {
        starts := starts + multiset{id};
        ghost var working := In(Working(id, rest));
        PerformSingle(armed, StartWork);
        PerformSingle(working, WriteResult(outcome.result));
        PerformAppend(armed, [StartWork], working, [WriteResult(outcome.result)]);
        acts := [StartWork] + [WriteResult(outcome.result)];
      } else {
        PerformSingle(armed, WriteResult(outcome.result));
        acts := [WriteResult(outcome.result)];
      }
      receipts := receipts[id := outcome.result];
    }

    /** The part of `exchangeCommandsOnce` after the response arrived. Every durable write it makes is an
        act of the bridge, so stopping it anywhere leaves the bridge where a prefix of `acts` leads. */
    method HandleResponse(acknowledged: seq<CommandId>, commands: seq<CommandId>, outcomes: map<CommandId, Outcome>)
      returns (processed: nat, ghost acts: seq<Act>)
      requires forall id :: id in commands ==> id in outcomes && outcomes[id].result.commandId == id
      modifies this
      ensures PerformAll(old(In(Handling(acknowledged, commands))), acts) == Some(In(Idle))
      ensures receipts == Settled(old(receipts) - (set id | id in acknowledged), commands, outcomes)
      ensures processed <= |commands|
    {
      ghost var before := In(Handling(acknowledged, commands));
      acts := RemoveCommandResults(acknowledged, commands);
      ghost var kept := receipts;
      processed := 0;
      assert commands[0..] == commands;
      for i := 0 to |commands|
        invariant processed <= i
        invariant PerformAll(before, acts) == Some(In(Handling([], commands[i..])))
        invariant receipts == Settled(kept, commands[..i], outcomes)
      {
        var id := commands[i];
        PrefixStep(commands, i);
        assert commands[i..] == [id] + commands[i + 1..];
        ghost var mid := In(Handling([], commands[i..]));
        var executed, more := ProcessCommand(id, commands[i + 1..], outcomes[id]);
        PerformAppend(before, acts, mid, more);
        acts := acts + more;
        if executed {
          processed := processed + 1;
        }
      }
      WholePrefix(commands);
      assert commands[|commands|..] == [];
      ghost var end := In(Handling([], []));
      PerformSingle(end, Done);
      PerformAppend(before, acts, end, [Done]);
      acts := acts + [Done];
    }
  }
}
