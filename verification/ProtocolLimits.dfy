/** Runs in which the promises of the command protocol fail: with overlapping exchanges work starts twice, and an enrollment queued
    between an exchange's start and its delivery loses its row. */
module ProtocolLimits {
  import opened Base
  import opened Commands
  import opened CommandBridge
  import opened CommandProtocol
  import opened CommandStarts
  import opened CommandTraces
  import opened SecondStart
  import opened EnrollmentLock
  import opened EnrollmentRows

  ghost predicate Reached(t: Trace, s: State, serial: bool) {
    Reaches(t, s, serial) && Init(First(t))
  }

  // ----- Overlapping exchanges -----

  const UPSERT := Command("d", UpsertUser, Queued, Some("e"), Some("7"), Some("Ann"), None, Some(0), Some(UPSERT_LIFETIME), None, 0, None)
  const OK := CommandResult("c", true, None, None, None)
  const SLOW := Exchange(0, 0, [], Selected([], ["c"]))

  function Docs(c: Command, rows: map<string, Row>): Cloud {
    Cloud(map["c" := c], None, rows, map[], {})
  }

  function Leased(c: Command, clock: int): Command {
    c.(state := Dispatched, leaseUntil := Some(clock + LEASE), attempts := c.attempts + 1)
  }

  function At(clock: int, cloud: Cloud, exchanges: seq<Exchange>, ticket: nat, bridge: Bridge): State {
    State("d", clock, cloud, exchanges, ticket, bridge)
  }

  lemma Begun(s: State) returns (t: Trace)
    requires Init(s)
    ensures Reached(t, s, true) 
  {
    t := Start(s);
  }

  lemma Asks(t: Trace, s: State, serial: bool) returns (t': Trace)
    requires Reached(t, s, serial) && s.bridge.phase.Idle? && (serial ==> s.exchanges == [])
    ensures Reached(t', s.(exchanges := s.exchanges + [Exchange(s.nextTicket, s.clock, [], Fresh)],
                           nextTicket := s.nextTicket + 1, bridge := s.bridge.(phase := Waiting(s.nextTicket))), serial)
  {
    t' := Grow(t, s, Send([]), serial);
    assert Next(s, Send([])).exchanges[|s.exchanges|].results == [];
  }

  lemma DeliveredAlone(c: Command, rows: map<string, Row>, at: int)
    requires Dispatchable(Docs(c, rows), "d", at, "c") && c.kind.UpsertUser?
    ensures Deliver(Docs(c, rows), "d", at, ["c"]) == Delivery(Docs(Leased(c, at), rows), ["c"])
  {
    assert ["c"][..0] == [];
    assert Deliver(Docs(c, rows), "d", at, []) == Delivery(Docs(c, rows), []);
    assert map["c" := c]["c" := Leased(c, at)] == map["c" := Leased(c, at)];
  }

  /** Exchange `k`, which reports nothing, selects the command. */
  lemma Selects(t: Trace, s: State, k: nat) returns (t': Trace)
    requires Reached(t, s, false) && k < |s.exchanges| && Open(s.cloud, "c")
    requires s.exchanges[k].stage.Fresh? && s.exchanges[k].results == []
    ensures Reached(t', s.(exchanges := s.exchanges[k := s.exchanges[k].(stage := Selected([], ["c"]))]), false)
  {
    t' := Grow(t, s, CompleteReported(k), false);
    var s' := Next(s, CompleteReported(k));
    t' := Grow(t', s', Select(k, ["c"]), false);
    assert Next(s', Select(k, ["c"])).exchanges == s.exchanges[k := s.exchanges[k].(stage := Selected([], ["c"]))];
  }

  /** A command delivered to the waiting bridge is started by it. */
  lemma Starts(t: Trace, s: State, c: Command, rows: map<string, Row>, slow: seq<Exchange>, x: Exchange)
    returns (t': Trace)
    requires Reached(t, s, false) && s.device == "d" && s.cloud == Docs(c, rows)
    requires s.exchanges == slow + [x] && x.stage == Selected([], ["c"])
    requires s.bridge.phase == Waiting(x.ticket) && "c" !in s.bridge.receipts
    requires Dispatchable(Docs(c, rows), "d", x.at, "c") && c.kind.UpsertUser?
    ensures Reached(t', s.(cloud := Docs(Leased(c, x.at), rows), exchanges := slow,
                     bridge := Bridge(s.bridge.receipts["c" := Interrupted("c")], Working("c", []), s.bridge.starts + multiset{"c"})), false)
  {
    var k := |slow|;
    DeliveredAlone(c, rows, x.at);
    t' := Grow(t, s, DeliverSelected(k), false);
    var s1 := Next(s, DeliverSelected(k));
    t' := Grow(t', s1, Receive(k), false);
    var s2 := Next(s1, Receive(k));
    assert s2.exchanges == slow;
    t' := Begins(t', s2);
  }

  lemma Begins(t: Trace, s: State) returns (t': Trace)
    requires Reached(t, s, false) && s.bridge.phase == Handling([], ["c"]) && "c" !in s.bridge.receipts
    ensures Reached(t', s.(bridge := Bridge(s.bridge.receipts["c" := Interrupted("c")], Working("c", []), s.bridge.starts + multiset{"c"})), false)
  {
    assert ["c"][1..] == [];
    var s1 := s.(bridge := Bridge(s.bridge.receipts["c" := Interrupted("c")], Armed("c", []), s.bridge.starts));
    assert Next(s, Local(WriteReceipt)) == s1;
    t' := Grow(t, s, Local(WriteReceipt), false);
    t' := Grow(t', s1, Local(StartWork), false);
  }

  /** The result is reported, acknowledged, and its receipt removed; the slow exchange still waits. */
  lemma Reports(t: Trace, s: State, c: Command) returns (t': Trace, rows: map<string, Row>)
    requires Reached(t, s, false) && s.device == "d" && s.cloud == Docs(c, map[]) && !Terminal(c) && c.deviceId == "d"
    requires s.exchanges == [SLOW] && s.bridge == Bridge(map["c" := Interrupted("c")], Working("c", []), multiset{"c"})
    ensures Reached(t', s.(cloud := Docs(c.(state := Succeeded, resultCode := None), rows), nextTicket := s.nextTicket + 1,
                                       bridge := Bridge(map[], Idle, multiset{"c"})), false)
  {
    t' := Grow(t, s, Local(WriteResult(OK)), false);
    var s1 := Next(s, Local(WriteResult(OK)));
    t' := Grow(t', s1, Local(Done), false);
    var s2 := Next(s1, Local(Done));
    assert s2.bridge == Bridge(map["c" := OK], Idle, multiset{"c"});
    t' := Grow(t', s2, Send(["c"]), false);
    var s3 := Next(s2, Send(["c"]));
    var x := Exchange(s.nextTicket, s.clock, [OK], Fresh);
    assert s3.exchanges[1].results == [OK];
    assert s3.exchanges == [SLOW, x];
    t', rows := Acknowledges(t', s3, c, x);
  }

  lemma CompletedAlone(c: Command, at: int) returns (rows: map<string, Row>)
    requires !Terminal(c) && c.deviceId == "d"
    ensures ApplyResults(Docs(c, map[]), "d", at, [OK]) ==
            Docs(c.(state := Succeeded, resultCode := None), rows)
    ensures Acknowledged(Docs(c, map[]), "d", [OK]) == ["c"]
  {
    assert [OK][..0] == [];
    assert ApplyResults(Docs(c, map[]), "d", at, []) == Docs(c, map[]);
    assert Acknowledged(Docs(c, map[]), "d", []) == [];
    var c' := c.(state := Succeeded, resultCode := None);
    assert map["c" := c]["c" := c'] == map["c" := c'];
    rows := ApplyResults(Docs(c, map[]), "d", at, [OK]).rows;
  }

  lemma Acknowledges(t: Trace, s: State, c: Command, x: Exchange)
    returns (t': Trace, rows: map<string, Row>)
    requires Reached(t, s, false) && s.device == "d" && s.cloud == Docs(c, map[]) && !Terminal(c) && c.deviceId == "d"
    requires s.exchanges == [SLOW, x] && x.stage == Fresh && x.results == [OK]
    requires s.bridge == Bridge(map["c" := OK], Waiting(x.ticket), multiset{"c"})
    ensures Reached(t', s.(cloud := Docs(c.(state := Succeeded, resultCode := None), rows), exchanges := [SLOW],
                                       bridge := Bridge(map[], Idle, multiset{"c"})), false)
  {
    t' := Grow(t, s, CompleteReported(1), false);
    rows := CompletedAlone(c, x.at);
    var s1 := s.(cloud := Docs(c.(state := Succeeded, resultCode := None), rows), exchanges := [SLOW, x.(stage := Completed(["c"]))]);
    assert s1 == Next(s, CompleteReported(1));
    t' := Concludes(t', s1, x);
  }

  lemma Concludes(t: Trace, s1: State, x: Exchange) returns (t': Trace)
    requires Reached(t, s1, false) && s1.exchanges == [SLOW, x.(stage := Completed(["c"]))]
    requires s1.bridge == Bridge(map["c" := OK], Waiting(x.ticket), multiset{"c"})
    ensures Reached(t', s1.(exchanges := [SLOW], bridge := Bridge(map[], Idle, multiset{"c"})), false)
  {
    assert ["c"][1..] == [] && map["c" := OK] - {"c"} == map[];
    t' := Grow(t, s1, Select(1, []), false);
    var s2 := s1.(exchanges := [SLOW, x.(stage := Selected(["c"], []))]);
    t' := Grow(t', s2, DeliverSelected(1), false);
    var s3 := s1.(exchanges := [SLOW, x.(stage := Answered(["c"], []))]);
    t' := Grow(t', s3, Receive(1), false);
    var s4 := s1.(exchanges := [SLOW], bridge := Bridge(map["c" := OK], Handling(["c"], []), multiset{"c"}));
    assert Next(s3, Receive(1)) == s4;
    t' := Grow(t', s4, Local(RemoveReceipt), false);
    var s5 := s4.(bridge := Bridge(map[], Handling([], []), multiset{"c"}));
    t' := Grow(t', s5, Local(Done), false);
  }

  /** An exchange selects the command, and its response is given up before the delivery transaction. */
  lemma SlowExchange() returns (t: Trace, s: State)
    ensures Reached(t, s, false) && s == At(0, Docs(UPSERT, map[]), [SLOW], 1, Bridge(map[], Idle, multiset{}))
  {
    s := At(0, Docs(UPSERT, map[]), [], 0, Bridge(map[], Idle, multiset{}));
    t := Begun(s);
    t := Asks(t, s, false);
    s := At(0, Docs(UPSERT, map[]), [Exchange(0, 0, [], Fresh)], 1, Bridge(map[], Waiting(0), multiset{}));
    t := Selects(t, s, 0);
    s := At(0, Docs(UPSERT, map[]), [SLOW], 1, Bridge(map[], Waiting(0), multiset{}));
    t := Grow(t, s, LoseResponse, false);
    s := At(0, Docs(UPSERT, map[]), [SLOW], 1, Bridge(map[], Idle, multiset{}));
  }

  /** The next exchange delivers the command and the bridge starts it. */
  lemma FirstRound() returns (t: Trace, s: State)
    ensures Reached(t, s, false)
    ensures s == At(0, Docs(Leased(UPSERT, 0), map[]), [SLOW], 2, Bridge(map["c" := Interrupted("c")], Working("c", []), multiset{"c"}))
  {
    t, s := SlowExchange();
    t := Asks(t, s, false);
    s := At(0, Docs(UPSERT, map[]), [SLOW, Exchange(1, 0, [], Fresh)], 2, Bridge(map[], Waiting(1), multiset{}));
    t := Selects(t, s, 1);
    var x := Exchange(1, 0, [], Selected([], ["c"]));
    s := At(0, Docs(UPSERT, map[]), [SLOW] + [x], 2, Bridge(map[], Waiting(1), multiset{}));
    t := Starts(t, s, UPSERT, map[], [SLOW], x);
    s := At(0, Docs(Leased(UPSERT, 0), map[]), [SLOW], 2, Bridge(map["c" := Interrupted("c")], Working("c", []), multiset{"c"}));
    assert map[]["c" := Interrupted("c")] == map["c" := Interrupted("c")];
  }

  /** Without serial exchanges a delivery can forget a start: the request of an exchange times out after the cloud selected its
      candidate, the command is executed and acknowledged by later exchanges, and then the delivery transaction of the first one
      hands the finished command out. So at-most-once fails. */
  lemma OverlappingExchangesStartTwice() returns (states: seq<State>, steps: seq<Step>)
    ensures IsRun(states, steps) && states[|steps|].bridge.starts["c"] == 2
    ensures !Serial(states, steps)
  {
    var t, s := FirstRound();
    var rows;
    t, rows := Reports(t, s, Leased(UPSERT, 0));
    var done := Leased(UPSERT, 0).(state := Succeeded);
    s := At(0, Docs(done, rows), [SLOW], 3, Bridge(map[], Idle, multiset{"c"}));
    states, steps := AsPath(t);
    FirstOfOne(s.cloud, "d", 0, "c");
    states, steps := ForgottenStartsAgain(states, steps, 0, "c");
    if Serial(states, steps) {
      AtMostOnceSerial(states, steps, |steps|, "c");
      assert false;
    }
  }

  // ----- A queueing between an exchange's start and its delivery -----

  const ANN := Employee("7", "Ann", true)
  const OLD := Command("d", EnrollFingerprint, Queued, Some("e"), Some("7"), Some("Ann"), Some(1), Some(0), Some(ENROLLMENT_LIFETIME), None, 0, None)

  function Desk(commands: map<CommandId, Command>, lock: Option<Lock>, rows: map<string, Row>): Cloud {
    Cloud(commands, lock, rows, map["e" := ANN], {"7"})
  }

  lemma CodeSeven()
    ensures ValidCode("7") && LowerCase("7") == "7"
  {
    assert Alphanumeric("7"[0]);
  }

  /** An enrollment is queued, and an exchange starts one millisecond before it expires. */
  lemma RequestedOnce() returns (t: Trace, s: State)
    ensures Reached(t, s, true)
    ensures var start := At(0, Desk(map[], None, map[]), [], 0, Bridge(map[], Idle, multiset{}));
            s == At(ENROLLMENT_LIFETIME - 1, Next(start, Enroll("e", 1, "old")).cloud,
                    [Exchange(0, ENROLLMENT_LIFETIME - 1, [], Completed([]))], 1, Bridge(map[], Waiting(0), multiset{}))
    ensures "old" in s.cloud.commands && s.cloud.commands["old"] == OLD
  {
    CodeSeven();
    s := At(0, Desk(map[], None, map[]), [], 0, Bridge(map[], Idle, multiset{}));
    t := Begun(s);
    t := Grow(t, s, Enroll("e", 1, "old"), true);
    s := Next(s, Enroll("e", 1, "old"));
    assert s.cloud.commands["old"] == OLD;
    t := Grow(t, s, Tick(ENROLLMENT_LIFETIME - 1), true);
    s := Next(s, Tick(ENROLLMENT_LIFETIME - 1));
    t := Asks(t, s, true);
    s := s.(exchanges := [Exchange(0, ENROLLMENT_LIFETIME - 1, [], Fresh)], nextTicket := 1, bridge := s.bridge.(phase := Waiting(0)));
    t := Grow(t, s, CompleteReported(0), true);
    s := s.(exchanges := [Exchange(0, ENROLLMENT_LIFETIME - 1, [], Completed([]))]);
  }

  /** It expires, and a second enrollment of the same employee is queued. */
  lemma RequestedAgain() returns (t: Trace, s: State)
    ensures Reached(t, s, true)
    ensures s.device == "d" && s.bridge.phase == Waiting(0)
    ensures s.exchanges == [Exchange(0, ENROLLMENT_LIFETIME - 1, [], Completed([]))]
    ensures "old" in s.cloud.commands && s.cloud.commands["old"] == OLD
    ensures Owner(s.cloud, "7") == Some("new") && Open(s.cloud, "new")
  {
    CodeSeven();
    t, s := RequestedOnce();
    t := Grow(t, s, Tick(1), true);
    s := Next(s, Tick(1));
    t := Grow(t, s, Enroll("e", 2, "new"), true);
    s := Next(s, Enroll("e", 2, "new"));
    assert "old" in s.cloud.commands && s.cloud.commands["old"] == OLD;
  }

  /** Even with serial exchanges, an expired enrollment can take the row back from the one queued after it: the
      delivery judges expiry by the time its request was received. The run is serial but not timely. */
  lemma LateDeliveryTakesRow() returns (states: seq<State>, steps: seq<Step>, n: nat)
    ensures IsRun(states, steps) && Serial(states, steps) && n < |steps| && steps[n].DeliverSelected?
    ensures Owner(states[n].cloud, "7") == Some("new") && Owner(states[n + 1].cloud, "7") == Some("old")
    ensures !TimelyRun(states, steps)
  {
    var t, s := RequestedAgain();
    t := Grow(t, s, Select(0, ["old"]), true);
    s := Next(s, Select(0, ["old"]));
    states, steps := AsPath(t);
    n := |steps|;
    var s' := Next(s, DeliverSelected(0));
    states, steps := states + [s'], steps + [DeliverSelected(0)];
    LateDelivery(s.cloud);
    if TimelyRun(states, steps) {
      RowFollowsItsEnrollmentTimely(states, steps, n, "7");
      assert false;
    }
  }

  lemma LateDelivery(cloud: Cloud)
    requires "old" in cloud.commands && cloud.commands["old"] == OLD
    ensures Owner(Deliver(cloud, "d", ENROLLMENT_LIFETIME - 1, ["old"]).cloud, "7") == Some("old")
  {
    assert ["old"][..0] == [];
    assert Deliver(cloud, "d", ENROLLMENT_LIFETIME - 1, []) == Delivery(cloud, []);
  }
}
