/** One employee-day: schedule, adjustments, lateness, early leave, work and overtime. Instants are milliseconds, dates are
    day numbers, and the time zone is a fixed offset. */
module AttendanceDay {
  import opened Base
  import opened Sorting
  import opened PunchSelection

  const MINUTE := 60_000
  const MINUTES_PER_DAY := 1440
  const DAY := MINUTES_PER_DAY * MINUTE
  const DEFAULT_EARLY_WINDOW := 360
  const DEFAULT_LATE_WINDOW := 720

  datatype LateMode = FromShiftStart | AfterGrace

  datatype Rounding = NoRounding | RoundDown | RoundNearest | RoundUp

  datatype OvertimePolicy = OvertimePolicy(enabled: bool, startDelay: nat, minimum: nat, increment: nat, rounding: Rounding)

  type MinuteOfDay = m: int | 0 <= m < MINUTES_PER_DAY

  datatype Shift = Shift(
    start: MinuteOfDay,
    end: MinuteOfDay,
    workingDays: set<int>,
    grace: nat,
    lateMode: LateMode,
    breakMinutes: nat,
    punchMode: PunchMode,
    earlyWindow: Option<nat>,
    lateWindow: Option<nat>,
    earlyLeaveGrace: nat,
    overtime: OvertimePolicy)

  datatype Status = Present | Absent | Leave | Holiday | RestDay | NoShift

  datatype Change = SetFirstIn(at: int) | SetLastOut(at: int) | ClearFirstIn | ClearLastOut | SetStatus(status: Status)

  datatype Adjustment = Adjustment(id: int, approvedAt: Option<nat>, change: Change)

  datatype Input = Input(
    date: int,
    offset: int,
    shift: Option<Shift>,
    punches: seq<Punch>,
    holiday: bool,
    leave: bool,
    adjustments: seq<Adjustment>)

  datatype Result = Result(
    firstIn: Option<int>,
    lastOut: Option<int>,
    lateMinutes: nat,
    earlyLeaveMinutes: nat,
    workedMinutes: nat,
    overtimeMinutes: nat,
    status: Status,
    sourceEventIds: seq<int>)

  // ----- The schedule of a date -----

  /** Minutes from the midnight that starts the date to the scheduled end; a shift that does not end later in its day ends in
      the next one. */
  function EndMinute(shift: Shift): (m: int)
    ensures shift.start < m <= shift.start + MINUTES_PER_DAY
  {
    if shift.end <= shift.start then shift.end + MINUTES_PER_DAY else shift.end
  }

  function EarlyWindow(shift: Shift): nat {
    if shift.earlyWindow.Some? then shift.earlyWindow.value else DEFAULT_EARLY_WINDOW
  }

  function LateWindow(shift: Shift): nat {
    if shift.lateWindow.Some? then shift.lateWindow.value else DEFAULT_LATE_WINDOW
  }

  function Midnight(date: int, offset: int): int {
    date * DAY - offset
  }

  function ScheduledIn(date: int, offset: int, shift: Shift): int {
    Midnight(date, offset) + shift.start * MINUTE
  }

  function ScheduledOut(date: int, offset: int, shift: Shift): int {
    Midnight(date, offset) + EndMinute(shift) * MINUTE
  }

  function PunchWindow(date: int, offset: int, shift: Option<Shift>): Window {
    if shift.None? then Window(Midnight(date, offset), Midnight(date + 1, offset))
    else Window(ScheduledIn(date, offset, shift.value) - EarlyWindow(shift.value) * MINUTE,
                ScheduledOut(date, offset, shift.value) + LateWindow(shift.value) * MINUTE)
  }

  /** ISO weekday; day 0 was a Thursday. */
  function Weekday(date: int): int {
    (date + 3) % 7 + 1
  }

  // ----- Minutes -----

  function MinutesFloor(start: int, end: int): nat {
    Max(0, (end - start) / MINUTE)
  }

  function MinutesCeil(start: int, end: int): nat {
    Max(0, -((start - end) / MINUTE))
  }

  function LateMinutes(shift: Shift, scheduledIn: int, firstIn: Option<int>): nat {
    var threshold := scheduledIn + shift.grace * MINUTE;
    if firstIn.None? || firstIn.value <= threshold then 0
    else MinutesCeil(if shift.lateMode.FromShiftStart? then scheduledIn else threshold, firstIn.value)
  }

  function EarlyLeaveMinutes(shift: Shift, scheduledOut: int, lastOut: Option<int>): nat {
    var threshold := scheduledOut - shift.earlyLeaveGrace * MINUTE;
    if lastOut.None? || threshold <= lastOut.value then 0 else MinutesCeil(lastOut.value, threshold)
  }

  function Rounded(raw: nat, increment: nat, rounding: Rounding): nat
    requires increment > 1 || rounding.NoRounding?
  {
    match rounding
    case NoRounding => raw
    case RoundDown => raw / increment * increment
    case RoundNearest => (2 * raw + increment) / (2 * increment) * increment
    case RoundUp => (raw + increment - 1) / increment * increment
  }

  function OvertimeMinutes(raw: nat, policy: OvertimePolicy): nat {
    if !policy.enabled || raw < policy.minimum then 0
    else if policy.rounding.NoRounding? || policy.increment <= 1 then raw
    else Rounded(raw, policy.increment, policy.rounding)
  }

  function Overtime(shift: Shift, scheduledOut: int, lastOut: Option<int>): nat {
    if lastOut.None? then 0
    else OvertimeMinutes(MinutesFloor(scheduledOut + shift.overtime.startDelay * MINUTE, lastOut.value), shift.overtime)
  }

  function WorkedMinutes(shift: Option<Shift>, firstIn: Option<int>, lastOut: Option<int>): nat {
    if firstIn.Some? && lastOut.Some? && firstIn.value <= lastOut.value then
      Max(0, MinutesFloor(firstIn.value, lastOut.value) - if shift.Some? then shift.value.breakMinutes else 0)
    else 0
  }

  // ----- Adjustments and status -----

  function AdjustmentKey(a: Adjustment): (int, int) {
    (if a.approvedAt.Some? then a.approvedAt.value else -1, a.id)
  }

  function AdjustedIn(firstIn: Option<int>, adjustments: seq<Adjustment>): Option<int> {
    if adjustments == [] then firstIn
    else match adjustments[|adjustments| - 1].change
      case SetFirstIn(at) => Some(at)
      case ClearFirstIn => None
      case _ => AdjustedIn(firstIn, adjustments[..|adjustments| - 1])
  }

  function AdjustedOut(lastOut: Option<int>, adjustments: seq<Adjustment>): Option<int> {
    if adjustments == [] then lastOut
    else match adjustments[|adjustments| - 1].change
      case SetLastOut(at) => Some(at)
      case ClearLastOut => None
      case _ => AdjustedOut(lastOut, adjustments[..|adjustments| - 1])
  }

  function AdjustedStatus(adjustments: seq<Adjustment>): Option<Status> {
    if adjustments == [] then None
    else match adjustments[|adjustments| - 1].change
      case SetStatus(status) => Some(status)
      case _ => AdjustedStatus(adjustments[..|adjustments| - 1])
  }

  function BaseStatus(hasPunch: bool, workingDay: bool, hasShift: bool, holiday: bool, leave: bool): Status {
    if hasPunch then Present
    else if leave then Leave
    else if holiday then Holiday
    else if !hasShift then NoShift
    else if workingDay then Absent else RestDay
  }

  function PunchModeOf(shift: Option<Shift>): PunchMode {
    if shift.Some? then shift.value.punchMode else FirstLast
  }

  function Attendance(input: Input): Result {
    var selected := Select(input.punches, PunchModeOf(input.shift), PunchWindow(input.date, input.offset, input.shift));
    var adjustments := Sort(input.adjustments, AdjustmentKey);
    var firstIn, lastOut := AdjustedIn(selected.firstIn, adjustments), AdjustedOut(selected.lastOut, adjustments);
    var derived := BaseStatus(firstIn.Some? || lastOut.Some?, input.shift.Some? && Weekday(input.date) in input.shift.value.workingDays,
                              input.shift.Some?, input.holiday, input.leave);
    var status := if AdjustedStatus(adjustments).Some? then AdjustedStatus(adjustments).value else derived;
    var worked := WorkedMinutes(input.shift, firstIn, lastOut);
    if input.shift.None? then Result(firstIn, lastOut, 0, 0, worked, 0, status, selected.sourceEventIds)
    else
      var shift := input.shift.value;
      var scheduledIn, scheduledOut := ScheduledIn(input.date, input.offset, shift), ScheduledOut(input.date, input.offset, shift);
      Result(firstIn, lastOut, LateMinutes(shift, scheduledIn, firstIn), EarlyLeaveMinutes(shift, scheduledOut, lastOut), worked,
             Overtime(shift, scheduledOut, lastOut), status, selected.sourceEventIds)
  }

  /** `applyAdjustments`. */
  method ApplyAdjustments(firstIn: Option<int>, lastOut: Option<int>, initial: Status, adjustments: seq<Adjustment>)
    returns (adjustedIn: Option<int>, adjustedOut: Option<int>, status: Status)
    ensures adjustedIn == AdjustedIn(firstIn, adjustments) && adjustedOut == AdjustedOut(lastOut, adjustments)
    ensures status == if AdjustedStatus(adjustments).Some? then AdjustedStatus(adjustments).value else initial
  {
    adjustedIn, adjustedOut, status := firstIn, lastOut, initial;
    for i := 0 to |adjustments|
      invariant adjustedIn == AdjustedIn(firstIn, adjustments[..i]) && adjustedOut == AdjustedOut(lastOut, adjustments[..i])
      invariant status == if AdjustedStatus(adjustments[..i]).Some? then AdjustedStatus(adjustments[..i]).value else initial
    {
      PrefixStep(adjustments, i);
      match adjustments[i].change
      case SetFirstIn(at) => adjustedIn := Some(at);
      case SetLastOut(at) => adjustedOut := Some(at);
      case ClearFirstIn => adjustedIn := None;
      case ClearLastOut => adjustedOut := None;
      case SetStatus(value) => status := value;
    }
    WholePrefix(adjustments);
  }

  /** The minutes of a day, from its two adjusted punches. */
  method DayMinutes(input: Input, firstIn: Option<int>, lastOut: Option<int>)
    returns (late: nat, early: nat, worked: nat, overtime: nat)
    ensures worked == WorkedMinutes(input.shift, firstIn, lastOut)
    ensures input.shift.None? ==> late == early == overtime == 0
    ensures input.shift.Some? ==>
              var shift := input.shift.value;
              var scheduledIn, scheduledOut := ScheduledIn(input.date, input.offset, shift), ScheduledOut(input.date, input.offset, shift);
              && late == LateMinutes(shift, scheduledIn, firstIn) && early == EarlyLeaveMinutes(shift, scheduledOut, lastOut)
              && overtime == Overtime(shift, scheduledOut, lastOut)
  {
    late, early, worked, overtime := 0, 0, 0, 0;
    if firstIn.Some? && lastOut.Some? && lastOut.value >= firstIn.value {
      worked := Max(0, MinutesFloor(firstIn.value, lastOut.value) - if input.shift.Some? then input.shift.value.breakMinutes else 0);
    }
    if input.shift.Some? {
      var shift := input.shift.value;
      var scheduledIn, scheduledOut := ScheduledIn(input.date, input.offset, shift), ScheduledOut(input.date, input.offset, shift);
      var lateThreshold := scheduledIn + shift.grace * MINUTE;
      if firstIn.Some? && firstIn.value > lateThreshold {
        late := if shift.lateMode.FromShiftStart? then MinutesCeil(scheduledIn, firstIn.value) else MinutesCeil(lateThreshold, firstIn.value);
      }
      var earlyThreshold := scheduledOut - shift.earlyLeaveGrace * MINUTE;
      if lastOut.Some? && lastOut.value < earlyThreshold {
        early := MinutesCeil(lastOut.value, earlyThreshold);
      }
      if lastOut.Some? {
        overtime := OvertimeMinutes(MinutesFloor(scheduledOut + shift.overtime.startDelay * MINUTE, lastOut.value), shift.overtime);
      }
    }
  }

  /** `calculateAttendance`. */
  method CalculateAttendance(input: Input) returns (result: Result)
    ensures result == Attendance(input)
  {
    var window := PunchWindow(input.date, input.offset, input.shift);
    var selected := SelectPunches(input.punches, PunchModeOf(input.shift), window);
    var workingDay := input.shift.Some? && Weekday(input.date) in input.shift.value.workingDays;
    var base := BaseStatus(selected.firstIn.Some? || selected.lastOut.Some?, workingDay, input.shift.Some?, input.holiday, input.leave);
    var adjustments := Sort(input.adjustments, AdjustmentKey);
    var firstIn, lastOut, status := ApplyAdjustments(selected.firstIn, selected.lastOut, base, adjustments);
    if AdjustedStatus(adjustments).None? {
      status := BaseStatus(firstIn.Some? || lastOut.Some?, workingDay, input.shift.Some?, input.holiday, input.leave);
    }
    var late, early, worked, overtime := DayMinutes(input, firstIn, lastOut);
    result := Result(firstIn, lastOut, late, early, worked, overtime, status, selected.sourceEventIds);
  }

  // ----- What the figures mean -----

  /** A late arrival is charged the fewest whole minutes that reach it: from the end of the grace period, or, in the other mode,
      exactly the grace period more. Nobody is charged otherwise. */
  lemma LatenessMeaning(shift: Shift, scheduledIn: int, firstIn: int)
    ensures var fromStart := LateMinutes(shift.(lateMode := FromShiftStart), scheduledIn, Some(firstIn));
            var afterGrace := LateMinutes(shift.(lateMode := AfterGrace), scheduledIn, Some(firstIn));
            var threshold := scheduledIn + shift.grace * MINUTE;
            && (firstIn <= threshold ==> fromStart == 0 && afterGrace == 0)
            && (firstIn > threshold ==> fromStart == afterGrace + shift.grace)
            && (firstIn > threshold ==> threshold + (afterGrace - 1) * MINUTE < firstIn <= threshold + afterGrace * MINUTE)
  {
  }

  /** Early leave is charged the fewest whole minutes that reach the threshold. */
  lemma EarlyLeaveMeaning(shift: Shift, scheduledOut: int, lastOut: int)
    ensures var early, threshold := EarlyLeaveMinutes(shift, scheduledOut, Some(lastOut)), scheduledOut - shift.earlyLeaveGrace * MINUTE;
            && (early == 0 <==> threshold <= lastOut)
            && (early > 0 ==> lastOut + (early - 1) * MINUTE < threshold <= lastOut + early * MINUTE)
  {
  }

  function Times(k: nat, increment: nat): nat {
    k * increment
  }

  ghost predicate Multiple(r: nat, increment: nat) {
    exists k :: r == Times(k, increment)
  }

  /** Worked time is the whole minutes between the punches less the break, and nothing without both punches in order. */
  lemma WorkedMeaning(shift: Option<Shift>, firstIn: int, lastOut: int)
    ensures var pause := if shift.Some? then shift.value.breakMinutes else 0;
            var worked := WorkedMinutes(shift, Some(firstIn), Some(lastOut));
            && (worked > 0 ==> (worked + pause) * MINUTE <= lastOut - firstIn < (worked + pause + 1) * MINUTE)
            && (worked == 0 ==> lastOut - firstIn < (pause + 1) * MINUTE)
    ensures lastOut < firstIn ==> WorkedMinutes(shift, Some(firstIn), Some(lastOut)) == 0
    ensures WorkedMinutes(shift, None, Some(lastOut)) == 0 && WorkedMinutes(shift, Some(firstIn), None) == 0
  {
  }

  /** What each rounding mode asks of its result. */
  ghost predicate Rounds(raw: nat, increment: nat, rounding: Rounding, r: nat) {
    match rounding
    case NoRounding => r == raw
    case RoundDown => Multiple(r, increment) && r <= raw < r + increment
    case RoundNearest => Multiple(r, increment) && 2 * r - increment <= 2 * raw < 2 * r + increment
    case RoundUp => Multiple(r, increment) && raw <= r < raw + increment
  }

  lemma MultiplesApart(m: nat, n: nat, increment: nat)
    requires m < n
    ensures Times(m, increment) + increment <= Times(n, increment)
  {
    calc {
      Times(n, increment);
      (m + 1 + (n - m - 1)) * increment;
      (m + 1) * increment + (n - m - 1) * increment;
    >=
      Times(m, increment) + increment;
    }
  }

  lemma MultipleUnique(a: nat, b: nat, increment: nat)
    requires Multiple(a, increment) && Multiple(b, increment) && a < b + increment && b < a + increment
    ensures a == b
  {
    var m: nat :| a == Times(m, increment);
    var n: nat :| b == Times(n, increment);
    if m != n {
      MultiplesApart(Min(m, n), Max(m, n), increment);
      assert false;
    }
  }

  lemma Quotient(a: nat, b: nat)
    requires b > 0
    ensures a / b * b <= a < a / b * b + b
  {
  }

  lemma RoundedRounds(raw: nat, increment: nat, rounding: Rounding)
    requires increment > 1
    ensures Rounds(raw, increment, rounding, Rounded(raw, increment, rounding))
  {
    match rounding
    case NoRounding =>
    case RoundDown =>
      Quotient(raw, increment);
      assert Rounded(raw, increment, rounding) == Times(raw / increment, increment);
    case RoundNearest =>
      var n := (2 * raw + increment) / (2 * increment);
      Quotient(2 * raw + increment, 2 * increment);
      assert n * (2 * increment) == 2 * (n * increment);
      assert Rounded(raw, increment, rounding) == Times(n, increment);
    case RoundUp =>
      Quotient(raw + increment - 1, increment);
      assert Rounded(raw, increment, rounding) == Times((raw + increment - 1) / increment, increment);
  }

  /** Rounding yields the one multiple of the increment that its mode asks for, less than one increment away. */
  lemma RoundingExactly(raw: nat, increment: nat, rounding: Rounding, r: nat)
    requires increment > 1
    ensures r == Rounded(raw, increment, rounding) <==> Rounds(raw, increment, rounding, r)
    ensures raw - increment < Rounded(raw, increment, rounding) < raw + increment
  {
    RoundedRounds(raw, increment, rounding);
    if Rounds(raw, increment, rounding, r) && !rounding.NoRounding? {
      MultipleUnique(r, Rounded(raw, increment, rounding), increment);
    }
  }

  lemma RoundingMonotone(a: nat, b: nat, increment: nat, rounding: Rounding)
    requires increment > 1 && a <= b
    ensures Rounded(a, increment, rounding) <= Rounded(b, increment, rounding)
  {
    RoundedRounds(a, increment, rounding);
    RoundedRounds(b, increment, rounding);
    var x, y := Rounded(a, increment, rounding), Rounded(b, increment, rounding);
    if y < x && !rounding.NoRounding? {
      MultipleUnique(x, y, increment);
    }
  }

  /** Leaving later never earns less overtime. */
  lemma OvertimeMonotone(shift: Shift, scheduledOut: int, earlier: int, later: int)
    requires earlier <= later
    ensures Overtime(shift, scheduledOut, Some(earlier)) <= Overtime(shift, scheduledOut, Some(later))
  {
    var from := scheduledOut + shift.overtime.startDelay * MINUTE;
    var a, b := MinutesFloor(from, earlier), MinutesFloor(from, later);
    var policy := shift.overtime;
    if policy.increment > 1 {
      RoundingMonotone(a, b, policy.increment, policy.rounding);
    }
  }

  /** The same day is never both an early leave and overtime. */
  lemma EarlyLeaveOrOvertime(input: Input)
    ensures Attendance(input).earlyLeaveMinutes == 0 || Attendance(input).overtimeMinutes == 0
  {
    if input.shift.Some? && Attendance(input).lastOut.Some? {
      var shift := input.shift.value;
      var raw := MinutesFloor(ScheduledOut(input.date, input.offset, shift) + shift.overtime.startDelay * MINUTE, Attendance(input).lastOut.value);
      if Attendance(input).earlyLeaveMinutes > 0 && shift.overtime.increment > 1 {
        assert raw == 0;
        RoundedRounds(0, shift.overtime.increment, shift.overtime.rounding);
        assert 0 == Times(0, shift.overtime.increment);
        if !shift.overtime.rounding.NoRounding? {
          MultipleUnique(0, Rounded(0, shift.overtime.increment, shift.overtime.rounding), shift.overtime.increment);
        }
      }
    }
  }

  /** The day's figures do not depend on the order in which punches and adjustments were loaded. */
  lemma InputOrderIrrelevant(input: Input, punches: seq<Punch>, adjustments: seq<Adjustment>)
    requires multiset(punches) == multiset(input.punches) && KeysIdentify(input.punches, PunchKey)
    requires multiset(adjustments) == multiset(input.adjustments) && KeysIdentify(input.adjustments, AdjustmentKey)
    ensures Attendance(input.(punches := punches, adjustments := adjustments)) == Attendance(input)
  {
    OrderIndependent(input.punches, punches, PunchModeOf(input.shift), PunchWindow(input.date, input.offset, input.shift));
    SortIgnoresOrder(input.adjustments, adjustments, AdjustmentKey);
  }

  predicate TouchesIn(a: Adjustment) {
    a.change.SetFirstIn? || a.change.ClearFirstIn?
  }

  predicate TouchesOut(a: Adjustment) {
    a.change.SetLastOut? || a.change.ClearLastOut?
  }

  predicate TouchesStatus(a: Adjustment) {
    a.change.SetStatus?
  }

  function LastOf(s: seq<Adjustment>, touches: Adjustment -> bool): Option<Adjustment> {
    if s == [] then None
    else if touches(s[|s| - 1]) then Some(s[|s| - 1])
    else LastOf(s[..|s| - 1], touches)
  }

  lemma {:induction false} AdjustedByLast(firstIn: Option<int>, lastOut: Option<int>, s: seq<Adjustment>)
    ensures var a := LastOf(s, TouchesIn);
            AdjustedIn(firstIn, s) == if a.None? then firstIn else if a.value.change.SetFirstIn? then Some(a.value.change.at) else None
    ensures var a := LastOf(s, TouchesOut);
            AdjustedOut(lastOut, s) == if a.None? then lastOut else if a.value.change.SetLastOut? then Some(a.value.change.at) else None
    ensures var a := LastOf(s, TouchesStatus);
            AdjustedStatus(s) == if a.Some? && a.value.change.SetStatus? then Some(a.value.change.status) else None
  {
    if s != [] {
      AdjustedByLast(firstIn, lastOut, s[..|s| - 1]);
    }
  }

  /** No adjustment of the same value was approved later. */
  ghost predicate LatestOf(s: seq<Adjustment>, a: Adjustment, touches: Adjustment -> bool) {
    a in s && touches(a) && forall b :: b in s && touches(b) ==> !Before(AdjustmentKey(a), AdjustmentKey(b))
  }

  lemma {:induction false} LatestIsLast(s: seq<Adjustment>, a: Adjustment, touches: Adjustment -> bool)
    requires Sorted(s, AdjustmentKey) && KeysIdentify(s, AdjustmentKey) && LatestOf(s, a, touches)
    ensures LastOf(s, touches) == Some(a)
  {
    var init, last := s[..|s| - 1], s[|s| - 1];
    assert s == init + [last];
    if touches(last) {
      LastGreatest(s, AdjustmentKey, a);
      assert AdjustmentKey(a) == AdjustmentKey(last);
    } else {
      PrefixSorted(s, AdjustmentKey);
      LatestIsLast(init, a, touches);
    }
  }

  lemma LatestInSorted(adjustments: seq<Adjustment>, a: Adjustment, touches: Adjustment -> bool)
    requires KeysIdentify(adjustments, AdjustmentKey) && LatestOf(adjustments, a, touches)
    ensures LastOf(Sort(adjustments, AdjustmentKey), touches) == Some(a)
  {
    SortSorts(adjustments, AdjustmentKey);
    SameMembers(Sort(adjustments, AdjustmentKey), adjustments);
    LatestIsLast(Sort(adjustments, AdjustmentKey), a, touches);
  }

  /** Check-in, check-out and status are what the latest approved adjustment of each says, in whatever order they were loaded. */
  lemma LatestApprovalWins(input: Input, a: Adjustment)
    requires KeysIdentify(input.adjustments, AdjustmentKey)
    ensures LatestOf(input.adjustments, a, TouchesIn) ==>
              Attendance(input).firstIn == if a.change.SetFirstIn? then Some(a.change.at) else None
    ensures LatestOf(input.adjustments, a, TouchesOut) ==>
              Attendance(input).lastOut == if a.change.SetLastOut? then Some(a.change.at) else None
    ensures LatestOf(input.adjustments, a, TouchesStatus) && a.change.SetStatus? ==> Attendance(input).status == a.change.status
  {
    var selected := Select(input.punches, PunchModeOf(input.shift), PunchWindow(input.date, input.offset, input.shift));
    AdjustedByLast(selected.firstIn, selected.lastOut, Sort(input.adjustments, AdjustmentKey));
    if LatestOf(input.adjustments, a, TouchesIn) {
      LatestInSorted(input.adjustments, a, TouchesIn);
    }
    if LatestOf(input.adjustments, a, TouchesOut) {
      LatestInSorted(input.adjustments, a, TouchesOut);
    }
    if LatestOf(input.adjustments, a, TouchesStatus) {
      LatestInSorted(input.adjustments, a, TouchesStatus);
    }
  }
}
