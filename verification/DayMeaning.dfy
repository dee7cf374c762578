/** What the figures of a day mean, in terms of its input alone: the status from calendar and punches, the minutes from the shift's own
    start and end. Day 0 is 1 January 1970. */
module DayMeaning {
  import opened Base
  import opened Sorting
  import opened PunchSelection
  import opened AttendanceDay

  // ----- The calendar -----

  /** Days have the ISO weekdays 1 to 7 in turn; the first of January 1970 was a Thursday, that of 2024 a Monday. */
  lemma WeekdayMeaning(date: int)
    ensures 1 <= Weekday(date) <= 7
    ensures Weekday(date + 1) == if Weekday(date) == 7 then 1 else Weekday(date) + 1
    ensures Weekday(0) == 4 && Weekday(19_723) == 1
  {
  }

  /** The date is a whole number of weeks away from a working day in the week of day 0, whose Monday was day -3. */
  ghost predicate WorksOn(shift: Shift, date: int) {
    exists w :: 1 <= w <= 7 && w in shift.workingDays && WeeksApart(date, w - 4)
  }

  predicate WeeksApart(a: int, b: int) {
    (a - b) % 7 == 0
  }

  lemma WorksOnExactly(shift: Shift, date: int)
    ensures Weekday(date) in shift.workingDays <==> WorksOn(shift, date)
  {
    assert WeeksApart(date, Weekday(date) - 4);
    if WorksOn(shift, date) {
      var w :| 1 <= w <= 7 && w in shift.workingDays && WeeksApart(date, w - 4);
      assert w == Weekday(date);
    }
  }

  // ----- The status -----

  ghost predicate StatusIsDerived(input: Input) {
    forall a :: a in input.adjustments ==> !a.change.SetStatus?
  }

  predicate NoPunch(r: Result) {
    r.firstIn == None && r.lastOut == None
  }

  /** The status of a day that no adjustment sets: present with a punch, as adjusted; otherwise leave before holiday before anything
      else; without a shift that is said; and with one the weekday decides between absence and a rest day. */
  lemma StatusMeaning(input: Input)
    requires StatusIsDerived(input)
    ensures var r := Attendance(input);
            && (r.status == Present <==> !NoPunch(r))
            && (r.status == Leave <==> NoPunch(r) && input.leave)
            && (r.status == Holiday <==> NoPunch(r) && !input.leave && input.holiday)
            && (r.status == NoShift <==> NoPunch(r) && !input.leave && !input.holiday && input.shift == None)
            && (r.status == Absent <==>
                  NoPunch(r) && !input.leave && !input.holiday && input.shift.Some? && WorksOn(input.shift.value, input.date))
            && (r.status == RestDay <==>
                  NoPunch(r) && !input.leave && !input.holiday && input.shift.Some? && !WorksOn(input.shift.value, input.date))
  {
    var adjustments := Sort(input.adjustments, AdjustmentKey);
    SortSorts(input.adjustments, AdjustmentKey);
    SameMembers(adjustments, input.adjustments);
    NothingSet(adjustments);
    if input.shift.Some? {
      WorksOnExactly(input.shift.value, input.date);
    }
  }

  lemma {:induction false} NothingSet(adjustments: seq<Adjustment>)
    requires forall a :: a in adjustments ==> !a.change.SetStatus?
    ensures AdjustedStatus(adjustments) == None
  {
    if adjustments != [] {
      NothingSet(adjustments[..|adjustments| - 1]);
    }
  }

  // ----- The latest approval -----

  /** Approved later, or at the same time with a later id; an adjustment without a time of approval comes before all others. */
  predicate ApprovedAfter(a: Adjustment, b: Adjustment) {
    match (a.approvedAt, b.approvedAt)
    case (Some(t), Some(u)) => t > u || (t == u && a.id > b.id)
    case (Some(_), None) => true
    case (None, Some(_)) => false
    case (None, None) => a.id > b.id
  }

  lemma ApprovedAfterExactly(a: Adjustment, b: Adjustment)
    ensures ApprovedAfter(a, b) <==> Before(AdjustmentKey(b), AdjustmentKey(a))
  {
  }

  ghost predicate LatestApproved(adjustments: seq<Adjustment>, a: Adjustment, touches: Adjustment -> bool) {
    a in adjustments && touches(a) && forall b :: b in adjustments && touches(b) && b != a ==> ApprovedAfter(a, b)
  }

  /** Check-in, check-out and status are what the latest approved adjustment of each says, whatever the punches say. */
  lemma LatestApprovalDecides(input: Input, a: Adjustment)
    requires forall x, y :: x in input.adjustments && y in input.adjustments && x.id == y.id && x.approvedAt == y.approvedAt ==> x == y
    ensures LatestApproved(input.adjustments, a, TouchesIn) ==>
              Attendance(input).firstIn == match a.change case SetFirstIn(at) => Some(at) case _ => None
    ensures LatestApproved(input.adjustments, a, TouchesOut) ==>
              Attendance(input).lastOut == match a.change case SetLastOut(at) => Some(at) case _ => None
    ensures LatestApproved(input.adjustments, a, TouchesStatus) ==> a.change == SetStatus(Attendance(input).status)
  {
    forall x, y | x in input.adjustments && y in input.adjustments && AdjustmentKey(x) == AdjustmentKey(y) ensures x == y {
      assert x.id == y.id && x.approvedAt == y.approvedAt;
    }
    forall b ensures ApprovedAfter(a, b) ==> !Before(AdjustmentKey(a), AdjustmentKey(b)) {
      ApprovedAfterExactly(a, b);
    }
    if LatestApproved(input.adjustments, a, TouchesIn) {
      assert LatestOf(input.adjustments, a, TouchesIn);
    }
    if LatestApproved(input.adjustments, a, TouchesOut) {
      assert LatestOf(input.adjustments, a, TouchesOut);
    }
    if LatestApproved(input.adjustments, a, TouchesStatus) {
      assert LatestOf(input.adjustments, a, TouchesStatus);
    }
    LatestApprovalWins(input, a);
  }

  // ----- The punches of the day -----

  /** When the shift starts and ends on the date; an end that is not after the start is on the next day. */
  function StartsAt(input: Input): int
    requires input.shift.Some?
  {
    input.date * 86_400_000 - input.offset + input.shift.value.start * 60_000
  }

  function EndsAt(input: Input): int
    requires input.shift.Some?
  {
    input.date * 86_400_000 - input.offset + input.shift.value.end * 60_000 +
    if input.shift.value.start < input.shift.value.end then 0 else 86_400_000
  }

  /** The punches that belong to the day: from six hours before its shift to twelve hours after it, unless the shift says otherwise,
      and without a shift those of the local day. */
  predicate Belongs(input: Input, p: Punch) {
    WindowStart(input) <= p.at <= WindowEnd(input)
  }

  function WindowStart(input: Input): int {
    match input.shift
    case None => input.date * 86_400_000 - input.offset
    case Some(shift) => StartsAt(input) - (match shift.earlyWindow case Some(m) => m case None => 360) * 60_000
  }

  function WindowEnd(input: Input): int {
    match input.shift
    case None => (input.date + 1) * 86_400_000 - input.offset
    case Some(shift) => EndsAt(input) + (match shift.lateWindow case Some(m) => m case None => 720) * 60_000
  }

  lemma BelongsExactly(input: Input, p: Punch)
    ensures Inside(p, PunchWindow(input.date, input.offset, input.shift)) <==> Belongs(input, p)
  {
  }

  /** The source events of the day are exactly those of the punches that belong to it. */
  lemma SourceEvents(input: Input, id: int)
    ensures id in Attendance(input).sourceEventIds <==> exists p :: p in input.punches && p.id == id && Belongs(input, p)
  {
    var w := PunchWindow(input.date, input.offset, input.shift);
    PunchesConserved(input.punches, PunchModeOf(input.shift), w);
    InsideMembers(input.punches, w);
    forall p ensures Inside(p, w) <==> Belongs(input, p) {
      BelongsExactly(input, p);
    }
    var inside := InsideOnly(input.punches, w);
    assert id in Attendance(input).sourceEventIds <==> id in PunchIds(inside) by {
      SameMembers(Attendance(input).sourceEventIds, PunchIds(inside));
    }
    if id in PunchIds(inside) {
      var k :| 0 <= k < |PunchIds(inside)| && PunchIds(inside)[k] == id;
      assert inside[k] in inside;
    }
    if p :| p in input.punches && p.id == id && Belongs(input, p) {
      assert p in inside;
      var k :| 0 <= k < |inside| && inside[k] == p;
      assert PunchIds(inside)[k] == id;
    }
  }

  lemma DayWindow(input: Input)
    ensures PunchWindow(input.date, input.offset, input.shift) == Window(WindowStart(input), WindowEnd(input))
  {
  }

  function ModeOf(input: Input): PunchMode {
    match input.shift case Some(shift) => shift.punchMode case None => FirstLast
  }

  /** Check-in and check-out of a day without adjustments of them are those selected from the punches that belong to it, in the
      shift's mode, or by first and last punch without a shift. */
  lemma UnadjustedPunches(input: Input)
    requires forall a :: a in input.adjustments ==> a.change.SetStatus?
    ensures var selected := Select(input.punches, ModeOf(input), Window(WindowStart(input), WindowEnd(input)));
            Attendance(input).firstIn == selected.firstIn && Attendance(input).lastOut == selected.lastOut
  {
    var adjustments := Sort(input.adjustments, AdjustmentKey);
    assert forall a :: a in adjustments ==> a.change.SetStatus? by {
      SortSorts(input.adjustments, AdjustmentKey);
      SameMembers(adjustments, input.adjustments);
    }
    DayWindow(input);
    var selected := Select(input.punches, ModeOf(input), Window(WindowStart(input), WindowEnd(input)));
    NothingMoved(selected.firstIn, selected.lastOut, adjustments);
    assert PunchModeOf(input.shift) == ModeOf(input);
  }

  lemma {:induction false} NothingMoved(firstIn: Option<int>, lastOut: Option<int>, adjustments: seq<Adjustment>)
    requires forall a :: a in adjustments ==> a.change.SetStatus?
    ensures AdjustedIn(firstIn, adjustments) == firstIn && AdjustedOut(lastOut, adjustments) == lastOut
  {
    if adjustments != [] {
      NothingMoved(firstIn, lastOut, adjustments[..|adjustments| - 1]);
    }
  }

  // ----- The minutes -----

  /** The fewest whole minutes that reach from one instant to a later one. */
  predicate FewestMinutes(start: int, end: int, minutes: nat) {
    start + (minutes - 1) * 60_000 < end <= start + minutes * 60_000
  }

  /** The whole minutes between two instants, none if the second comes first. */
  predicate WholeMinutes(start: int, end: int, minutes: nat) {
    if start <= end then start + minutes * 60_000 <= end < start + (minutes + 1) * 60_000 else minutes == 0
  }

  /** Lateness counts from the end of the grace period, or from the shift's start, and only for an arrival after the grace period. */
  lemma DayLateness(input: Input)
    ensures var r := Attendance(input);
            if input.shift.None? || r.firstIn.None? then r.lateMinutes == 0
            else
              var grace := StartsAt(input) + input.shift.value.grace * 60_000;
              && (r.lateMinutes > 0 <==> r.firstIn.value > grace)
              && (r.firstIn.value > grace ==>
                    FewestMinutes(if input.shift.value.lateMode == FromShiftStart then StartsAt(input) else grace, r.firstIn.value, r.lateMinutes))
  {
  }

  lemma DayEarlyLeave(input: Input)
    ensures var r := Attendance(input);
            if input.shift.None? || r.lastOut.None? then r.earlyLeaveMinutes == 0
            else
              var threshold := EndsAt(input) - input.shift.value.earlyLeaveGrace * 60_000;
              && (r.earlyLeaveMinutes > 0 <==> r.lastOut.value < threshold)
              && (r.lastOut.value < threshold ==> FewestMinutes(r.lastOut.value, threshold, r.earlyLeaveMinutes))
  {
  }

  /** Worked time is the whole minutes from check-in to check-out less the break, which takes no more than there is. */
  lemma DayWorked(input: Input, minutes: nat)
    ensures var r := Attendance(input);
            && (r.firstIn.None? || r.lastOut.None? ==> r.workedMinutes == 0)
            && (r.firstIn.Some? && r.lastOut.Some? && WholeMinutes(r.firstIn.value, r.lastOut.value, minutes) ==>
                  r.workedMinutes == Max(0, minutes - if input.shift.Some? then input.shift.value.breakMinutes else 0))
  {
  }

  /** Overtime is earned for whole minutes worked from some time after the shift's end on: none below the minimum, and otherwise
      rounded as the policy says. */
  lemma DayOvertime(input: Input, minutes: nat)
    ensures var r := Attendance(input);
            if input.shift.None? || r.lastOut.None? then r.overtimeMinutes == 0
            else
              var policy := input.shift.value.overtime;
              WholeMinutes(EndsAt(input) + policy.startDelay * 60_000, r.lastOut.value, minutes) ==>
                if !policy.enabled || minutes < policy.minimum then r.overtimeMinutes == 0
                else if policy.rounding == NoRounding || policy.increment <= 1 then r.overtimeMinutes == minutes
                else Rounds(minutes, policy.increment, policy.rounding, r.overtimeMinutes)
  {
    if input.shift.Some? && Attendance(input).lastOut.Some? {
      var policy := input.shift.value.overtime;
      var start := EndsAt(input) + policy.startDelay * 60_000;
      if WholeMinutes(start, Attendance(input).lastOut.value, minutes) {
        assert MinutesFloor(start, Attendance(input).lastOut.value) == minutes;
        assert ScheduledOut(input.date, input.offset, input.shift.value) == EndsAt(input);
        if policy.increment > 1 {
          RoundedRounds(minutes, policy.increment, policy.rounding);
        }
      }
    }
  }
}
