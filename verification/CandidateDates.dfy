/** Which days an event is recalculated for, and which punches a day's recalculation loads. The loader's range is open at its
    right end, the engine's window is closed there. */
module CandidateDates {
  import opened Base
  import opened Sorting
  import opened PunchSelection
  import opened AttendanceDay

  function LocalDate(t: int, offset: int): int {
    (t + offset) / DAY
  }

  function Candidates(t: int, offset: int): set<int> {
    {LocalDate(t, offset) - 1, LocalDate(t, offset)}
  }

  /** `dateRange` and the query of `loadPunchesBetween`. */
  predicate Loads(date: int, offset: int, shift: Option<Shift>, t: int) {
    var w := PunchWindow(date, offset, shift);
    w.earliest <= t < w.latest
  }

  ghost predicate CandidatesSuffice(shift: Shift, offset: int) {
    forall t, date :: Loads(date, offset, Some(shift), t) ==> date in Candidates(t, offset)
  }

  /** The shift's whole window lies within its own day and the next. */
  predicate FitsTwoDays(shift: Shift) {
    EarlyWindow(shift) <= shift.start && EndMinute(shift) + LateWindow(shift) <= 2 * MINUTES_PER_DAY
  }

  lemma LocalDateOf(date: int, offset: int, after: int)
    ensures LocalDate(Midnight(date, offset) + after, offset) == date + after / DAY
  {
    assert (date * DAY + after) / DAY == date + after / DAY;
  }

  /** The two candidate dates cover every day whose range holds the event, for all events, exactly when the window fits. */
  lemma CandidateDatesExactly(shift: Shift, offset: int)
    ensures CandidatesSuffice(shift, offset) <==> FitsTwoDays(shift)
  {
    if FitsTwoDays(shift) {
      forall t, date | Loads(date, offset, Some(shift), t) ensures date in Candidates(t, offset) {
        var after := t - Midnight(date, offset);
        LocalDateOf(date, offset, after);
        assert 0 <= after < 2 * DAY;
      }
    } else {
      var w := PunchWindow(0, offset, Some(shift));
      var t := if EarlyWindow(shift) > shift.start then w.earliest else w.latest - 1;
      LocalDateOf(0, offset, t - Midnight(0, offset));
      assert Loads(0, offset, Some(shift), t) && 0 !in Candidates(t, offset);
    }
  }

  /** Without a shift, every event is loaded for its local date and for no other. */
  lemma NoShiftDaysPartitionTime(date: int, offset: int, t: int)
    ensures Loads(date, offset, None, t) <==> date == LocalDate(t, offset)
  {
    var after := t - Midnight(date, offset);
    LocalDateOf(date, offset, after);
  }

  function Loaded(events: seq<Punch>, date: int, offset: int, shift: Option<Shift>): seq<Punch> {
    if events == [] then []
    else
      var last := events[|events| - 1];
      Loaded(events[..|events| - 1], date, offset, shift) + if Loads(date, offset, shift, last.at) then [last] else []
  }

  lemma {:induction false} LoadedMembers(events: seq<Punch>, date: int, offset: int, shift: Option<Shift>)
    ensures forall p :: p in Loaded(events, date, offset, shift) ==> Loads(date, offset, shift, p.at)
  {
    if events != [] {
      LoadedMembers(events[..|events| - 1], date, offset, shift);
    }
  }

  lemma {:induction false} LoadedIsInside(events: seq<Punch>, date: int, offset: int, shift: Option<Shift>)
    ensures var w := PunchWindow(date, offset, shift);
            && |Loaded(events, date, offset, shift)| <= |InsideOnly(events, w)|
            && (Loaded(events, date, offset, shift) == InsideOnly(events, w) <==> forall p :: p in events ==> p.at != w.latest)
  {
    if events != [] {
      var init, last := events[..|events| - 1], events[|events| - 1];
      LoadedIsInside(init, date, offset, shift);
      LastOf(init, last, PunchWindow(date, offset, shift).latest);
      assert events == init + [last];
      var before, inside := Loaded(init, date, offset, shift), InsideOnly(init, PunchWindow(date, offset, shift));
      assert before + [last] == inside + [last] ==> before == inside by {
        if before + [last] == inside + [last] {
          assert (before + [last])[..|before|] == before && (inside + [last])[..|inside|] == inside;
        }
      }
      assert before + [] == before && inside + [] == inside;
    }
  }

  lemma LastOf(init: seq<Punch>, last: Punch, t: int)
    ensures (forall p :: p in init + [last] ==> p.at != t) <==> (forall p :: p in init ==> p.at != t) && last.at != t
  {
    assert last in init + [last];
    assert forall p :: p in init ==> p in init + [last];
  }

  /** Loading a range first changes nothing that the engine would keep in its window, except a punch at its very end. */
  lemma LoadingExactly(events: seq<Punch>, date: int, offset: int, shift: Option<Shift>)
    ensures var w, loaded := PunchWindow(date, offset, shift), Loaded(events, date, offset, shift);
            && InsideOnly(loaded, w) == loaded && Outside(loaded, w) == 0
            && (loaded == InsideOnly(events, w) <==> forall p :: p in events ==> p.at != w.latest)
  {
    LoadedMembers(events, date, offset, shift);
    AllInside(Loaded(events, date, offset, shift), PunchWindow(date, offset, shift));
    LoadedIsInside(events, date, offset, shift);
  }

  /** So a recalculation from loaded punches reports none outside the window, and agrees with one from all events unless a punch
      falls on the end of the window to the millisecond. */
  lemma RecalculationSeesItsDay(input: Input)
    ensures var w := PunchWindow(input.date, input.offset, input.shift);
            var loaded := Loaded(input.punches, input.date, input.offset, input.shift);
            && Select(loaded, PunchModeOf(input.shift), w).ignoredOutsideWindow == 0
            && ((forall p :: p in input.punches ==> p.at != w.latest) ==>
                  Attendance(input.(punches := loaded)) == Attendance(input))
  {
    var w := PunchWindow(input.date, input.offset, input.shift);
    LoadingExactly(input.punches, input.date, input.offset, input.shift);
  }

  lemma SpreadAllKept(s: seq<Punch>, w: Window)
    requires Sorted(s, PunchKey) && Spread(s, FirstLast) && forall p :: p in s ==> Inside(p, w)
    ensures Kept(InOrder(s, w), FirstLast) == s
  {
    AllInside(s, w);
    SortKeepsSorted(s, PunchKey);
    SpreadKept(s, FirstLast);
  }

  lemma LoadedPair(p: Punch, q: Punch, date: int, offset: int)
    requires Loads(date, offset, None, p.at) && !Loads(date, offset, None, q.at)
    ensures Loaded([p, q], date, offset, None) == [p]
  {
    assert [p, q][..1] == [p];
    assert Loaded([p], date, offset, None) == [p];
  }

  lemma PairOut(p: Punch, q: Punch, w: Window)
    requires Inside(p, w) && Inside(q, w) && p.at + REPEAT_WINDOW < q.at
    ensures Select([p, q], FirstLast, w).lastOut == Some(q.at)
  {
    SpreadAllKept([p, q], w);
  }

  lemma SingleOut(p: Punch, w: Window)
    requires Inside(p, w) && p.direction != Out
    ensures Select([p], FirstLast, w).lastOut == None
  {
    SpreadAllKept([p], w);
  }

  /** The punch at the end of the window, which the engine counts and the loader leaves to the next day, can change the day: seen
      from all events the day has a last out, seen from the loaded ones it has none. */
  lemma LastInstantIsLost(date: int, offset: int, p: Punch, q: Punch)
    requires var w := PunchWindow(date, offset, None); p.at == w.earliest && q.at == w.latest && p.direction != Out
    ensures Select([p, q], FirstLast, PunchWindow(date, offset, None)).lastOut == Some(q.at)
    ensures Select(Loaded([p, q], date, offset, None), FirstLast, PunchWindow(date, offset, None)).lastOut == None
  {
    PairOut(p, q, PunchWindow(date, offset, None));
    SingleOut(p, PunchWindow(date, offset, None));
    LoadedPair(p, q, date, offset);
  }
}
