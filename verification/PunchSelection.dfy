/** Choosing the punches that count for a day: window, order, repeats within a minute, first in and last out.
    An event id is a number that stands for the string in its sort order; instants are milliseconds. */
module PunchSelection {
  import opened Base
  import opened Sorting

  const REPEAT_WINDOW := 60_000

  datatype Direction = In | Out | Unknown

  datatype PunchMode = FirstLast | ExplicitStatus

  datatype Punch = Punch(id: int, at: int, direction: Direction)

  datatype Window = Window(earliest: int, latest: int)

  /** Punches repeat each other only within a group: the direction, when the device reports one. */
  datatype Group = Everyone | Toward(direction: Direction)

  datatype Selection = Selection(
    firstIn: Option<int>,
    lastOut: Option<int>,
    sourceEventIds: seq<int>,
    duplicateCount: nat,
    ignoredOutsideWindow: nat)

  function PunchKey(p: Punch): (int, int) {
    (p.at, p.id)
  }

  function IdKey(id: int): (int, int) {
    (id, 0)
  }

  function GroupOf(p: Punch, mode: PunchMode): Group {
    if mode.ExplicitStatus? then Toward(p.direction) else Everyone
  }

  predicate Inside(p: Punch, w: Window) {
    w.earliest <= p.at <= w.latest
  }

  predicate Earlier(p: Punch, q: Punch) {
    Before(PunchKey(p), PunchKey(q))
  }

  // ----- The selection as folds -----

  function InsideOnly(ps: seq<Punch>, w: Window): seq<Punch> {
    if ps == [] then []
    else InsideOnly(ps[..|ps| - 1], w) + if Inside(ps[|ps| - 1], w) then [ps[|ps| - 1]] else []
  }

  function LastSeen(s: seq<Punch>, group: Group, mode: PunchMode): Option<int> {
    if s == [] then None
    else if GroupOf(s[|s| - 1], mode) == group then Some(s[|s| - 1].at)
    else LastSeen(s[..|s| - 1], group, mode)
  }

  predicate Repeats(s: seq<Punch>, p: Punch, mode: PunchMode) {
    var seen := LastSeen(s, GroupOf(p, mode), mode);
    seen.Some? && p.at - seen.value <= REPEAT_WINDOW
  }

  function Kept(s: seq<Punch>, mode: PunchMode): seq<Punch> {
    if s == [] then []
    else
      var init, p := s[..|s| - 1], s[|s| - 1];
      Kept(init, mode) + if Repeats(init, p, mode) then [] else [p]
  }

  function RepeatIds(s: seq<Punch>, mode: PunchMode): seq<int> {
    if s == [] then []
    else
      var init, p := s[..|s| - 1], s[|s| - 1];
      RepeatIds(init, mode) + if Repeats(init, p, mode) then [p.id] else []
  }

  function PunchIds(s: seq<Punch>): (ids: seq<int>)
    ensures |ids| == |s| && forall i :: 0 <= i < |s| ==> ids[i] == s[i].id
  {
    Each(s, (p: Punch) => p.id)
  }

  function Directed(s: seq<Punch>, d: Direction): seq<Punch> {
    if s == [] then []
    else Directed(s[..|s| - 1], d) + if s[|s| - 1].direction == d then [s[|s| - 1]] else []
  }

  function FirstAt(s: seq<Punch>): Option<int> {
    if s == [] then None else Some(s[0].at)
  }

  function LastAt(s: seq<Punch>): Option<int> {
    if s == [] then None else Some(s[|s| - 1].at)
  }

  predicate Explicit(unique: seq<Punch>, mode: PunchMode) {
    mode.ExplicitStatus? && exists p :: p in unique && p.direction != Unknown
  }

  function FirstIn(unique: seq<Punch>, mode: PunchMode): Option<int> {
    if Explicit(unique, mode) then FirstAt(Directed(unique, In))
    else if |unique| == 1 && unique[0].direction == Out then None
    else FirstAt(unique)
  }

  function LastOut(unique: seq<Punch>, mode: PunchMode): Option<int> {
    if Explicit(unique, mode) then LastAt(Directed(unique, Out))
    else if |unique| == 1 && unique[0].direction != Out then None
    else LastAt(unique)
  }

  function InOrder(ps: seq<Punch>, w: Window): seq<Punch> {
    Sort(InsideOnly(ps, w), PunchKey)
  }

  function Select(ps: seq<Punch>, mode: PunchMode, w: Window): Selection {
    var s := InOrder(ps, w);
    var unique, repeats := Kept(s, mode), RepeatIds(s, mode);
    Selection(FirstIn(unique, mode), LastOut(unique, mode), Sort(PunchIds(unique) + repeats, IdKey), |repeats|,
              Outside(ps, w))
  }

  function Outside(ps: seq<Punch>, w: Window): nat {
    if ps == [] then 0
    else Outside(ps[..|ps| - 1], w) + if Inside(ps[|ps| - 1], w) then 0 else 1
  }

  // ----- The selection as the engine computes it -----

  /** The filtering loop of `selectPunches`. */
  method FilterPunches(punches: seq<Punch>, window: Window) returns (inWindow: seq<Punch>, ignored: nat)
    ensures inWindow == InsideOnly(punches, window) && ignored == Outside(punches, window)
  {
    inWindow, ignored := [], 0;
    for i := 0 to |punches|
      invariant inWindow == InsideOnly(punches[..i], window) && ignored == Outside(punches[..i], window)
    {
      PrefixStep(punches, i);
      if punches[i].at < window.earliest || punches[i].at > window.latest {
        ignored := ignored + 1;
      } else {
        inWindow := inWindow + [punches[i]];
      }
    }
    WholePrefix(punches);
  }

  /** The map holds the time of the last punch of each group. */
  ghost predicate Remembers(lastSeen: map<Group, int>, s: seq<Punch>, mode: PunchMode) {
    forall g :: LastSeen(s, g, mode) == if g in lastSeen then Some(lastSeen[g]) else None
  }

  lemma RemembersMore(lastSeen: map<Group, int>, s: seq<Punch>, mode: PunchMode)
    requires s != [] && Remembers(lastSeen, s[..|s| - 1], mode)
    ensures var init, p := s[..|s| - 1], s[|s| - 1];
            var group := GroupOf(p, mode);
            && Remembers(lastSeen[group := p.at], s, mode)
            && (Repeats(init, p, mode) <==> group in lastSeen && p.at - lastSeen[group] <= REPEAT_WINDOW)
            && Kept(s, mode) == Kept(init, mode) + (if Repeats(init, p, mode) then [] else [p])
            && RepeatIds(s, mode) == RepeatIds(init, mode) + (if Repeats(init, p, mode) then [p.id] else [])
  {
  }

  /** Its loop over the sorted punches, which remembers the last punch of each group, repeated or not. */
  method DropRepeats(inWindow: seq<Punch>, mode: PunchMode) returns (unique: seq<Punch>, duplicateIds: seq<int>)
    ensures unique == Kept(inWindow, mode) && duplicateIds == RepeatIds(inWindow, mode)
  {
    unique, duplicateIds := [], [];
    var lastSeen: map<Group, int> := map[];
    for i := 0 to |inWindow|
      invariant unique == Kept(inWindow[..i], mode) && duplicateIds == RepeatIds(inWindow[..i], mode)
      invariant Remembers(lastSeen, inWindow[..i], mode)
    {
      PrefixStep(inWindow, i);
      RemembersMore(lastSeen, inWindow[..i + 1], mode);
      var punch := inWindow[i];
      var group := GroupOf(punch, mode);
      var repeated := group in lastSeen && punch.at - lastSeen[group] <= REPEAT_WINDOW;
      lastSeen := lastSeen[group := punch.at];
      if repeated {
        duplicateIds := duplicateIds + [punch.id];
      } else {
        unique := unique + [punch];
      }
    }
    WholePrefix(inWindow);
  }

  /** `selectPunches`. */
  method SelectPunches(punches: seq<Punch>, mode: PunchMode, window: Window) returns (selection: Selection)
    ensures selection == Select(punches, mode, window)
  {
    var inWindow, ignored := FilterPunches(punches, window);
    var unique, duplicateIds := DropRepeats(Sort(inWindow, PunchKey), mode);
    selection := Selection(FirstIn(unique, mode), LastOut(unique, mode), Sort(PunchIds(unique) + duplicateIds, IdKey),
                           |duplicateIds|, ignored);
  }

  // ----- What it means -----

  /** Another punch of its group came within a minute before it. */
  ghost predicate Preceded(s: seq<Punch>, p: Punch, mode: PunchMode) {
    exists q :: q in s && GroupOf(q, mode) == GroupOf(p, mode) && Earlier(q, p) && p.at - q.at <= REPEAT_WINDOW
  }

  lemma {:induction false} KeptWithin(s: seq<Punch>, mode: PunchMode)
    ensures forall p :: p in Kept(s, mode) ==> p in s
  {
    if s != [] {
      KeptWithin(s[..|s| - 1], mode);
    }
  }

  lemma {:induction false} LastSeenIsLatest(s: seq<Punch>, group: Group, mode: PunchMode)
    requires Sorted(s, PunchKey)
    ensures LastSeen(s, group, mode).None? <==> forall p :: p in s ==> GroupOf(p, mode) != group
    ensures LastSeen(s, group, mode).Some? ==>
              && (exists p :: p in s && GroupOf(p, mode) == group && p.at == LastSeen(s, group, mode).value)
              && (forall p :: p in s && GroupOf(p, mode) == group ==> p.at <= LastSeen(s, group, mode).value)
  {
    if s != [] {
      var init, last := s[..|s| - 1], s[|s| - 1];
      PrefixSorted(s, PunchKey);
      LastSeenIsLatest(init, group, mode);
      assert last in s && s == init + [last];
      forall p | p in init ensures p.at <= last.at {
        var i :| 0 <= i < |init| && init[i] == p;
        assert !Earlier(s[|s| - 1], s[i]);
      }
    }
  }

  lemma RepeatsMeaning(init: seq<Punch>, last: Punch, mode: PunchMode)
    requires Sorted(init + [last], PunchKey) && KeysIdentify(init + [last], PunchKey)
    ensures Repeats(init, last, mode) <==> last in init || Preceded(init, last, mode)
  {
    var s := init + [last];
    forall i, j | 0 <= i < j < |init| ensures !Before(PunchKey(init[j]), PunchKey(init[i])) {
      assert s[i] == init[i] && s[j] == init[j];
    }
    var group := GroupOf(last, mode);
    LastSeenIsLatest(init, group, mode);
    if Repeats(init, last, mode) {
      var q :| q in init && GroupOf(q, mode) == group && q.at == LastSeen(init, group, mode).value;
      var i :| 0 <= i < |init| && init[i] == q;
      assert s[i] == q && s[|init|] == last;
      assert !Earlier(last, q);
      assert q in s && last in s;
    }
  }

  /** A sorted punch is kept just when no punch of its group came within a minute before it. */
  lemma {:induction false} KeptMember(s: seq<Punch>, p: Punch, mode: PunchMode)
    requires Sorted(s, PunchKey) && KeysIdentify(s, PunchKey)
    ensures p in Kept(s, mode) <==> p in s && !Preceded(s, p, mode)
  {
    if s != [] {
      var init, last := s[..|s| - 1], s[|s| - 1];
      assert s == init + [last];
      PrefixSorted(s, PunchKey);
      KeptMember(init, p, mode);
      RepeatsMeaning(init, last, mode);
      KeptWithin(init, mode);
      if p in init {
        var i :| 0 <= i < |init| && init[i] == p;
        assert s[i] == p && !Earlier(s[|s| - 1], s[i]);
      }
      assert !Earlier(last, last);
      assert Preceded(s, p, mode) <==> Preceded(init, p, mode) || (p !in init && Earlier(last, p) && Preceded(s, p, mode));
    }
  }

  lemma {:induction false} InsideMembers(ps: seq<Punch>, w: Window)
    ensures forall p :: p in InsideOnly(ps, w) <==> p in ps && Inside(p, w)
    ensures |InsideOnly(ps, w)| + Outside(ps, w) == |ps|
  {
    if ps != [] {
      InsideMembers(ps[..|ps| - 1], w);
      assert ps == ps[..|ps| - 1] + [ps[|ps| - 1]];
    }
  }

  lemma InOrderMembers(ps: seq<Punch>, w: Window)
    ensures Sorted(InOrder(ps, w), PunchKey) && multiset(InOrder(ps, w)) == multiset(InsideOnly(ps, w))
    ensures forall p :: p in InOrder(ps, w) <==> p in ps && Inside(p, w)
    ensures |InOrder(ps, w)| + Outside(ps, w) == |ps|
  {
    InsideMembers(ps, w);
    SortSorts(InsideOnly(ps, w), PunchKey);
    SameMembers(InsideOnly(ps, w), InOrder(ps, w));
  }

  /** The second punch came within a minute after the first, in the same direction if the device reports directions. */
  predicate RepeatedBy(q: Punch, p: Punch, mode: PunchMode) {
    (mode == FirstLast || q.direction == p.direction) && (q.at < p.at || (q.at == p.at && q.id < p.id)) && p.at - q.at <= 60_000
  }

  /** In terms of the input alone: a punch counts just when it lies in the window and no other punch of the window and of its
      group came within the minute before it, whether or not that one counted itself. */
  lemma KeptExactly(ps: seq<Punch>, mode: PunchMode, w: Window, p: Punch)
    requires KeysIdentify(ps, PunchKey)
    ensures p in Kept(InOrder(ps, w), mode) <==>
            && p in ps && Inside(p, w)
            && !exists q :: q in ps && Inside(q, w) && RepeatedBy(q, p, mode)
  {
    InOrderMembers(ps, w);
    forall q ensures RepeatedBy(q, p, mode) <==> GroupOf(q, mode) == GroupOf(p, mode) && Earlier(q, p) && p.at - q.at <= REPEAT_WINDOW {
    }
    KeptMember(InOrder(ps, w), p, mode);
  }

  /** Every punch belongs to a chain of gaps of at most a minute whose first punch, and no other, is kept. */
  lemma {:induction false} ChainHead(s: seq<Punch>, mode: PunchMode, i: nat) returns (head: Punch)
    requires Sorted(s, PunchKey) && KeysIdentify(s, PunchKey) && i < |s|
    ensures head in Kept(s, mode) && GroupOf(head, mode) == GroupOf(s[i], mode) && !Earlier(s[i], head)
    ensures forall q :: q in s && GroupOf(q, mode) == GroupOf(head, mode) && Earlier(head, q) && !Earlier(s[i], q) ==>
              Preceded(s, q, mode) && q !in Kept(s, mode)
    decreases i
  {
    KeptMember(s, s[i], mode);
    head := s[i];
    if Preceded(s, s[i], mode) {
      var q :| q in s && GroupOf(q, mode) == GroupOf(s[i], mode) && Earlier(q, s[i]) && s[i].at - q.at <= REPEAT_WINDOW;
      var j :| 0 <= j < |s| && s[j] == q;
      assert j < i;
      head := ChainHead(s, mode, j);
    }
    forall q | q in s && GroupOf(q, mode) == GroupOf(head, mode) && Earlier(head, q) && !Earlier(s[i], q)
      ensures Preceded(s, q, mode) && q !in Kept(s, mode)
    {
      KeptMember(s, q, mode);
    }
  }

  /** The outcome does not depend on the order in which the punches were loaded. */
  lemma OrderIndependent(ps: seq<Punch>, qs: seq<Punch>, mode: PunchMode, w: Window)
    requires multiset(ps) == multiset(qs) && KeysIdentify(ps, PunchKey)
    ensures Select(ps, mode, w) == Select(qs, mode, w)
  {
    InsideMembers(ps, w);
    SameInside(ps, qs, w);
    SortIgnoresOrder(InsideOnly(ps, w), InsideOnly(qs, w), PunchKey);
    InOrderMembers(ps, w);
    InOrderMembers(qs, w);
    SameMembers(ps, qs);
  }

  lemma SameInside(ps: seq<Punch>, qs: seq<Punch>, w: Window)
    requires multiset(ps) == multiset(qs)
    ensures multiset(InsideOnly(ps, w)) == multiset(InsideOnly(qs, w))
  {
    forall p ensures multiset(InsideOnly(ps, w))[p] == multiset(InsideOnly(qs, w))[p] {
      InsideCount(ps, w, p);
      InsideCount(qs, w, p);
    }
  }

  lemma {:induction false} InsideCount(ps: seq<Punch>, w: Window, p: Punch)
    ensures multiset(InsideOnly(ps, w))[p] == if Inside(p, w) then multiset(ps)[p] else 0
  {
    if ps != [] {
      InsideCount(ps[..|ps| - 1], w, p);
      assert ps == ps[..|ps| - 1] + [ps[|ps| - 1]];
    }
  }

  lemma {:induction false} IdsSplit(s: seq<Punch>, mode: PunchMode)
    ensures multiset(PunchIds(Kept(s, mode))) + multiset(RepeatIds(s, mode)) == multiset(PunchIds(s))
  {
    if s != [] {
      var init, last := s[..|s| - 1], s[|s| - 1];
      IdsSplit(init, mode);
      assert PunchIds(s) == PunchIds(init) + [last.id];
      assert PunchIds(Kept(init, mode) + [last]) == PunchIds(Kept(init, mode)) + [last.id];
      assert Kept(init, mode) + [] == Kept(init, mode);
    }
  }

  lemma IdsJoin(s: seq<Punch>, t: seq<Punch>)
    ensures PunchIds(s + t) == PunchIds(s) + PunchIds(t)
  {
  }

  lemma TakenOut(t: seq<Punch>, i: nat)
    requires i < |t|
    ensures multiset(t[..i] + t[i + 1..]) == multiset(t) - multiset{t[i]}
    ensures multiset(PunchIds(t)) == multiset(PunchIds(t[..i] + t[i + 1..])) + multiset{t[i].id}
  {
    var front, back := t[..i], t[i + 1..];
    assert t == front + [t[i]] + back;
    IdsJoin(front, back);
    IdsJoin(front + [t[i]], back);
    IdsJoin(front, [t[i]]);
    assert PunchIds([t[i]]) == [t[i].id];
  }

  lemma {:induction false} IdsOfPermutation(s: seq<Punch>, t: seq<Punch>)
    requires multiset(s) == multiset(t)
    ensures multiset(PunchIds(s)) == multiset(PunchIds(t))
    decreases |s|
  {
    SameMembers(s, t);
    if s != [] {
      assert s[0] in s && s[0] in t;
      var i :| 0 <= i < |t| && t[i] == s[0];
      TakenOut(s, 0);
      TakenOut(t, i);
      IdsOfPermutation(s[..0] + s[1..], t[..i] + t[i + 1..]);
    }
  }

  /** Every punch is accounted for: kept, repeated or outside; and the reported ids are those of the window, in order. */
  lemma PunchesConserved(ps: seq<Punch>, mode: PunchMode, w: Window)
    ensures var r := Select(ps, mode, w);
            && |Kept(InOrder(ps, w), mode)| + r.duplicateCount + r.ignoredOutsideWindow == |ps|
            && multiset(r.sourceEventIds) == multiset(PunchIds(InsideOnly(ps, w)))
            && Sorted(r.sourceEventIds, IdKey)
  {
    var s := InOrder(ps, w);
    var all := PunchIds(Kept(s, mode)) + RepeatIds(s, mode);
    InOrderMembers(ps, w);
    IdsSplit(s, mode);
    assert |multiset(PunchIds(s))| == |s| && |multiset(all)| == |all|;
    assert multiset(all) == multiset(PunchIds(s));
    IdsOfPermutation(s, InsideOnly(ps, w));
    SortSorts(all, IdKey);
  }

  /** Punches of one group are more than a minute apart. */
  ghost predicate Spread(s: seq<Punch>, mode: PunchMode) {
    forall i, j :: 0 <= i < j < |s| && GroupOf(s[i], mode) == GroupOf(s[j], mode) ==> s[j].at - s[i].at > REPEAT_WINDOW
  }

  lemma {:induction false} KeptSpread(s: seq<Punch>, mode: PunchMode)
    requires Sorted(s, PunchKey)
    ensures Spread(Kept(s, mode), mode) && Sorted(Kept(s, mode), PunchKey)
  {
    KeptSorted(s, mode);
    if s != [] {
      var init, last := s[..|s| - 1], s[|s| - 1];
      PrefixSorted(s, PunchKey);
      KeptSpread(init, mode);
      KeptWithin(init, mode);
      LastSeenIsLatest(init, GroupOf(last, mode), mode);
    }
  }

  lemma {:induction false} KeptSorted(s: seq<Punch>, mode: PunchMode)
    requires Sorted(s, PunchKey)
    ensures Sorted(Kept(s, mode), PunchKey)
  {
    if s != [] {
      var init, last := s[..|s| - 1], s[|s| - 1];
      PrefixSorted(s, PunchKey);
      KeptSorted(init, mode);
      KeptWithin(init, mode);
      var kept := Kept(init, mode);
      forall k | 0 <= k < |kept| ensures !Before(PunchKey(last), PunchKey(kept[k])) {
        assert kept[k] in kept;
        var i :| 0 <= i < |init| && init[i] == kept[k];
        assert s[i] == kept[k];
      }
    }
  }

  lemma SpreadLast(s: seq<Punch>, mode: PunchMode)
    requires Spread(s, mode) && Sorted(s, PunchKey) && s != []
    ensures Spread(s[..|s| - 1], mode) && !Repeats(s[..|s| - 1], s[|s| - 1], mode)
  {
    var init, last := s[..|s| - 1], s[|s| - 1];
    PrefixSorted(s, PunchKey);
    LastSeenIsLatest(init, GroupOf(last, mode), mode);
    var seen := LastSeen(init, GroupOf(last, mode), mode);
    if seen.Some? {
      var p :| p in init && GroupOf(p, mode) == GroupOf(last, mode) && p.at == seen.value;
      var i :| 0 <= i < |init| && init[i] == p;
      assert s[i] == p;
    }
  }

  lemma {:induction false} SpreadKept(s: seq<Punch>, mode: PunchMode)
    requires Spread(s, mode) && Sorted(s, PunchKey)
    ensures Kept(s, mode) == s && RepeatIds(s, mode) == []
  {
    if s != [] {
      PrefixSorted(s, PunchKey);
      SpreadLast(s, mode);
      SpreadKept(s[..|s| - 1], mode);
      assert s == s[..|s| - 1] + [s[|s| - 1]];
    }
  }

  lemma {:induction false} AllInside(s: seq<Punch>, w: Window)
    requires forall p :: p in s ==> Inside(p, w)
    ensures InsideOnly(s, w) == s && Outside(s, w) == 0
  {
    if s != [] {
      AllInside(s[..|s| - 1], w);
      assert s == s[..|s| - 1] + [s[|s| - 1]];
    }
  }

  /** Selecting again from what was kept keeps all of it and finds the same first in and last out. */
  lemma SelectionIdempotent(ps: seq<Punch>, mode: PunchMode, w: Window)
    ensures var kept := Kept(InOrder(ps, w), mode);
            && Kept(InOrder(kept, w), mode) == kept
            && var first, again := Select(ps, mode, w), Select(kept, mode, w);
               && again.firstIn == first.firstIn && again.lastOut == first.lastOut
               && again.duplicateCount == 0 && again.ignoredOutsideWindow == 0
  {
    InOrderMembers(ps, w);
    var kept := Kept(InOrder(ps, w), mode);
    KeptWithin(InOrder(ps, w), mode);
    KeptSpread(InOrder(ps, w), mode);
    AllInside(kept, w);
    SortKeepsSorted(kept, PunchKey);
    SpreadKept(kept, mode);
  }

  // ----- First in and last out -----

  /** The punches a bound ranges over: inside the window and, if given, of one direction. */
  predicate Eligible(ps: seq<Punch>, w: Window, d: Option<Direction>, p: Punch) {
    p in ps && Inside(p, w) && (d.None? || p.direction == d.value)
  }

  /** The earliest time of an eligible punch, if there is one. */
  ghost predicate EarliestOf(t: Option<int>, ps: seq<Punch>, w: Window, d: Option<Direction>) {
    match t
    case None => forall p :: !Eligible(ps, w, d, p)
    case Some(at) => (exists p :: Eligible(ps, w, d, p) && p.at == at) && (forall p :: Eligible(ps, w, d, p) ==> at <= p.at)
  }

  /** The latest time of an eligible punch that counts, if there is one. */
  ghost predicate LatestKept(t: Option<int>, ps: seq<Punch>, mode: PunchMode, w: Window, d: Option<Direction>) {
    match t
    case None => forall p :: !Eligible(ps, w, d, p)
    case Some(at) =>
      && (exists p :: Eligible(ps, w, d, p) && p in Kept(InOrder(ps, w), mode) && p.at == at)
      && (forall p :: Eligible(ps, w, d, p) && p in Kept(InOrder(ps, w), mode) ==> p.at <= at)
  }

  lemma {:induction false} DirectedMembers(s: seq<Punch>, d: Direction)
    requires Sorted(s, PunchKey)
    ensures Sorted(Directed(s, d), PunchKey) && forall p :: p in Directed(s, d) <==> p in s && p.direction == d
  {
    if s != [] {
      var init, last := s[..|s| - 1], s[|s| - 1];
      PrefixSorted(s, PunchKey);
      DirectedMembers(init, d);
      assert s == init + [last];
      forall p | p in Directed(init, d) ensures !Earlier(last, p) {
        var i :| 0 <= i < |init| && init[i] == p;
        assert s[i] == p;
      }
    }
  }

  lemma SortedEnds(s: seq<Punch>)
    requires Sorted(s, PunchKey) && s != []
    ensures s[0] in s && s[|s| - 1] in s
    ensures forall p :: p in s ==> s[0].at <= p.at <= s[|s| - 1].at
  {
    forall p | p in s ensures s[0].at <= p.at <= s[|s| - 1].at {
      var i :| 0 <= i < |s| && s[i] == p;
      assert i > 0 ==> !Earlier(s[i], s[0]);
      assert i < |s| - 1 ==> !Earlier(s[|s| - 1], s[i]);
    }
  }

  /** Each eligible punch has a kept punch of its group no later than itself. */
  lemma HeadOf(ps: seq<Punch>, mode: PunchMode, w: Window, p: Punch) returns (head: Punch)
    requires KeysIdentify(ps, PunchKey) && p in ps && Inside(p, w)
    ensures head in Kept(InOrder(ps, w), mode) && head in ps && Inside(head, w)
    ensures GroupOf(head, mode) == GroupOf(p, mode) && head.at <= p.at
  {
    InOrderMembers(ps, w);
    var s := InOrder(ps, w);
    var i :| 0 <= i < |s| && s[i] == p;
    head := ChainHead(s, mode, i);
    KeptWithin(s, mode);
  }

  /** The punches of one direction among those that count: the first is the earliest of the direction in the window. */
  lemma DirectedBounds(ps: seq<Punch>, mode: PunchMode, w: Window, d: Direction)
    requires KeysIdentify(ps, PunchKey) && mode.ExplicitStatus?
    ensures var ds := Directed(Kept(InOrder(ps, w), mode), d);
            EarliestOf(FirstAt(ds), ps, w, Some(d)) && LatestKept(LastAt(ds), ps, mode, w, Some(d))
  {
    DirectedLast(ps, mode, w, d);
  }

  lemma DirectedLast(ps: seq<Punch>, mode: PunchMode, w: Window, d: Direction)
    requires KeysIdentify(ps, PunchKey) && mode.ExplicitStatus?
    ensures LatestKept(LastAt(Directed(Kept(InOrder(ps, w), mode), d)), ps, mode, w, Some(d))
    ensures EarliestOf(FirstAt(Directed(Kept(InOrder(ps, w), mode), d)), ps, w, Some(d))
  {
    DirectedFirst(ps, mode, w, d);
    var s := InOrder(ps, w);
    InOrderMembers(ps, w);
    KeptSorted(s, mode);
    KeptWithin(s, mode);
    var ds := Directed(Kept(s, mode), d);
    DirectedMembers(Kept(s, mode), d);
    if ds != [] {
      SortedEnds(ds);
      assert Eligible(ps, w, Some(d), ds[|ds| - 1]);
    }
  }

  lemma DirectedFirst(ps: seq<Punch>, mode: PunchMode, w: Window, d: Direction)
    requires KeysIdentify(ps, PunchKey) && mode.ExplicitStatus?
    ensures EarliestOf(FirstAt(Directed(Kept(InOrder(ps, w), mode), d)), ps, w, Some(d))
  {
    var s := InOrder(ps, w);
    InOrderMembers(ps, w);
    KeptSorted(s, mode);
    KeptWithin(s, mode);
    var ds := Directed(Kept(s, mode), d);
    DirectedMembers(Kept(s, mode), d);
    forall p | Eligible(ps, w, Some(d), p) ensures ds != [] && ds[0].at <= p.at {
      var h := HeadOf(ps, mode, w, p);
      assert h in ds;
      SortedEnds(ds);
    }
    if ds != [] {
      SortedEnds(ds);
      assert Eligible(ps, w, Some(d), ds[0]);
    }
  }

  lemma KnownDirection(ps: seq<Punch>, mode: PunchMode, w: Window)
    requires KeysIdentify(ps, PunchKey) && mode.ExplicitStatus?
    requires exists p :: p in ps && Inside(p, w) && p.direction != Unknown
    ensures Explicit(Kept(InOrder(ps, w), mode), mode)
  {
    var known :| known in ps && Inside(known, w) && known.direction != Unknown;
    var head := HeadOf(ps, mode, w, known);
  }

  /** With explicit directions, the first in is the earliest check-in of the window and the last out the latest check-out
      that counts. */
  lemma ExplicitInOut(ps: seq<Punch>, mode: PunchMode, w: Window)
    requires KeysIdentify(ps, PunchKey) && mode.ExplicitStatus?
    requires exists p :: p in ps && Inside(p, w) && p.direction != Unknown
    ensures EarliestOf(Select(ps, mode, w).firstIn, ps, w, Some(In))
    ensures LatestKept(Select(ps, mode, w).lastOut, ps, mode, w, Some(Out))
  {
    KnownDirection(ps, mode, w);
    DirectedBounds(ps, mode, w, In);
    DirectedBounds(ps, mode, w, Out);
  }

  /** Without them, a day with at least two counted punches runs from the earliest punch of the window to the latest counted
      one; a single counted punch is a check-out only when the device says so, and then the check-in is missing. */
  lemma UndirectedInOut(ps: seq<Punch>, mode: PunchMode, w: Window)
    requires KeysIdentify(ps, PunchKey)
    requires mode.FirstLast? || forall p :: p in ps && Inside(p, w) ==> p.direction == Unknown
    ensures var r, kept := Select(ps, mode, w), Kept(InOrder(ps, w), mode);
            && (|kept| >= 2 ==> EarliestOf(r.firstIn, ps, w, None) && LatestKept(r.lastOut, ps, mode, w, None))
            && (|kept| == 1 && kept[0].direction == Out ==> r.firstIn == None && EarliestOf(r.lastOut, ps, w, None))
            && (|kept| == 1 && kept[0].direction != Out ==> r.lastOut == None && EarliestOf(r.firstIn, ps, w, None))
            && (r.firstIn == None && r.lastOut == None <==> forall p :: p in ps ==> !Inside(p, w))
  {
    var s := InOrder(ps, w);
    var unique := Kept(s, mode);
    InOrderMembers(ps, w);
    KeptSpread(s, mode);
    KeptWithin(s, mode);
    assert !Explicit(unique, mode);
    forall p | Eligible(ps, w, None, p) ensures unique != [] && unique[0].at <= p.at {
      var h := HeadOf(ps, mode, w, p);
      SortedEnds(unique);
    }
    if unique != [] {
      SortedEnds(unique);
      assert Eligible(ps, w, None, unique[0]) && Eligible(ps, w, None, unique[|unique| - 1]);
    }
  }
}
