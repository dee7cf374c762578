/** Shift assignments: the overlap check that keeps an employee's assignments apart, and what that is worth to the reader that
    looks at no more than twenty of them. Dates are day numbers. */
module Assignments {
  import opened Base
  import opened RecalculationJobs
  import opened JobRuns

  /** The day that stands for an open end, 31 December 9999. */
  const LAST_DAY := 2_932_896
  const READ_LIMIT := 100

  type DocId = string

  type Docs = map<DocId, Assignment>

  function EndOf(a: Assignment): int {
    if a.to.Some? then a.to.value else LAST_DAY
  }

  /** Request validation: real dates, and an end that does not precede the start. */
  predicate WellFormed(a: Assignment) {
    a.from <= LAST_DAY && a.from <= EndOf(a)
  }

  predicate Overlap(a: Assignment, b: Assignment) {
    a.from <= EndOf(b) && b.from <= EndOf(a)
  }

  predicate InForce(a: Assignment, date: int) {
    a.from <= date && (a.to.None? || date <= a.to.value)
  }

  function Of(docs: Docs, employee: int): set<DocId> {
    set id | id in docs && docs[id].employee == employee
  }

  /** No two assignments of an employee are in force on the same day. */
  ghost predicate Apart(docs: Docs) {
    forall i, j, date ::
      i in docs && j in docs && i != j && docs[i].employee == docs[j].employee && date <= LAST_DAY
      ==> !(InForce(docs[i], date) && InForce(docs[j], date))
  }

  ghost predicate AllWellFormed(docs: Docs) {
    forall id :: id in docs ==> WellFormed(docs[id])
  }

  /** What the limited query may return: all of the employee's assignments, or some hundred of them. */
  predicate Read(docs: Docs, employee: int, ids: set<DocId>) {
    ids <= Of(docs, employee) && (|Of(docs, employee)| <= READ_LIMIT ==> ids == Of(docs, employee)) && |ids| <= READ_LIMIT
  }

  predicate Accepts(docs: Docs, ids: set<DocId>, request: Assignment)
    requires ids <= docs.Keys
  {
    forall id :: id in ids ==> !Overlap(docs[id], request)
  }

  function Assign(docs: Docs, ids: set<DocId>, id: DocId, request: Assignment): Docs
    requires ids <= docs.Keys
  {
    if Accepts(docs, ids, request) then docs[id := request] else docs
  }

  /** Two assignments overlap, by the comparison of their ends, just when some day has both in force. */
  lemma OverlapMeaning(a: Assignment, b: Assignment)
    requires WellFormed(a) && WellFormed(b)
    ensures Overlap(a, b) <==> exists date :: date <= LAST_DAY && InForce(a, date) && InForce(b, date)
  {
    if Overlap(a, b) {
      var date := Max(a.from, b.from);
      assert date <= LAST_DAY && InForce(a, date) && InForce(b, date);
    }
  }

  class ShiftAssignments {
    var docs: Docs

    /** The transaction of `assignEmployeeShift`, with the assignments its query returned. */
    method AssignShift(id: DocId, request: Assignment, ids: set<DocId>) returns (ok: bool)
      requires Read(docs, request.employee, ids)
      modifies this
      ensures ok <==> forall i :: i in ids ==> !Overlap(old(docs)[i], request)
      ensures docs == if ok then old(docs)[id := request] else old(docs)
      ensures docs == Assign(old(docs), ids, id, request)
    {
      var overlaps := exists i :: i in ids && docs[i].from <= EndOf(request) && request.from <= EndOf(docs[i]);
      ok := !overlaps;
      if ok {
        docs := docs[id := request];
      }
    }
  }

  // ----- The check keeps assignments apart -----

  lemma AssignKeepsApart(docs: Docs, ids: set<DocId>, id: DocId, request: Assignment)
    requires Apart(docs) && AllWellFormed(docs) && WellFormed(request) && id !in docs
    requires |Of(docs, request.employee)| <= READ_LIMIT && Read(docs, request.employee, ids)
    ensures Apart(Assign(docs, ids, id, request)) && AllWellFormed(Assign(docs, ids, id, request))
  {
    var docs' := Assign(docs, ids, id, request);
    if Accepts(docs, ids, request) {
      forall i | i in docs && docs[i].employee == request.employee
        ensures forall date :: date <= LAST_DAY && InForce(docs[i], date) ==> !InForce(request, date)
      {
        OverlapMeaning(docs[i], request);
        assert i in ids;
      }
    }
  }

  /** Every request that the transaction may face: a fresh id, a valid range, and whatever the limited query returned. */
  ghost predicate Guaranteed(docs: Docs, employee: int) {
    forall ids, id, request :: Read(docs, employee, ids) && id !in docs && WellFormed(request) && request.employee == employee ==>
      Apart(Assign(docs, ids, id, request))
  }

  lemma SubsetOfSize(s: set<DocId>, n: nat) returns (t: set<DocId>)
    requires n <= |s|
    ensures t <= s && |t| == n
    decreases |s|
  {
    if n == |s| {
      t := s;
    } else {
      var x :| x in s;
      t := SubsetOfSize(s - {x}, n);
    }
  }

  lemma {:induction false} LongerThanAll(s: set<DocId>) returns (length: nat)
    ensures forall x :: x in s ==> |x| < length
    decreases |s|
  {
    length := 0;
    if s != {} {
      var x :| x in s;
      var rest := LongerThanAll(s - {x});
      length := Max(rest, |x| + 1);
      forall y | y in s ensures |y| < length {
        assert y == x || y in s - {x};
      }
    }
  }

  lemma FreshId(docs: Docs) returns (id: DocId)
    ensures id !in docs
  {
    var length := LongerThanAll(docs.Keys);
    id := seq(length, i => 'a');
  }

  /** The exact extent of the guarantee: the check keeps an employee's assignments apart, whatever is requested, just while the
      employee has at most as many as the query reads. One more, and a repeat of an existing assignment can be accepted. */
  lemma GuaranteeExactly(docs: Docs, employee: int)
    requires Apart(docs) && AllWellFormed(docs)
    ensures Guaranteed(docs, employee) <==> |Of(docs, employee)| <= READ_LIMIT
  {
    if |Of(docs, employee)| <= READ_LIMIT {
      forall ids, id, request | Read(docs, employee, ids) && id !in docs && WellFormed(request) && request.employee == employee
        ensures Apart(Assign(docs, ids, id, request))
      {
        AssignKeepsApart(docs, ids, id, request);
      }
    } else {
      var missed :| missed in Of(docs, employee);
      var ids := SubsetOfSize(Of(docs, employee) - {missed}, READ_LIMIT);
      var id := FreshId(docs);
      var request := docs[missed];
      forall i | i in ids ensures !Overlap(docs[i], request) {
        OverlapMeaning(docs[i], request);
      }
      var docs' := Assign(docs, ids, id, request);
      assert InForce(docs'[missed], request.from) && InForce(docs'[id], request.from);
      assert Read(docs, employee, ids);
      assert !Apart(docs');
    }
  }

  /** One accepted or refused request after another. */
  datatype Request = Request(id: DocId, assignment: Assignment, ids: set<DocId>)

  ghost predicate Handled(before: Docs, r: Request, after: Docs) {
    && r.id !in before && WellFormed(r.assignment) && Read(before, r.assignment.employee, r.ids)
    && after == Assign(before, r.ids, r.id, r.assignment)
  }

  ghost predicate IsHistory(states: seq<Docs>, requests: seq<Request>) {
    && |states| == |requests| + 1
    && states[0] == map[]
    && forall k :: 0 <= k < |requests| ==> Handled(states[k], requests[k], states[k + 1])
  }

  ghost predicate WithinLimit(docs: Docs) {
    forall employee :: |Of(docs, employee)| <= READ_LIMIT
  }

  /** Over any history in which nobody exceeds the limit, assignments stay apart. */
  lemma {:induction false} HistoryApart(states: seq<Docs>, requests: seq<Request>, n: nat)
    requires IsHistory(states, requests) && n <= |requests|
    requires forall k :: 0 <= k < n ==> WithinLimit(states[k])
    ensures Apart(states[n]) && AllWellFormed(states[n])
  {
    if n > 0 {
      HistoryApart(states, requests, n - 1);
      var r := requests[n - 1];
      assert WithinLimit(states[n - 1]) && Handled(states[n - 1], r, states[n]);
      AssignKeepsApart(states[n - 1], r.ids, r.id, r.assignment);
    }
  }

  // ----- The limited scan -----

  /** What the unlimited query would return: the employee's assignments started by the date, latest start first. */
  ghost predicate IsStarted(list: seq<DocId>, docs: Docs, employee: int, date: int) {
    && (forall id :: id in list <==> id in docs && docs[id].employee == employee && docs[id].from <= date)
    && (forall i, j :: 0 <= i < j < |list| ==> docs[list[j]].from <= docs[list[i]].from)
  }

  function FirstInForce(list: seq<DocId>, docs: Docs, date: int): Option<DocId>
    requires forall id :: id in list ==> id in docs
  {
    if list == [] then None
    else if InForce(docs[list[0]], date) then Some(list[0])
    else FirstInForce(list[1..], docs, date)
  }

  /** The `find` over the query's result. */
  method FindActive(list: seq<DocId>, docs: Docs, date: int) returns (active: Option<DocId>)
    requires forall id :: id in list ==> id in docs
    ensures active == FirstInForce(list, docs, date)
  {
    for i := 0 to |list|
      invariant FirstInForce(list, docs, date) == FirstInForce(list[i..], docs, date)
    {
      assert list[i..][1..] == list[i + 1..];
      assert list[i] in list;
      if InForce(docs[list[i]], date) {
        return Some(list[i]);
      }
    }
    active := None;
  }

  /** When assignments are apart, the one in force, if there is one, is the first of the list. */
  lemma InForceIsFirst(list: seq<DocId>, docs: Docs, employee: int, date: int, id: DocId)
    requires Apart(docs) && AllWellFormed(docs) && IsStarted(list, docs, employee, date) && date <= LAST_DAY
    requires id in docs && docs[id].employee == employee && InForce(docs[id], date)
    ensures list != [] && list[0] == id
  {
    assert id in list;
    var k :| 0 <= k < |list| && list[k] == id;
    assert list[0] in list;
    var first := docs[list[0]];
    assert InForce(first, first.from) && InForce(docs[id], first.from);
  }

  /** So looking at twenty of them, or at any positive number, finds what a search of all assignments finds: the assignment in force
      on the date, or that there is none. */
  lemma LimitedScanIsFullSearch(list: seq<DocId>, docs: Docs, employee: int, date: int, limit: nat)
    requires Apart(docs) && AllWellFormed(docs) && IsStarted(list, docs, employee, date) && date <= LAST_DAY && limit >= 1
    ensures var found := FirstInForce(list[..Min(limit, |list|)], docs, date);
            && (found.None? <==> forall id :: id in docs && docs[id].employee == employee ==> !InForce(docs[id], date))
            && (found.Some? ==> found.value in docs && docs[found.value].employee == employee && InForce(docs[found.value], date)
                                && forall id :: id in docs && docs[id].employee == employee && InForce(docs[id], date) ==> id == found.value)
  {
    var short := list[..Min(limit, |list|)];
    forall id | id in docs && docs[id].employee == employee && InForce(docs[id], date)
      ensures short != [] && short[0] == id && FirstInForce(short, docs, date) == Some(id)
    {
      InForceIsFirst(list, docs, employee, date, id);
    }
    if forall id :: id in docs && docs[id].employee == employee ==> !InForce(docs[id], date) {
      NoneInForce(short, docs, date);
    }
  }

  lemma {:induction false} NoneInForce(list: seq<DocId>, docs: Docs, date: int)
    requires forall id :: id in list ==> id in docs && !InForce(docs[id], date)
    ensures FirstInForce(list, docs, date) == None
  {
    if list != [] {
      NoneInForce(list[1..], docs, date);
    }
  }

  // ----- Recalculating a shift's days -----

  /** Assignments of one employee that are apart never cover a day twice, so a shift-policy job commits no day twice. */
  lemma {:induction false} CoveredOnce(list: seq<Entry<Assignment>>, from: int, to: int, c: Cell)
    requires c.1 <= LAST_DAY
    requires forall i, j, date ::
               0 <= i < j < |list| && list[i].value.employee == list[j].value.employee && date <= LAST_DAY
               ==> !(InForce(list[i].value, date) && InForce(list[j].value, date))
    ensures CoverCount(list, from, to, c) <= 1
  {
    if list != [] {
      var init, last := list[..|list| - 1], list[|list| - 1];
      CoveredOnce(init, from, to, c);
      if Covers(last.value, from, to, c) {
        CoverCountPositive(init, from, to, c);
        forall i | 0 <= i < |init| ensures !Covers(init[i].value, from, to, c) {
          assert init[i] == list[i];
          assert InForce(last.value, c.1);
        }
      }
    }
  }
}
