/** What remains of a set of webhook events, delivered in any order and with any repeats: the exact conditions under which the
    document, and the trial marker, do not depend on the schedule. */
module BillingConvergence {
  import opened Base
  import opened Billing

  datatype Delivery = Delivery(event: Event, now: int)

  function Deliver(s: State, deliveries: seq<Delivery>): State {
    if deliveries == [] then s
    else
      var d := deliveries[|deliveries| - 1];
      AfterWebhook(Deliver(s, deliveries[..|deliveries| - 1]), d.event, d.now)
  }

  function Events(deliveries: seq<Delivery>): set<Event> {
    set d | d in deliveries :: d.event
  }

  /** Timed events of one organization, new to the state; webhook ids name events. */
  ghost predicate NewEvents(s: State, events: set<Event>, org: Org) {
    && org in s.names
    && (forall e :: e in events ==> e.tenant.org == org && e.at.Some? && e.webhookId !in s.seen)
    && (forall e, f :: e in events && f in events && e.webhookId == f.webhookId ==> e == f)
  }

  /** The document's content, apart from when it was written. */
  function Content(d: Doc): Doc {
    d.(updatedAt := Absent)
  }

  /** The platform's document as one event alone leaves it. */
  function Projected(d: Doc, e: Event, name: string): Doc {
    ProviderWrite(d, e, 0).(organizationName := Text(name))
  }

  /** The two events write the same content. */
  predicate SameProjection(e: Event, f: Event) {
    Content(ProviderWrite(NO_DOC, e, 0)) == Content(ProviderWrite(NO_DOC, f, 0))
  }

  // ----- The event that remains -----

  function NextWinner(d0: Doc, winner: Option<Event>, e: Event): Option<Event>
    requires e.at.Some? && (winner.Some? ==> winner.value.at.Some?)
  {
    if winner.None? then (if Stale(d0, e.at.value) then None else Some(e))
    else if e.at.value < winner.value.at.value then winner
    else Some(e)
  }

  /** The last event to apply, if any does: each is judged at its first delivery. */
  function Winner(d0: Doc, deliveries: seq<Delivery>): (winner: Option<Event>)
    requires forall e :: e in Events(deliveries) ==> e.at.Some?
    ensures winner.Some? ==> winner.value.at.Some?
  {
    if deliveries == [] then None
    else
      var init, e := deliveries[..|deliveries| - 1], deliveries[|deliveries| - 1].event;
      assert Events(deliveries) == Events(init) + {e} by { EventsLast(deliveries); }
      var before := Winner(d0, init);
      if e in Events(init) then before else NextWinner(d0, before, e)
  }

  lemma EventsLast(deliveries: seq<Delivery>)
    requires deliveries != []
    ensures Events(deliveries) == Events(deliveries[..|deliveries| - 1]) + {deliveries[|deliveries| - 1].event}
  {
    var init, d := deliveries[..|deliveries| - 1], deliveries[|deliveries| - 1];
    assert deliveries == init + [d];
    assert d in deliveries;
  }

  /** The events that are not older than the document and carry the greatest time. */
  ghost predicate Top(d0: Doc, events: set<Event>, e: Event) {
    e in events && e.at.Some? && !Stale(d0, e.at.value) && forall f :: f in events && f.at.Some? ==> f.at.value <= e.at.value
  }

  lemma {:induction false} WinnerIsTop(d0: Doc, deliveries: seq<Delivery>)
    requires forall e :: e in Events(deliveries) ==> e.at.Some?
    ensures var winner := Winner(d0, deliveries);
            && (winner.Some? ==> Top(d0, Events(deliveries), winner.value))
            && (winner.None? ==> forall e :: e in Events(deliveries) ==> Stale(d0, e.at.value))
  {
    if deliveries != [] {
      EventsLast(deliveries);
      WinnerIsTop(d0, deliveries[..|deliveries| - 1]);
    }
  }

  function Left(d0: Doc, winner: Option<Event>, name: string): Doc {
    if winner.None? then Content(d0) else Content(Projected(d0, winner.value, name))
  }

  /** One more event, and what it does to the document that the winner so far has left. */
  lemma WinnerWrites(d0: Doc, winner: Option<Event>, d: Doc, e: Event, name: string, now: int)
    requires e.at.Some? && (winner.Some? ==> winner.value.at.Some? && !Stale(d0, winner.value.at.value))
    requires Content(d) == Left(d0, winner, name)
    ensures Stale(d, e.at.value) <==> if winner.None? then Stale(d0, e.at.value) else winner.value.at.value > e.at.value
    ensures var d' := if Stale(d, e.at.value) then d else ProviderWrite(d, e, now).(organizationName := Text(name));
            Content(d') == Left(d0, NextWinner(d0, winner, e), name)
  {
    assert Content(d).providerEventAt == d.providerEventAt;
  }

  lemma {:induction false} DeliverLeaves(s0: State, deliveries: seq<Delivery>, org: Org)
    requires NewEvents(s0, Events(deliveries), org)
    ensures var s := Deliver(s0, deliveries);
            && s.names == s0.names
            && (forall id :: id in s.seen <==> id in s0.seen || exists e :: e in Events(deliveries) && e.webhookId == id)
            && Content(DocOf(s.global, org)) == Left(DocOf(s0.global, org), Winner(DocOf(s0.global, org), deliveries), s0.names[org])
  {
    if deliveries != [] {
      var init, d := deliveries[..|deliveries| - 1], deliveries[|deliveries| - 1];
      EventsLast(deliveries);
      DeliverLeaves(s0, init, org);
      DeliverOneMore(s0, init, d, org);
    }
  }

  lemma DeliverOneMore(s0: State, init: seq<Delivery>, d: Delivery, org: Org)
    requires NewEvents(s0, Events(init) + {d.event}, org)
    requires var s := Deliver(s0, init);
             && s.names == s0.names
             && (forall id :: id in s.seen <==> id in s0.seen || exists e :: e in Events(init) && e.webhookId == id)
             && Content(DocOf(s.global, org)) == Left(DocOf(s0.global, org), Winner(DocOf(s0.global, org), init), s0.names[org])
    ensures var s, s' := Deliver(s0, init), AfterWebhook(Deliver(s0, init), d.event, d.now);
            && s'.names == s0.names
            && (d.event.webhookId in s.seen <==> d.event in Events(init))
            && (forall id :: id in s'.seen <==> id in s0.seen || exists e :: e in Events(init) + {d.event} && e.webhookId == id)
            && Content(DocOf(s'.global, org)) ==
               Left(DocOf(s0.global, org),
                    if d.event in Events(init) then Winner(DocOf(s0.global, org), init)
                    else NextWinner(DocOf(s0.global, org), Winner(DocOf(s0.global, org), init), d.event), s0.names[org])
  {
    var s, e := Deliver(s0, init), d.event;
    var d0 := DocOf(s0.global, org);
    assert e in Events(init) + {e};
    WinnerIsTop(d0, init);
    if e.webhookId in s.seen {
      var f :| f in Events(init) && f.webhookId == e.webhookId;
      assert f in Events(init) + {e};
    } else {
      WinnerWrites(d0, Winner(d0, init), DocOf(s.global, org), e, s0.names[org], d.now);
      var s' := AfterWebhook(s, e, d.now);
      assert s'.seen == s.seen + {e.webhookId};
    }
  }

  /** The document ends up as one event alone would leave it: among those that carry the greatest time, the one whose first delivery
      came last; and if all are older than the document, as it was. */
  lemma WinnerRemains(s0: State, deliveries: seq<Delivery>, org: Org)
    requires NewEvents(s0, Events(deliveries), org)
    ensures var d0 := DocOf(s0.global, org);
            var winner := Winner(d0, deliveries);
            && Content(DocOf(Deliver(s0, deliveries).global, org)) == Left(d0, winner, s0.names[org])
            && (winner.Some? ==> Top(d0, Events(deliveries), winner.value))
            && (winner.None? ==> forall e :: e in Events(deliveries) ==> Stale(d0, e.at.value))
  {
    DeliverLeaves(s0, deliveries, org);
    WinnerIsTop(DocOf(s0.global, org), deliveries);
  }

  /** When only one event carries the greatest time, it is what remains, whatever the order and the repeats. */
  lemma WebhooksConverge(s0: State, deliveries: seq<Delivery>, org: Org, newest: Event)
    requires NewEvents(s0, Events(deliveries), org) && newest in Events(deliveries)
    requires forall e :: e in Events(deliveries) && e != newest ==> e.at.value < newest.at.value
    ensures var d0 := DocOf(s0.global, org);
            Content(DocOf(Deliver(s0, deliveries).global, org)) ==
            if Stale(d0, newest.at.value) then Content(d0) else Content(Projected(d0, newest, s0.names[org]))
  {
    WinnerRemains(s0, deliveries, org);
  }

  /** What depends on the document the events find is only what the provider's events never write. */
  lemma ProjectionsCompare(d0: Doc, e: Event, f: Event, name: string)
    ensures Content(Projected(d0, e, name)) == Content(Projected(d0, f, name)) <==> SameProjection(e, f)
  {
  }

  // ----- Schedules -----

  /** Any events can be delivered in some order, one of them last. */
  lemma Enumerate(events: set<Event>) returns (deliveries: seq<Delivery>)
    ensures Events(deliveries) == events
    decreases |events|
  {
    deliveries := [];
    if events != {} {
      var e :| e in events;
      var init := Enumerate(events - {e});
      deliveries := init + [Delivery(e, 0)];
      EventsLast(deliveries);
      assert deliveries[..|deliveries| - 1] == init;
    }
  }

  lemma EndingWith(events: set<Event>, e: Event) returns (deliveries: seq<Delivery>)
    requires e in events
    ensures Events(deliveries) == events && deliveries != [] && deliveries[|deliveries| - 1].event == e
    ensures e !in Events(deliveries[..|deliveries| - 1])
  {
    var init := Enumerate(events - {e});
    deliveries := init + [Delivery(e, 0)];
    EventsLast(deliveries);
    assert deliveries[..|deliveries| - 1] == init;
  }

  lemma LastTopWins(d0: Doc, events: set<Event>, e: Event) returns (deliveries: seq<Delivery>)
    requires (forall f :: f in events ==> f.at.Some?) && Top(d0, events, e)
    ensures Events(deliveries) == events && Winner(d0, deliveries) == Some(e)
  {
    deliveries := EndingWith(events, e);
    var init := deliveries[..|deliveries| - 1];
    EventsLast(deliveries);
    assert forall f :: f in Events(init) ==> f in events;
    WinnerIsTop(d0, init);
  }

  ghost predicate SchedulesAgree(s0: State, events: set<Event>, org: Org) {
    forall ds, ds' :: Events(ds) == events && Events(ds') == events ==>
      Content(DocOf(Deliver(s0, ds).global, org)) == Content(DocOf(Deliver(s0, ds').global, org))
  }

  /** All schedules of the events agree on the document exactly if those that carry the greatest time, when they are not older than
      the document, write the same. */
  lemma SchedulesAgreeExactly(s0: State, events: set<Event>, org: Org)
    requires NewEvents(s0, events, org)
    ensures var d0 := DocOf(s0.global, org);
            SchedulesAgree(s0, events, org) <==> forall e, f :: Top(d0, events, e) && Top(d0, events, f) ==> SameProjection(e, f)
  {
    var d0 := DocOf(s0.global, org);
    if forall e, f :: Top(d0, events, e) && Top(d0, events, f) ==> SameProjection(e, f) {
      forall ds, ds' | Events(ds) == events && Events(ds') == events
        ensures Content(DocOf(Deliver(s0, ds).global, org)) == Content(DocOf(Deliver(s0, ds').global, org))
      {
        TwoSchedules(s0, ds, ds', org);
      }
    }
    if SchedulesAgree(s0, events, org) {
      forall e, f | Top(d0, events, e) && Top(d0, events, f) ensures SameProjection(e, f) {
        var ds := LastTopWins(d0, events, e);
        var ds' := LastTopWins(d0, events, f);
        WinnerRemains(s0, ds, org);
        WinnerRemains(s0, ds', org);
        ProjectionsCompare(d0, e, f, s0.names[org]);
      }
    }
  }

  lemma TwoSchedules(s0: State, ds: seq<Delivery>, ds': seq<Delivery>, org: Org)
    requires NewEvents(s0, Events(ds), org) && Events(ds) == Events(ds')
    requires var d0 := DocOf(s0.global, org); forall e, f :: Top(d0, Events(ds), e) && Top(d0, Events(ds), f) ==> SameProjection(e, f)
    ensures Content(DocOf(Deliver(s0, ds).global, org)) == Content(DocOf(Deliver(s0, ds').global, org))
  {
    var d0 := DocOf(s0.global, org);
    WinnerRemains(s0, ds, org);
    WinnerRemains(s0, ds', org);
    var e, f := Winner(d0, ds), Winner(d0, ds');
    if e.Some? && f.Some? {
      ProjectionsCompare(d0, e.value, f.value, s0.names[org]);
    }
  }

  /** In particular when only one event carries the greatest time. */
  lemma ScheduleIrrelevant(s0: State, events: set<Event>, org: Org, newest: Event)
    requires NewEvents(s0, events, org) && newest in events
    requires forall e :: e in events && e != newest ==> e.at.value < newest.at.value
    ensures SchedulesAgree(s0, events, org)
  {
    SchedulesAgreeExactly(s0, events, org);
  }

  /** And not, for two events of one time that write differently: the one delivered last stays. */
  lemma EqualTimesKeepTheLast(s0: State, a: Event, b: Event, org: Org)
    requires NewEvents(s0, {a, b}, org) && a.at == b.at && !Stale(DocOf(s0.global, org), a.at.value)
    ensures SchedulesAgree(s0, {a, b}, org) <==> SameProjection(a, b)
  {
    var d0 := DocOf(s0.global, org);
    SchedulesAgreeExactly(s0, {a, b}, org);
    assert a in {a, b} && b in {a, b};
    assert Top(d0, {a, b}, a) && Top(d0, {a, b}, b);
  }

  // ----- The trial marker -----

  predicate TrialMarked(s: State, org: Org) {
    !AccountOf(s.accounts, org).trialConsumedAt.Absent?
  }

  predicate TrialEvent(e: Event) {
    e.subscription.trialDays > 0 && e.subscription.status == "active"
  }

  /** The i-th delivery is the first of a trial event that is not older than the document nor than any event delivered before it. */
  ghost predicate MarksAt(d0: Doc, deliveries: seq<Delivery>, i: nat)
    requires i < |deliveries|
  {
    var e := deliveries[i].event;
    && TrialEvent(e) && e.at.Some? && !Stale(d0, e.at.value)
    && forall j :: 0 <= j < i ==>
         deliveries[j].event != e && deliveries[j].event.at.Some? && deliveries[j].event.at.value <= e.at.value
  }

  lemma PrefixEvents(deliveries: seq<Delivery>, e: Event)
    ensures e in Events(deliveries) <==> exists j :: 0 <= j < |deliveries| && deliveries[j].event == e
  {
    if e in Events(deliveries) {
      var d :| d in deliveries && d.event == e;
      var j :| 0 <= j < |deliveries| && deliveries[j] == d;
    }
  }

  /** A new event applies exactly if it is not older than the document nor than any event delivered before it. */
  lemma AppliesExactly(s0: State, init: seq<Delivery>, e: Event, now: int, org: Org)
    requires NewEvents(s0, Events(init) + {e}, org)
    ensures var d0 := DocOf(s0.global, org);
            Applies(Deliver(s0, init), e, now) <==>
              e !in Events(init) && !Stale(d0, e.at.value) && forall f :: f in Events(init) ==> f.at.value <= e.at.value
  {
    var d0, s := DocOf(s0.global, org), Deliver(s0, init);
    assert e in Events(init) + {e};
    assert forall f :: f in Events(init) ==> f in Events(init) + {e};
    DeliverLeaves(s0, init, org);
    DeliverOneMore(s0, init, Delivery(e, now), org);
    WinnerIsTop(d0, init);
    WinnerWrites(d0, Winner(d0, init), DocOf(s.global, org), e, s0.names[org], now);
  }

  /** After any deliveries the trial is marked exactly if it was before, or some trial event was, at its first delivery, not older
      than the document nor than any event delivered before it. */
  lemma {:induction false} TrialMarkedExactly(s0: State, deliveries: seq<Delivery>, org: Org)
    requires NewEvents(s0, Events(deliveries), org)
    ensures TrialMarked(Deliver(s0, deliveries), org) <==>
            TrialMarked(s0, org) || exists i :: 0 <= i < |deliveries| && MarksAt(DocOf(s0.global, org), deliveries, i)
  {
    if deliveries != [] {
      var n, d0 := |deliveries| - 1, DocOf(s0.global, org);
      var init, d := deliveries[..n], deliveries[n];
      EventsLast(deliveries);
      TrialMarkedExactly(s0, init, org);
      AppliesExactly(s0, init, d.event, d.now, org);
      forall i | 0 <= i < n ensures MarksAt(d0, deliveries, i) <==> MarksAt(d0, init, i) {
        assert forall j :: 0 <= j <= i ==> init[j] == deliveries[j];
      }
      LastMarks(d0, deliveries);
    }
  }

  lemma LastMarks(d0: Doc, deliveries: seq<Delivery>)
    requires deliveries != [] && forall e :: e in Events(deliveries) ==> e.at.Some?
    ensures var n := |deliveries| - 1;
            var e, earlier := deliveries[n].event, Events(deliveries[..n]);
            MarksAt(d0, deliveries, n) <==>
              TrialEvent(e) && !Stale(d0, e.at.value) && e !in earlier && forall f :: f in earlier ==> f.at.value <= e.at.value
  {
    var n := |deliveries| - 1;
    var e, init := deliveries[n].event, deliveries[..n];
    EventsLast(deliveries);
    PrefixEvents(init, e);
    forall f | f in Events(init) ensures exists j :: 0 <= j < n && deliveries[j].event == f {
      PrefixEvents(init, f);
      var j :| 0 <= j < |init| && init[j].event == f;
      assert deliveries[j].event == f;
    }
    forall j | 0 <= j < n ensures deliveries[j].event in Events(init) {
      assert init[j] == deliveries[j];
      PrefixEvents(init, deliveries[j].event);
    }
  }

  ghost predicate MarkersAgree(s0: State, events: set<Event>, org: Org) {
    forall ds, ds' :: Events(ds) == events && Events(ds') == events ==>
      (TrialMarked(Deliver(s0, ds), org) <==> TrialMarked(Deliver(s0, ds'), org))
  }

  lemma StartingWith(events: set<Event>, e: Event) returns (deliveries: seq<Delivery>)
    requires e in events
    ensures Events(deliveries) == events && deliveries != [] && deliveries[0].event == e
  {
    var rest := Enumerate(events - {e});
    deliveries := [Delivery(e, 0)] + rest;
    forall f ensures f in Events(deliveries) <==> f in events {
      PrefixEvents(deliveries, f);
      PrefixEvents(rest, f);
      assert forall j :: 0 <= j < |rest| ==> deliveries[j + 1] == rest[j];
    }
  }

  lemma GreatestTime(events: set<Event>) returns (e: Event)
    requires events != {} && forall f :: f in events ==> f.at.Some?
    ensures e in events && forall f :: f in events ==> f.at.value <= e.at.value
    decreases |events|
  {
    e :| e in events;
    if f :| f in events && f != e {
      assert f in events - {e};
      var g := GreatestTime(events - {e});
      assert forall h :: h in events ==> h == e || h in events - {e};
      e := if g.at.value > e.at.value then g else e;
    }
  }

  /** A trial event that carries the greatest time marks the trial at its first delivery, whenever that is. */
  lemma TopTrialMarks(d0: Doc, deliveries: seq<Delivery>, e: Event) returns (i: nat)
    requires (forall f :: f in Events(deliveries) ==> f.at.Some?) && Top(d0, Events(deliveries), e) && TrialEvent(e)
    ensures i < |deliveries| && MarksAt(d0, deliveries, i)
  {
    PrefixEvents(deliveries, e);
    i := FirstDelivery(deliveries, e);
    forall j | 0 <= j < i ensures deliveries[j].event.at.Some? && deliveries[j].event.at.value <= e.at.value {
      PrefixEvents(deliveries, deliveries[j].event);
    }
  }

  lemma {:induction false} FirstDelivery(deliveries: seq<Delivery>, e: Event) returns (i: nat)
    requires exists j :: 0 <= j < |deliveries| && deliveries[j].event == e
    ensures i < |deliveries| && deliveries[i].event == e && forall j :: 0 <= j < i ==> deliveries[j].event != e
  {
    var init := deliveries[..|deliveries| - 1];
    if j :| 0 <= j < |init| && init[j].event == e {
      i := FirstDelivery(init, e);
      assert forall k :: 0 <= k <= i ==> init[k] == deliveries[k];
    } else {
      i := |deliveries| - 1;
      assert forall k :: 0 <= k < |init| ==> init[k] == deliveries[k];
    }
  }

  /** A schedule that begins with an event of the greatest time, when no trial event carries it, marks nothing. */
  lemma NothingMarks(d0: Doc, deliveries: seq<Delivery>, i: nat)
    requires (forall f :: f in Events(deliveries) ==> f.at.Some?) && i < |deliveries|
    requires Top(d0, Events(deliveries), deliveries[0].event)
    requires forall e :: Top(d0, Events(deliveries), e) ==> !TrialEvent(e)
    ensures !MarksAt(d0, deliveries, i)
  {
    var e := deliveries[i].event;
    PrefixEvents(deliveries, e);
    if MarksAt(d0, deliveries, i) {
      assert Top(d0, Events(deliveries), e);
    }
  }

  /** All schedules of the events leave the same marker exactly if the trial was marked before, or every trial event is older than the
      document, or a trial event carries the greatest time. */
  lemma MarkersAgreeExactly(s0: State, events: set<Event>, org: Org)
    requires NewEvents(s0, events, org)
    ensures var d0 := DocOf(s0.global, org);
            MarkersAgree(s0, events, org) <==>
            || TrialMarked(s0, org)
            || (forall e :: e in events && TrialEvent(e) ==> Stale(d0, e.at.value))
            || (exists e :: Top(d0, events, e) && TrialEvent(e))
  {
    var d0 := DocOf(s0.global, org);
    if || TrialMarked(s0, org)
       || (forall e :: e in events && TrialEvent(e) ==> Stale(d0, e.at.value))
       || (exists e :: Top(d0, events, e) && TrialEvent(e))
    {
      forall ds, ds' | Events(ds) == events && Events(ds') == events
        ensures TrialMarked(Deliver(s0, ds), org) <==> TrialMarked(Deliver(s0, ds'), org)
      {
        MarkerDecided(s0, ds, org);
        MarkerDecided(s0, ds', org);
      }
    } else {
      MarkersDiffer(s0, events, org);
    }
  }

  lemma MarkerDecided(s0: State, deliveries: seq<Delivery>, org: Org)
    requires NewEvents(s0, Events(deliveries), org)
    ensures var d0, events := DocOf(s0.global, org), Events(deliveries);
            && (TrialMarked(s0, org) || (exists e :: Top(d0, events, e) && TrialEvent(e)) ==> TrialMarked(Deliver(s0, deliveries), org))
            && (!TrialMarked(s0, org) && (forall e :: e in events && TrialEvent(e) ==> Stale(d0, e.at.value)) ==>
                  !TrialMarked(Deliver(s0, deliveries), org))
  {
    var d0, events := DocOf(s0.global, org), Events(deliveries);
    TrialMarkedExactly(s0, deliveries, org);
    if exists e :: Top(d0, events, e) && TrialEvent(e) {
      var e :| Top(d0, events, e) && TrialEvent(e);
      var i := TopTrialMarks(d0, deliveries, e);
    }
    forall i | 0 <= i < |deliveries| ensures deliveries[i].event in events {
      PrefixEvents(deliveries, deliveries[i].event);
    }
  }

  lemma MarkersDiffer(s0: State, events: set<Event>, org: Org)
    requires NewEvents(s0, events, org) && !TrialMarked(s0, org)
    requires exists e :: e in events && TrialEvent(e) && !Stale(DocOf(s0.global, org), e.at.value)
    requires forall e :: Top(DocOf(s0.global, org), events, e) ==> !TrialEvent(e)
    ensures !MarkersAgree(s0, events, org)
  {
    var d0 := DocOf(s0.global, org);
    var trial :| trial in events && TrialEvent(trial) && !Stale(d0, trial.at.value);
    var newest := GreatestTime(events);
    var ds := StartingWith(events, trial);
    var ds' := StartingWith(events, newest);
    TrialMarkedExactly(s0, ds, org);
    assert MarksAt(d0, ds, 0);
    TrialMarkedExactly(s0, ds', org);
    forall i | 0 <= i < |ds'| ensures !MarksAt(d0, ds', i) {
      NothingMarks(d0, ds', i);
    }
  }

  /** In particular the marker depends on the order of a trial event and a newer event that is none. */
  lemma TrialMarkerDependsOnOrder(s0: State, trial: Event, later: Event, org: Org)
    requires NewEvents(s0, {trial, later}, org) && !TrialMarked(s0, org)
    requires TrialEvent(trial) && !TrialEvent(later) && trial.at.Some? && !Stale(DocOf(s0.global, org), trial.at.value)
    requires later.at.Some? && trial.at.value < later.at.value
    ensures !MarkersAgree(s0, {trial, later}, org)
  {
    MarkersAgreeExactly(s0, {trial, later}, org);
    assert trial in {trial, later} && later in {trial, later};
  }
}
