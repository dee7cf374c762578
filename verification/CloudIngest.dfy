/** The cloud's intake of an event batch: classification of the submitted values, and the transaction that
    stores the valid ones once and counts the unmapped ones per device identity. */
module CloudIngest {
  import opened Base
  import opened EventDisk
  import opened EventStores

  const MAX_RAW_EVENT_BYTES := 65536

  /** One submitted value: its id, and its fields if they satisfy the event schema. */
  datatype Submitted = Submitted(id: string, parsed: Option<Event>, rawBytes: nat)

  datatype Limits = Limits(device: string, earliest: int, latest: int)

  function RejectionCode(value: Submitted, limits: Limits): Option<string> {
    if value.parsed.None? then Some("invalid_event")
    else if value.parsed.value.deviceId != limits.device then Some("cross_device_event")
    else if value.rawBytes > MAX_RAW_EVENT_BYTES then Some("raw_payload_too_large")
    else if value.parsed.value.eventTime < limits.earliest || value.parsed.value.eventTime > limits.latest
    then Some("event_time_out_of_range")
    else None
  }

  function ValidOf(values: seq<Submitted>, limits: Limits): seq<Event> {
    if values == [] then []
    else
      var before, last := ValidOf(values[..|values| - 1], limits), values[|values| - 1];
      if RejectionCode(last, limits).None? && last.parsed.Some? then before + [last.parsed.value] else before
  }

  function RejectedOf(values: seq<Submitted>, limits: Limits): seq<(EventId, string)> {
    if values == [] then []
    else
      var before, last := RejectedOf(values[..|values| - 1], limits), values[|values| - 1];
      if RejectionCode(last, limits).Some? then before + [(last.id, RejectionCode(last, limits).value)] else before
  }

  ghost predicate WellIdentified(values: seq<Submitted>) {
    && (forall i :: 0 <= i < |values| ==> ValidEventId(values[i].id))
    && (forall i, j :: 0 <= i < j < |values| ==> values[i].id != values[j].id)
  }

  /** The schema keeps the id it was given. */
  ghost predicate Faithful(values: seq<Submitted>) {
    forall i :: 0 <= i < |values| && values[i].parsed.Some? ==> values[i].parsed.value.id == values[i].id
  }

  function SubmittedIds(values: seq<Submitted>): (ids: seq<string>)
    ensures |ids| == |values| && forall i :: 0 <= i < |ids| ==> ids[i] == values[i].id
  {
    Each(values, (v: Submitted) => v.id)
  }

  function RejectedIds(rejected: seq<(EventId, string)>): (ids: seq<EventId>)
    ensures |ids| == |rejected| && forall i :: 0 <= i < |ids| ==> ids[i] == rejected[i].0
  {
    Each(rejected, (r: (EventId, string)) => r.0)
  }

  lemma IdsAppend(events: seq<Event>, e: Event)
    ensures Ids(events + [e]) == Ids(events) + [e.id]
  {
  }

  lemma RejectedIdsAppend(rejected: seq<(EventId, string)>, r: (EventId, string))
    ensures RejectedIds(rejected + [r]) == RejectedIds(rejected) + [r.0]
  {
  }

  /** Accepted and rejected values partition the batch: each submitted id is in exactly one list, as often as submitted. */
  lemma {:induction false} ClassificationPartitions(values: seq<Submitted>, limits: Limits)
    requires Faithful(values)
    ensures multiset(Ids(ValidOf(values, limits))) + multiset(RejectedIds(RejectedOf(values, limits))) == multiset(SubmittedIds(values))
  {
    if values != [] {
      var init, last := values[..|values| - 1], values[|values| - 1];
      var valid, rejected := ValidOf(init, limits), RejectedOf(init, limits);
      ClassificationPartitions(init, limits);
      assert SubmittedIds(values) == SubmittedIds(init) + [last.id];
      if RejectionCode(last, limits).Some? {
        RejectedIdsAppend(rejected, (last.id, RejectionCode(last, limits).value));
      } else {
        IdsAppend(valid, last.parsed.value);
      }
    }
  }

  /** An event of the authenticated device, small enough and in the accepted time range. */
  predicate Acceptable(value: Submitted, limits: Limits) {
    && value.parsed.Some? && value.parsed.value.deviceId == limits.device && value.rawBytes <= MAX_RAW_EVENT_BYTES
    && limits.earliest <= value.parsed.value.eventTime <= limits.latest
  }

  /** Exactly the acceptable values are accepted; exactly the others are rejected, each with a code. */
  lemma {:induction false} ClassificationSound(values: seq<Submitted>, limits: Limits)
    ensures forall e :: e in ValidOf(values, limits) <==> exists v :: v in values && Acceptable(v, limits) && v.parsed.value == e
    ensures forall r :: r in RejectedOf(values, limits) ==> r.1 != "" && exists v :: v in values && !Acceptable(v, limits) && v.id == r.0
    ensures forall v :: v in values && !Acceptable(v, limits) ==> exists r :: r in RejectedOf(values, limits) && r.0 == v.id
  {
    if values != [] {
      var init, last := values[..|values| - 1], values[|values| - 1];
      ClassificationSound(init, limits);
      assert values == init + [last];
      if !Acceptable(last, limits) {
        assert (last.id, RejectionCode(last, limits).value) in RejectedOf(values, limits);
      }
    }
  }

  /** `classifyEvents`: refuses the whole batch for a bad or repeated id, otherwise sorts every value into one list. */
  method ClassifyEvents(values: seq<Submitted>, limits: Limits)
    returns (ok: bool, valid: seq<Event>, rejected: seq<(EventId, string)>)
    ensures ok <==> WellIdentified(values)
    ensures ok ==> valid == ValidOf(values, limits) && rejected == RejectedOf(values, limits)
  {
    valid, rejected := [], [];
    var seen: set<string> := {};
    for i := 0 to |values|
      invariant WellIdentified(values[..i])
      invariant forall id :: id in seen <==> exists k :: 0 <= k < i && values[k].id == id
      invariant valid == ValidOf(values[..i], limits) && rejected == RejectedOf(values[..i], limits)
    {
      var value := values[i];
      PrefixStep(values, i);
      if !ValidEventId(value.id) || value.id in seen {
        return false, [], [];
      }
      seen := seen + {value.id};
      var code := RejectionCode(value, limits);
      if code.Some? {
        rejected := rejected + [(value.id, code.value)];
        continue;
      }
      valid := valid + [value.parsed.value];
    }
    WholePrefix(values);
    ok := true;
  }

  // ----- The write transaction -----

  type IdentityKey = (string, string)

  datatype Mapping = Mapping(employeeId: string, active: bool)

  datatype Doc = Doc(event: Event, employeeId: Option<string>)

  /** Stored events, device identities and the event counts of unmapped identities of one organization. */
  datatype Archive = Archive(docs: map<EventId, Doc>, identities: map<IdentityKey, Mapping>, unmapped: map<IdentityKey, nat>)

  function KeyOf(device: string, event: Event): Option<IdentityKey> {
    if event.employeeNo == "" then None else Some((device, event.employeeNo))
  }

  function MappedTo(identities: map<IdentityKey, Mapping>, key: Option<IdentityKey>): Option<string> {
    if key.Some? && key.value in identities && identities[key.value].active then Some(identities[key.value].employeeId) else None
  }

  function Count(counts: map<IdentityKey, nat>, key: IdentityKey): nat {
    if key in counts then counts[key] else 0
  }

  datatype Intake = Intake(docs: map<EventId, Doc>, accepted: seq<EventId>, duplicates: seq<EventId>, aggregates: map<IdentityKey, nat>)

  function TakeOne(read: Archive, device: string, batch: Intake, event: Event): Intake {
    if event.id in read.docs then batch.(duplicates := batch.duplicates + [event.id])
    else
      var key := KeyOf(device, event);
      var employee := MappedTo(read.identities, key);
      batch.(docs := batch.docs[event.id := Doc(event, employee)],
             accepted := batch.accepted + [event.id],
             aggregates :=
               if employee.None? && key.Some? then batch.aggregates[key.value := Count(batch.aggregates, key.value) + 1]
               else batch.aggregates)
  }

  function TakeAll(read: Archive, device: string, events: seq<Event>): Intake {
    if events == [] then Intake(read.docs, [], [], map[])
    else TakeOne(read, device, TakeAll(read, device, events[..|events| - 1]), events[|events| - 1])
  }

  function AddCounts(counts: map<IdentityKey, nat>, more: map<IdentityKey, nat>): map<IdentityKey, nat> {
    map key | key in counts.Keys + more.Keys :: Count(counts, key) + Count(more, key)
  }

  function WriteEvents(s: Archive, device: string, events: seq<Event>): Archive {
    var batch := TakeAll(s, device, events);
    s.(docs := batch.docs, unmapped := AddCounts(s.unmapped, batch.aggregates))
  }

  /** The two lists of the answer partition the batch by whether the event was stored before. */
  lemma {:induction false} AnswerPartitions(s: Archive, device: string, events: seq<Event>)
    ensures
      var batch := TakeAll(s, device, events);
      && multiset(batch.accepted) + multiset(batch.duplicates) == multiset(Ids(events))
      && (forall id :: id in batch.accepted ==> id !in s.docs)
      && (forall id :: id in batch.duplicates ==> id in s.docs)
  {
    if events != [] {
      var init, last := events[..|events| - 1], events[|events| - 1];
      assert Ids(events) == Ids(init) + [last.id];
      AnswerPartitions(s, device, init);
    }
  }

  /** Write-once: no stored document changes, and every event of the batch ends up stored. */
  lemma {:induction false} StoredOnce(s: Archive, device: string, events: seq<Event>)
    ensures
      var docs := TakeAll(s, device, events).docs;
      && (forall id :: id in docs <==> id in s.docs || id in Ids(events))
      && (forall id :: id in s.docs ==> docs[id] == s.docs[id])
      && (forall id :: id in docs && id !in s.docs ==> docs[id].event in events && docs[id].event.id == id)
  {
    if events != [] {
      var init, last := events[..|events| - 1], events[|events| - 1];
      assert Ids(events) == Ids(init) + [last.id];
      assert events == init + [last];
      StoredOnce(s, device, init);
    }
  }

  /** The employee to whom the device's number is mapped, if the mapping is active. */
  ghost predicate MapsTo(s: Archive, device: string, employeeNo: string, employeeId: string) {
    employeeNo != "" && (device, employeeNo) in s.identities &&
    s.identities[(device, employeeNo)].active && s.identities[(device, employeeNo)].employeeId == employeeId
  }

  /** A newly stored document names the employee to whom its device's number was mapped when it arrived, and otherwise none. */
  lemma {:induction false} MappedOnArrival(s: Archive, device: string, events: seq<Event>)
    ensures var docs := TakeAll(s, device, events).docs;
            forall id :: id in docs && id !in s.docs ==>
              && (forall employee :: docs[id].employeeId == Some(employee) <==> MapsTo(s, device, docs[id].event.employeeNo, employee))
              && (docs[id].employeeId == None <==> !exists employee :: MapsTo(s, device, docs[id].event.employeeNo, employee))
  {
    if events != [] {
      var init, last := events[..|events| - 1], events[|events| - 1];
      MappedOnArrival(s, device, init);
      var employee := MappedTo(s.identities, KeyOf(device, last));
      if employee.Some? {
        assert MapsTo(s, device, last.employeeNo, employee.value);
      }
    }
  }

  /** The identity that an event without an active mapping counts for: its device and number, if it has one. */
  lemma CountedIdentity(device: string, event: Event, key: IdentityKey)
    ensures KeyOf(device, event) == Some(key) <==> event.employeeNo != "" && key == (device, event.employeeNo)
  {
  }

  /** The stored events of an identity that were unmapped when they were ingested. */
  function Unmapped(docs: map<EventId, Doc>, key: IdentityKey): set<EventId> {
    set id | id in docs && docs[id].employeeId.None? && KeyOf(docs[id].event.deviceId, docs[id].event) == Some(key)
  }

  lemma UnmappedAfter(docs: map<EventId, Doc>, doc: Doc, key: IdentityKey)
    requires doc.event.id !in docs
    ensures
      var counted := doc.employeeId.None? && KeyOf(doc.event.deviceId, doc.event) == Some(key);
      |Unmapped(docs[doc.event.id := doc], key)| == |Unmapped(docs, key)| + (if counted then 1 else 0)
  {
    var after := docs[doc.event.id := doc];
    if doc.employeeId.None? && KeyOf(doc.event.deviceId, doc.event) == Some(key) {
      assert Unmapped(after, key) == Unmapped(docs, key) + {doc.event.id};
    } else {
      assert Unmapped(after, key) == Unmapped(docs, key);
    }
  }

  lemma TakeOneCounts(s: Archive, device: string, batch: Intake, event: Event, key: IdentityKey)
    requires event.deviceId == device && (event.id in batch.docs ==> event.id in s.docs)
    ensures
      var after := TakeOne(s, device, batch, event);
      |Unmapped(after.docs, key)| - Count(after.aggregates, key) == |Unmapped(batch.docs, key)| - Count(batch.aggregates, key)
  {
    if event.id !in s.docs {
      var employee := MappedTo(s.identities, KeyOf(device, event));
      UnmappedAfter(batch.docs, Doc(event, employee), key);
    }
  }

  lemma {:induction false} AggregatesCount(s: Archive, device: string, events: seq<Event>, key: IdentityKey)
    requires Distinct(Ids(events)) && forall e :: e in events ==> e.deviceId == device
    ensures
      var batch := TakeAll(s, device, events);
      |Unmapped(batch.docs, key)| == |Unmapped(s.docs, key)| + Count(batch.aggregates, key)
  {
    if events != [] {
      var init, last := events[..|events| - 1], events[|events| - 1];
      assert Ids(events) == Ids(init) + [last.id];
      assert events == init + [last];
      AggregatesCount(s, device, init, key);
      StoredOnce(s, device, init);
      assert last.id !in Ids(init) by {
        assert forall k :: 0 <= k < |init| ==> Ids(init)[k] == Ids(events)[k];
      }
      TakeOneCounts(s, device, TakeAll(s, device, init), last, key);
    }
  }

  ghost predicate Conserved(s: Archive) {
    forall key :: Count(s.unmapped, key) == |Unmapped(s.docs, key)|
  }

  datatype Change = Upload(device: string, events: seq<Event>) | MapIdentity(key: IdentityKey, mapping: Mapping)

  ghost predicate CanChange(c: Change) {
    c.Upload? ==> Distinct(Ids(c.events)) && forall e :: e in c.events ==> e.deviceId == c.device
  }

  function Apply(s: Archive, c: Change): Archive {
    match c
    case Upload(device, events) => WriteEvents(s, device, events)
    case MapIdentity(key, mapping) => s.(identities := s.identities[key := mapping])
  }

  function ApplyAll(s: Archive, cs: seq<Change>): Archive {
    if cs == [] then s else Apply(ApplyAll(s, cs[..|cs| - 1]), cs[|cs| - 1])
  }

  /** Over any sequence of uploads, re-uploads and mappings, every identity's event count is the number of stored
      events of that identity that were unmapped on arrival. */
  lemma {:induction false} CountsConserved(s: Archive, cs: seq<Change>)
    requires Conserved(s) && forall c :: c in cs ==> CanChange(c)
    ensures Conserved(ApplyAll(s, cs))
  {
    if cs != [] {
      var before, last := ApplyAll(s, cs[..|cs| - 1]), cs[|cs| - 1];
      assert last in cs;
      CountsConserved(s, cs[..|cs| - 1]);
      forall key ensures Count(Apply(before, last).unmapped, key) == |Unmapped(Apply(before, last).docs, key)| {
        if last.Upload? {
          AggregatesCount(before, last.device, last.events, key);
        }
      }
    }
  }

  class EventRepository {
    const device: string
    var docs: map<EventId, Doc>
    var identities: map<IdentityKey, Mapping>
    var unmapped: map<IdentityKey, nat>

    function State(): Archive
      reads this
    {
      Archive(docs, identities, unmapped)
    }

    constructor (device: string)
      ensures State() == Archive(map[], map[], map[]) && this.device == device
    {
      this.device := device;
      docs, identities, unmapped := map[], map[], map[];
    }

    /** `writeEvents`: documents are created in the loop, counts are written once per identity afterwards. */
    method StoreEvents(events: seq<Event>) returns (accepted: seq<EventId>, duplicates: seq<EventId>)
      modifies this
      ensures State() == WriteEvents(old(State()), device, events)
      ensures accepted == TakeAll(old(State()), device, events).accepted
      ensures duplicates == TakeAll(old(State()), device, events).duplicates
    {
      var read := State();
      accepted, duplicates := [], [];
      var aggregates: map<IdentityKey, nat> := map[];
      for i := 0 to |events|
        invariant Intake(docs, accepted, duplicates, aggregates) == TakeAll(read, device, events[..i])
        invariant identities == read.identities && unmapped == read.unmapped
      {
        PrefixStep(events, i);
        var event := events[i];
        if event.id in read.docs {
          duplicates := duplicates + [event.id];
          continue;
        }
        var key := KeyOf(device, event);
        var employee := MappedTo(read.identities, key);
        docs := docs[event.id := Doc(event, employee)];
        accepted := accepted + [event.id];
        if employee.None? && key.Some? {
          aggregates := aggregates[key.value := Count(aggregates, key.value) + 1];
        }
      }
      WholePrefix(events);
      WriteUnmappedAggregates(aggregates);
    }

    method WriteUnmappedAggregates(aggregates: map<IdentityKey, nat>)
      modifies this`unmapped
      ensures unmapped == AddCounts(old(unmapped), aggregates)
    {
      var left := aggregates.Keys;
      while left != {}
        invariant left <= aggregates.Keys
        invariant forall key :: key in unmapped <==> key in old(unmapped) || (key in aggregates && key !in left)
        invariant forall key :: key in unmapped ==>
                    unmapped[key] == Count(old(unmapped), key) + (if key in left then 0 else Count(aggregates, key))
        decreases left
      {
        var key :| key in left;
        left := left - {key};
        unmapped := unmapped[key := Count(unmapped, key) + aggregates[key]];
      }
    }
  }
}
