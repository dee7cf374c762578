/** The cloud function that takes an event batch, and which events its answer confirms. */
module EventIntake {
  import opened Base
  import opened EventDisk
  import opened EventStores
  import opened CloudIngest
  import opened Acknowledgements

  /** What the schema makes of an event on the wire: whether its fields fit, and the size of its raw part. */
  datatype Encoded = Encoded(fits: bool, rawBytes: nat)

  /** The cloud function: the envelope's size, classification, then the write transaction, then the answer. */
  method Ingest(cloud: EventRepository, events: seq<Event>, requestId: string, limits: Limits, encode: Event -> Encoded)
    returns (answered: bool, response: Response)
    requires limits.device == cloud.device
    modifies cloud
    ensures old(cloud.docs).Keys <= cloud.docs.Keys
    ensures answered ==> forall id :: id in response.accepted || id in response.duplicates ==> id in cloud.docs
    ensures answered <==> 0 < |events| <= MAX_BATCH_SIZE && Distinct(Ids(events)) && forall e :: e in events ==> ValidEventId(e.id)
    ensures !answered ==> cloud.docs == old(cloud.docs)
    ensures answered ==> ValidAcknowledgement(response, Request(requestId, cloud.device, Ids(events)))
    ensures answered ==> Sorts(events, encode, limits, old(cloud.docs).Keys, response)
  {
    var values := seq(|events|, i requires 0 <= i < |events| => 
                        Submitted(events[i].id, if encode(events[i]).fits then Some(events[i]) else None, encode(events[i]).rawBytes));
    assert SubmittedIds(values) == Ids(events);
    response := Response(PROTOCOL_VERSION, requestId, cloud.device, [], [], [], 0);
    if events == [] || |events| > MAX_BATCH_SIZE {
      return false, response;
    }
    var ok, valid, rejected := ClassifyEvents(values, limits);
    answered := ok;
    IdentifiedEvents(events, values);
    if ok {
      ghost var read := cloud.State();
      var accepted, duplicates := cloud.StoreEvents(valid);
      StoredOnce(read, cloud.device, valid);
      response := response.(accepted := accepted, duplicates := duplicates, rejected := rejected);
      AnswerAcknowledges(read, cloud.device, values, limits, requestId, response);
      AnswerSorts(read, events, values, encode, limits, response);
    }
  }

  /** The event's fields fit the schema, and it is of the device, small enough and in the accepted time range. */
  predicate Fit(e: Event, encode: Event -> Encoded, limits: Limits) {
    && encode(e).fits && encode(e).rawBytes <= 65_536 && e.deviceId == limits.device
    && limits.earliest <= e.eventTime && e.eventTime <= limits.latest
  }

  /** Exactly the fitting events are confirmed, as duplicates exactly if they were stored before; exactly the others are rejected. */
  ghost predicate Sorts(events: seq<Event>, encode: Event -> Encoded, limits: Limits, known: set<EventId>, response: Response) {
    forall e :: e in events ==>
      && (e.id in response.accepted <==> Fit(e, encode, limits) && e.id !in known)
      && (e.id in response.duplicates <==> Fit(e, encode, limits) && e.id in known)
      && (e.id in RejectedIds(response.rejected) <==> !Fit(e, encode, limits))
  }

  lemma AnswerSorts(read: Archive, events: seq<Event>, values: seq<Submitted>, encode: Event -> Encoded, limits: Limits, response: Response)
    requires |values| == |events| && WellIdentified(values)
    requires forall i :: 0 <= i < |events| ==>
               values[i] == Submitted(events[i].id, if encode(events[i]).fits then Some(events[i]) else None, encode(events[i]).rawBytes)
    requires response.accepted == TakeAll(read, limits.device, ValidOf(values, limits)).accepted
    requires response.duplicates == TakeAll(read, limits.device, ValidOf(values, limits)).duplicates
    requires response.rejected == RejectedOf(values, limits)
    ensures Sorts(events, encode, limits, read.docs.Keys, response)
  {
    AnswerIsPartition(read, limits.device, values, limits, response);
    PartitionMembers(response, SubmittedIds(values));
    AnswerPartitions(read, limits.device, ValidOf(values, limits));
    ClassificationSound(values, limits);
    forall e | e in events
      ensures e.id in Ids(ValidOf(values, limits)) <==> Fit(e, encode, limits)
      ensures e.id in SubmittedIds(values)
    {
      var i :| 0 <= i < |events| && events[i] == e;
      assert SubmittedIds(values)[i] == e.id;
      FitIsValid(events, values, encode, limits, i);
    }
    forall e | e in events ensures e.id in Ids(ValidOf(values, limits)) <==> e.id in response.accepted || e.id in response.duplicates {
      ConfirmedAreValid(read, values, limits, response, e.id);
    }
  }

  lemma ConfirmedAreValid(read: Archive, values: seq<Submitted>, limits: Limits, response: Response, id: EventId)
    requires response.accepted == TakeAll(read, limits.device, ValidOf(values, limits)).accepted
    requires response.duplicates == TakeAll(read, limits.device, ValidOf(values, limits)).duplicates
    ensures id in Ids(ValidOf(values, limits)) <==> id in response.accepted || id in response.duplicates
  {
    AnswerPartitions(read, limits.device, ValidOf(values, limits));
    assert id in multiset(response.accepted) + multiset(response.duplicates) <==> id in multiset(Ids(ValidOf(values, limits)));
  }

  lemma FitIsValid(events: seq<Event>, values: seq<Submitted>, encode: Event -> Encoded, limits: Limits, i: nat)
    requires |values| == |events| && i < |events| && WellIdentified(values)
    requires forall i :: 0 <= i < |events| ==>
               values[i] == Submitted(events[i].id, if encode(events[i]).fits then Some(events[i]) else None, encode(events[i]).rawBytes)
    ensures events[i].id in Ids(ValidOf(values, limits)) <==> Fit(events[i], encode, limits)
  {
    ClassificationSound(values, limits);
    var valid := ValidOf(values, limits);
    if Fit(events[i], encode, limits) {
      assert values[i] in values && Acceptable(values[i], limits) && values[i].parsed.value == events[i];
      IdOfMember(valid, events[i]);
    } else if events[i].id in Ids(valid) {
      var k := MemberOfId(valid, events[i].id);
      var j := ValidIsFit(events, values, encode, limits, k);
      assert false;
    }
  }

  lemma IdOfMember(events: seq<Event>, e: Event)
    requires e in events
    ensures e.id in Ids(events)
  {
    var k :| 0 <= k < |events| && events[k] == e;
    assert Ids(events)[k] == e.id;
  }

  lemma MemberOfId(events: seq<Event>, id: EventId) returns (k: nat)
    requires id in Ids(events)
    ensures k < |events| && events[k].id == id
  {
    k :| 0 <= k < |Ids(events)| && Ids(events)[k] == id;
  }

  lemma ValidIsFit(events: seq<Event>, values: seq<Submitted>, encode: Event -> Encoded, limits: Limits, k: nat) returns (j: nat)
    requires |values| == |events| && k < |ValidOf(values, limits)|
    requires forall i :: 0 <= i < |events| ==>
               values[i] == Submitted(events[i].id, if encode(events[i]).fits then Some(events[i]) else None, encode(events[i]).rawBytes)
    ensures j < |events| && events[j] == ValidOf(values, limits)[k] && Fit(events[j], encode, limits)
  {
    ClassificationSound(values, limits);
    assert ValidOf(values, limits)[k] in ValidOf(values, limits);
    var v :| v in values && Acceptable(v, limits) && v.parsed.value == ValidOf(values, limits)[k];
    j :| 0 <= j < |values| && values[j] == v;
  }

  /** The two lists of the write transaction and the rejections of the classification make up the batch. */
  lemma AnswerAcknowledges(read: Archive, device: string, values: seq<Submitted>, limits: Limits, requestId: string, response: Response)
    requires WellIdentified(values) && Faithful(values)
    requires response == Response(PROTOCOL_VERSION, requestId, device, TakeAll(read, device, ValidOf(values, limits)).accepted,
                                  TakeAll(read, device, ValidOf(values, limits)).duplicates, RejectedOf(values, limits), 0)
    ensures ValidAcknowledgement(response, Request(requestId, device, SubmittedIds(values)))
    ensures forall id :: id in response.accepted || id in response.duplicates ==> id in Ids(ValidOf(values, limits))
  {
    AnswerIsPartition(read, device, values, limits, response);
    ClassificationSound(values, limits);
    NoEmptyId(values);
  }

  lemma AnswerIsPartition(read: Archive, device: string, values: seq<Submitted>, limits: Limits, response: Response)
    requires WellIdentified(values) && Faithful(values)
    requires response.accepted == TakeAll(read, device, ValidOf(values, limits)).accepted
    requires response.duplicates == TakeAll(read, device, ValidOf(values, limits)).duplicates
    requires response.rejected == RejectedOf(values, limits)
    ensures ExactPartition(response, SubmittedIds(values))
    ensures forall id :: id in response.accepted || id in response.duplicates ==> id in Ids(ValidOf(values, limits))
  {
    AnswerPartitions(read, device, ValidOf(values, limits));
    ClassificationPartitions(values, limits);
    forall id | id in response.accepted || id in response.duplicates ensures id in Ids(ValidOf(values, limits)) {
      assert id in multiset(response.accepted) + multiset(response.duplicates);
    }
  }

  lemma NoEmptyId(values: seq<Submitted>)
    requires WellIdentified(values)
    ensures forall id :: id in SubmittedIds(values) ==> id != ""
  {
    forall id | id in SubmittedIds(values) ensures id != "" {
      var k :| 0 <= k < |values| && SubmittedIds(values)[k] == id;
      assert ValidEventId(values[k].id);
    }
  }

  lemma IdentifiedEvents(events: seq<Event>, values: seq<Submitted>)
    requires |values| == |events| && forall i :: 0 <= i < |events| ==> values[i].id == events[i].id
    ensures WellIdentified(values) <==> Distinct(Ids(events)) && forall e :: e in events ==> ValidEventId(e.id)
  {
    if forall e :: e in events ==> ValidEventId(e.id) {
      forall i | 0 <= i < |values| ensures ValidEventId(values[i].id) {
        assert events[i] in events;
      }
    }
    if WellIdentified(values) {
      forall e | e in events ensures ValidEventId(e.id) {
        var i :| 0 <= i < |events| && events[i] == e;
        assert ValidEventId(values[i].id);
      }
    }
  }
}
