/** The Canada Post adapter of packagetrack/carriers/capost_interface.py:
    identification by length, the "delivered" test, and the assembly of the
    record from the summary and detail replies of the SOAP service, whose
    occurrences are read newest first. */
module CanadaPost {
  import opened Errors
  import opened Text
  import opened Data
  import opened Delivery

  /** `identify(tracking_number)`: eleven or thirteen characters with two
      leading letters and the suffix 'CA', or sixteen digits. */
  predicate Identify(tn: string)
  {
    if |tn| == 11 || |tn| == 13 then IsAlphas(tn[..2]) && EndsWith(tn, "CA")
    else if |tn| == 16 then IsDigits(tn)
    else false
  }

  /** Only the middle of an 11- or 13-character number is free: its first two
      characters must be letters and its last two 'CA'. */
  lemma IdentifiedShape(tn: string)
    requires Identify(tn)
    ensures |tn| in {11, 13, 16}
    ensures |tn| != 16 ==> IsAlpha(tn[0]) && IsAlpha(tn[1]) && tn[|tn| - 2] == 'C' && tn[|tn| - 1] == 'A'
    ensures |tn| == 16 ==> forall i :: 0 <= i < 16 ==> IsDigit(tn[i])
  {
    if |tn| != 16 {
      assert tn[..2][0] == tn[0] && tn[..2][1] == tn[1];
      assert tn[|tn| - 2..] == "CA";
      assert tn[|tn| - 2..][0] == tn[|tn| - 2] && tn[|tn| - 2..][1] == tn[|tn| - 1];
    }
  }

  /** An international number of the usual form is identified. */
  lemma InternationalExample()
    ensures Identify("RR123456789CA")
  {
    var tn := "RR123456789CA";
    assert tn[..2] == "RR";
    assert tn[|tn| - 2..] == "CA";
  }

  /** `is_delivered(tracking_number, tracking_info=None)` */
  function IsDeliveredCanadaPost(given: Option<string>, tracked: Result<string>): (r: Result<bool>)
    ensures given.Some? ==> r == Ok(StatusEndsDelivered(given.value))
  {
    IsDelivered(StatusEndsDelivered, given, tracked)
  }

  /** `','.join([event['event-site'], event['event-province']])` */
  function Location(site: string, province: string): string
  {
    Join([site, province], ",")
  }

  /** A location of comma-free parts splits back into site and province. */
  lemma LocationRoundTrip(site: string, province: string)
    requires ',' !in site && ',' !in province
    ensures Split(Location(site, province), ',') == [site, province]
  {
    var parts := [site, province];
    assert forall k :: 0 <= k < |parts| ==> ',' !in parts[k];
    SplitJoin(parts, ',');
  }

  /** One `occurrence` of `significant-events`: its date and time (read as a
      timestamp), description, site and province. */
  datatype Occurrence = Occurrence(timestamp: int, description: string, site: string, province: string)

  /** The parts of the `GetTrackingSummary` reply that are read: its
      `messages`, if any, and the number of `pin-summary` entries. */
  datatype SummaryReply = SummaryReply(messages: Option<string>, pinSummaries: nat)

  /** The parts of the `GetTrackingDetail` reply that are read. */
  datatype DetailReply = DetailReply(messages: Option<string>, expectedDelivery: int, serviceName: string,
                                     occurrences: seq<Occurrence>)

  /** The event `create_event` records for an occurrence. */
  function EventOf(o: Occurrence): (e: TrackingEvent)
    ensures e.timestamp == o.timestamp && e.detail == o.description && e.extra == map[]
    ensures e.location == Location(o.site, o.province)
  {
    NewEvent(o.timestamp, Location(o.site, o.province), o.description, map[])
  }

  function EventsOf(os: seq<Occurrence>): (r: seq<TrackingEvent>)
    ensures |r| == |os|
    ensures forall i :: 0 <= i < |os| ==> r[i] == EventOf(os[i])
  {
    seq(|os|, i requires 0 <= i < |os| => EventOf(os[i]))
  }

  /** `s[::-1]` */
  function Backwards<T>(s: seq<T>): (r: seq<T>)
    ensures |r| == |s|
    ensures forall i :: 0 <= i < |s| ==> r[i] == s[|s| - 1 - i]
    decreases |s|
  {
    if |s| == 0 then [] else [s[|s| - 1]] + Backwards(s[..|s| - 1])
  }

  /** Keeping the events of one timestamp commutes with putting an event in
      front. */
  lemma {:induction false} WithTimestampPrepend(e: TrackingEvent, s: seq<TrackingEvent>, t: int)
    ensures WithTimestamp([e] + s, t) == (if e.timestamp == t then [e] else []) + WithTimestamp(s, t)
    decreases |s|
  {
    if |s| > 0 {
      var init := s[..|s| - 1];
      assert [e] + s == ([e] + init) + [s[|s| - 1]];
      assert ([e] + s)[..|s|] == [e] + init;
      WithTimestampPrepend(e, init, t);
    }
  }

  /** Keeping the events of one timestamp commutes with reversal. */
  lemma {:induction false} WithTimestampBackwards(s: seq<TrackingEvent>, t: int)
    ensures WithTimestamp(Backwards(s), t) == Backwards(WithTimestamp(s, t))
    decreases |s|
  {
    if |s| > 0 {
      var init, last := s[..|s| - 1], s[|s| - 1];
      WithTimestampBackwards(init, t);
      WithTimestampPrepend(last, Backwards(init), t);
      var kept := WithTimestamp(init, t);
      if last.timestamp == t {
        assert (kept + [last])[..|kept|] == kept;
      }
    }
  }

  /** The newest-first reading is visible only among events that share a
      timestamp: after sorting, they stand in the reverse of the reply's
      order. */
  lemma SameTimestampReversed(os: seq<Occurrence>, t: int)
    ensures WithTimestamp(SortByTimestamp(EventsOf(Backwards(os))), t) == Backwards(WithTimestamp(EventsOf(os), t))
  {
    EventsOfBackwards(os);
    SortIsStable(EventsOf(Backwards(os)), t);
    WithTimestampBackwards(EventsOf(os), t);
  }

  /** Reading the occurrences backwards reads their events backwards. */
  lemma EventsOfBackwards(os: seq<Occurrence>)
    ensures EventsOf(Backwards(os)) == Backwards(EventsOf(os))
  {
    var l, r := EventsOf(Backwards(os)), Backwards(EventsOf(os));
    forall i | 0 <= i < |os|
      ensures l[i] == r[i]
    {
      var j := |os| - 1 - i;
      assert Backwards(os)[i] == os[j];
      assert l[i] == EventOf(os[j]);
      assert r[i] == EventsOf(os)[j];
    }
  }

  /** The error `_parse_response` raises, if any: `messages` in the summary
      reply, then in the detail reply, are API failures, and a summary
      without a `pin-summary` entry raises IndexError. */
  function Failure(summary: SummaryReply, detail: DetailReply): (r: Option<Error>)
    ensures summary.messages.Some? ==> r == Some(Error(TrackingApiFailure, summary.messages.value))
    ensures summary.messages.None? && detail.messages.Some? ==>
              r == Some(Error(TrackingApiFailure, detail.messages.value))
    ensures r.None? <==> summary.messages.None? && detail.messages.None? && summary.pinSummaries > 0
  {
    if summary.messages.Some? then Some(Error(TrackingApiFailure, summary.messages.value))
    else if detail.messages.Some? then Some(Error(TrackingApiFailure, detail.messages.value))
    else if summary.pinSummaries == 0 then Some(Error(IndexError, "list index out of range"))
    else None
  }

  /** `_parse_response(summary_response, detail_response)`: a record without
      a number, whose delivery date is the expected one, whose service comes
      from the detail reply, and whose events are the occurrences, read
      newest first and kept in timestamp order. */
  method ParseResponse(summary: SummaryReply, detail: DetailReply) returns (r: Result<TrackingInfo>)
    ensures Failure(summary, detail).Some? ==> r == Err(Failure(summary, detail).value)
    ensures Failure(summary, detail).None? ==> r.Ok?
    ensures r.Ok? ==>
              && fresh(r.value)
              && r.value.trackingNumber.None?
              && r.value.deliveryDate == Some(detail.expectedDelivery)
              && r.value.extra == map["service" := Str(detail.serviceName)]
              && r.value.events == SortByTimestamp(EventsOf(Backwards(detail.occurrences)))
  {
    var failure := Failure(summary, detail);
    if failure.Some? {
      return Err(failure.value);
    }
    var info := NewRecord(None, Some(detail.expectedDelivery), map["service" := Str(detail.serviceName)],
                          EventsOf(Backwards(detail.occurrences)));
    r := Ok(info);
  }

  /** `track(tracking_number)` after the number check, with the replies of
      the service, or the fault it raised, and the record's status and last
      update as inputs: the parsed record gets the number, the delivered
      flag, and on delivery the last update as delivery date. */
  method Track(tn: string, fault: Option<string>, summary: SummaryReply, detail: DetailReply,
               status: string, lastUpdate: int) returns (r: Result<TrackingInfo>)
    ensures fault.Some? ==> r == Err(Error(TrackingApiFailure, fault.value))
    ensures fault.None? && Failure(summary, detail).Some? ==> r == Err(Failure(summary, detail).value)
    ensures r.Ok? <==> fault.None? && Failure(summary, detail).None?
    ensures r.Ok? ==>
              && fresh(r.value)
              && r.value.trackingNumber == Some(tn)
              && r.value.extra == map["service" := Str(detail.serviceName),
                                      "is_delivered" := Flag(StatusEndsDelivered(status))]
              && r.value.deliveryDate == Some(if StatusEndsDelivered(status) then lastUpdate else detail.expectedDelivery)
              && r.value.events == SortByTimestamp(EventsOf(Backwards(detail.occurrences)))
              && DeliveryConsistent(r.value.extra, r.value.deliveryDate, lastUpdate)
  {
    if fault.Some? {
      return Err(Error(TrackingApiFailure, fault.value));
    }
    r := ParseResponse(summary, detail);
    if r.Err? {
      return;
    }
    var delivered := IsDeliveredCanadaPost(Some(status), Err(Error(KeyError, "status")));
    Stamp(r.value, tn, delivered.value, lastUpdate);
  }

  /** The lines of `track` after `_parse_response`: the number is set, then
      the delivered flag and, on delivery, the delivery date. */
  method Stamp(info: TrackingInfo, tn: string, delivered: bool, lastUpdate: int)
    modifies info`trackingNumber, info`extra, info`deliveryDate
    ensures info.trackingNumber == Some(tn)
    ensures info.extra == old(info.extra)["is_delivered" := Flag(delivered)]
    ensures info.deliveryDate == if delivered then Some(lastUpdate) else old(info.deliveryDate)
    ensures DeliveryConsistent(info.extra, info.deliveryDate, lastUpdate)
  {
    info.trackingNumber := Some(tn);
    RecordDelivery(info, delivered, lastUpdate);
  }
}
