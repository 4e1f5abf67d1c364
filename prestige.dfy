/** The Prestige adapter of packagetrack/carriers/prestige_interface.py:
    identification, the "delivered" test, the wrapping of network errors,
    the scheduled delivery time read out of its date wrapper, and the
    assembly of the record from an abstract decoded JSON reply. */
module Prestige {
  import opened Errors
  import opened Text
  import opened Data
  import opened Delivery

  /** `identify(tracking_number)`: ten characters, 'P', a letter, then eight
      digits. The length is tested first, so no index is ever out of range. */
  predicate Identify(tn: string)
  {
    |tn| == 10 && tn[0] == 'P' && IsAlpha(tn[1]) && IsDigits(tn[2..])
  }

  /** An identified number is 'P', a letter and eight digits, in that order,
      and every such string is identified. */
  lemma IdentifyExactly(tn: string)
    ensures Identify(tn) <==>
      |tn| == 10 && tn[0] == 'P' && IsAlpha(tn[1]) && forall i :: 2 <= i < 10 ==> IsDigit(tn[i])
  {
    if |tn| == 10 {
      assert forall i :: 2 <= i < 10 ==> tn[2..][i - 2] == tn[i];
    }
  }

  lemma IdentifyExample()
    ensures Identify("PS12345678")
  {
    assert "PS12345678"[2..] == "12345678";
  }

  /** `is_delivered(tracking_number, tracking_info=None)` */
  function IsDeliveredPrestige(given: Option<string>, tracked: Result<string>): (r: Result<bool>)
    ensures given.Some? ==> r == Ok(StatusIsDelivered(given.value))
  {
    IsDelivered(StatusIsDelivered, given, tracked)
  }

  /** `_send_request(tracking_number)` on the outcome of the HTTP request:
      a request error becomes a network failure, a reply is passed on. */
  function SendRequest(reply: Result<string>): (r: Result<string>)
    ensures reply.Ok? ==> r == reply
    ensures reply.Err? ==> r == Err(Error(TrackingNetworkFailure, reply.error.message))
  {
    match reply
    case Ok(content) => Ok(content)
    case Err(e) => Err(Error(TrackingNetworkFailure, e.message))
  }

  /** A failed request is reported as a tracking failure, never as the
      request library's own error. */
  lemma RequestErrorsAreTrackingFailures(reply: Result<string>)
    requires reply.Err?
    ensures Catches(TrackingFailure, SendRequest(reply).error)
  {
  }

  /** `int(s[6:-5])`: the seconds inside a `/Date(<milliseconds>)/` text,
      with the last three digits of the milliseconds dropped. */
  function ScheduledSeconds(s: string): (r: Result<nat>)
    ensures r.Err? ==> r.error.cls == ValueError
  {
    var stop := if |s| >= 5 then |s| - 5 else 0;
    ParseDecimal(if 6 <= stop then s[6..stop] else [])
  }

  /** The wrapper of a millisecond count that ends in "000" gives back the
      count of seconds. */
  lemma ScheduledSecondsOfWrapper(seconds: string)
    requires IsDigits(seconds)
    ensures ScheduledSeconds("/Date(" + seconds + "000)/") == Ok(DecimalValue(seconds))
  {
    var s := "/Date(" + seconds + "000)/";
    assert s[6..|s| - 5] == seconds;
  }

  /** A text too short to hold a digit between the wrapper's parts raises
      ValueError. */
  lemma ShortScheduleRaises(s: string)
    requires |s| <= 11
    ensures ScheduledSeconds(s).Err?
  {
  }

  /** One entry of `TrackingEventHistory`: its code and description, its
      scheduled delivery text, its server date and time (read as a
      timestamp), city and state. */
  datatype HistoryEntry = HistoryEntry(eventCode: string, eventCodeDesc: string, schdDateTime: string,
                                       timestamp: int, city: string, state: string)

  /** One record of the decoded reply. */
  datatype RespData = RespData(trackingNumber: string, history: seq<HistoryEntry>)

  /** `'%s, %s' % (city.strip(), state.strip())` */
  function Location(city: string, state: string): string
  {
    Strip(city) + ", " + Strip(state)
  }

  /** A location of comma-free parts splits on its comma into the stripped
      city and the stripped state after one space. */
  lemma LocationRoundTrip(city: string, state: string)
    requires ',' !in city && ',' !in state
    ensures Split(Location(city, state), ',') == [Strip(city), " " + Strip(state)]
  {
    var a, b := Strip(city), " " + Strip(state);
    StripKeepsCharsOut(city, ',');
    StripKeepsCharsOut(state, ',');
    assert ',' !in b by {
      assert forall k :: 0 < k < |b| ==> b[k] == Strip(state)[k - 1];
    }
    assert Location(city, state) == a + [','] + b;
    SplitPair(a, ',', b);
  }

  /** The event `create_event` records for an entry. */
  function EventOf(h: HistoryEntry): (e: TrackingEvent)
    ensures e.timestamp == h.timestamp && e.extra == map[]
    ensures e.location == Location(h.city, h.state) && e.detail == Strip(h.eventCodeDesc)
  {
    NewEvent(h.timestamp, Location(h.city, h.state), Strip(h.eventCodeDesc), map[])
  }

  function EventsOf(hs: seq<HistoryEntry>): (r: seq<TrackingEvent>)
    ensures |r| == |hs|
    ensures forall i :: 0 <= i < |hs| ==> r[i] == EventOf(hs[i])
  {
    seq(|hs|, i requires 0 <= i < |hs| => EventOf(hs[i]))
  }

  /** The error `_parse_response` raises, if any: a reply that is not JSON
      is an API failure; an empty reply or history raises IndexError; a
      first entry whose code starts with 'ERROR_' is an API failure "code:
      description"; and a scheduled time that is not a number raises
      ValueError. The reply is `None` when it is not JSON. */
  function Failure(rsp: Option<seq<RespData>>): (r: Option<Error>)
    ensures rsp.None? ==> r.Some? && r.value.cls == TrackingApiFailure
    ensures rsp.Some? && (|rsp.value| == 0 || |rsp.value[0].history| == 0) ==> r.Some? && r.value.cls == IndexError
    ensures rsp.Some? && |rsp.value| > 0 && |rsp.value[0].history| > 0 ==>
              var first := rsp.value[0].history[0];
              && (StartsWith(first.eventCode, "ERROR_") ==>
                    r == Some(Error(TrackingApiFailure, first.eventCode + ": " + first.eventCodeDesc)))
              && (!StartsWith(first.eventCode, "ERROR_") ==>
                    (r.None? <==> ScheduledSeconds(first.schdDateTime).Ok?))
  {
    match rsp
    case None => Some(Error(TrackingApiFailure, "No JSON object could be decoded"))
    case Some(records) =>
      if |records| == 0 || |records[0].history| == 0 then Some(Error(IndexError, "list index out of range"))
      else
        var first := records[0].history[0];
        if StartsWith(first.eventCode, "ERROR_") then
          Some(Error(TrackingApiFailure, first.eventCode + ": " + first.eventCodeDesc))
        else if ScheduledSeconds(first.schdDateTime).Err? then
          Some(ScheduledSeconds(first.schdDateTime).error)
        else None
  }

  /** `_parse_response(raw_response)` on the decoded reply, with the record's
      status and last update as inputs: the number comes from the reply, the
      delivery date is the scheduled time of the first entry unless the
      shipment is delivered, and every entry becomes one event. */
  method ParseResponse(rsp: Option<seq<RespData>>, status: string, lastUpdate: int) returns (r: Result<TrackingInfo>)
    ensures Failure(rsp).Some? ==> r == Err(Failure(rsp).value)
    ensures Failure(rsp).None? ==> r.Ok?
    ensures r.Ok? ==>
              var data := rsp.value[0];
              && fresh(r.value)
              && r.value.trackingNumber == Some(data.trackingNumber)
              && r.value.events == SortByTimestamp(EventsOf(data.history))
              && r.value.extra == map["is_delivered" := Flag(StatusIsDelivered(status))]
              && r.value.deliveryDate == Some(if StatusIsDelivered(status) then lastUpdate
                                              else ScheduledSeconds(data.history[0].schdDateTime).value)
              && DeliveryConsistent(r.value.extra, r.value.deliveryDate, lastUpdate)
  {
    var failure := Failure(rsp);
    if failure.Some? {
      return Err(failure.value);
    }
    var data := rsp.value[0];
    var delivered := IsDeliveredPrestige(Some(status), Err(Error(KeyError, "status")));
    var info := RecordOf(data.trackingNumber, ScheduledSeconds(data.history[0].schdDateTime).value, EventsOf(data.history),
                         delivered.value, lastUpdate);
    r := Ok(info);
  }

  /** The record of one reply that passed the error checks. */
  method RecordOf(number: string, scheduled: nat, evs: seq<TrackingEvent>, delivered: bool, lastUpdate: int)
    returns (info: TrackingInfo)
    ensures fresh(info)
    ensures info.trackingNumber == Some(number) && info.events == SortByTimestamp(evs)
    ensures info.extra == map["is_delivered" := Flag(delivered)]
    ensures info.deliveryDate == Some(if delivered then lastUpdate else scheduled)
  {
    info := NewRecord(Some(number), Some(scheduled), map[], evs);
    ghost var fields := info.extra;
    RecordDelivery(info, delivered, lastUpdate);
    assert fields == map[];
  }
}
