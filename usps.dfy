/** The USPS adapter of packagetrack/carriers/usps_interface.py: the
    length-keyed identification rules, the service table read from the first
    two characters of the number, the comma-joined location, and the assembly
    of the record from an abstract parsed response. */
module Usps {
  import opened Errors
  import opened Text
  import opened Data
  import opened Delivery

  /** `identify(tracking_number)`: a rule per length, `False` for any other.
      For 13 characters: letters at 0-1, digits at 2-8 and letters at 11-12. */
  predicate Identify(tn: string)
  {
    if |tn| == 13 then IsAlphas(tn[0..2]) && IsDigits(tn[2..9]) && IsAlphas(tn[11..13])
    else if |tn| == 20 then IsDigits(tn) && StartsWith(tn, "0")
    else if |tn| == 22 || |tn| == 30 then IsDigits(tn)
    else false
  }

  /** Only the four lengths of the table are ever identified, and every
      identified number of 20, 22 or 30 characters is all digits. */
  lemma IdentifiedLengths(tn: string)
    requires Identify(tn)
    ensures |tn| in {13, 20, 22, 30}
    ensures |tn| != 13 ==> IsDigits(tn)
  {
  }

  /** The 13-character rule never looks at positions 9 and 10: any two
      characters may stand there. */
  lemma PositionsNineAndTenUnchecked(tn: string, a: char, b: char)
    requires |tn| == 13 && Identify(tn)
    ensures Identify(tn[..9] + [a, b] + tn[11..])
  {
    var t := tn[..9] + [a, b] + tn[11..];
    assert t[0..2] == tn[0..2];
    assert t[2..9] == tn[2..9];
    assert t[11..13] == tn[11..13];
  }

  /** An international number in the usual two-letter, nine-digit,
      two-letter form is identified. */
  lemma InternationalExample()
    ensures Identify("EA123456789US")
  {
    var tn := "EA123456789US";
    assert tn[0..2] == "EA";
    assert tn[2..9] == "1234567";
    assert tn[11..13] == "US";
  }

  /** A 20-digit number must start with '0'. */
  lemma TwentyDigitsStartWithZero(tn: string)
    requires |tn| == 20 && IsDigits(tn)
    ensures Identify(tn) <==> tn[0] == '0'
  {
  }

  /** `_service_types`: the service a number's first two characters name. */
  const ServiceTypes: map<string, string> := map[
    "EA" := "express mail",
    "EC" := "express mail international",
    "CP" := "priority mail international",
    "RA" := "registered mail",
    "RF" := "registered foreign"
  ]

  /** `_service_types.get(tracking_number[0:2], 'USPS')` */
  function ServiceDescription(tn: string): string
  {
    var code := Slice(tn, 0, 2);
    if code in ServiceTypes then ServiceTypes[code] else "USPS"
  }

  /** A known two-character prefix names its service; a number too short to
      have one gets the default. */
  lemma ServiceFromPrefix(tn: string)
    ensures |tn| >= 2 && tn[..2] in ServiceTypes ==> ServiceDescription(tn) == ServiceTypes[tn[..2]]
    ensures |tn| >= 2 && tn[..2] !in ServiceTypes ==> ServiceDescription(tn) == "USPS"
    ensures |tn| < 2 ==> ServiceDescription(tn) == "USPS"
  {
  }

  /** Every key of the service table is two letters. */
  lemma ServiceCodesAreLetters(code: string)
    requires code in ServiceTypes
    ensures |code| == 2 && IsAlpha(code[0]) && IsAlpha(code[1])
  {
  }

  /** The service table only names 13-character numbers: every identified
      number of another length starts with digits, so its service is the
      default 'USPS'. */
  lemma DigitNumbersAreDefaultService(tn: string)
    requires Identify(tn) && |tn| != 13
    ensures ServiceDescription(tn) == "USPS"
  {
    var code := Slice(tn, 0, 2);
    assert code == tn[..2];
    if code in ServiceTypes {
      ServiceCodesAreLetters(code);
    }
  }

  /** `_getTrackingLocation(node)`: city, state and country joined with
      commas, an empty country read as 'US'. */
  function Location(city: string, state: string, country: string): string
  {
    Join([city, state, if country == "" then "US" else country], ",")
  }

  /** A location built from comma-free parts splits back into exactly those
      three parts, with the country defaulted. */
  lemma LocationRoundTrip(city: string, state: string, country: string)
    requires ',' !in city && ',' !in state && ',' !in country
    ensures Split(Location(city, state, country), ',') == [city, state, if country == "" then "US" else country]
  {
    var parts := [city, state, if country == "" then "US" else country];
    assert forall k :: 0 <= k < |parts| ==> ',' !in parts[k];
    SplitJoin(parts, ',');
  }

  /** A node with `EventTime`/`EventDate` (read as a timestamp), `Event`,
      `EventCity`, `EventState` and `EventCountry`. */
  datatype Detail = Detail(timestamp: int, event: string, city: string, state: string, country: string)

  /** `TrackResponse/TrackInfo`: an optional `Error` (whose `Description` may
      be missing), the `TrackDetail` nodes and the `TrackSummary` node. */
  datatype TrackInfoNode = TrackInfoNode(error: Option<Option<string>>, detail: OneOrMany<Detail>,
                                         summary: Option<Detail>)

  /** The parsed response: an optional top-level `Error` and the
      `TrackResponse/TrackInfo` node, absent when either level is missing. */
  datatype Response = Response(systemError: Option<Option<string>>, trackInfo: Option<TrackInfoNode>)

  /** The event `create_event` records for a node. */
  function EventOf(d: Detail): (e: TrackingEvent)
    ensures e.timestamp == d.timestamp && e.detail == d.event && e.extra == map[]
    ensures e.location == Location(d.city, d.state, d.country)
  {
    NewEvent(d.timestamp, Location(d.city, d.state, d.country), d.event, map[])
  }

  function EventsOf(ds: seq<Detail>): (r: seq<TrackingEvent>)
    ensures |r| == |ds|
    ensures forall i :: 0 <= i < |ds| ==> r[i] == EventOf(ds[i])
  {
    seq(|ds|, i requires 0 <= i < |ds| => EventOf(ds[i]))
  }

  /** The error `_parse_response` raises, if any: a top-level `Error` is an
      API failure (a KeyError when it has no `Description`); a missing
      `TrackResponse/TrackInfo` is an API failure; an `Error` in it is a
      tracking-number failure (an API failure without `Description`); a
      missing `TrackSummary` is a KeyError; and a 'DELIVERED' summary reads
      the undefined name `last_update`. */
  function Failure(rsp: Response): (r: Option<Error>)
    ensures rsp.systemError.Some? && rsp.systemError.value.Some? ==>
              r == Some(Error(TrackingApiFailure, rsp.systemError.value.value))
    ensures rsp.systemError == Some(None) ==> r.Some? && r.value.cls == KeyError
    ensures rsp.systemError.None? && rsp.trackInfo.None? ==> r.Some? && r.value.cls == TrackingApiFailure
  {
    if rsp.systemError.Some? then
      match rsp.systemError.value
      case None => Some(Error(KeyError, "Description"))
      case Some(d) => Some(Error(TrackingApiFailure, d))
    else if rsp.trackInfo.None? then
      // the KeyError of the nested lookup, re-raised
      Some(Error(TrackingApiFailure, "response without TrackInfo"))
    else
      var node := rsp.trackInfo.value;
      if node.error.Some? then
        match node.error.value
        case None => Some(Error(TrackingApiFailure, "error without Description"))
        case Some(d) => Some(Error(TrackingNumberFailure, d))
      else if node.summary.None? then Some(Error(KeyError, "TrackSummary"))
      else if node.summary.value.event == "DELIVERED" then
        Some(Error(NameError, "name 'last_update' is not defined"))
      else None
  }

  /** With a well-formed top level, the `TrackInfo` node decides the error. */
  lemma TrackInfoFailures(rsp: Response)
    requires rsp.systemError.None? && rsp.trackInfo.Some?
    ensures var info := rsp.trackInfo.value;
      && (info.error.Some? && info.error.value.Some? ==>
            Failure(rsp) == Some(Error(TrackingNumberFailure, info.error.value.value)))
      && (info.error == Some(None) ==> Failure(rsp).Some? && Failure(rsp).value.cls == TrackingApiFailure)
      && (info.error.None? && info.summary.None? ==> Failure(rsp).Some? && Failure(rsp).value.cls == KeyError)
      && (info.error.None? && info.summary.Some? && info.summary.value.event == "DELIVERED" ==>
            Failure(rsp).Some? && Failure(rsp).value.cls == NameError)
  {
  }

  /** Every delivered package fails to parse: the record is never built for
      a 'DELIVERED' summary. */
  lemma DeliveredNeverParses(rsp: Response)
    requires rsp.trackInfo.Some? && rsp.trackInfo.value.summary.Some?
    requires rsp.trackInfo.value.summary.value.event == "DELIVERED"
    ensures Failure(rsp).Some?
  {
  }

  /** The events `_parse_response` records on a fresh record: the summary
      event, then one per `TrackDetail` node, each kept in timestamp order. */
  method RecordEvents(info: TrackingInfo, summary: Detail, details: seq<Detail>)
    requires info.events == []
    modifies info`events
    ensures info.events == SortByTimestamp([EventOf(summary)] + EventsOf(details))
  {
    var first := info.CreateEvent(summary.timestamp, Location(summary.city, summary.state, summary.country),
                                  summary.event, map[]);
    assert [] + [first] == [first];
    SortKeepsSortedList([first]);
    AddEvents(info, EventsOf(details));
  }

  /** `_parse_response(raw, tracking_number)` on a parsed response: the error
      `Failure` names, or a record of the number, its service, and the summary
      event followed by one event per `TrackDetail` node. */
  method ParseResponse(tn: string, rsp: Response) returns (r: Result<TrackingInfo>)
    ensures Failure(rsp).Some? ==> r == Err(Failure(rsp).value)
    ensures Failure(rsp).None? ==> r.Ok?
    ensures r.Ok? ==>
              var info := rsp.trackInfo.value;
              && fresh(r.value)
              && r.value.trackingNumber == Some(tn)
              && r.value.deliveryDate.None?
              && r.value.extra == map["service" := Str(ServiceDescription(tn))]
              && r.value.events == SortByTimestamp([EventOf(info.summary.value)] + EventsOf(AsList(info.detail)))
              && |r.value.events| == 1 + |AsList(info.detail)|
  {
    var failure := Failure(rsp);
    if failure.Some? {
      return Err(failure.value);
    }
    var node := rsp.trackInfo.value;
    var info := RecordOf(tn, ServiceDescription(tn), node.summary.value, AsList(node.detail));
    r := Ok(info);
  }

  /** The record of one response that passed the error checks. */
  method RecordOf(tn: string, service: string, summary: Detail, details: seq<Detail>) returns (info: TrackingInfo)
    ensures fresh(info)
    ensures info.trackingNumber == Some(tn) && info.deliveryDate.None?
    ensures info.extra == map["service" := Str(service)]
    ensures info.events == SortByTimestamp([EventOf(summary)] + EventsOf(details))
  {
    info := new TrackingInfo(Some(tn), None, map["service" := Str(service)]);
    RecordEvents(info, summary, details);
  }
}
