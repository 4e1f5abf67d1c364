/** The DHL adapter of packagetrack/carriers/dhl_interface.py: identification
    by length, the "delivered" test, the location and detail texts built from
    a shipment event, and the assembly of the record from an abstract parsed
    response. */
module Dhl {
  import opened Errors
  import opened Text
  import opened Data
  import opened Delivery

  /** `identify(tracking_number)`: ten or eleven digits. */
  predicate Identify(tn: string)
  {
    if |tn| == 10 || |tn| == 11 then IsDigits(tn) else false
  }

  /** Exactly the all-digit strings of length ten or eleven are identified. */
  lemma IdentifyIsDigitsOfLength(tn: string)
    ensures Identify(tn) <==> (|tn| == 10 || |tn| == 11) && forall i :: 0 <= i < |tn| ==> IsDigit(tn[i])
  {
  }

  /** `is_delivered(tracking_number, tracking_info=None)` as written: with
      no record given, the tracked record is assigned to `tracking_number`,
      so the status is read from `None` and raises AttributeError. */
  function IsDeliveredAsWritten(given: Option<string>, tracked: Result<string>): (r: Result<bool>)
    ensures given.Some? ==> r == Ok(StatusEndsDelivered(given.value))
    ensures given.None? ==> r.Err?
    ensures given.None? && tracked.Err? ==> r == Err(tracked.error)
    ensures given.None? && tracked.Ok? ==> r.error.cls == AttributeError
  {
    match given
    case Some(status) => Ok(StatusEndsDelivered(status))
    case None =>
      if tracked.Err? then Err(tracked.error)
      else Err(Error(AttributeError, "'NoneType' object has no attribute 'status'"))
  }

  /** `is_delivered` as the other adapters write it: the status of the given
      record, or of the tracked one. */
  function IsDeliveredDhl(given: Option<string>, tracked: Result<string>): (r: Result<bool>)
  {
    IsDelivered(StatusEndsDelivered, given, tracked)
  }

  /** Asked about a number alone, the code as written always fails, even when
      tracking succeeds; the corrected test answers from the tracked status. */
  lemma UntrackedQueryRaises(tracked: Result<string>)
    requires tracked.Ok?
    ensures IsDeliveredAsWritten(None, tracked).Err?
    ensures IsDeliveredAsWritten(None, tracked).error.cls == AttributeError
    ensures IsDeliveredDhl(None, tracked) == Ok(StatusEndsDelivered(tracked.value))
  {
  }

  /** With a record given, which is how `_parse_response` calls it, the two
      agree. */
  lemma GivenRecordAgrees(status: string, tracked: Result<string>)
    ensures IsDeliveredAsWritten(Some(status), tracked) == IsDeliveredDhl(Some(status), tracked)
    ensures IsDeliveredDhl(Some(status), tracked) == Ok(StatusEndsDelivered(status))
  {
  }

  /** `(s.strip() for s in parts if s.strip())` */
  function NonEmptyStripped(parts: seq<string>): (r: seq<string>)
    ensures |r| <= |parts|
    ensures forall k :: 0 <= k < |r| ==> r[k] != [] && !IsSpace(r[k][0]) && !IsSpace(r[k][|r[k]| - 1])
    decreases |parts|
  {
    if |parts| == 0 then []
    else
      var s := Strip(parts[0]);
      var rest := NonEmptyStripped(parts[1..]);
      if s == [] then rest else [s] + rest
  }

  /** Stripping and dropping pieces never introduces a character. */
  lemma {:induction false} NonEmptyStrippedKeepsCharsOut(parts: seq<string>, c: char)
    requires forall k :: 0 <= k < |parts| ==> c !in parts[k]
    ensures forall k :: 0 <= k < |NonEmptyStripped(parts)| ==> c !in NonEmptyStripped(parts)[k]
    decreases |parts|
  {
    if |parts| > 0 {
      StripKeepsCharsOut(parts[0], c);
      NonEmptyStrippedKeepsCharsOut(parts[1..], c);
    }
  }

  /** The event location: the hyphen-separated parts of the service area's
      description, stripped, empty ones dropped, joined with commas. */
  function DhlLocation(area: string): string
  {
    Join(NonEmptyStripped(Split(area, '-')), ",")
  }

  /** The location holds no hyphen. */
  lemma LocationLacksHyphen(area: string)
    ensures '-' !in DhlLocation(area)
  {
    SplitPiecesLackSeparator(area, '-');
    NonEmptyStrippedKeepsCharsOut(Split(area, '-'), '-');
    JoinChars(NonEmptyStripped(Split(area, '-')), ",", '-');
  }

  /** For an area without commas, the location splits on commas into the
      stripped, non-empty hyphen-separated parts of the area. */
  lemma LocationRoundTrip(area: string)
    requires ',' !in area && NonEmptyStripped(Split(area, '-')) != []
    ensures Split(DhlLocation(area), ',') == NonEmptyStripped(Split(area, '-'))
  {
    var pieces := Split(area, '-');
    assert forall k :: 0 <= k < |pieces| ==> ',' !in pieces[k] by {
      JoinSplit(area, '-');
      forall k | 0 <= k < |pieces| ensures ',' !in pieces[k] {
        PieceInJoin(pieces, "-", k);
      }
    }
    NonEmptyStrippedKeepsCharsOut(pieces, ',');
    SplitJoin(NonEmptyStripped(pieces), ',');
  }

  /** Every character of a piece is a character of the join. */
  lemma {:induction false} PieceInJoin(parts: seq<string>, sep: string, k: nat)
    requires k < |parts|
    ensures forall c :: c in parts[k] ==> c in Join(parts, sep)
    decreases |parts|
  {
    if |parts| > 1 {
      if k > 0 {
        PieceInJoin(parts[1..], sep, k - 1);
        assert Join(parts, sep) == parts[0] + sep + Join(parts[1..], sep);
      } else {
        assert Join(parts, sep) == parts[0] + (sep + Join(parts[1..], sep));
      }
    }
  }

  /** An area "X - Y" of two unpadded names without hyphens splits on its
      hyphen into the padded names "X " and " Y". */
  lemma AreaPieces(x: string, y: string)
    requires '-' !in x && '-' !in y
    ensures Split(x + " - " + y, '-') == [x + " ", " " + y]
  {
    AreaShape(x, y);
    SplitPair(x + " ", '-', " " + y);
  }

  lemma AreaShape(x: string, y: string)
    requires '-' !in x && '-' !in y
    ensures x + " - " + y == (x + " ") + ['-'] + (" " + y)
    ensures '-' !in x + " " && '-' !in " " + y
  {
    var a, b := x + " ", " " + y;
    assert forall k :: 0 <= k < |x| ==> a[k] == x[k];
    assert forall k :: 1 <= k < |b| ==> b[k] == y[k - 1];
  }

  /** Such an area gives the location parts X and Y. */
  lemma AreaParts(x: string, y: string)
    requires '-' !in x && '-' !in y
    requires x != [] && !IsSpace(x[0]) && !IsSpace(x[|x| - 1])
    requires y != [] && !IsSpace(y[0]) && !IsSpace(y[|y| - 1])
    ensures NonEmptyStripped(Split(x + " - " + y, '-')) == [x, y]
  {
    AreaPieces(x, y);
    TrailingBlankStripped(x);
    LeadingBlankStripped(y);
    NonEmptyStrippedPair(x + " ", " " + y);
  }

  /** Two pieces that strip to non-empty names give both names, in order. */
  lemma NonEmptyStrippedPair(p: string, q: string)
    requires Strip(p) != [] && Strip(q) != []
    ensures NonEmptyStripped([p, q]) == [Strip(p), Strip(q)]
  {
    NonEmptyStrippedKeep(p, [q]);
    NonEmptyStrippedKeep(q, []);
    assert [p] + [q] == [p, q] && [q] + [] == [q];
    assert [Strip(p)] + ([Strip(q)] + NonEmptyStripped([])) == [Strip(p), Strip(q)];
  }

  /** A piece that strips to a non-empty name is kept, stripped. */
  lemma NonEmptyStrippedKeep(p: string, rest: seq<string>)
    requires Strip(p) != []
    ensures NonEmptyStripped([p] + rest) == [Strip(p)] + NonEmptyStripped(rest)
  {
    NonEmptyStrippedCons(p, rest);
  }

  /** One trailing blank after an unpadded name is stripped. */
  lemma TrailingBlankStripped(name: string)
    requires name != [] && !IsSpace(name[0]) && !IsSpace(name[|name| - 1])
    ensures Strip(name + " ") == name
  {
    var a := name + " ";
    assert a[0] == name[0];
    assert StripLeft(a) == a;
    assert a[..|a| - 1] == name;
    assert StripRight(a) == StripRight(name);
  }

  /** One leading blank before an unpadded name is stripped. */
  lemma LeadingBlankStripped(name: string)
    requires name != [] && !IsSpace(name[0]) && !IsSpace(name[|name| - 1])
    ensures Strip(" " + name) == name
  {
    var b := " " + name;
    assert b[1..] == name;
    assert StripLeft(b) == StripLeft(name) == name;
  }

  /** How the first piece is kept or dropped. */
  lemma NonEmptyStrippedCons(p: string, rest: seq<string>)
    ensures NonEmptyStripped([p] + rest) == (if Strip(p) == [] then [] else [Strip(p)]) + NonEmptyStripped(rest)
  {
    assert ([p] + rest)[0] == p && ([p] + rest)[1..] == rest;
  }

  /** A typical service area: "LEIPZIG - GERMANY" gives the location parts
      "LEIPZIG" and "GERMANY". */
  lemma ExampleAreaParts()
    ensures NonEmptyStripped(Split("LEIPZIG - GERMANY", '-')) == ["LEIPZIG", "GERMANY"]
  {
    assert "LEIPZIG - GERMANY" == "LEIPZIG" + " - " + "GERMANY";
    AreaParts("LEIPZIG", "GERMANY");
  }

  /** `s.strip()` of every piece. */
  function StripEach(parts: seq<string>): (r: seq<string>)
    ensures |r| == |parts|
    ensures forall k :: 0 <= k < |parts| ==> r[k] == Strip(parts[k])
  {
    seq(|parts|, k requires 0 <= k < |parts| => Strip(parts[k]))
  }

  /** Every stripped line is its own strip: stripping a line a second time
      removes nothing more. */
  lemma StripEachStripped(parts: seq<string>)
    ensures forall k :: 0 <= k < |parts| ==> Strip(StripEach(parts)[k]) == StripEach(parts)[k]
  {
    forall k | 0 <= k < |parts| ensures Strip(StripEach(parts)[k]) == StripEach(parts)[k] {
      StripIdempotent(parts[k]);
    }
  }

  /** The event detail: the lines of the service event's description,
      stripped and joined with spaces; the service area's description
      removed; stripped; and every " in" and " at" removed. */
  function DhlDetail(service: string, area: string): string
  {
    var joined := Join(StripEach(Split(service, '\n')), " ");
    Replace(Replace(Strip(Replace(joined, area, "")), " in", ""), " at", "")
  }

  /** The detail is always a single line. */
  lemma DetailIsOneLine(service: string, area: string)
    ensures '\n' !in DhlDetail(service, area)
  {
    var lines := Split(service, '\n');
    SplitPiecesLackSeparator(service, '\n');
    forall k | 0 <= k < |lines| ensures '\n' !in StripEach(lines)[k] {
      StripKeepsCharsOut(lines[k], '\n');
    }
    var joined := Join(StripEach(lines), " ");
    JoinChars(StripEach(lines), " ", '\n');
    DeletionKeepsCharsOut(joined, area, '\n');
    StripKeepsCharsOut(Replace(joined, area, ""), '\n');
    var stripped := Strip(Replace(joined, area, ""));
    DeletionKeepsCharsOut(stripped, " in", '\n');
    DeletionKeepsCharsOut(Replace(stripped, " in", ""), " at", '\n');
  }

  /** A one-line, unpadded description that contains neither the area nor
      " in" nor " at" is recorded unchanged. */
  lemma PlainDetailUnchanged(service: string, area: string)
    requires '\n' !in service
    requires service != [] ==> !IsSpace(service[0]) && !IsSpace(service[|service| - 1])
    requires |area| > 0 ==> !Contains(service, area)
    requires !Contains(service, " in") && !Contains(service, " at")
    ensures DhlDetail(service, area) == service
  {
    JoinedLinesOfOneLine(service);
    ReplaceAbsent(service, area, "");
    StripUnpadded(service);
    ReplaceAbsent(service, " in", "");
    ReplaceAbsent(service, " at", "");
  }

  /** An unpadded line is its own stripped, space-joined lines. */
  lemma JoinedLinesOfOneLine(service: string)
    requires '\n' !in service
    requires service != [] ==> !IsSpace(service[0]) && !IsSpace(service[|service| - 1])
    ensures Join(StripEach(Split(service, '\n')), " ") == service
  {
    SplitWithoutSeparator(service, '\n');
    StripUnpadded(service);
    assert StripEach([service]) == [service];
  }

  /** The removal of " in" is not limited to the word: it also cuts the
      start of words such as "inbound". */
  lemma PrepositionRemovalCutsWords()
    ensures Replace("X inbound", " in", "") == "Xbound"
  {
    assert "X inbound" == ['X'] + " in" + "bound";
    assert ['X'] + "bound" == "Xbound";
    PrepositionCutsWord('X', "bound");
  }

  /** After any other character, " in" followed by a run without blanks is
      removed, whatever word it starts. */
  lemma PrepositionCutsWord(x: char, rest: string)
    requires x != ' ' && ' ' !in rest
    ensures Replace([x] + " in" + rest, " in", "") == [x] + rest
  {
    ReplaceAfterChar(x, " in", "", rest);
    FirstCharAbsent(rest, " in");
    ReplaceAbsent(rest, " in", "");
    assert [x] + "" + rest == [x] + rest;
  }

  /** One `ShipmentEvent` node: its date and time (read as a timestamp) and
      the descriptions of its service area and its service event. */
  datatype ShipmentEvent = ShipmentEvent(timestamp: int, area: string, service: string)

  /** The `AWBInfo` node of the response. */
  datatype AwbInfo = AwbInfo(actionStatus: string, conditionData: Option<string>, awbNumber: string,
                             events: seq<ShipmentEvent>)

  /** The event `_parse_events` builds from a node. */
  function EventOf(e: ShipmentEvent): (r: TrackingEvent)
    ensures r.timestamp == e.timestamp && r.extra == map[]
    ensures r.location == DhlLocation(e.area) && r.detail == DhlDetail(e.service, e.area)
  {
    NewEvent(e.timestamp, DhlLocation(e.area), DhlDetail(e.service, e.area), map[])
  }

  function EventsOf(es: seq<ShipmentEvent>): (r: seq<TrackingEvent>)
    ensures |r| == |es|
    ensures forall i :: 0 <= i < |es| ==> r[i] == EventOf(es[i])
  {
    seq(|es|, i requires 0 <= i < |es| => EventOf(es[i]))
  }

  /** The error `_parse_response` raises, if any: a response without
      `req:TrackingResponse/AWBInfo` is a tracking failure; an action status
      other than 'success' is an API failure carrying the condition data,
      or the action status when there is none. */
  function Failure(rsp: Option<AwbInfo>): (r: Option<Error>)
    ensures rsp.None? ==> r.Some? && r.value.cls == TrackingFailure
    ensures rsp.Some? && rsp.value.actionStatus != "success" && rsp.value.conditionData.Some? ==>
              r == Some(Error(TrackingApiFailure, rsp.value.conditionData.value))
    ensures rsp.Some? && rsp.value.actionStatus != "success" && rsp.value.conditionData.None? ==>
              r == Some(Error(TrackingApiFailure, rsp.value.actionStatus))
    ensures r.None? <==> rsp.Some? && rsp.value.actionStatus == "success"
  {
    match rsp
    case None => Some(Error(TrackingFailure, "req:TrackingResponse"))
    case Some(awb) =>
      if awb.actionStatus == "success" then None
      else Some(Error(TrackingApiFailure,
                      if awb.conditionData.Some? then awb.conditionData.value else awb.actionStatus))
  }

  /** `_parse_response(raw_api_response)` on a parsed response, with the
      record's status and last update as inputs: the number comes from the
      response, the events are sorted, and a delivered shipment gets its last
      update as delivery date. */
  method ParseResponse(rsp: Option<AwbInfo>, status: string, lastUpdate: int) returns (r: Result<TrackingInfo>)
    ensures Failure(rsp).Some? ==> r == Err(Failure(rsp).value)
    ensures Failure(rsp).None? ==> r.Ok?
    ensures r.Ok? ==>
              && fresh(r.value)
              && r.value.trackingNumber == Some(rsp.value.awbNumber)
              && r.value.events == SortByTimestamp(EventsOf(rsp.value.events))
              && r.value.extra == map["is_delivered" := Flag(StatusEndsDelivered(status))]
              && r.value.deliveryDate == if StatusEndsDelivered(status) then Some(lastUpdate) else None
  {
    var failure := Failure(rsp);
    if failure.Some? {
      return Err(failure.value);
    }
    var awb := rsp.value;
    var info := new TrackingInfo(Some(awb.awbNumber), None, map[]);
    info.events := info.SortEvents(Some(EventsOf(awb.events)));
    var delivered := IsDeliveredDhl(Some(status), Err(Error(KeyError, "status")));
    RecordDelivery(info, delivered.value, lastUpdate);
    assert map[]["is_delivered" := Flag(StatusEndsDelivered(status))]
        == map["is_delivered" := Flag(StatusEndsDelivered(status))];
    r := Ok(info);
  }
}
