/** The USPS adapter of the older packagetrack/service/usps_interface.py: its
    identification rules, whose 22-digit rule leaves the '91' and '96'
    prefixes to FedEx, its `url`, the errors of `_parse_response`, and the
    event assembly of `_parse_response`. The location and the response layout
    are the same as in the newer adapter and are shared with it. */
module ServiceUsps {
  import opened Errors
  import opened Text
  import opened Data
  import Delivery
  import Usps

  /** `identify(tracking_number)`: as in the newer adapter, except that a
      22-character number must be digits starting with '9' but with neither
      '96' nor '91'. */
  predicate Identify(tn: string)
  {
    if |tn| == 13 then IsAlphas(tn[0..2]) && IsDigits(tn[2..9]) && IsAlphas(tn[11..13])
    else if |tn| == 20 then IsDigits(tn) && StartsWith(tn, "0")
    else if |tn| == 22 then IsDigits(tn) && StartsWith(tn, "9") && !StartsWith(tn, "96") && !StartsWith(tn, "91")
    else if |tn| == 30 then IsDigits(tn)
    else false
  }

  /** The 22-character rule: all digits, a leading '9', and a second digit
      other than '6' and '1'. */
  lemma TwentyTwoRule(tn: string)
    requires |tn| == 22
    ensures Identify(tn) <==> IsDigits(tn) && tn[0] == '9' && tn[1] != '6' && tn[1] != '1'
  {
    if tn[0] == '9' {
      assert tn[..1] == "9";
      assert tn[1] == '6' <==> tn[..2] == "96" by {
        if tn[..2] == "96" { assert tn[..2][1] == tn[1]; }
        if tn[1] == '6' { assert tn[..2] == [tn[0], tn[1]]; }
      }
      assert tn[1] == '1' <==> tn[..2] == "91" by {
        if tn[..2] == "91" { assert tn[..2][1] == tn[1]; }
        if tn[1] == '1' { assert tn[..2] == [tn[0], tn[1]]; }
      }
    } else {
      assert tn[..1] != "9" by { assert tn[..1][0] == tn[0]; }
    }
  }

  /** The two revisions differ only on 22 characters, where this one is the
      narrower: everything it identifies the newer adapter identifies too. */
  lemma NarrowerThanNewer(tn: string)
    ensures |tn| != 22 ==> (Identify(tn) <==> Usps.Identify(tn))
    ensures Identify(tn) ==> Usps.Identify(tn)
  {
  }

  /** A number the newer adapter identifies but this one does not. */
  lemma NinetyOneLeftToFedex()
    ensures Usps.Identify("9100000000000000000000")
    ensures !Identify("9100000000000000000000")
  {
    var tn := "9100000000000000000000";
    assert tn[..2] == "91";
  }

  /** `_url_template` as its two lines evidently mean it, the second joined to
      the first as the newer adapter does with a `\` continuation: the
      address with a `{tn}` field at the end. */
  const UrlTemplate: seq<TemplatePart> :=
    [Lit("http://trkcnfrm1.smi.usps.com/PTSInternetWeb/InterLabelInquiry.do?origTrackNum="), Field("tn"), Lit("")]

  /** `url(tracking_number)`: `_url_template.format(tn=tracking_number)`. */
  function Url(tn: string): Result<string>
  {
    Format(UrlTemplate, "tn", tn)
  }

  /** The number is substituted at the end of the address. */
  lemma UrlSubstitutes(tn: string)
    ensures Url(tn) == Ok("http://trkcnfrm1.smi.usps.com/PTSInternetWeb/InterLabelInquiry.do?origTrackNum=" + tn)
  {
    FormatOneField("http://trkcnfrm1.smi.usps.com/PTSInternetWeb/InterLabelInquiry.do?origTrackNum=", "tn", "", tn);
    assert "http://trkcnfrm1.smi.usps.com/PTSInternetWeb/InterLabelInquiry.do?origTrackNum=" + tn + ""
        == "http://trkcnfrm1.smi.usps.com/PTSInternetWeb/InterLabelInquiry.do?origTrackNum=" + tn;
  }

  /** The error `_parse_response` raises. A top-level `Error` is a tracking
      failure with its `Description` (a KeyError without one); a missing
      `TrackResponse/TrackInfo` is a KeyError; an `Error` in it is a
      tracking failure (a KeyError without `Description`); a missing
      `TrackSummary` is a KeyError; and past these, the lookup of the
      misspelt `self.service_types` raises AttributeError, so no response
      yields a record. */
  function Failure(rsp: Usps.Response): (e: Error)
    ensures rsp.systemError.Some? && rsp.systemError.value.Some? ==>
              e == Error(TrackingFailure, rsp.systemError.value.value)
    ensures rsp.systemError == Some(None) ==> e.cls == KeyError
    ensures rsp.systemError.None? && rsp.trackInfo.None? ==> e.cls == KeyError
    ensures rsp.systemError.None? && rsp.trackInfo.Some? ==>
              var node := rsp.trackInfo.value;
              && (node.error.Some? && node.error.value.Some? ==> e == Error(TrackingFailure, node.error.value.value))
              && (node.error == Some(None) ==> e.cls == KeyError)
              && (node.error.None? && node.summary.None? ==> e.cls == KeyError)
              && (node.error.None? && node.summary.Some? ==> e.cls == AttributeError)
  {
    if rsp.systemError.Some? then
      match rsp.systemError.value
      case None => Error(KeyError, "Description")
      case Some(d) => Error(TrackingFailure, d)
    else if rsp.trackInfo.None? then Error(KeyError, "TrackResponse")
    else
      var node := rsp.trackInfo.value;
      if node.error.Some? then
        match node.error.value
        case None => Error(KeyError, "Description")
        case Some(d) => Error(TrackingFailure, d)
      else if node.summary.None? then Error(KeyError, "TrackSummary")
      else Error(AttributeError, "'USPSInterface' object has no attribute 'service_types'")
  }

  /** `_parse_response(raw, tracking_number)`: always the error of `Failure`. */
  function ParseResponse(tn: string, rsp: Usps.Response): (r: Result<TrackingInfo>)
    ensures r.Err?
  {
    Err(Failure(rsp))
  }

  /** Every response the newer adapter turns into a record, this one rejects
      with AttributeError; and every error it reports with a description is
      one the newer adapter reports with the same description, as a subclass
      of tracking failure. */
  lemma ParsedByNewerOnly(tn: string, rsp: Usps.Response)
    ensures Usps.Failure(rsp).None? ==> Failure(rsp).cls == AttributeError
    ensures Failure(rsp).cls == TrackingFailure ==>
              Usps.Failure(rsp).Some? && Usps.Failure(rsp).value.message == Failure(rsp).message &&
              IsSubclass(Usps.Failure(rsp).value.cls, TrackingFailure)
  {
  }

  /** The events lines 105-121 record: the summary event when the status
      is 'DELIVERED', then one event per `TrackDetail` node. */
  function Recorded(summary: Usps.Detail, details: seq<Usps.Detail>): (r: seq<TrackingEvent>)
    ensures |r| == |details| + (if summary.event == "DELIVERED" then 1 else 0)
  {
    (if summary.event == "DELIVERED" then [Usps.EventOf(summary)] else []) + Usps.EventsOf(details)
  }

  /** Sorting keeps exactly the events it is given. */
  lemma SortKeepsMembers(s: seq<TrackingEvent>, x: TrackingEvent)
    ensures x in SortByTimestamp(s) <==> x in s
  {
    assert multiset(SortByTimestamp(s)) == multiset(s);
    assert x in SortByTimestamp(s) <==> x in multiset(SortByTimestamp(s));
    assert x in s <==> x in multiset(s);
  }

  /** The summary's event is recorded when the status is 'DELIVERED', and
      otherwise only if it also stands among the details. */
  lemma SummaryRecordedWhenDelivered(summary: Usps.Detail, details: seq<Usps.Detail>)
    ensures summary.event == "DELIVERED" ==> Usps.EventOf(summary) in SortByTimestamp(Recorded(summary, details))
    ensures summary.event != "DELIVERED" && Usps.EventOf(summary) !in Usps.EventsOf(details) ==>
              Usps.EventOf(summary) !in SortByTimestamp(Recorded(summary, details))
  {
    var s := Recorded(summary, details);
    SortKeepsMembers(s, Usps.EventOf(summary));
    if summary.event == "DELIVERED" {
      assert s[0] == Usps.EventOf(summary);
    } else {
      assert s == [] + Usps.EventsOf(details);
    }
  }

  /** The event assembly of `_parse_response` on the fresh record, which
      the lines before it never let the program reach: the optional
      summary event, then `create_event` once per detail, the loop
      `Delivery.AddEvents` carries out. */
  method RecordEvents(info: TrackingInfo, summary: Usps.Detail, details: seq<Usps.Detail>)
    requires info.events == []
    modifies info`events
    ensures info.events == SortByTimestamp(Recorded(summary, details))
  {
    var start: seq<TrackingEvent> := [];
    if summary.event == "DELIVERED" {
      var first := info.CreateEvent(summary.timestamp, Usps.Location(summary.city, summary.state, summary.country),
                                    summary.event, map[]);
      start := [first];
      assert [] + [first] == [first];
      SortKeepsSortedList([first]);
    }
    Delivery.AddEvents(info, Usps.EventsOf(details));
  }
}
