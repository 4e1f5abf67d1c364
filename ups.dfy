/** The UPS adapter of packagetrack/carriers/ups_interface.py: identification
    of "1Z" numbers with their letter-to-digit mod-10 check, the location and
    delivery-date rules of `_parse_response`, and the assembly of the record
    from an abstract parsed response. */
module Ups {
  import opened Errors
  import opened Text
  import opened Data
  import opened Delivery
  import Carriers

  /** The value of one (uppercased) character of the code before its check
      digit: a digit counts as itself, anything else as `(ord(c) - 63) % 10`. */
  function CharValue(c: char): (v: nat)
    ensures v <= 9
    ensures IsDigit(c) ==> v == DigitValue(c)
  {
    if IsDigit(c) then DigitValue(c) else (c as int - 63) % 10
  }

  /** `sum(digits[1::2]) * 2 + sum(digits[::2])` over the values of `s`. */
  function Total(s: string): nat
  {
    if |s| == 0 then 0
    else Total(s[..|s| - 1]) + (if (|s| - 1) % 2 == 1 then 2 else 1) * CharValue(s[|s| - 1])
  }

  /** `_check_tracking_code(code)`: `int(code[-1])` raises IndexError on an
      empty code and ValueError on a non-digit; otherwise the code passes when
      `10 - (total % 10)` equals its last digit. */
  function CheckTrackingCode(code: string): (r: Result<bool>)
    ensures r.Err? <==> |code| == 0 || !IsDigit(code[|code| - 1])
  {
    if |code| == 0 then Err(Error(IndexError, "string index out of range"))
    else if !IsDigit(code[|code| - 1]) then Err(Error(ValueError, "invalid literal for int() with base 10"))
    else Ok(10 - Total(Upper(code[..|code| - 1])) % 10 == DigitValue(code[|code| - 1]))
  }

  /** `identify(tracking_number)` */
  predicate Identify(tn: string)
  {
    && StartsWith(tn, "1Z")
    && IsDigit(tn[|tn| - 1])
    && IsAlnums(tn)
    && CheckTrackingCode(tn[2..]) == Ok(true)
  }

  /** Past the prefix and last-character tests, the code check cannot raise,
      so `identify` never raises. */
  lemma IdentifyNeverRaises(tn: string)
    requires StartsWith(tn, "1Z") && IsDigit(tn[|tn| - 1])
    ensures CheckTrackingCode(tn[2..]).Ok?
  {
    assert tn[1] == 'Z';
    assert tn[2..][|tn| - 3] == tn[|tn| - 1];
  }

  /** A total that is a multiple of ten is always rejected, and so is every
      code whose check digit is 0: `10 - (total % 10)` lies in 1..10. */
  lemma MultipleOfTenRejected(code: string)
    requires |code| > 0 && IsDigit(code[|code| - 1])
    ensures Total(Upper(code[..|code| - 1])) % 10 == 0 ==> CheckTrackingCode(code) == Ok(false)
    ensures code[|code| - 1] == '0' ==> CheckTrackingCode(code) == Ok(false)
  {
  }

  /** At most one check digit passes: changing the last digit of a passing
      code makes it fail. */
  lemma OneCheckDigit(code: string, d: char)
    requires CheckTrackingCode(code) == Ok(true)
    requires IsDigit(d) && d != code[|code| - 1]
    ensures CheckTrackingCode(code[|code| - 1 := d]) == Ok(false)
  {
    var code' := code[|code| - 1 := d];
    assert code'[..|code'| - 1] == code[..|code| - 1];
  }

  lemma UpperLower(s: string)
    ensures Upper(Lower(s)) == Upper(s)
  {
    assert forall i :: 0 <= i < |s| ==> Upper(Lower(s))[i] == Upper(s)[i];
  }

  /** Letters score the same in either case: lowering the code after "1Z"
      never changes the verdict. */
  lemma IdentifyIgnoresCase(code: string)
    ensures Identify("1Z" + Lower(code)) == Identify("1Z" + code)
  {
    Prefixed(code);
    Prefixed(Lower(code));
    AlnumsIgnoreCase(code);
    CheckIgnoresCase(code);
    if |code| == 0 {
      assert "1Z" + code == "1Z" + Lower(code);
    }
  }

  /** "1Z" followed by a code starts with "1Z", ends as the code does, and
      leaves the code after it. */
  lemma Prefixed(code: string)
    ensures StartsWith("1Z" + code, "1Z") && ("1Z" + code)[2..] == code
    ensures |code| > 0 ==> ("1Z" + code)[|code| + 1] == code[|code| - 1]
  {
    assert ("1Z" + code)[..2] == "1Z";
  }

  lemma AlnumsIgnoreCase(code: string)
    ensures IsAlnums("1Z" + Lower(code)) <==> IsAlnums("1Z" + code)
  {
    var t1, t2 := "1Z" + code, "1Z" + Lower(code);
    forall i | 0 <= i < |t1| ensures IsAlnum(t1[i]) <==> IsAlnum(t2[i]) {
      if i >= 2 { assert t1[i] == code[i - 2] && t2[i] == Lower(code)[i - 2]; }
    }
  }

  /** The code check gives the same answer on the lowered code. */
  lemma CheckIgnoresCase(code: string)
    ensures CheckTrackingCode(Lower(code)) == CheckTrackingCode(code)
  {
    if |code| > 0 {
      var n := |code|;
      assert IsDigit(code[n - 1]) ==> Lower(code)[n - 1] == code[n - 1];
      assert IsDigit(Lower(code)[n - 1]) ==> IsDigit(code[n - 1]);
      assert Lower(code)[..n - 1] == Lower(code[..n - 1]);
      UpperLower(code[..n - 1]);
    }
  }

  /** There is no length constraint: a four- and a six-character number pass. */
  lemma ShortNumbersPass()
    ensures Identify("1Z19") && Identify("1Z1116")
  {
    FourCharacterNumberPasses();
    SixCharacterNumberPasses();
  }

  lemma FourCharacterNumberPasses()
    ensures Identify("1Z19")
  {
    assert "1Z19" == "1Z" + "19";
    Prefixed("19");
    assert "19"[..1] == "1" && Upper("1") == "1" && "1"[..0] == [];
  }

  lemma SixCharacterNumberPasses()
    ensures Identify("1Z1116")
  {
    assert "1Z1116" == "1Z" + "1116";
    Prefixed("1116");
    assert "1116"[..3] == "111" && Upper("111") == "111";
    assert "111"[..2] == "11" && "11"[..1] == "1" && "1"[..0] == [];
    assert Total("111") == 4;
  }

  /** The fifteen nines before the check digit total 198. */
  lemma NinesTotal()
    ensures Total("999999999999999") == 198
  {
    NinesHead();
    NinesTail();
    TotalConcat("99999999", "9999999");
    assert "99999999" + "9999999" == "999999999999999";
  }

  lemma NinesHead()
    ensures Total("99999999") == 108
  {
    var p := "99999999";
    assert p[..0] == [];
    TotalStep(p, 0);
    TotalStep(p, 1);
    TotalStep(p, 2);
    TotalStep(p, 3);
    TotalStep(p, 4);
    TotalStep(p, 5);
    TotalStep(p, 6);
    TotalStep(p, 7);
    assert p[..8] == p;
  }

  lemma NinesTail()
    ensures Total("9999999") == 90
  {
    var p := "9999999";
    assert p[..0] == [];
    TotalStep(p, 0);
    TotalStep(p, 1);
    TotalStep(p, 2);
    TotalStep(p, 3);
    TotalStep(p, 4);
    TotalStep(p, 5);
    TotalStep(p, 6);
    assert p[..7] == p;
  }

  /** The number used as an example in the package's entry point is not a
      UPS number: its total is 198, so the check is 2, not 9. */
  lemma ExampleNumberRejected()
    ensures !Identify("1Z9999999999999999")
  {
    var code := "9999999999999999";
    var p := "999999999999999";
    assert "1Z9999999999999999"[2..] == code;
    assert code[..15] == p;
    assert Upper(p) == p by {
      assert forall i :: 0 <= i < |p| ==> Upper(p)[i] == p[i];
    }
    NinesTotal();
    assert CheckTrackingCode(code) == Ok(false);
  }

  /** The code of 1Z12345E0205271688 before its check digit totals 84. */
  lemma QuotedTotal()
    ensures Total("12345E020527168") == 84
  {
    QuotedHead();
    QuotedTail();
    TotalConcat("12345E02", "0527168");
    assert "12345E02" + "0527168" == "12345E020527168";
  }

  lemma QuotedHead()
    ensures Total("12345E02") == 37
  {
    var p := "12345E02";
    assert p[..0] == [];
    TotalStep(p, 0);
    TotalStep(p, 1);
    TotalStep(p, 2);
    TotalStep(p, 3);
    TotalStep(p, 4);
    TotalStep(p, 5);
    TotalStep(p, 6);
    TotalStep(p, 7);
    assert p[..8] == p;
  }

  lemma QuotedTail()
    ensures Total("0527168") == 47
  {
    var p := "0527168";
    assert p[..0] == [];
    TotalStep(p, 0);
    TotalStep(p, 1);
    TotalStep(p, 2);
    TotalStep(p, 3);
    TotalStep(p, 4);
    TotalStep(p, 5);
    TotalStep(p, 6);
    assert p[..7] == p;
  }

  /** 1Z12345E0205271688, often quoted as a valid UPS number, is not one
      here: its total is 84, so the check is 6, not 8. */
  lemma QuotedExampleRejected()
    ensures !Identify("1Z12345E0205271688")
  {
    var code := "12345E0205271688";
    var p := "12345E020527168";
    assert "1Z12345E0205271688"[2..] == code;
    assert code[..15] == p;
    assert Upper(p) == p by {
      assert forall i :: 0 <= i < |p| ==> Upper(p)[i] == p[i];
    }
    QuotedTotal();
    assert CheckTrackingCode(code) == Ok(false);
  }

  /** After a prefix of even length the weights start over, so the totals
      of the two parts add up. */
  lemma {:induction false} TotalConcat(a: string, b: string)
    requires |a| % 2 == 0
    ensures Total(a + b) == Total(a) + Total(b)
    decreases |b|
  {
    if |b| == 0 {
      assert a + b == a;
    } else {
      var s, init, c := a + b, b[..|b| - 1], b[|b| - 1];
      assert s[..|s| - 1] == a + init;
      assert s[|s| - 1] == c;
      TotalConcat(a, init);
      EvenShiftKeepsParity(|a|, |b| - 1);
      var w := if (|b| - 1) % 2 == 1 then 2 else 1;
      assert Total(s) == Total(a + init) + w * CharValue(c);
      assert Total(b) == Total(init) + w * CharValue(c);
    }
  }

  lemma EvenShiftKeepsParity(k: nat, m: nat)
    requires k % 2 == 0
    ensures (k + m) % 2 == m % 2
  {
  }

  /** One more character of the code. */
  lemma TotalStep(s: string, k: nat)
    requires k < |s|
    ensures Total(s[..k + 1]) == Total(s[..k]) + (if k % 2 == 1 then 2 else 1) * CharValue(s[k])
  {
    assert s[..k + 1][..k] == s[..k];
  }

  /** `track` is wrapped by the number check: an unidentified number raises
      InvalidTrackingNumber before any request. */
  lemma TrackChecksNumberFirst<T>(tn: string, skipCheck: bool, run: string -> Result<T>)
    requires !Identify(tn)
    ensures Carriers.Guarded(Ok(Identify(tn)), tn, skipCheck, run) == Err(Error(InvalidTrackingNumber, tn))
  {
  }

  const AddressKeys: seq<string> := ["City", "StateProvinceCode", "CountryCode"]

  /** The values of the keys present in `loc`, in the order of `keys`. */
  function Present(loc: map<string, string>, keys: seq<string>): (r: seq<string>)
    ensures |r| <= |keys|
    ensures r == [] <==> forall i :: 0 <= i < |keys| ==> keys[i] !in loc
    decreases |keys|
  {
    if |keys| == 0 then []
    else (if keys[0] in loc then [loc[keys[0]]] else []) + Present(loc, keys[1..])
  }

  lemma PresentFrom(loc: map<string, string>, keys: seq<string>, i: nat)
    requires i < |keys|
    ensures Present(loc, keys[i..]) ==
              (if keys[i] in loc then [loc[keys[i]]] else []) + Present(loc, keys[i + 1..])
  {
    assert keys[i..][1..] == keys[i + 1..];
  }

  /** The `try: append / except KeyError: continue` loop. */
  method CollectPresent(loc: map<string, string>, keys: seq<string>) returns (parts: seq<string>)
    ensures parts == Present(loc, keys)
  {
    parts := [];
    var i := 0;
    while i < |keys|
      invariant 0 <= i <= |keys|
      invariant Present(loc, keys) == parts + Present(loc, keys[i..])
    {
      PresentFrom(loc, keys, i);
      if keys[i] in loc {
        ConcatAssoc(parts, [loc[keys[i]]], Present(loc, keys[i + 1..]));
        parts := parts + [loc[keys[i]]];
      } else {
        assert [] + Present(loc, keys[i + 1..]) == Present(loc, keys[i + 1..]);
      }
      i := i + 1;
    }
  }

  /** `','.join(location) if location else 'UNKNOWN'` */
  function EventLocation(loc: map<string, string>): string
  {
    var parts := Present(loc, AddressKeys);
    if |parts| == 0 then "UNKNOWN" else Join(parts, ",")
  }

  /** The location of the latest activity: 'N/A' for status code 'M'. The
      source computes it and does not store it. */
  function LastLocation(statusCode: string, loc: map<string, string>): string
  {
    if statusCode == "M" then "N/A" else EventLocation(loc)
  }

  /** An address with none of the three keys is UNKNOWN; one with some of them
      splits back on ',' into exactly the present values, in order, when no
      value holds a comma. */
  lemma {:induction false} LocationRoundTrip(loc: map<string, string>)
    requires forall k :: k in loc ==> ',' !in loc[k]
    ensures Present(loc, AddressKeys) == [] ==> EventLocation(loc) == "UNKNOWN"
    ensures Present(loc, AddressKeys) != [] ==> Split(EventLocation(loc), ',') == Present(loc, AddressKeys)
  {
    var parts := Present(loc, AddressKeys);
    if parts != [] {
      PresentLacks(loc, AddressKeys, ',');
      SplitJoin(parts, ',');
    }
  }

  /** A character no value holds is in no collected part. */
  lemma {:induction false} PresentLacks(loc: map<string, string>, keys: seq<string>, c: char)
    requires forall k :: k in loc ==> c !in loc[k]
    ensures forall j :: 0 <= j < |Present(loc, keys)| ==> c !in Present(loc, keys)[j]
    decreases |keys|
  {
    if |keys| > 0 {
      PresentLacks(loc, keys[1..], c);
    }
  }

  /** With all three keys present the location is "city,state,country". */
  lemma FullAddress(city: string, state: string, country: string)
    ensures EventLocation(map["City" := city, "StateProvinceCode" := state, "CountryCode" := country])
      == city + "," + state + "," + country
  {
    var loc := map["City" := city, "StateProvinceCode" := state, "CountryCode" := country];
    assert AddressKeys[1..] == ["StateProvinceCode", "CountryCode"];
    assert AddressKeys[1..][1..] == ["CountryCode"];
    assert AddressKeys[1..][1..][1..] == [];
    assert Present(loc, AddressKeys) == [city, state, country];
    assert [city, state, country][1..] == [state, country] && [state, country][1..] == [country];
    assert Join([state, country], ",") == state + "," + country;
    assert Join([city, state, country], ",") == city + "," + (state + "," + country);
  }

  /** The delivery date: the last update for service '031' or status 'D';
      otherwise the rescheduled date, then the scheduled one, then none. */
  function DeliveryDate(serviceCode: string, statusCode: string, lastUpdate: int,
                        rescheduled: Option<int>, scheduled: Option<int>): (r: Option<int>)
    ensures serviceCode == "031" || statusCode == "D" ==> r == Some(lastUpdate)
    ensures r.None? <==> serviceCode != "031" && statusCode != "D" && rescheduled.None? && scheduled.None?
  {
    if serviceCode == "031" || statusCode == "D" then Some(lastUpdate)
    else if rescheduled.Some? then rescheduled
    else scheduled
  }

  /** Outside delivery, a rescheduled date overrides the scheduled one, and
      the scheduled date is used only when there is no rescheduled one. */
  lemma RescheduledOverridesScheduled(serviceCode: string, statusCode: string, lastUpdate: int,
                                      rescheduled: Option<int>, scheduled: Option<int>)
    requires serviceCode != "031" && statusCode != "D"
    ensures rescheduled.Some? ==> DeliveryDate(serviceCode, statusCode, lastUpdate, rescheduled, scheduled) == rescheduled
    ensures rescheduled.None? ==> DeliveryDate(serviceCode, statusCode, lastUpdate, rescheduled, scheduled) == scheduled
  {
  }

  /** One `Activity` entry: its timestamp, status description and code, and
      the address of its location. */
  datatype Activity = Activity(timestamp: int, status: string, statusCode: string, address: map<string, string>)

  /** The parts of the response `_parse_response` reads. */
  datatype Shipment = Shipment(serviceCode: Option<string>, serviceDescription: string,
                               scheduled: Option<int>, rescheduled: Option<int>,
                               activity: OneOrMany<Activity>)

  function EventOf(a: Activity): TrackingEvent
  {
    NewEvent(a.timestamp, EventLocation(a.address), a.status, map[])
  }

  /** The event each activity becomes, in response order. */
  function EventsOf(acts: seq<Activity>): (r: seq<TrackingEvent>)
    ensures |r| == |acts|
    ensures forall i :: 0 <= i < |acts| ==> r[i] == EventOf(acts[i])
  {
    seq(|acts|, i requires 0 <= i < |acts| => EventOf(acts[i]))
  }

  /** `_parse_response` on a parsed response: a missing service code raises
      TrackingApiFailure, a missing Activity KeyError and an empty list of
      them IndexError; otherwise the first activity supplies the last update
      and status code, and every activity becomes one event. */
  method ParseResponse(tn: string, s: Shipment) returns (r: Result<TrackingInfo>)
    ensures s.serviceCode.None? ==> r.Err? && r.error.cls == TrackingApiFailure
    ensures s.serviceCode.Some? && s.activity.Missing? ==> r.Err? && r.error.cls == KeyError
    ensures s.serviceCode.Some? && s.activity == Many([]) ==> r.Err? && r.error.cls == IndexError
    ensures r.Ok? <==> s.serviceCode.Some? && |AsList(s.activity)| > 0
    ensures r.Ok? ==>
      var acts := AsList(s.activity);
      && fresh(r.value)
      && r.value.trackingNumber == Some(tn)
      && r.value.deliveryDate == DeliveryDate(s.serviceCode.value, acts[0].statusCode, acts[0].timestamp,
                                              s.rescheduled, s.scheduled)
      && r.value.extra == map["service" := Str("UPS " + s.serviceDescription)]
      && r.value.events == SortByTimestamp(EventsOf(acts))
  {
    if s.serviceCode.None? {
      return Err(Error(TrackingApiFailure, "response has no service code"));
    }
    if s.activity.Missing? {
      return Err(Error(KeyError, "Activity"));
    }
    var acts := AsList(s.activity);
    if |acts| == 0 {
      return Err(Error(IndexError, "list index out of range"));
    }
    var first := acts[0];
    var deliveryDate := DeliveryDate(s.serviceCode.value, first.statusCode, first.timestamp,
                                     s.rescheduled, s.scheduled);
    var info := NewRecord(Some(tn), deliveryDate, map["service" := Str("UPS " + s.serviceDescription)], EventsOf(acts));
    r := Ok(info);
  }
}
