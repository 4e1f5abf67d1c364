/** Normalisation rules the carrier adapters share: the two forms of the
    "delivered" test on a status text, the rule that a delivered shipment's
    `delivery_date` is its `last_update`, and the wrapping of a response field
    that holds one item instead of a list. `status` and `last_update` are not
    defined by the record model, so they are inputs here. */
module Delivery {
  import opened Errors
  import opened Text
  import opened Data

  /** `status.lower() == 'delivered'` (FedEx, Prestige). */
  predicate StatusIsDelivered(status: string)
  {
    Lower(status) == "delivered"
  }

  /** `status.lower().endswith('delivered')` (DHL, Canada Post). */
  predicate StatusEndsDelivered(status: string)
  {
    EndsWith(Lower(status), "delivered")
  }

  /** Both tests ignore case, and the suffix test accepts everything the
      equality test accepts. */
  lemma {:induction false} DeliveredTestsIgnoreCase(s1: string, s2: string)
    requires Lower(s1) == Lower(s2)
    ensures StatusIsDelivered(s1) <==> StatusIsDelivered(s2)
    ensures StatusEndsDelivered(s1) <==> StatusEndsDelivered(s2)
    ensures StatusIsDelivered(s1) ==> StatusEndsDelivered(s1)
  {
    if StatusIsDelivered(s1) {
      assert Lower(s1)[|Lower(s1)| - 9..] == Lower(s1);
    }
  }

  /** The suffix test is strictly weaker: it also accepts a status that says
      the opposite. */
  lemma SuffixAcceptsNotDelivered()
    ensures StatusEndsDelivered("Not Delivered") && !StatusIsDelivered("Not Delivered")
  {
    var low := Lower("Not Delivered");
    assert low == "not delivered" by {
      assert forall i :: 0 <= i < |low| ==> low[i] == "not delivered"[i];
    }
    assert low[4..] == "delivered";
  }

  /** `is_delivered(tracking_number, tracking_info=None)` for a test `rule`:
      the status of the given record, or, with none given, of the record
      `track(tracking_number)` returns; an error of `track` propagates. */
  function IsDelivered(rule: string -> bool, given: Option<string>, tracked: Result<string>): (r: Result<bool>)
    ensures given.Some? ==> r == Ok(rule(given.value))
    ensures given.None? && tracked.Ok? ==> r == Ok(rule(tracked.value))
    ensures given.None? && tracked.Err? ==> r == Err(tracked.error)
  {
    match given
    case Some(status) => Ok(rule(status))
    case None => if tracked.Err? then Err(tracked.error) else Ok(rule(tracked.value))
  }

  /** A record whose `is_delivered` is true has `delivery_date == last_update`. */
  predicate DeliveryConsistent(extra: map<string, Value>, deliveryDate: Option<int>, lastUpdate: int)
  {
    "is_delivered" in extra && extra["is_delivered"] == Flag(true) ==> deliveryDate == Some(lastUpdate)
  }

  /** `info.is_delivered = delivered` followed by
      `if info.is_delivered: info.delivery_date = info.last_update`. */
  method RecordDelivery(info: TrackingInfo, delivered: bool, lastUpdate: int)
    modifies info`extra, info`deliveryDate
    ensures info.extra == old(info.extra)["is_delivered" := Flag(delivered)]
    ensures info.deliveryDate == if delivered then Some(lastUpdate) else old(info.deliveryDate)
    ensures DeliveryConsistent(info.extra, info.deliveryDate, lastUpdate)
  {
    info.extra := info.extra["is_delivered" := Flag(delivered)];
    if delivered {
      info.deliveryDate := Some(lastUpdate);
    }
  }

  /** A run of `create_event` calls, one per element of `evs`, on a record
      whose events are in order: the result is one sort of all the events. */
  method AddEvents(info: TrackingInfo, evs: seq<TrackingEvent>)
    requires Sorted(info.events)
    modifies info`events
    ensures info.events == SortByTimestamp(old(info.events) + evs)
  {
    ghost var start := info.events;
    NothingAddedYet(start, evs);
    var i := 0;
    while i < |evs|
      invariant 0 <= i <= |evs|
      invariant info.events == SortByTimestamp(start + evs[..i])
    {
      AddNext(info, start, evs, i);
      i := i + 1;
    }
    AllAdded(start, evs);
  }

  /** A new record whose events are then added one `create_event` call at a
      time, the way every adapter assembles its result. */
  method NewRecord(number: Option<string>, deliveryDate: Option<int>, fields: map<string, Value>,
                   evs: seq<TrackingEvent>) returns (info: TrackingInfo)
    ensures fresh(info)
    ensures info.trackingNumber == number && info.deliveryDate == deliveryDate && info.extra == fields
    ensures info.events == SortByTimestamp(evs)
  {
    info := new TrackingInfo(number, deliveryDate, fields);
    assert [] + evs == evs;
    AddEvents(info, evs);
  }

  /** Before the first call, the record's sorted events are their own sort. */
  lemma NothingAddedYet(start: seq<TrackingEvent>, evs: seq<TrackingEvent>)
    requires Sorted(start)
    ensures start == SortByTimestamp(start + evs[..0])
  {
    SortKeepsSortedList(start);
    assert start + evs[..0] == start;
  }

  lemma AllAdded(start: seq<TrackingEvent>, evs: seq<TrackingEvent>)
    ensures SortByTimestamp(start + evs[..|evs|]) == SortByTimestamp(start + evs)
  {
    assert evs[..|evs|] == evs;
  }

  /** One `create_event` call of that run. */
  method AddNext(info: TrackingInfo, ghost start: seq<TrackingEvent>, evs: seq<TrackingEvent>, i: nat)
    requires i < |evs| && info.events == SortByTimestamp(start + evs[..i])
    modifies info`events
    ensures info.events == SortByTimestamp(start + evs[..i + 1])
  {
    ghost var before := start + evs[..i];
    var added := info.AddEvent(evs[i]);
    SortAfterAppend(before, evs[i]);
    PrefixStep(start, evs, i);
  }

  lemma PrefixStep<T>(start: seq<T>, xs: seq<T>, i: nat)
    requires i < |xs|
    ensures start + xs[..i + 1] == start + xs[..i] + [xs[i]]
  {
    assert xs[..i + 1] == xs[..i] + [xs[i]];
  }

  /** A response field that may be missing, hold one item, or hold a list. */
  datatype OneOrMany<T> = Missing | One(item: T) | Many(items: seq<T>)

  /** The adapters' `if not isinstance(x, list): x = [x]`, with a missing
      field read as the empty list. */
  function AsList<T>(f: OneOrMany<T>): (r: seq<T>)
    ensures f.Missing? ==> r == []
    ensures f.One? ==> r == [f.item]
    ensures f.Many? ==> r == f.items
  {
    match f
    case Missing => []
    case One(x) => [x]
    case Many(xs) => xs
  }

  /** A field holding one item and a field holding the one-element list of it
      are read alike. */
  lemma WrappingIsTransparent<T>(x: T)
    ensures AsList(One(x)) == AsList(Many([x]))
  {
  }
}
