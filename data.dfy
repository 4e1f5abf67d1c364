/** The canonical record model (packagetrack/data.py): `TrackingEvent`, a value
    with a timestamp, a location, a detail text and extra keyword fields, and
    `TrackingInfo`, an object whose `events` list is re-sorted by timestamp on
    every insertion. Timestamps are integers ordered as the datetimes are.
    Python's `sorted` is stable; `SortByTimestamp` is a stable insertion sort. */
module Data {
  import opened Errors

  /** A value stored under a keyword in an event or in a TrackingInfo. */
  datatype Value = Str(s: string) | Flag(b: bool) | Time(t: int) | NoneValue

  datatype TrackingEvent = TrackingEvent(timestamp: int, location: string, detail: string,
                                         extra: map<string, Value>)

  /** The names of the constructor's positional parameters. */
  const Reserved: set<string> := {"timestamp", "location", "detail"}

  /** The event seen as the dictionary the source builds. */
  function Fields(e: TrackingEvent): map<string, Value>
  {
    e.extra + map["timestamp" := Time(e.timestamp), "location" := Str(e.location),
                  "detail" := Str(e.detail)]
  }

  /** `TrackingEvent(timestamp, location, detail)` followed by `update(kwargs)`:
      the given fields plus the keyword fields, and nothing else. Python rejects
      a keyword that repeats a positional parameter. */
  function NewEvent(timestamp: int, location: string, detail: string,
                    kwargs: map<string, Value>): (e: TrackingEvent)
    requires kwargs.Keys !! Reserved
    ensures Fields(e).Keys == kwargs.Keys + Reserved
    ensures Fields(e)["timestamp"] == Time(timestamp)
    ensures Fields(e)["location"] == Str(location)
    ensures Fields(e)["detail"] == Str(detail)
    ensures forall k :: k in kwargs ==> Fields(e)[k] == kwargs[k]
  {
    TrackingEvent(timestamp, location, detail, kwargs)
  }

  predicate Sorted(s: seq<TrackingEvent>)
  {
    forall i, j :: 0 <= i < j < |s| ==> s[i].timestamp <= s[j].timestamp
  }

  /** Inserts `e` after every trailing event whose timestamp exceeds it, that
      is, after every event with a timestamp at most its own. */
  function InsertLe(s: seq<TrackingEvent>, e: TrackingEvent): (r: seq<TrackingEvent>)
    ensures |r| == |s| + 1
    ensures multiset(r) == multiset(s) + multiset{e}
    ensures forall x :: x in r ==> x in s || x == e
    ensures Sorted(s) ==> Sorted(r)
    decreases |s|
  {
    if |s| == 0 then [e]
    else if s[|s| - 1].timestamp <= e.timestamp then
      SortedAfterLast(s, e);
      s + [e]
    else
      var init, last := s[..|s| - 1], s[|s| - 1];
      LastSplit(s);
      SortedBeforeLast(s, InsertLe(init, e));
      InsertLe(init, e) + [last]
  }

  /** An event no earlier than the last of a sorted list extends it in order. */
  lemma SortedAfterLast(s: seq<TrackingEvent>, e: TrackingEvent)
    requires |s| > 0 && s[|s| - 1].timestamp <= e.timestamp
    ensures Sorted(s) ==> Sorted(s + [e])
  {
    if Sorted(s) {
      var r := s + [e];
      forall i, j | 0 <= i < j < |r| ensures r[i].timestamp <= r[j].timestamp {
        assert r[i] == s[i];
        if j < |s| {
          assert r[j] == s[j];
        } else {
          assert s[i].timestamp <= s[|s| - 1].timestamp;
        }
      }
    }
  }

  /** Appending the last event of a sorted list to events that are sorted
      whenever the rest is, and no later than it, keeps the order. */
  lemma SortedBeforeLast(s: seq<TrackingEvent>, m: seq<TrackingEvent>)
    requires |s| > 0
    requires Sorted(s[..|s| - 1]) ==> Sorted(m)
    requires forall x :: x in m ==> x in s[..|s| - 1] || x.timestamp <= s[|s| - 1].timestamp
    ensures Sorted(s) ==> Sorted(m + [s[|s| - 1]])
  {
    if Sorted(s) {
      var init, last := s[..|s| - 1], s[|s| - 1];
      assert Sorted(init);
      forall y | y in m ensures y.timestamp <= last.timestamp {
        if y in init {
          var k :| 0 <= k < |init| && init[k] == y;
          assert s[k] == y;
        }
      }
      var r := m + [last];
      forall i, j | 0 <= i < j < |r| ensures r[i].timestamp <= r[j].timestamp {
        if j == |m| {
          assert r[i] in m;
        } else {
          assert r[i] == m[i] && r[j] == m[j];
        }
      }
    }
  }

  /** `sorted(events, key=attrgetter('timestamp'))` */
  function SortByTimestamp(s: seq<TrackingEvent>): (r: seq<TrackingEvent>)
    ensures |r| == |s|
    ensures Sorted(r)
    ensures multiset(r) == multiset(s)
    decreases |s|
  {
    if |s| == 0 then []
    else
      assert s == s[..|s| - 1] + [s[|s| - 1]];
      InsertLe(SortByTimestamp(s[..|s| - 1]), s[|s| - 1])
  }

  /** The events with timestamp `t`, in list order. */
  function WithTimestamp(s: seq<TrackingEvent>, t: int): seq<TrackingEvent>
    decreases |s|
  {
    if |s| == 0 then []
    else WithTimestamp(s[..|s| - 1], t) + (if s[|s| - 1].timestamp == t then [s[|s| - 1]] else [])
  }

  lemma WithTimestampAppend(s: seq<TrackingEvent>, e: TrackingEvent, t: int)
    ensures WithTimestamp(s + [e], t) == WithTimestamp(s, t) + (if e.timestamp == t then [e] else [])
  {
    assert (s + [e])[..|s|] == s;
  }

  lemma {:induction false} InsertLeStable(s: seq<TrackingEvent>, e: TrackingEvent, t: int)
    ensures WithTimestamp(InsertLe(s, e), t) == WithTimestamp(s, t) + (if e.timestamp == t then [e] else [])
    decreases |s|
  {
    if |s| == 0 || s[|s| - 1].timestamp <= e.timestamp {
      AppendAtEnd(s, e);
      WithTimestampAppend(s, e, t);
    } else {
      var init, last := s[..|s| - 1], s[|s| - 1];
      InsertBeforeLast(s, e);
      LastSplit(s);
      InsertLeStable(init, e, t);
      WithTimestampAppend(InsertLe(init, e), last, t);
      WithTimestampAppend(init, last, t);
      SwapWhenOneEmpty(WithTimestamp(init, t), if e.timestamp == t then [e] else [],
                       if last.timestamp == t then [last] else []);
    }
  }

  lemma SwapWhenOneEmpty<T>(w: seq<T>, a: seq<T>, b: seq<T>)
    requires a == [] || b == []
    ensures (w + a) + b == (w + b) + a
  {
    if a == [] {
      assert w + a == w;
      assert (w + b) + a == w + b;
    } else {
      assert w + b == w;
      assert (w + a) + b == w + a;
    }
  }

  /** An event earlier than the last one goes before it. */
  lemma InsertBeforeLast(s: seq<TrackingEvent>, e: TrackingEvent)
    requires |s| > 0 && s[|s| - 1].timestamp > e.timestamp
    ensures InsertLe(s, e) == InsertLe(s[..|s| - 1], e) + [s[|s| - 1]]
  {
  }

  /** The sort is stable: the events sharing any one timestamp keep their
      relative order. */
  lemma {:induction false} SortIsStable(s: seq<TrackingEvent>, t: int)
    ensures WithTimestamp(SortByTimestamp(s), t) == WithTimestamp(s, t)
    decreases |s|
  {
    if |s| > 0 {
      var init, last := s[..|s| - 1], s[|s| - 1];
      assert s == init + [last];
      SortIsStable(init, t);
      InsertLeStable(SortByTimestamp(init), last, t);
      WithTimestampAppend(init, last, t);
    }
  }

  /** Sorting a list that is already in order leaves it as it is. */
  lemma {:induction false} SortKeepsSortedList(s: seq<TrackingEvent>)
    requires Sorted(s)
    ensures SortByTimestamp(s) == s
    decreases |s|
  {
    if |s| > 0 {
      var init, last := s[..|s| - 1], s[|s| - 1];
      SortedPrefix(s);
      SortKeepsSortedList(init);
      SortStep(s);
      LastNoEarlier(s);
      AppendAtEnd(init, last);
      LastSplit(s);
    }
  }

  lemma LastNoEarlier(s: seq<TrackingEvent>)
    requires Sorted(s) && |s| > 0
    ensures |s| == 1 || s[..|s| - 1][|s| - 2].timestamp <= s[|s| - 1].timestamp
  {
  }

  lemma LastSplit<T>(s: seq<T>)
    requires |s| > 0
    ensures s == s[..|s| - 1] + [s[|s| - 1]]
  {
  }

  lemma SortedPrefix(s: seq<TrackingEvent>)
    requires Sorted(s) && |s| > 0
    ensures Sorted(s[..|s| - 1])
  {
  }

  /** One unfolding of the sort: insert the last event into the sorted rest. */
  lemma SortStep(s: seq<TrackingEvent>)
    requires |s| > 0
    ensures SortByTimestamp(s) == InsertLe(SortByTimestamp(s[..|s| - 1]), s[|s| - 1])
  {
  }

  /** An event no earlier than the last one goes at the end. */
  lemma AppendAtEnd(s: seq<TrackingEvent>, e: TrackingEvent)
    requires |s| == 0 || s[|s| - 1].timestamp <= e.timestamp
    ensures InsertLe(s, e) == s + [e]
  {
  }

  /** Re-sorting after each insertion gives the same list as sorting once:
      what makes a run of `add_event` calls equal to one sort of all events. */
  lemma SortAfterAppend(s: seq<TrackingEvent>, e: TrackingEvent)
    ensures SortByTimestamp(SortByTimestamp(s) + [e]) == SortByTimestamp(s + [e])
  {
    var r := SortByTimestamp(s);
    assert (r + [e])[..|r|] == r;
    assert (s + [e])[..|s|] == s;
    SortKeepsSortedList(r);
  }

  /** The position after the last event whose timestamp is at most `t`. */
  function CutPoint(s: seq<TrackingEvent>, t: int): (k: nat)
    ensures k <= |s|
    decreases |s|
  {
    if |s| == 0 then 0
    else if s[|s| - 1].timestamp <= t then |s|
    else CutPoint(s[..|s| - 1], t)
  }

  /** Every event from the cut point on is later than `t`. */
  lemma {:induction false} AfterCutPointIsLater(s: seq<TrackingEvent>, t: int)
    ensures forall i :: CutPoint(s, t) <= i < |s| ==> s[i].timestamp > t
    decreases |s|
  {
    if |s| > 0 && s[|s| - 1].timestamp > t {
      var init := s[..|s| - 1];
      AfterCutPointIsLater(init, t);
      assert forall i :: CutPoint(s, t) <= i < |s| - 1 ==> s[i] == init[i];
    }
  }

  lemma {:induction false} InsertLeSplices(s: seq<TrackingEvent>, e: TrackingEvent)
    ensures InsertLe(s, e) == s[..CutPoint(s, e.timestamp)] + [e] + s[CutPoint(s, e.timestamp)..]
    decreases |s|
  {
    if |s| == 0 {
    } else if s[|s| - 1].timestamp <= e.timestamp {
      assert s[..|s|] == s;
    } else {
      var init, last := s[..|s| - 1], s[|s| - 1];
      assert s == init + [last];
      InsertLeSplices(init, e);
      SpliceAppend(init, last, e, CutPoint(init, e.timestamp));
    }
  }

  /** Appending after a splice is splicing into the longer list. */
  lemma SpliceAppend<T>(init: seq<T>, last: T, e: T, k: nat)
    requires k <= |init|
    ensures (init[..k] + [e] + init[k..]) + [last] == (init + [last])[..k] + [e] + (init + [last])[k..]
  {
    assert (init + [last])[..k] == init[..k];
    assert (init + [last])[k..] == init[k..] + [last];
  }

  /** On a list already in order, adding an event places it after every event
      with a timestamp at most its own and before every later one. */
  lemma AddToSortedList(s: seq<TrackingEvent>, e: TrackingEvent)
    requires Sorted(s)
    ensures var k := CutPoint(s, e.timestamp);
      && SortByTimestamp(s + [e]) == s[..k] + [e] + s[k..]
      && (forall i :: 0 <= i < k ==> s[i].timestamp <= e.timestamp)
      && (forall i :: k <= i < |s| ==> s[i].timestamp > e.timestamp)
  {
    var k := CutPoint(s, e.timestamp);
    assert (s + [e])[..|s|] == s;
    assert SortByTimestamp(s + [e]) == InsertLe(SortByTimestamp(s), e);
    SortKeepsSortedList(s);
    InsertLeSplices(s, e);
    AfterCutPointIsLater(s, e.timestamp);
    CutPointIsLastNotLater(s, e.timestamp);
  }

  /** Just before the cut point sits an event no later than `t`. */
  lemma {:induction false} CutPointIsLastNotLater(s: seq<TrackingEvent>, t: int)
    requires Sorted(s)
    ensures forall i :: 0 <= i < CutPoint(s, t) ==> s[i].timestamp <= t
    decreases |s|
  {
    if |s| > 0 && s[|s| - 1].timestamp > t {
      var init := s[..|s| - 1];
      assert Sorted(init);
      CutPointIsLastNotLater(init, t);
    }
  }

  /** The keyword check of `TrackingInfo.__init__(self, tracking_number,
      delivery_date=None)` as written: any keyword other than the two
      parameters raises TypeError. */
  function InitKeywordsAsWritten(kwargs: map<string, Value>): (r: Outcome)
    ensures r.Fail? <==> |kwargs| > 0
    ensures r.Fail? ==> r.error.cls == TypeError
  {
    if kwargs == map[] then Pass
    else Fail(Error(TypeError, "__init__() got an unexpected keyword argument"))
  }

  /** The adapters pass `service=` (and FedEx `delivery_detail=`) to the
      constructor, which as written makes every such construction raise. */
  lemma ServiceKeywordRaises(service: string)
    ensures InitKeywordsAsWritten(map["service" := Str(service)]).Fail?
  {
    assert "service" in map["service" := Str(service)];
  }

  class TrackingInfo {
    var trackingNumber: Option<string>
    var deliveryDate: Option<int>
    var events: seq<TrackingEvent>
    /** Keyword fields: `service`, `delivery_detail`, `is_delivered`. */
    var extra: map<string, Value>

    /** `TrackingInfo(tracking_number, delivery_date=None, **fields)`: the
        constructor the adapters call, with the keyword fields they pass kept
        as extra fields, and no events. */
    constructor (trackingNumber: Option<string>, deliveryDate: Option<int>, fields: map<string, Value>)
      ensures this.trackingNumber == trackingNumber
      ensures this.deliveryDate == deliveryDate
      ensures this.events == []
      ensures this.extra == fields
    {
      this.trackingNumber := trackingNumber;
      this.deliveryDate := deliveryDate;
      this.events := [];
      this.extra := fields;
    }

    /** `sort_events(events=None)`: a sorted copy of the given list, or of the
        current events when none is given; nothing is modified. */
    function SortEvents(given: Option<seq<TrackingEvent>>): (r: seq<TrackingEvent>)
      reads this
      ensures Sorted(r)
      ensures multiset(r) == multiset(if given.None? then events else given.value)
    {
      SortByTimestamp(if given.None? then events else given.value)
    }

    /** `add_event(event)`: the events become the sorted list of the old events
        and the new one; the event is returned. */
    method AddEvent(e: TrackingEvent) returns (r: TrackingEvent)
      modifies this`events
      ensures r == e
      ensures events == SortByTimestamp(old(events) + [e])
      ensures Sorted(events) && |events| == |old(events)| + 1
      ensures multiset(events) == multiset(old(events)) + multiset{e}
    {
      events := SortEvents(Some(events + [e]));
      r := e;
    }

    /** `create_event(timestamp, location, detail, **kwargs)`: builds the event
        and adds it; the new event is returned. */
    method CreateEvent(timestamp: int, location: string, detail: string, kwargs: map<string, Value>)
      returns (e: TrackingEvent)
      requires kwargs.Keys !! Reserved
      modifies this`events
      ensures e == NewEvent(timestamp, location, detail, kwargs)
      ensures events == SortByTimestamp(old(events) + [e])
    {
      e := NewEvent(timestamp, location, detail, kwargs);
      e := AddEvent(e);
    }
  }
}
