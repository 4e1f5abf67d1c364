/** The carrier registry of packagetrack/carriers/__init__.py and the pieces of
    `BaseInterface` every adapter shares. A registered carrier is known by its
    SHORT_NAME (`str(carrier)`). Its `identify` and `track` are parameters:
    `identify` answers or raises, `track` finishes or raises. The registry
    dictionary is iterated in insertion order; a replaced entry keeps its
    position. */
module Carriers {
  import opened Errors
  import opened Text
  import opened Configuration

  datatype Carrier = Carrier(shortName: string, instance: nat)

  /** `carrier.identify(tracking_number)`: an answer, or an exception. */
  type IdentifyFn = (Carrier, string) -> Result<bool>

  /** `carrier.track(tracking_number)` with its result discarded. */
  type TrackFn = (Carrier, string) -> Outcome

  /** The registry's values, in iteration order. */
  function InOrder(order: seq<string>, entries: map<string, Carrier>): (r: seq<Carrier>)
    requires forall n :: n in order ==> n in entries
    ensures |r| == |order|
    ensures forall i :: 0 <= i < |order| ==> r[i] == entries[order[i]]
    decreases |order|
  {
    if |order| == 0 then [] else [entries[order[0]]] + InOrder(order[1..], entries)
  }

  /** The first registered carrier named `name`. */
  function Lookup(cs: seq<Carrier>, name: string): (r: Option<Carrier>)
    ensures r.Some? ==> r.value in cs && r.value.shortName == name
    ensures r.None? <==> forall c :: c in cs ==> c.shortName != name
    decreases |cs|
  {
    if |cs| == 0 then None
    else if cs[0].shortName == name then Some(cs[0])
    else Lookup(cs[1..], name)
  }

  /** The registry after `__carriers[str(carrier)] = carrier`, as a list: the
      carrier replaces the entry of the same name in place, or is appended. */
  function Register(cs: seq<Carrier>, c: Carrier): seq<Carrier>
    decreases |cs|
  {
    if |cs| == 0 then [c]
    else if cs[0].shortName == c.shortName then [c] + cs[1..]
    else [cs[0]] + Register(cs[1..], c)
  }

  /** After registering, the name finds the new carrier, every other name finds
      what it found before, and the list grows exactly when the name is new. */
  lemma {:induction false} RegisterReplacesByName(cs: seq<Carrier>, c: Carrier, name: string)
    ensures Lookup(Register(cs, c), c.shortName) == Some(c)
    ensures name != c.shortName ==> Lookup(Register(cs, c), name) == Lookup(cs, name)
    ensures |Register(cs, c)| == if Lookup(cs, c.shortName).None? then |cs| + 1 else |cs|
    decreases |cs|
  {
    if |cs| > 0 && cs[0].shortName != c.shortName {
      var r := Register(cs, c);
      assert r[1..] == Register(cs[1..], c);
      RegisterReplacesByName(cs[1..], c, name);
    }
  }

  /** The registry's invariant, on its two parts. */
  ghost predicate Consistent(order: seq<string>, entries: map<string, Carrier>)
  {
    && (forall n :: n in order <==> n in entries)
    && (forall n :: n in entries ==> entries[n].shortName == n)
    && (forall i, j :: 0 <= i < j < |order| ==> order[i] != order[j])
  }

  lemma {:induction false} InOrderReplace(order: seq<string>, entries: map<string, Carrier>, c: Carrier)
    requires forall n :: n in order ==> n in entries
    requires forall n :: n in order ==> entries[n].shortName == n
    requires forall i, j :: 0 <= i < j < |order| ==> order[i] != order[j]
    requires c.shortName in order
    ensures InOrder(order, entries[c.shortName := c]) == Register(InOrder(order, entries), c)
    decreases |order|
  {
    var m := entries[c.shortName := c];
    InOrderHead(order, entries);
    InOrderHead(order, m);
    RegisterCons(entries[order[0]], InOrder(order[1..], entries), c);
    DistinctTail(order);
    if order[0] == c.shortName {
      InOrderUnchanged(order[1..], entries, c);
    } else {
      assert c.shortName in order[1..];
      InOrderReplace(order[1..], entries, c);
    }
  }

  lemma RegisterCons(x: Carrier, xs: seq<Carrier>, c: Carrier)
    ensures Register([x] + xs, c) == if x.shortName == c.shortName then [c] + xs else [x] + Register(xs, c)
  {
    assert ([x] + xs)[0] == x && ([x] + xs)[1..] == xs;
  }

  lemma InOrderHead(order: seq<string>, entries: map<string, Carrier>)
    requires |order| > 0 && forall n :: n in order ==> n in entries
    ensures InOrder(order, entries) == [entries[order[0]]] + InOrder(order[1..], entries)
  {
  }

  /** The rest of a list of distinct names is distinct and lacks its head. */
  lemma DistinctTail(order: seq<string>)
    requires |order| > 0
    requires forall i, j :: 0 <= i < j < |order| ==> order[i] != order[j]
    ensures order[0] !in order[1..]
    ensures forall i, j :: 0 <= i < j < |order[1..]| ==> order[1..][i] != order[1..][j]
  {
    var t := order[1..];
    forall i | 0 <= i < |t| ensures t[i] != order[0] { assert t[i] == order[i + 1]; }
    forall i, j | 0 <= i < j < |t| ensures t[i] != t[j] {
      assert t[i] == order[i + 1] && t[j] == order[j + 1];
    }
  }

  lemma {:induction false} InOrderAppend(order: seq<string>, entries: map<string, Carrier>, c: Carrier)
    requires forall n :: n in order ==> n in entries
    requires forall n :: n in order ==> entries[n].shortName == n
    requires c.shortName !in order
    ensures InOrder(order + [c.shortName], entries[c.shortName := c]) == Register(InOrder(order, entries), c)
    decreases |order|
  {
    var m := entries[c.shortName := c];
    if |order| == 0 {
      assert [] + [c.shortName] == [c.shortName];
      assert InOrder([c.shortName], m) == [c] + InOrder([], m);
    } else {
      var cs := InOrder(order, entries);
      assert cs == [entries[order[0]]] + InOrder(order[1..], entries);
      var o := order + [c.shortName];
      assert o[0] == order[0] && o[1..] == order[1..] + [c.shortName];
      assert InOrder(o, m) == [m[o[0]]] + InOrder(o[1..], m);
      InOrderAppend(order[1..], entries, c);
    }
  }

  lemma InOrderUnchanged(order: seq<string>, entries: map<string, Carrier>, c: Carrier)
    requires forall n :: n in order ==> n in entries
    requires c.shortName !in order
    ensures InOrder(order, entries[c.shortName := c]) == InOrder(order, entries)
  {
  }

  /** Registering keeps the invariant: a new name is appended to the order
      exactly once. */
  lemma RegisterKeepsConsistent(order: seq<string>, entries: map<string, Carrier>, c: Carrier)
    requires Consistent(order, entries)
    ensures Consistent(if c.shortName in entries then order else order + [c.shortName], entries[c.shortName := c])
  {
    if c.shortName !in entries {
      var o := order + [c.shortName];
      forall i, j | 0 <= i < j < |o| ensures o[i] != o[j] {
        assert o[i] == order[i];
        if j < |order| { assert o[j] == order[j]; }
      }
    }
  }

  class Registry {
    var order: seq<string>
    var entries: map<string, Carrier>

    ghost predicate Valid()
      reads this
    {
      Consistent(order, entries)
    }

    /** The registered carriers, in iteration order. */
    function Carriers(): (r: seq<Carrier>)
      reads this
      requires Valid()
      ensures |r| == |order|
    {
      InOrder(order, entries)
    }

    /** The empty module-level `__carriers` dictionary. */
    constructor ()
      ensures Valid() && order == [] && entries == map[]
    {
      order := [];
      entries := map[];
    }

    /** `register_carrier`: stores the instance under its SHORT_NAME, replacing
        an entry of that name, and returns it. */
    method RegisterCarrier(c: Carrier) returns (r: Carrier)
      requires Valid()
      modifies this
      ensures Valid()
      ensures r == c
      ensures entries == old(entries)[c.shortName := c]
      ensures order == if c.shortName in old(entries) then old(order) else old(order) + [c.shortName]
      ensures Carriers() == Register(old(Carriers()), c)
    {
      RegisterKeepsConsistent(order, entries, c);
      if c.shortName in entries {
        InOrderReplace(order, entries, c);
      } else {
        InOrderAppend(order, entries, c);
      }
      if c.shortName !in entries {
        order := order + [c.shortName];
      }
      entries := entries[c.shortName := c];
      r := c;
    }

    /** `identify_smart_post_number`: the result, and the carriers whose
        `track` was called, in call order. */
    method IdentifySmartPostNumber(tn: string, identify: IdentifyFn, track: TrackFn)
      returns (r: Result<Carrier>, probed: seq<Carrier>)
      requires Valid()
      ensures r == SmartPost(Carriers(), tn, identify, track)
      ensures probed == Probed(Carriers(), tn, identify, track)
    {
      if |tn| != 22 {
        return Err(Error(InvalidTrackingNumber, tn)), [];
      }
      var cs := Carriers();
      var i := 0;
      probed := [];
      while i < |cs|
        invariant 0 <= i <= |cs|
        invariant SmartPostFrom(cs, tn, identify, track) == SmartPostFrom(cs[i..], tn, identify, track)
        invariant ProbedFrom(cs, tn, identify, track) == probed + ProbedFrom(cs[i..], tn, identify, track)
      {
        ghost var rest := cs[i..];
        assert rest[0] == cs[i] && rest[1..] == cs[i + 1..];
        var done;
        done, r, probed := ProbeCarrier(rest, cs[i], tn, identify, track, probed);
        if done {
          return;
        }
        i := i + 1;
      }
      return Err(Error(UnsupportedTrackingNumber, tn)), probed;
    }

    /** `identify_tracking_number` */
    method IdentifyTrackingNumber(tn: string, identify: IdentifyFn, track: TrackFn)
      returns (r: Result<Carrier>)
      requires Valid()
      ensures r == Identify(Carriers(), tn, identify, track)
    {
      var smart, _ := IdentifySmartPostNumber(tn, identify, track);
      if smart.Ok? || !Fallback(smart.error) {
        return smart;
      }
      var cs := Carriers();
      var i := 0;
      while i < |cs|
        invariant 0 <= i <= |cs|
        invariant FirstMatch(cs, tn, identify) == FirstMatch(cs[i..], tn, identify)
      {
        assert cs[i..][1..] == cs[i + 1..];
        var identified := identify(cs[i], tn);
        if identified.Err? {
          return Err(identified.error);
        }
        if identified.value {
          return Ok(cs[i]);
        }
        i := i + 1;
      }
      return Err(Error(UnsupportedTrackingNumber, tn));
    }
  }

  /** The carriers' probe loop from `cs` on. */
  function SmartPostFrom(cs: seq<Carrier>, tn: string, identify: IdentifyFn, track: TrackFn): Result<Carrier>
    decreases |cs|
  {
    if |cs| == 0 then Err(Error(UnsupportedTrackingNumber, tn))
    else match identify(cs[0], tn)
      case Err(e) => Err(e)
      case Ok(false) => SmartPostFrom(cs[1..], tn, identify, track)
      case Ok(true) =>
        match track(cs[0], tn)
        case Pass => Ok(cs[0])
        case Fail(e) => if Catches(TrackingFailure, e) then SmartPostFrom(cs[1..], tn, identify, track) else Err(e)
  }

  /** The carriers whose `track` the probe loop calls. */
  function ProbedFrom(cs: seq<Carrier>, tn: string, identify: IdentifyFn, track: TrackFn): seq<Carrier>
    decreases |cs|
  {
    if |cs| == 0 then []
    else match identify(cs[0], tn)
      case Err(_) => []
      case Ok(false) => ProbedFrom(cs[1..], tn, identify, track)
      case Ok(true) =>
        [cs[0]] + (if Skipped(cs[0], tn, identify, track) then ProbedFrom(cs[1..], tn, identify, track) else [])
  }

  /** One turn of the loop of `identify_smart_post_number` on the carrier `c`
      at the head of `rest`, after the carriers `probed` were tracked: either it
      ends the search with the answer for all of `rest`, or it goes on with the
      carriers after `c`. */
  method ProbeCarrier(ghost rest: seq<Carrier>, c: Carrier, tn: string, identify: IdentifyFn, track: TrackFn,
                      probed: seq<Carrier>)
    returns (done: bool, r: Result<Carrier>, called: seq<Carrier>)
    requires |rest| > 0 && rest[0] == c
    ensures done ==> r == SmartPostFrom(rest, tn, identify, track)
                     && called == probed + ProbedFrom(rest, tn, identify, track)
    ensures !done ==> SmartPostFrom(rest, tn, identify, track) == SmartPostFrom(rest[1..], tn, identify, track)
                      && probed + ProbedFrom(rest, tn, identify, track) == called + ProbedFrom(rest[1..], tn, identify, track)
  {
    ProbeStep(rest, tn, identify, track);
    called := probed;
    r := Err(Error(UnsupportedTrackingNumber, tn));
    var identified := identify(c, tn);
    if identified.Err? {
      assert probed + [] == probed;
      return true, Err(identified.error), probed;
    }
    if !identified.value {
      return false, r, probed;
    }
    called := probed + [c];
    var outcome := track(c, tn);
    if outcome.Pass? {
      return true, Ok(c), called;
    } else if !Catches(TrackingFailure, outcome.error) {
      return true, Err(outcome.error), called;
    }
    ConcatAssoc(probed, [c], ProbedFrom(rest[1..], tn, identify, track));
    done := false;
  }

  lemma ProbeStep(cs: seq<Carrier>, tn: string, identify: IdentifyFn, track: TrackFn)
    requires |cs| > 0
    ensures identify(cs[0], tn).Err? ==>
      SmartPostFrom(cs, tn, identify, track) == Err(identify(cs[0], tn).error)
      && ProbedFrom(cs, tn, identify, track) == []
    ensures identify(cs[0], tn) == Ok(false) ==>
      SmartPostFrom(cs, tn, identify, track) == SmartPostFrom(cs[1..], tn, identify, track)
      && ProbedFrom(cs, tn, identify, track) == ProbedFrom(cs[1..], tn, identify, track)
    ensures identify(cs[0], tn) == Ok(true) && Skipped(cs[0], tn, identify, track) ==>
      SmartPostFrom(cs, tn, identify, track) == SmartPostFrom(cs[1..], tn, identify, track)
      && ProbedFrom(cs, tn, identify, track) == [cs[0]] + ProbedFrom(cs[1..], tn, identify, track)
    ensures identify(cs[0], tn) == Ok(true) && track(cs[0], tn).Pass? ==>
      SmartPostFrom(cs, tn, identify, track) == Ok(cs[0])
      && ProbedFrom(cs, tn, identify, track) == [cs[0]]
    ensures (identify(cs[0], tn) == Ok(true) && track(cs[0], tn).Fail?
             && !Catches(TrackingFailure, track(cs[0], tn).error)) ==>
      SmartPostFrom(cs, tn, identify, track) == Err(track(cs[0], tn).error)
      && ProbedFrom(cs, tn, identify, track) == [cs[0]]
  {
  }

  function SmartPost(cs: seq<Carrier>, tn: string, identify: IdentifyFn, track: TrackFn): Result<Carrier>
  {
    if |tn| != 22 then Err(Error(InvalidTrackingNumber, tn)) else SmartPostFrom(cs, tn, identify, track)
  }

  function Probed(cs: seq<Carrier>, tn: string, identify: IdentifyFn, track: TrackFn): seq<Carrier>
  {
    if |tn| != 22 then [] else ProbedFrom(cs, tn, identify, track)
  }

  /** The probe loop moves past `c`: it does not identify the number, or its
      `track` raises a TrackingFailure. */
  predicate Skipped(c: Carrier, tn: string, identify: IdentifyFn, track: TrackFn)
  {
    || identify(c, tn) == Ok(false)
    || (identify(c, tn) == Ok(true) && track(c, tn).Fail? && Catches(TrackingFailure, track(c, tn).error))
  }

  /** The `except (InvalidTrackingNumber, UnsupportedTrackingNumber)` clause. */
  predicate Fallback(e: Error)
  {
    Catches(InvalidTrackingNumber, e) || Catches(UnsupportedTrackingNumber, e)
  }

  /** The first carrier whose `identify` is true. */
  function FirstMatch(cs: seq<Carrier>, tn: string, identify: IdentifyFn): Result<Carrier>
    decreases |cs|
  {
    if |cs| == 0 then Err(Error(UnsupportedTrackingNumber, tn))
    else match identify(cs[0], tn)
      case Err(e) => Err(e)
      case Ok(true) => Ok(cs[0])
      case Ok(false) => FirstMatch(cs[1..], tn, identify)
  }

  function Identify(cs: seq<Carrier>, tn: string, identify: IdentifyFn, track: TrackFn): Result<Carrier>
  {
    match SmartPost(cs, tn, identify, track)
    case Ok(c) => Ok(c)
    case Err(e) => if Fallback(e) then FirstMatch(cs, tn, identify) else Err(e)
  }

  /** The filter of `carrier.identify(tracking_number)` over `cs`. */
  function Identifying(cs: seq<Carrier>, tn: string, identify: IdentifyFn): seq<Carrier>
    decreases |cs|
  {
    if |cs| == 0 then []
    else (if identify(cs[0], tn) == Ok(true) then [cs[0]] else []) + Identifying(cs[1..], tn, identify)
  }

  /** No carrier's `identify` raises on `tn`. */
  predicate IdentifyTotal(cs: seq<Carrier>, tn: string, identify: IdentifyFn)
  {
    forall i :: 0 <= i < |cs| ==> identify(cs[i], tn).Ok?
  }

  /** Any length other than 22 raises InvalidTrackingNumber and calls no
      carrier's `track`. */
  lemma WrongLengthIsInvalid(cs: seq<Carrier>, tn: string, identify: IdentifyFn, track: TrackFn)
    requires |tn| != 22
    ensures SmartPost(cs, tn, identify, track) == Err(Error(InvalidTrackingNumber, tn))
    ensures Probed(cs, tn, identify, track) == []
  {
  }

  /** When the carrier at `k` is the first that identifies the number and
      survives `track`, the probe returns it, having called `track` on exactly
      the identifying carriers up to and including it, in order. */
  lemma {:induction false} ProbeReturnsFirstSurvivor(cs: seq<Carrier>, tn: string, identify: IdentifyFn,
                                                     track: TrackFn, k: nat)
    requires k < |cs|
    requires forall j :: 0 <= j < k ==> Skipped(cs[j], tn, identify, track)
    requires identify(cs[k], tn) == Ok(true) && track(cs[k], tn) == Pass
    ensures SmartPostFrom(cs, tn, identify, track) == Ok(cs[k])
    ensures ProbedFrom(cs, tn, identify, track) == Identifying(cs[..k + 1], tn, identify)
    decreases k
  {
    if k > 0 {
      ProbeReturnsFirstSurvivor(cs[1..], tn, identify, track, k - 1);
      assert cs[..k + 1][1..] == cs[1..][..k];
    } else {
      assert cs[..1][1..] == [];
    }
  }

  /** Conversely, a carrier the probe returns is the first survivor. */
  lemma {:induction false} ProbeResultIsFirstSurvivor(cs: seq<Carrier>, tn: string, identify: IdentifyFn,
                                                      track: TrackFn)
    requires SmartPostFrom(cs, tn, identify, track).Ok?
    ensures exists k :: (0 <= k < |cs| && cs[k] == SmartPostFrom(cs, tn, identify, track).value
      && identify(cs[k], tn) == Ok(true) && track(cs[k], tn) == Pass
      && forall j :: 0 <= j < k ==> Skipped(cs[j], tn, identify, track))
    decreases |cs|
  {
    if identify(cs[0], tn) == Ok(true) && track(cs[0], tn) == Pass {
      assert cs[0] == SmartPostFrom(cs, tn, identify, track).value;
    } else {
      ProbeResultIsFirstSurvivor(cs[1..], tn, identify, track);
      var k :| 0 <= k < |cs[1..]| && cs[1..][k] == SmartPostFrom(cs[1..], tn, identify, track).value
        && identify(cs[1..][k], tn) == Ok(true) && track(cs[1..][k], tn) == Pass
        && forall j :: 0 <= j < k ==> Skipped(cs[1..][j], tn, identify, track);
      assert forall j :: 0 <= j < k + 1 ==> Skipped(cs[j], tn, identify, track) by {
        forall j | 0 <= j < k + 1 ensures Skipped(cs[j], tn, identify, track) {
          if j > 0 { assert cs[j] == cs[1..][j - 1]; }
        }
      }
      assert cs[k + 1] == cs[1..][k];
    }
  }

  /** With no `identify` raising, the probe raises UnsupportedTrackingNumber
      exactly when every carrier is skipped, including when none identifies. */
  lemma {:induction false} ProbeUnsupportedIffAllSkipped(cs: seq<Carrier>, tn: string, identify: IdentifyFn,
                                                         track: TrackFn)
    requires IdentifyTotal(cs, tn, identify)
    ensures SmartPostFrom(cs, tn, identify, track) == Err(Error(UnsupportedTrackingNumber, tn))
      <==> forall j :: 0 <= j < |cs| ==> Skipped(cs[j], tn, identify, track)
    decreases |cs|
  {
    if |cs| > 0 {
      assert IdentifyTotal(cs[1..], tn, identify) by {
        forall i | 0 <= i < |cs[1..]| ensures identify(cs[1..][i], tn).Ok? { assert cs[1..][i] == cs[i + 1]; }
      }
      ProbeUnsupportedIffAllSkipped(cs[1..], tn, identify, track);
      assert identify(cs[0], tn).Ok?;
      assert (forall j :: 0 <= j < |cs| ==> Skipped(cs[j], tn, identify, track))
        <==> Skipped(cs[0], tn, identify, track)
             && forall j :: 0 <= j < |cs[1..]| ==> Skipped(cs[1..][j], tn, identify, track) by {
        forall j | 1 <= j < |cs| ensures cs[j] == cs[1..][j - 1] { }
      }
    }
  }

  /** The first identifying carrier is what `FirstMatch` returns. */
  lemma {:induction false} FirstMatchIsFirstIdentifying(cs: seq<Carrier>, tn: string, identify: IdentifyFn, k: nat)
    requires k < |cs|
    requires forall j :: 0 <= j < k ==> identify(cs[j], tn) == Ok(false)
    requires identify(cs[k], tn) == Ok(true)
    ensures FirstMatch(cs, tn, identify) == Ok(cs[k])
    decreases k
  {
    if k > 0 {
      FirstMatchIsFirstIdentifying(cs[1..], tn, identify, k - 1);
    }
  }

  /** With no `identify` raising, `FirstMatch` raises UnsupportedTrackingNumber
      exactly when no carrier identifies the number. */
  lemma {:induction false} FirstMatchUnsupportedIffNone(cs: seq<Carrier>, tn: string, identify: IdentifyFn)
    requires IdentifyTotal(cs, tn, identify)
    ensures FirstMatch(cs, tn, identify) == Err(Error(UnsupportedTrackingNumber, tn))
      <==> forall j :: 0 <= j < |cs| ==> identify(cs[j], tn) == Ok(false)
    ensures FirstMatch(cs, tn, identify).Ok? ==> identify(FirstMatch(cs, tn, identify).value, tn) == Ok(true)
    decreases |cs|
  {
    if |cs| > 0 {
      assert IdentifyTotal(cs[1..], tn, identify) by {
        forall i | 0 <= i < |cs[1..]| ensures identify(cs[1..][i], tn).Ok? { assert cs[1..][i] == cs[i + 1]; }
      }
      FirstMatchUnsupportedIffNone(cs[1..], tn, identify);
      assert (forall j :: 0 <= j < |cs| ==> identify(cs[j], tn) == Ok(false))
        <==> identify(cs[0], tn) == Ok(false)
             && forall j :: 0 <= j < |cs[1..]| ==> identify(cs[1..][j], tn) == Ok(false) by {
        forall j | 1 <= j < |cs| ensures cs[j] == cs[1..][j - 1] { }
      }
    }
  }

  /** A 22-character number all of whose probes fail still resolves, to the
      first carrier that identifies it. */
  lemma FailedProbesFallBackToFirstMatch(cs: seq<Carrier>, tn: string, identify: IdentifyFn,
                                         track: TrackFn, k: nat)
    requires |tn| == 22 && IdentifyTotal(cs, tn, identify)
    requires forall j :: 0 <= j < |cs| ==> Skipped(cs[j], tn, identify, track)
    requires k < |cs| && identify(cs[k], tn) == Ok(true)
    requires forall j :: 0 <= j < k ==> identify(cs[j], tn) == Ok(false)
    ensures Identify(cs, tn, identify, track) == Ok(cs[k])
  {
    ProbeUnsupportedIffAllSkipped(cs, tn, identify, track);
    FirstMatchIsFirstIdentifying(cs, tn, identify, k);
  }

  /** With no `identify` raising, identification fails with
      UnsupportedTrackingNumber exactly when no carrier identifies the number,
      and whatever it returns identifies the number. */
  lemma {:induction false} IdentifyUnsupportedIffNone(cs: seq<Carrier>, tn: string, identify: IdentifyFn,
                                                      track: TrackFn)
    requires IdentifyTotal(cs, tn, identify)
    ensures Identify(cs, tn, identify, track) == Err(Error(UnsupportedTrackingNumber, tn))
      <==> forall j :: 0 <= j < |cs| ==> identify(cs[j], tn) == Ok(false)
    ensures Identify(cs, tn, identify, track).Ok? ==>
      identify(Identify(cs, tn, identify, track).value, tn) == Ok(true)
  {
    FirstMatchUnsupportedIffNone(cs, tn, identify);
    ProbeResultSurvived(cs, tn, identify, track);
    if |tn| == 22 && forall j :: 0 <= j < |cs| ==> identify(cs[j], tn) == Ok(false) {
      ProbeUnsupportedIffAllSkipped(cs, tn, identify, track);
    }
    if |tn| == 22 && SmartPostFrom(cs, tn, identify, track).Err? {
      TrackErrorsAreNotFallback(cs, tn, identify, track);
    }
  }

  lemma ProbeResultSurvived(cs: seq<Carrier>, tn: string, identify: IdentifyFn, track: TrackFn)
    ensures SmartPostFrom(cs, tn, identify, track).Ok? ==>
      identify(SmartPostFrom(cs, tn, identify, track).value, tn) == Ok(true)
  {
    if SmartPostFrom(cs, tn, identify, track).Ok? {
      ProbeResultIsFirstSurvivor(cs, tn, identify, track);
    }
  }

  /** An error the probe lets through from `track` is not a TrackingFailure,
      so it is neither Invalid nor UnsupportedTrackingNumber; with no
      `identify` raising, the probe's only fallback error is Unsupported. */
  lemma {:induction false} TrackErrorsAreNotFallback(cs: seq<Carrier>, tn: string, identify: IdentifyFn,
                                                     track: TrackFn)
    requires IdentifyTotal(cs, tn, identify)
    requires SmartPostFrom(cs, tn, identify, track).Err?
    ensures Fallback(SmartPostFrom(cs, tn, identify, track).error) ==>
      SmartPostFrom(cs, tn, identify, track) == Err(Error(UnsupportedTrackingNumber, tn))
    decreases |cs|
  {
    if |cs| > 0 {
      assert IdentifyTotal(cs[1..], tn, identify) by {
        forall i | 0 <= i < |cs[1..]| ensures identify(cs[1..][i], tn).Ok? { assert cs[1..][i] == cs[i + 1]; }
      }
      assert identify(cs[0], tn).Ok?;
      if Skipped(cs[0], tn, identify, track) {
        TrackErrorsAreNotFallback(cs[1..], tn, identify, track);
      } else {
        var e := track(cs[0], tn).error;
        assert !Catches(TrackingFailure, e);
        if Catches(InvalidTrackingNumber, e) || Catches(UnsupportedTrackingNumber, e) {
          SubclassTransitive(e.cls, if Catches(InvalidTrackingNumber, e) then InvalidTrackingNumber
                                    else UnsupportedTrackingNumber, TrackingFailure);
        }
      }
    }
  }

  lemma {:induction false} SubclassTransitive(a: ExcClass, b: ExcClass, c: ExcClass)
    requires IsSubclass(a, b) && IsSubclass(b, c)
    ensures IsSubclass(a, c)
    decreases Depth(a)
  {
    if a != b {
      SubclassTransitive(Parent(a).value, b, c);
    }
  }

  /** `require_valid_tracking_number(func)` applied to `run`: `identified` is
      `self.identify(tracking_number)`. A false answer raises
      InvalidTrackingNumber without calling `run`; a true one forwards the same
      number. */
  function Guarded<T>(identified: Result<bool>, tn: string, skipCheck: bool, run: string -> Result<T>): (r: Result<T>)
    ensures identified == Ok(false) ==> r == Err(Error(InvalidTrackingNumber, tn))
    ensures identified == Ok(true) ==> r == run(tn)
    ensures identified.Err? ==> r == Err(identified.error)
  {
    match identified
    case Err(e) => Err(e)
    case Ok(false) => Err(Error(InvalidTrackingNumber, tn))
    case Ok(true) => run(tn)
  }

  /** `skip_check` is never consulted. */
  lemma SkipCheckIgnored<T>(identified: Result<bool>, tn: string, run: string -> Result<T>)
    ensures Guarded(identified, tn, true, run) == Guarded(identified, tn, false, run)
  {
  }

  /** `url(tracking_number)`: the template with `{tracking_number}` filled in. */
  function Url(template: seq<TemplatePart>, tn: string): (r: Result<string>)
    ensures r.Err? <==> exists i :: 0 <= i < |template| && template[i].Field? && template[i].name != "tracking_number"
  {
    Format(template, "tracking_number", tn)
  }

  /** FedEx's template, packagetrack/carriers/fedex_interface.py:15. */
  const FedexUrlTemplate: seq<TemplatePart> :=
    [Lit("http://www.fedex.com/Tracking?tracknumbers="), Field("tracking_number"), Lit("")]

  lemma FedexUrl(tn: string)
    ensures Url(FedexUrlTemplate, tn) == Ok("http://www.fedex.com/Tracking?tracknumbers=" + tn)
  {
    FormatOneField("http://www.fedex.com/Tracking?tracknumbers=", "tracking_number", "", tn);
    assert "http://www.fedex.com/Tracking?tracknumbers=" + tn + "" == "http://www.fedex.com/Tracking?tracknumbers=" + tn;
  }

  /** `_cfg_value(*keys)`: the carrier's configuration `config` is asked for
      `[ns] + keys`; on ConfigKeyError the class's `defaults` are asked; when
      those raise ConfigKeyError too, the FIRST error is re-raised. */
  function CfgValue(config: Provider, defaults: Provider, ns: string, keys: seq<string>): (r: Result<Node>)
    ensures GetValue(config, [ns] + keys).Ok? ==> r == GetValue(config, [ns] + keys)
    ensures GetValue(config, [ns] + keys).Err? && !Catches(ConfigKeyError, GetValue(config, [ns] + keys).error)
      ==> r == GetValue(config, [ns] + keys)
    ensures GetValue(config, [ns] + keys).Err? && Catches(ConfigKeyError, GetValue(config, [ns] + keys).error)
      ==> r == if GetValue(defaults, [ns] + keys).Err? && Catches(ConfigKeyError, GetValue(defaults, [ns] + keys).error)
              then GetValue(config, [ns] + keys) else GetValue(defaults, [ns] + keys)
  {
    match GetValue(config, [ns] + keys)
    case Ok(v) => Ok(v)
    case Err(err) =>
      if !Catches(ConfigKeyError, err) then Err(err)
      else match GetValue(defaults, [ns] + keys)
        case Ok(v) => Ok(v)
        case Err(e2) => if Catches(ConfigKeyError, e2) then Err(err) else Err(e2)
  }

  /** A DictConfig never raises ConfigKeyError, so with a DictConfig as the
      carrier's configuration the defaults are never consulted. */
  lemma DictConfigNeverFallsBack(root: map<string, Node>, defaults: Provider, ns: string, keys: seq<string>)
    ensures CfgValue(DictConfig(root), defaults, ns, keys) == Walk(DictNode(root), [ns] + keys)
  {
    DictNeverRaisesConfigKeyError(DictNode(root), [ns] + keys);
  }

  /** A NullConfig falls back to the defaults; a default DictConfig holding
      the namespace answers None, not ConfigKeyError, for a key it lacks. */
  lemma DefaultMissingKeyIsNone(root: map<string, Node>, ns: string, d: map<string, Node>, key: string)
    requires ns in root && root[ns] == DictNode(d) && key !in d
    ensures CfgValue(NullConfig, DictConfig(root), ns, [key]) == Ok(NoneNode)
  {
    assert HasPath(DictNode(root), [ns], DictNode(d)) by {
      assert [ns][1..] == [];
    }
    MissingFinalKeyIsNone(DictNode(root), [ns], d, key);
  }

  /** UPS's DEFAULT_CFG, packagetrack/carriers/ups_interface.py:14. */
  const UpsDefaults: Provider := DictConfig(map["UPS" := DictNode(map["lang" := StrNode("en-US")])])

  /** With no configuration, the UPS language comes from its defaults. */
  lemma UpsLanguageDefault()
    ensures CfgValue(NullConfig, UpsDefaults, "UPS", ["lang"]) == Ok(StrNode("en-US"))
  {
    var root := map["UPS" := DictNode(map["lang" := StrNode("en-US")])];
    assert HasPath(DictNode(root), ["UPS", "lang"], StrNode("en-US")) by {
      assert ["UPS", "lang"][1..] == ["lang"] && ["lang"][1..] == [];
    }
    WalkFindsStoredValue(DictNode(root), ["UPS", "lang"], StrNode("en-US"));
    assert ["UPS"] + ["lang"] == ["UPS", "lang"];
  }

  /** A configuration that lacks the carrier's namespace makes `_cfg_value`
      raise AttributeError on any key, with no fallback. */
  lemma MissingNamespaceRaises(root: map<string, Node>, defaults: Provider, ns: string, key: string)
    requires ns !in root
    ensures CfgValue(DictConfig(root), defaults, ns, [key]).Err?
    ensures CfgValue(DictConfig(root), defaults, ns, [key]).error.cls == AttributeError
  {
    MissingIntermediateKeyRaises(DictNode(root), [], root, ns, [key]);
    assert [] + [ns] + [key] == [ns] + [key];
  }
}
