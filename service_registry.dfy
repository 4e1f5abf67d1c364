/** The carrier registry of the older packagetrack/service/__init__.py: the
    module dictionary `carriers`, keyed by each interface's LONG_NAME, filled
    by `register_carrier` (which every interface's constructor calls), and
    searched by `identify_tracking_number`. */
module ServiceRegistry {
  import opened Errors
  import ServiceFedex
  import ServiceUsps
  import ServiceCanadaPost
  import ServiceDhl

  /** The carrier interfaces of this revision. */
  datatype Carrier = FedEx | Usps | CanadaPost | Dhl

  /** `LONG_NAME`: the Canada Post interface declares none. */
  function LongName(c: Carrier): Option<string>
  {
    match c
    case FedEx => Some("FedEx")
    case Usps => Some("U.S. Postal Service")
    case CanadaPost => None
    case Dhl => Some("DHL")
  }

  /** `carrier.LONG_NAME`, which raises AttributeError where it is missing. */
  function LongNameOf(c: Carrier): (r: Result<string>)
    ensures LongName(c).Some? ==> r == Ok(LongName(c).value)
    ensures LongName(c).None? ==> r.Err? && r.error.cls == AttributeError
  {
    match LongName(c)
    case Some(name) => Ok(name)
    case None => Err(Error(AttributeError, "object has no attribute 'LONG_NAME'"))
  }

  /** `CarrierInterface.__str__`: the LONG_NAME. */
  function ToString(c: Carrier): Result<string>
  {
    LongNameOf(c)
  }

  /** `carrier.identify(tracking_number)`; only FedEx's can raise. */
  function Identifies(c: Carrier, tn: string): Result<bool>
  {
    match c
    case FedEx => ServiceFedex.Identify(tn)
    case Usps => Ok(ServiceUsps.Identify(tn))
    case CanadaPost => Ok(ServiceCanadaPost.Identify(tn))
    case Dhl => Ok(ServiceDhl.Identify(tn))
  }

  /** An identifier raises only ValueError or IndexError, never a tracking
      failure. */
  lemma IdentifyErrors(c: Carrier, tn: string)
    ensures Identifies(c, tn).Err? ==> Identifies(c, tn).error.cls in {ValueError, IndexError}
  {
  }

  /** The contents of `carriers`: its keys in insertion order, and the map. */
  datatype State = State(names: seq<string>, carriers: map<string, Carrier>)

  /** Every key is listed once, every listed name is a key, and every carrier
      is stored under its own LONG_NAME. */
  ghost predicate Valid(s: State)
  {
    && (forall i :: 0 <= i < |s.names| ==> s.names[i] in s.carriers)
    && (forall k :: k in s.carriers ==> k in s.names && LongName(s.carriers[k]) == Some(k))
    && (forall i, j :: 0 <= i < j < |s.names| ==> s.names[i] != s.names[j])
  }

  /** `register_carrier(carrier)`: raises when the LONG_NAME is missing or
      already a key, leaving the dictionary as it was; otherwise adds the
      carrier under its LONG_NAME. */
  function Register(s: State, c: Carrier): (r: (Outcome, State))
  {
    match LongNameOf(c)
    case Err(e) => (Fail(e), s)
    case Ok(name) =>
      if name in s.carriers then (Fail(Error(Exception, "Carrier " + name + " already registered")), s)
      else (Pass, State(s.names + [name], s.carriers[name := c]))
  }

  /** Registration keeps the dictionary well formed, and on success the
      carrier is reachable under its name with every earlier entry kept. */
  lemma RegisterKeepsValid(s: State, c: Carrier)
    requires Valid(s)
    ensures Valid(Register(s, c).1)
    ensures Register(s, c).0.Pass? ==>
              && LongName(c).Some?
              && LongName(c).value !in s.carriers
              && Register(s, c).1.carriers == s.carriers[LongName(c).value := c]
              && Register(s, c).1.names == s.names + [LongName(c).value]
    ensures Register(s, c).0.Fail? ==> Register(s, c).1 == s
  {
    var (out, t) := Register(s, c);
    if out.Pass? {
      var name := LongName(c).value;
      forall i | 0 <= i < |t.names|
        ensures t.names[i] in t.carriers
      {
        if i < |s.names| {
          assert t.names[i] == s.names[i];
        }
      }
      forall i, j | 0 <= i < j < |t.names|
        ensures t.names[i] != t.names[j]
      {
        assert t.names[i] == s.names[i];
        if j == |s.names| {
          assert s.names[i] in s.carriers;
        } else {
          assert t.names[j] == s.names[j];
        }
      }
    }
  }

  /** Constructing a second interface with the same LONG_NAME raises, with
      the message naming the carrier, and changes nothing. */
  lemma SecondRegistrationFails(s: State, c: Carrier)
    requires Register(s, c).0.Pass?
    ensures Register(Register(s, c).1, c) ==
      (Fail(Error(Exception, "Carrier " + LongName(c).value + " already registered")), Register(s, c).1)
  {
  }

  /** A missing LONG_NAME also makes construction raise: the Canada Post
      interface can never be registered. This holds as if its module loaded;
      as written, service/capost_interface.py imports names that
      service/__init__.py does not define, so the interface is never built. */
  lemma CanadaPostNeverRegistered(s: State)
    ensures Register(s, CanadaPost).0.Fail? && Register(s, CanadaPost).0.error.cls == AttributeError
  {
  }

  /** A registered carrier's `__str__` is the name it is registered under. */
  lemma RegisteredUnderItsName(s: State, k: string)
    requires Valid(s) && k in s.carriers
    ensures ToString(s.carriers[k]) == Ok(k)
  {
  }

  /** `identify_tracking_number(tracking_number)`: the first carrier, in the
      order of `names`, whose `identify` is true; an error of an identifier
      propagates; if none is true, TrackingNumberFailure. */
  function FirstMatch(names: seq<string>, carriers: map<string, Carrier>, tn: string): Result<Carrier>
    requires forall i :: 0 <= i < |names| ==> names[i] in carriers
  {
    if |names| == 0 then Err(Error(TrackingNumberFailure, tn))
    else match Identifies(carriers[names[0]], tn)
      case Err(e) => Err(e)
      case Ok(true) => Ok(carriers[names[0]])
      case Ok(false) => FirstMatch(names[1..], carriers, tn)
  }

  /** A carrier that is found is registered and identifies the number, and
      every carrier before it in the order declined it. */
  lemma {:induction false} FoundCarrierIdentifies(names: seq<string>, carriers: map<string, Carrier>, tn: string)
    requires forall i :: 0 <= i < |names| ==> names[i] in carriers
    ensures FirstMatch(names, carriers, tn).Ok? ==>
              exists i :: 0 <= i < |names| && FirstMatch(names, carriers, tn).value == carriers[names[i]]
                && Identifies(carriers[names[i]], tn) == Ok(true)
                && forall j :: 0 <= j < i ==> Identifies(carriers[names[j]], tn) == Ok(false)
  {
    if |names| > 0 && FirstMatch(names, carriers, tn).Ok? && Identifies(carriers[names[0]], tn) == Ok(false) {
      FoundCarrierIdentifies(names[1..], carriers, tn);
      var i :| 0 <= i < |names[1..]| && FirstMatch(names[1..], carriers, tn).value == carriers[names[1..][i]]
                && Identifies(carriers[names[1..][i]], tn) == Ok(true)
                && forall j :: 0 <= j < i ==> Identifies(carriers[names[1..][j]], tn) == Ok(false);
      assert forall j :: 1 <= j < i + 1 ==> names[j] == names[1..][j - 1];
    }
  }

  /** The search ends in TrackingNumberFailure for the number exactly when
      every registered carrier declines it. */
  lemma {:induction false} NoMatchRaises(names: seq<string>, carriers: map<string, Carrier>, tn: string)
    requires forall i :: 0 <= i < |names| ==> names[i] in carriers
    ensures (forall i :: 0 <= i < |names| ==> Identifies(carriers[names[i]], tn) == Ok(false)) <==>
            FirstMatch(names, carriers, tn) == Err(Error(TrackingNumberFailure, tn))
  {
    if |names| > 0 {
      NoMatchRaises(names[1..], carriers, tn);
      IdentifyErrors(carriers[names[0]], tn);
      assert forall i :: 1 <= i < |names| ==> names[i] == names[1..][i - 1];
    }
  }

  /** The dictionary `carriers` and the order of its keys. */
  class Registry {
    var names: seq<string>
    var carriers: map<string, Carrier>

    /** The empty module dictionary. */
    constructor ()
      ensures names == [] && carriers == map[]
    {
      names := [];
      carriers := map[];
    }

    /** `register_carrier(carrier)`, and so the interface's constructor. */
    method RegisterCarrier(c: Carrier) returns (r: Outcome)
      modifies this
      ensures (r, State(names, carriers)) == Register(old(State(names, carriers)), c)
    {
      var name := LongNameOf(c);
      if name.Err? {
        return Fail(name.error);
      }
      if name.value in carriers {
        return Fail(Error(Exception, "Carrier " + name.value + " already registered"));
      }
      names := names + [name.value];
      carriers := carriers[name.value := c];
      r := Pass;
    }

    /** `identify_tracking_number(tracking_number)`: the loop over
        `carriers.values()` with its early return. */
    method IdentifyTrackingNumber(tn: string) returns (r: Result<Carrier>)
      requires forall i :: 0 <= i < |names| ==> names[i] in carriers
      ensures r == FirstMatch(names, carriers, tn)
    {
      var i := 0;
      while i < |names|
        invariant 0 <= i <= |names|
        invariant FirstMatch(names, carriers, tn) == FirstMatch(names[i..], carriers, tn)
      {
        assert names[i..][1..] == names[i + 1..];
        var found := Identifies(carriers[names[i]], tn);
        if found.Err? {
          return Err(found.error);
        }
        if found.value {
          return Ok(carriers[names[i]]);
        }
        i := i + 1;
      }
      r := Err(Error(TrackingNumberFailure, tn));
    }
  }
}
