/** The exception classes that the tracking code raises or catches, arranged in
    Python's class hierarchy, and the outcome types the model uses in place of
    raising. `Catches(h, e)` is what an `except h:` clause decides about `e`. */
module Errors {

  datatype Option<+T> = None | Some(value: T)

  datatype ExcClass =
    | Exception                  // Python's base class of ordinary errors
    | KeyError | IndexError | ValueError | AttributeError | NameError | TypeError
    | ConfigKeyError             // configuration.py
    | TrackingFailure            // root of the tracking failure family
    | TrackingApiFailure | TrackingNetworkFailure | TrackingNumberFailure
    | InvalidTrackingNumber | UnsupportedTrackingNumber
    | UnrecognizedTrackingNumber // older service revision only

  /** Position in the hierarchy: the base class has depth 0. */
  function Depth(c: ExcClass): nat
  {
    match c
    case Exception => 0
    case ConfigKeyError => 2
    case TrackingApiFailure | TrackingNetworkFailure | TrackingNumberFailure
      | InvalidTrackingNumber | UnsupportedTrackingNumber | UnrecognizedTrackingNumber => 2
    case _ => 1
  }

  /** The direct base class of `c`. */
  function Parent(c: ExcClass): (p: Option<ExcClass>)
    ensures p.None? <==> c == Exception
    ensures p.Some? ==> Depth(p.value) + 1 == Depth(c)
  {
    match c
    case Exception => None
    case ConfigKeyError => Some(KeyError)
    case TrackingApiFailure | TrackingNetworkFailure | TrackingNumberFailure
      | InvalidTrackingNumber | UnsupportedTrackingNumber | UnrecognizedTrackingNumber =>
      Some(TrackingFailure)
    case _ => Some(Exception)
  }

  /** `issubclass(c, h)`. */
  predicate IsSubclass(c: ExcClass, h: ExcClass)
    decreases Depth(c)
  {
    c == h || (Parent(c).Some? && IsSubclass(Parent(c).value, h))
  }

  datatype Error = Error(cls: ExcClass, message: string)

  /** Whether `except h:` handles the raised error `e`. */
  predicate Catches(h: ExcClass, e: Error)
  {
    IsSubclass(e.cls, h)
  }

  /** A computation that returns a value or raises. */
  datatype Result<+T> = Ok(value: T) | Err(error: Error)

  /** A computation whose value is discarded: it either finishes or raises. */
  datatype Outcome = Pass | Fail(error: Error)

  /** Every class is caught by `except Exception`, and the hierarchy has no cycles:
      a class is a subclass of one of its proper subclasses only if they are equal. */
  lemma {:induction false} HierarchyIsRooted(c: ExcClass)
    ensures IsSubclass(c, Exception)
    ensures forall h :: IsSubclass(c, h) ==> Depth(h) <= Depth(c)
    decreases Depth(c)
  {
    if c != Exception {
      HierarchyIsRooted(Parent(c).value);
    }
  }

  /** The failure classes of service/__init__.py all derive from TrackingFailure,
      and none of them is a KeyError, so `except ConfigKeyError` never swallows one. */
  lemma TrackingFailureFamily(c: ExcClass)
    requires c in {TrackingApiFailure, TrackingNetworkFailure, TrackingNumberFailure,
                   UnrecognizedTrackingNumber, InvalidTrackingNumber, UnsupportedTrackingNumber}
    ensures IsSubclass(c, TrackingFailure)
    ensures !IsSubclass(c, KeyError) && !IsSubclass(c, ConfigKeyError)
  {
  }

  /** `ConfigKeyError` is a `KeyError`, but a plain `KeyError` is not a `ConfigKeyError`. */
  lemma ConfigKeyErrorIsKeyError()
    ensures IsSubclass(ConfigKeyError, KeyError)
    ensures !IsSubclass(KeyError, ConfigKeyError)
    ensures !IsSubclass(ConfigKeyError, TrackingFailure)
  {
  }
}
