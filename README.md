# packagetrack in Dafny

A model of the core of packagetrack, a Python library that recognises a parcel
tracking number, picks the carrier it belongs to, and turns that carrier's
tracking reply into one `TrackingInfo` record with a time-ordered list of events.
It covers both revisions of the carrier code:

- the current one under `packagetrack/carriers/` (FedEx, UPS, USPS, DHL,
  Canada Post and Prestige);
- the older one under `packagetrack/service/` (FedEx, USPS, Canada Post and DHL).

What is modelled:

- **Identification.** Every `identify` is a function, proved against the rules its
  source states. The FedEx mod-10 and mod-11 checks of both revisions are also
  `method`s with the source's loops, proved equal to the functions. The UPS
  letter-to-digit check, a `map` and two `sum`s in the source, is a recursive
  function.
- **Registries.** Both registries are classes, with insertion-ordered names and a map:
  - `Carriers.Registry` replaces by name, probes "smart post" numbers, then falls
    back to the first match;
  - `ServiceRegistry.Registry` raises on a duplicate name and raises when nothing matches.
- **The event list.** `Data.TrackingInfo` is a class whose `AddEvent` and
  `CreateEvent` keep `events` equal to a stable sort by timestamp.
- **Adapter rules.** The "delivered" tests, the location and detail strings, the
  UPS delivery-date precedence and the USPS service table are modelled.
- **Replies.** Each adapter maps its errors onto the exception classes and
  assembles its record. A parsed reply is an abstract record: one datatype field
  per element that is read.
- **Configuration.** `DictConfig.get_value` is modelled with its loop, together
  with the two-level fallback `_cfg_value` built on it.

Modules:

- `Errors` holds the exception classes with their hierarchy;
- `Text` holds the Python string operations the code uses;
- `Delivery` holds the rules the adapters share.

Timestamps are `int`s. A carrier's `status`, the record's `last_update` and the
outcome of a network call are inputs.

Where the library's documentation and its code disagree, the model follows the
code: the docstring example 1Z9999999999999999 (packagetrack/__init__.py:9 and
:23) is rejected by `_check_tracking_code` (`Ups.ExampleNumberRejected`).

The UPS number 1Z12345E0205271688, often quoted as a valid UPS number but not
given anywhere in the library, is rejected as well: its total is 84, so the
check is 6, not 8 (`Ups.QuotedExampleRejected`).

## Model

| member | source | states |
|---|---|---|
| Errors.Parent | packagetrack/service/__init__.py:5-36 | every class but Exception has exactly one parent, one level nearer the root |
| Errors.HierarchyIsRooted | packagetrack/service/__init__.py:5-36 | every exception class is a subclass of Exception, and a superclass is never deeper than its subclass |
| Errors.TrackingFailureFamily | packagetrack/carriers/__init__.py:5 | the failure classes of service/__init__.py:11-36 and the three number errors imported here, placed under TrackingFailure (see "Left out"), are all caught by `except TrackingFailure` and none of them by `except KeyError` |
| Errors.ConfigKeyErrorIsKeyError | packagetrack/configuration.py:9-12 | a ConfigKeyError is a KeyError but not the reverse, and it is not a tracking failure |
| Configuration.NullGetValue | packagetrack/configuration.py:24-25 | every key path raises an error that `except ConfigKeyError` and `except KeyError` both catch |
| Configuration.Step | packagetrack/configuration.py:57 | `node.get(key)` gives the stored value, None for a missing key, and AttributeError on a node that is not a dict |
| Configuration.Walk | packagetrack/configuration.py:53-60 | the reference walk down the key path with `node.get(key)`: the node reached, or the first step's error; `DictGetValue`, `WalkFindsStoredValue`, `MissingFinalKeyIsNone`, `MissingIntermediateKeyRaises` and `DictNeverRaisesConfigKeyError` are stated over it |
| Configuration.GetValue | packagetrack/configuration.py:21-60 | `get_value` of the two providers modelled: every path raises ConfigKeyError for a null config, and a dict config answers with the walk from its root; `Carriers.CfgValue` is stated over it |
| Configuration.DictGetValue | packagetrack/configuration.py:53-60 | the loop over the keys returns what walking the key path from the root gives |
| Configuration.WalkFindsStoredValue | packagetrack/configuration.py:53-60 | along an existing path the stored value is returned; the empty path returns the dict itself |
| Configuration.MissingFinalKeyIsNone | packagetrack/configuration.py:56-59 | a missing last key returns None and does not raise |
| Configuration.MissingIntermediateKeyRaises | packagetrack/configuration.py:54-57 | a missing key followed by more keys raises AttributeError on None, which is not a ConfigKeyError |
| Configuration.DictNeverRaisesConfigKeyError | packagetrack/configuration.py:56-59 | no key path makes a dict config raise ConfigKeyError; the handler is unreachable |
| Data.NewEvent | packagetrack/data.py:44-48 | the event's fields are timestamp, location and detail plus exactly the keyword fields, with their values |
| Data.InsertLe | packagetrack/data.py:36 | inserting an event after all not-later ones grows the list by one, is a permutation of the list plus the event, and keeps it sorted |
| Data.SortByTimestamp | packagetrack/data.py:33-36 | `sorted(events, key=timestamp)` has the same length, is non-decreasing in timestamp and is a permutation of its input |
| Data.WithTimestampAppend | packagetrack/data.py:36 | keeping the events of one timestamp distributes over appending one event |
| Data.InsertLeStable | packagetrack/data.py:36 | one insertion keeps the relative order of events that share a timestamp and puts the new one after them |
| Data.SortIsStable | packagetrack/data.py:36 | the sort keeps the relative order of events that share a timestamp |
| Data.SortKeepsSortedList | packagetrack/data.py:36 | sorting a sorted list changes nothing |
| Data.SortAfterAppend | packagetrack/data.py:30 | sorting a sorted list with one event appended equals sorting the unsorted list with it appended |
| Data.CutPoint | packagetrack/data.py:36 | the insertion point of a timestamp lies within the list |
| Data.AfterCutPointIsLater | packagetrack/data.py:36 | every event after the insertion point is strictly later |
| Data.CutPointIsLastNotLater | packagetrack/data.py:36 | in a sorted list every event before the insertion point is not later |
| Data.InsertLeSplices | packagetrack/data.py:30 | insertion is splicing the event in at the insertion point |
| Data.AddToSortedList | packagetrack/data.py:29-36 | on a sorted list, `add_event` inserts the event after every event with timestamp at most its own and before every later one |
| Data.InitKeywordsAsWritten | packagetrack/data.py:9 | the constructor as written raises TypeError exactly when keyword fields beyond `tracking_number` and `delivery_date` are passed |
| Data.ServiceKeywordRaises | packagetrack/data.py:9 | the `service=` keyword that the FedEx, UPS, USPS and Canada Post adapters and the older FedEx and USPS adapters pass makes the constructor as written raise |
| Data.TrackingInfo.constructor | packagetrack/data.py:9-12 | the record holds the given number and delivery date (absent by default), the keyword fields, and no events |
| Data.TrackingInfo.SortEvents | packagetrack/data.py:33-36 | a sorted permutation of the given list, or of the current events when none is given; reads the record without changing it |
| Data.TrackingInfo.AddEvent | packagetrack/data.py:29-31 | returns the event; the events become the sort of the old events plus it: sorted, one longer, a permutation of the old ones plus the event |
| Data.TrackingInfo.CreateEvent | packagetrack/data.py:24-27 | returns the event built from the arguments and keyword fields, and adds it as `add_event` does |
| Delivery.StatusIsDelivered | packagetrack/carriers/fedex_interface.py:56 | `status.lower() == 'delivered'`, the FedEx and Prestige rule; `DeliveredTestsIgnoreCase` shows it reads only the lower-cased status |
| Delivery.StatusEndsDelivered | packagetrack/carriers/capost_interface.py:47 | `status.lower().endswith('delivered')`, the Canada Post and DHL rule; `DeliveredTestsIgnoreCase` and `SuffixAcceptsNotDelivered` compare it with the equality rule |
| Delivery.DeliveredTestsIgnoreCase | packagetrack/carriers/fedex_interface.py:56 | both delivered tests depend only on the lower-cased status, and equality with 'delivered' implies the suffix test |
| Delivery.SuffixAcceptsNotDelivered | packagetrack/carriers/capost_interface.py:47 | the suffix test accepts 'Not Delivered', which the equality test rejects |
| Delivery.IsDelivered | packagetrack/carriers/fedex_interface.py:53-56 | with a record the rule is applied to its status; without one the number is tracked first, and a tracking error propagates |
| Delivery.RecordDelivery | packagetrack/carriers/fedex_interface.py:108-110 | `is_delivered` is stored, and the delivery date becomes the last update exactly when delivered; otherwise nothing else changes |
| Delivery.AddNext | packagetrack/carriers/fedex_interface.py:101-106 | one more `create_event` turns the sort of the first events into the sort of one event more |
| Delivery.AddEvents | packagetrack/carriers/fedex_interface.py:101-106 | one `create_event` per event on a sorted record leaves the sort of the old and new events, keeping length and contents |
| Delivery.NewRecord | packagetrack/carriers/prestige_interface.py:52-59 | a new record with the given number, delivery date and keyword fields, whose events, added one `create_event` at a time, are their sort |
| Delivery.AsList | packagetrack/carriers/usps_interface.py:75-81 | a missing node gives the empty list, a single node a one-element list, and a list itself |
| Delivery.WrappingIsTransparent | packagetrack/carriers/ups_interface.py:88-89 | a single node and a one-element list of it give the same list |
| Fedex.ReversedMod10 | packagetrack/carriers/fedex_interface.py:161-174 | the reference mod-10 rule over reversed positions 1..span: ValueError at a position that is not a digit, IndexError on a number too short, else `10 - weighted sum % 10` compared with the last digit; `ValidateReversedMod10` is proved equal to it |
| Fedex.Ground96 | packagetrack/carriers/fedex_interface.py:140-174 | the mod-10 rule over reversed positions 1..14; `ValidateGround96` returns it and `Ground96Example` shows the docstring number passes |
| Fedex.Ssc18 | packagetrack/carriers/fedex_interface.py:176-192 | the mod-10 rule over reversed positions 1..18; `ValidateSsc18` returns it |
| Fedex.SumReversed | packagetrack/carriers/fedex_interface.py:161-170 | the loop over reversed positions raises exactly the error of the mod-10 rule, or leaves the weighted sum of the positions it read |
| Fedex.WeightedStep | packagetrack/carriers/fedex_interface.py:165-169 | reading a position adds three times an odd position's digit and once an even one's |
| Fedex.ReversedMod10Missing | packagetrack/carriers/fedex_interface.py:165-166 | the first position read past the end raises IndexError |
| Fedex.ReversedMod10NonDigit | packagetrack/carriers/fedex_interface.py:165-169 | the first position read that is not a digit raises ValueError |
| Fedex.ReversedMod10OfDigits | packagetrack/carriers/fedex_interface.py:171-174 | when every position read is a digit, the verdict compares 10 minus the weighted sum mod 10 with the last digit |
| Fedex.ValidateReversedMod10 | packagetrack/carriers/fedex_interface.py:161-174 | the loop over reversed positions equals the mod-10 rule: 10 minus the weighted sum mod 10 compared with the last digit, raising on a non-digit or a short number |
| Fedex.ValidateGround96 | packagetrack/carriers/fedex_interface.py:161-174 | `_validate_ground96` is the mod-10 rule over reversed positions 1..14 |
| Fedex.ValidateSsc18 | packagetrack/carriers/fedex_interface.py:176-192 | `_validate_ssc18` is the same rule over reversed positions 1..18 |
| Fedex.ReversedMod10OnDigits | packagetrack/carriers/fedex_interface.py:161-174 | a long enough digit string never raises, and a weighted sum divisible by 10 is never accepted (no 10-to-0 mapping) |
| Fedex.ZeroCheckDigitNeverPasses | packagetrack/carriers/fedex_interface.py:161-174 | an accepted number never ends in 0 |
| Fedex.ReverseOfExample | packagetrack/carriers/fedex_interface.py:145 | the docstring example reversed |
| Fedex.Ground96Example | packagetrack/carriers/fedex_interface.py:140-174 | the docstring example 019343586678996 passes the ground check |
| Fedex.Express | packagetrack/carriers/fedex_interface.py:195-219 | the reference Express rule: False unless characters 0..9 are digits, else the mod-11 check of their digit sum compared with the last character, which raises on a non-digit; `ValidateExpress` is proved equal to it, and `ExpressMissesTransposition` and `ExpressIgnoresCharacterTen` state what it does not read |
| Fedex.ExpressCheck | packagetrack/carriers/fedex_interface.py:215-217 | the check is the total mod 11 with 10 mapped to 0, so it is a single digit |
| Fedex.ValidateExpress | packagetrack/carriers/fedex_interface.py:195-219 | the loop, whose multiplier never leaves 1, equals the rule: False without ten leading digits, else the check of their plain digit sum compared with the last character |
| Fedex.DigitSumConcat | packagetrack/carriers/fedex_interface.py:203-214 | the digit sum distributes over concatenation |
| Fedex.SwapKeepsDigitSum | packagetrack/carriers/fedex_interface.py:203-209 | swapping two adjacent digits keeps the string all digits and keeps its digit sum |
| Fedex.ExpressMissesTransposition | packagetrack/carriers/fedex_interface.py:203-219 | swapping two adjacent digits of the base number never changes the verdict |
| Fedex.ExpressIgnoresCharacterTen | packagetrack/carriers/fedex_interface.py:219 | the eleventh character of a 12-character number is never read |
| Fedex.Identify | packagetrack/carriers/fedex_interface.py:42-51 | the length dispatch of `identify`; `IdentifyNumber` proves the validator calls equal it, and `OtherLengthsRejected`, `TwelveNeverRejected`, `DigitsNeverRaise` and `TwentyNeedsGroundCheck` state its cases |
| Fedex.IdentifyNumber | packagetrack/carriers/fedex_interface.py:42-51 | the dispatch calling the validators equals the identification rule |
| Fedex.OtherLengthsRejected | packagetrack/carriers/fedex_interface.py:45-51 | every length other than 12, 15, 20 and 22 is rejected |
| Fedex.TwelveNeverRejected | packagetrack/carriers/fedex_interface.py:46 | 12 characters are never rejected; they raise exactly when ten leading digits are followed by a non-digit last character |
| Fedex.DigitsNeverRaise | packagetrack/carriers/fedex_interface.py:49-50 | a digit string never raises, and every 22-digit string is FedEx |
| Fedex.TwentyNeedsGroundCheck | packagetrack/carriers/fedex_interface.py:48 | 20 characters are accepted iff they start with '96' and pass the ground check |
| Fedex.IdentifyGroundExample | packagetrack/carriers/fedex_interface.py:47 | the docstring example is identified |
| Fedex.IsDeliveredFedex | packagetrack/carriers/fedex_interface.py:53-56 | with a record, delivered iff the lower-cased status equals 'delivered' |
| Fedex.FinishResponse | packagetrack/carriers/fedex_interface.py:108-110 | the delivered flag is stored, and the delivery date becomes the last update exactly when delivered |
| Ups.CharValue | packagetrack/carriers/ups_interface.py:32-33 | a digit scores its value; a letter scores (ord(upper) - 63) mod 10; every score is a digit |
| Ups.Total | packagetrack/carriers/ups_interface.py:32-36 | `sum(digits[1::2]) * 2 + sum(digits[::2])` of the letter-to-digit values; `TotalStep` and `TotalConcat` state how it grows, `NinesTotal` and `QuotedTotal` its value on the two example numbers |
| Ups.CheckTrackingCode | packagetrack/carriers/ups_interface.py:31-37 | raises exactly when the code is empty or its last character is not a digit |
| Ups.Identify | packagetrack/carriers/ups_interface.py:20-24 | the '1Z' prefix, a digit last, all alphanumeric and the code check, in that order; `IdentifyNeverRaises`, `IdentifyIgnoresCase`, `ShortNumbersPass`, `ExampleNumberRejected` and `QuotedExampleRejected` are stated over it |
| Ups.IdentifyNeverRaises | packagetrack/carriers/ups_interface.py:20-24 | the '1Z' prefix and digit-last tests run first, so the check never raises from `identify` |
| Ups.MultipleOfTenRejected | packagetrack/carriers/ups_interface.py:37 | a total divisible by 10 and a check digit 0 are always rejected |
| Ups.OneCheckDigit | packagetrack/carriers/ups_interface.py:37 | an accepted code is rejected with any other last digit |
| Ups.UpperLower | packagetrack/carriers/ups_interface.py:33 | upper-casing after lower-casing is upper-casing |
| Ups.IdentifyIgnoresCase | packagetrack/carriers/ups_interface.py:32-33 | lower-casing the code after '1Z' never changes the verdict |
| Ups.ShortNumbersPass | packagetrack/carriers/ups_interface.py:20-24 | there is no length rule: 1Z19 and 1Z1116 are identified |
| Ups.NinesTotal | packagetrack/carriers/ups_interface.py:36 | fifteen nines total 198 |
| Ups.ExampleNumberRejected | packagetrack/__init__.py:9-12 | the docstring example 1Z9999999999999999 is not identified as UPS |
| Ups.TotalConcat | packagetrack/carriers/ups_interface.py:36 | after a prefix of even length the weights start over, so the totals of the two parts add up |
| Ups.CheckIgnoresCase | packagetrack/carriers/ups_interface.py:31-37 | the code check gives the same answer on the lowered code |
| Ups.QuotedTotal | packagetrack/carriers/ups_interface.py:32-36 | the code of 1Z12345E0205271688 before its check digit totals 84 |
| Ups.QuotedExampleRejected | packagetrack/carriers/ups_interface.py:20-37 | 1Z12345E0205271688 is not identified as UPS: its check is 6, not 8 |
| Ups.TotalStep | packagetrack/carriers/ups_interface.py:36 | the total grows by twice the value at an odd index and once at an even one |
| Ups.TrackChecksNumberFirst | packagetrack/carriers/ups_interface.py:26-28 | `track` on an unidentified number raises InvalidTrackingNumber without running |
| Ups.Present | packagetrack/carriers/ups_interface.py:116-120 | the present address parts, at most one per key, empty iff no key is present |
| Ups.PresentFrom | packagetrack/carriers/ups_interface.py:153-158 | the parts from one key on are that key's value, when present, followed by the parts of the later keys |
| Ups.CollectPresent | packagetrack/carriers/ups_interface.py:153-158 | the append loop collects exactly the present parts in key order |
| Ups.EventLocation | packagetrack/carriers/ups_interface.py:152-159 | 'UNKNOWN' when no address part is present, else the parts joined with commas; `LocationRoundTrip` and `FullAddress` state what it gives |
| Ups.EventOf | packagetrack/carriers/ups_interface.py:151-168 | the activity's timestamp, its `EventLocation` and its status description, with no keyword fields; `ParseResponse` states that the record's events are the sort of these |
| Ups.LocationRoundTrip | packagetrack/carriers/ups_interface.py:152-159 | 'UNKNOWN' when no part is present; otherwise the location splits back into the present parts |
| Ups.PresentLacks | packagetrack/carriers/ups_interface.py:116-120 | a character absent from the address is absent from every collected part |
| Ups.FullAddress | packagetrack/carriers/ups_interface.py:152-159 | a full address gives 'city,state,country' |
| Ups.DeliveryDate | packagetrack/carriers/ups_interface.py:125-134 | the last update for service '031' or status 'D'; None exactly when no date applies |
| Ups.RescheduledOverridesScheduled | packagetrack/carriers/ups_interface.py:127-132 | otherwise the rescheduled date wins over the scheduled one |
| Ups.ParseResponse | packagetrack/carriers/ups_interface.py:79-168 | API failure without a service code, KeyError or IndexError without an activity; otherwise a record of the number, delivery date, 'UPS ' service and the sorted activity events; on the corrected constructor, whose as-written call raises TypeError (see "Left out") |
| Usps.Identify | packagetrack/carriers/usps_interface.py:44-51 | the rule per length, False for any other; `IdentifiedLengths`, `PositionsNineAndTenUnchecked`, `InternationalExample` and `TwentyDigitsStartWithZero` are stated over it |
| Usps.IdentifiedLengths | packagetrack/carriers/usps_interface.py:44-51 | only 13, 20, 22 and 30 characters are identified, and all but 13 only as digits |
| Usps.PositionsNineAndTenUnchecked | packagetrack/carriers/usps_interface.py:46-47 | the 13-character rule ignores characters 9 and 10 |
| Usps.InternationalExample | packagetrack/carriers/usps_interface.py:46-47 | EA123456789US is identified |
| Usps.TwentyDigitsStartWithZero | packagetrack/carriers/usps_interface.py:48 | 20 digits are identified iff the first is '0' |
| Usps.ServiceDescription | packagetrack/carriers/usps_interface.py:85-86 | `_service_types.get(tracking_number[0:2], 'USPS')`; `ServiceFromPrefix`, `ServiceCodesAreLetters` and `DigitNumbersAreDefaultService` state what it gives |
| Usps.ServiceFromPrefix | packagetrack/carriers/usps_interface.py:85-86 | a known two-letter prefix names its service, anything else gives 'USPS' |
| Usps.ServiceCodesAreLetters | packagetrack/carriers/usps_interface.py:26-33 | every key of the service table is two letters |
| Usps.DigitNumbersAreDefaultService | packagetrack/carriers/usps_interface.py:85-86 | identified numbers of 20, 22 or 30 characters always get 'USPS' |
| Usps.Location | packagetrack/carriers/usps_interface.py:127-135 | city, state and country joined with commas, an empty country read as 'US'; `LocationRoundTrip` proves it splits back into them |
| Usps.LocationRoundTrip | packagetrack/carriers/usps_interface.py:127-135 | the location splits back into city, state and country, an empty country read as 'US' |
| Usps.EventOf | packagetrack/carriers/usps_interface.py:97-107 | the event of a node has its timestamp, location and event text |
| Usps.Failure | packagetrack/carriers/usps_interface.py:62-72 | a top-level error is an API failure with its description (KeyError without), a missing TrackInfo an API failure |
| Usps.TrackInfoFailures | packagetrack/carriers/usps_interface.py:66-96 | an error in TrackInfo is a number failure (an API failure without description), a missing summary a KeyError, a 'DELIVERED' summary a NameError; on the corrected constructor, whose as-written call raises TypeError (see "Left out") |
| Usps.DeliveredNeverParses | packagetrack/carriers/usps_interface.py:95-96 | no delivered package yields a record |
| Usps.RecordEvents | packagetrack/carriers/usps_interface.py:97-107 | the record's events become the sort of the summary event and one event per detail |
| Usps.RecordOf | packagetrack/carriers/usps_interface.py:88-107 | the record of the number and service whose events are the sort of the summary event and one event per detail; on the corrected constructor, whose as-written call raises TypeError (see "Left out") |
| Usps.ParseResponse | packagetrack/carriers/usps_interface.py:58-109 | the error `Failure` names, else a record of the number and service whose 1 + (number of details) events are the sorted summary and detail events; on the corrected constructor, whose as-written call raises TypeError (see "Left out") |
| Dhl.Identify | packagetrack/carriers/dhl_interface.py:53-57 | the dispatch on length 10 or 11 with `isdigit`; `IdentifyIsDigitsOfLength` characterises it |
| Dhl.IdentifyIsDigitsOfLength | packagetrack/carriers/dhl_interface.py:53-57 | identified iff 10 or 11 characters, all digits |
| Dhl.IsDeliveredAsWritten | packagetrack/carriers/dhl_interface.py:66-69 | with a record, the suffix test; without one, the track error or an AttributeError on None |
| Dhl.UntrackedQueryRaises | packagetrack/carriers/dhl_interface.py:67-69 | a successful track still makes the query as written raise, where the corrected one answers |
| Dhl.GivenRecordAgrees | packagetrack/carriers/dhl_interface.py:69 | with a record both versions apply the suffix test |
| Dhl.IsDeliveredDhl | packagetrack/carriers/dhl_interface.py:66-69 | the corrected half of the dhl_interface.py:67-68 finding: the suffix test on the given record's status, or on the tracked one's, tracking errors propagated; `UntrackedQueryRaises` and `GivenRecordAgrees` compare it with the code as written |
| Dhl.NonEmptyStripped | packagetrack/carriers/dhl_interface.py:97-98 | the kept parts are non-empty and stripped |
| Dhl.NonEmptyStrippedKeepsCharsOut | packagetrack/carriers/dhl_interface.py:97-98 | stripping and dropping parts adds no character |
| Dhl.DhlLocation | packagetrack/carriers/dhl_interface.py:97-98 | the hyphen-separated parts of the area, stripped, empty ones dropped, joined with commas; `LocationLacksHyphen`, `LocationRoundTrip` and `ExampleAreaParts` state what it gives |
| Dhl.LocationLacksHyphen | packagetrack/carriers/dhl_interface.py:97-98 | the location holds no '-' |
| Dhl.LocationRoundTrip | packagetrack/carriers/dhl_interface.py:97-98 | the location splits on ',' back into the stripped non-empty pieces of the area |
| Dhl.PieceInJoin | packagetrack/carriers/dhl_interface.py:97-98 | every character of a part is in the join |
| Dhl.AreaPieces | packagetrack/carriers/dhl_interface.py:98 | an area 'X - Y' of hyphen-free names splits on its hyphen into 'X ' and ' Y' |
| Dhl.TrailingBlankStripped | packagetrack/carriers/dhl_interface.py:98 | an unpadded name followed by one blank strips back to the name |
| Dhl.LeadingBlankStripped | packagetrack/carriers/dhl_interface.py:98 | one blank followed by an unpadded name strips back to the name |
| Dhl.NonEmptyStrippedKeep | packagetrack/carriers/dhl_interface.py:97-98 | a piece that strips to something non-empty is kept, stripped, ahead of the parts of the rest |
| Dhl.NonEmptyStrippedPair | packagetrack/carriers/dhl_interface.py:97-98 | two pieces that strip to non-empty names give both names, in order |
| Dhl.AreaParts | packagetrack/carriers/dhl_interface.py:97-98 | the location parts of an area 'X - Y' of unpadded, hyphen-free names are exactly X and Y |
| Dhl.ExampleAreaParts | packagetrack/carriers/dhl_interface.py:97-98 | the location parts of 'LEIPZIG - GERMANY' are LEIPZIG and GERMANY |
| Dhl.StripEachStripped | packagetrack/carriers/dhl_interface.py:99 | every line of the detail, once stripped, is its own strip |
| Dhl.DhlDetail | packagetrack/carriers/dhl_interface.py:99-101 | the lines stripped and joined with blanks, the area removed, stripped, then every ' in' and ' at' removed; `DetailIsOneLine`, `PlainDetailUnchanged`, `JoinedLinesOfOneLine` and `PrepositionRemovalCutsWords` state what it gives |
| Dhl.DetailIsOneLine | packagetrack/carriers/dhl_interface.py:99-101 | the detail holds no newline |
| Dhl.PlainDetailUnchanged | packagetrack/carriers/dhl_interface.py:99-101 | a stripped one-line description without the area, ' in' or ' at' is kept as it is |
| Dhl.JoinedLinesOfOneLine | packagetrack/carriers/dhl_interface.py:99 | a stripped single line survives split, strip and join |
| Dhl.PrepositionCutsWord | packagetrack/carriers/dhl_interface.py:101 | after any non-blank character, ' in' is removed together with the blank, whatever word it starts |
| Dhl.PrepositionRemovalCutsWords | packagetrack/carriers/dhl_interface.py:101 | removing ' in' also cuts inside words: 'X inbound' becomes 'Xbound' |
| Dhl.EventOf | packagetrack/carriers/dhl_interface.py:93-101 | the event has the timestamp, the area location and the cleaned detail |
| Dhl.Failure | packagetrack/carriers/dhl_interface.py:72-81 | a reply without AWBInfo is a tracking failure; a status other than 'success' an API failure with the condition data or else the status |
| Dhl.ParseResponse | packagetrack/carriers/dhl_interface.py:71-90 | the error `Failure` names, else a record of the AWB number with sorted events, the delivered flag and the delivery date set on delivery; with the status as an input, where as written reading `info.status` raises KeyError (see "Left out") |
| CanadaPost.Identify | packagetrack/carriers/capost_interface.py:18-25 | the dispatch on lengths 11, 13 and 16; `IdentifiedShape` and `InternationalExample` are stated over it |
| CanadaPost.IdentifiedShape | packagetrack/carriers/capost_interface.py:21-25 | identified numbers have 11, 13 or 16 characters: two letters and 'CA' at the end, or all digits |
| CanadaPost.InternationalExample | packagetrack/carriers/capost_interface.py:22-23 | RR123456789CA is identified |
| CanadaPost.IsDeliveredCanadaPost | packagetrack/carriers/capost_interface.py:44-47 | with a record, delivered iff the lower-cased status ends with 'delivered' |
| CanadaPost.Location | packagetrack/carriers/capost_interface.py:84 | site and province joined with a comma; `LocationRoundTrip` proves it splits back into them |
| CanadaPost.LocationRoundTrip | packagetrack/carriers/capost_interface.py:84 | 'site,province' splits back into site and province |
| CanadaPost.EventOf | packagetrack/carriers/capost_interface.py:81-84 | the event has the occurrence's timestamp, description and location |
| CanadaPost.EventsOf | packagetrack/carriers/capost_interface.py:78-84 | one event per occurrence, in order |
| CanadaPost.Backwards | packagetrack/carriers/capost_interface.py:78 | `[::-1]` reverses |
| CanadaPost.WithTimestampPrepend | packagetrack/carriers/capost_interface.py:78-84 | keeping one timestamp's events commutes with putting an event in front |
| CanadaPost.WithTimestampBackwards | packagetrack/carriers/capost_interface.py:78 | keeping one timestamp's events commutes with reversal |
| CanadaPost.EventsOfBackwards | packagetrack/carriers/capost_interface.py:78-84 | the events of the reversed occurrences are the reversed events |
| CanadaPost.SameTimestampReversed | packagetrack/carriers/capost_interface.py:78-84 | after sorting, occurrences sharing a timestamp stand in the reverse of the reply's order |
| CanadaPost.Failure | packagetrack/carriers/capost_interface.py:63-67 | summary messages first, then detail messages, are API failures; no pin summary is an IndexError; otherwise no error |
| CanadaPost.ParseResponse | packagetrack/carriers/capost_interface.py:62-85 | the error `Failure` names, else a record without number, with the expected delivery date, the service and the sorted reversed occurrences; on the corrected constructor, whose as-written call raises TypeError (see "Left out") |
| CanadaPost.Stamp | packagetrack/carriers/capost_interface.py:38-41 | the record gets the number and the delivered flag, and on delivery the last update as delivery date, which keeps the flag and the date consistent |
| CanadaPost.Track | packagetrack/carriers/capost_interface.py:27-42 | a service fault is an API failure; otherwise the parsed record gets the number, the delivered flag and, on delivery, the last update as delivery date; on the corrected constructor, whose as-written call raises TypeError (see "Left out") |
| Prestige.Identify | packagetrack/carriers/prestige_interface.py:24-28 | the length test first, then 'P', a letter and `isdigit` of the rest; `IdentifyExactly` characterises it |
| Prestige.IdentifyExactly | packagetrack/carriers/prestige_interface.py:24-28 | identified iff ten characters: 'P', a letter and eight digits |
| Prestige.IdentifyExample | packagetrack/carriers/prestige_interface.py:24-28 | PS12345678 is identified |
| Prestige.IsDeliveredPrestige | packagetrack/carriers/prestige_interface.py:30-33 | with a record, delivered iff the lower-cased status equals 'delivered' |
| Prestige.SendRequest | packagetrack/carriers/prestige_interface.py:35-41 | a request error becomes a network failure with its message; a reply is passed on |
| Prestige.RequestErrorsAreTrackingFailures | packagetrack/carriers/prestige_interface.py:39-40 | a failed request is caught as a tracking failure |
| Prestige.ScheduledSeconds | packagetrack/carriers/prestige_interface.py:71 | `int(s[6:-5])` raises only ValueError |
| Prestige.ScheduledSecondsOfWrapper | packagetrack/carriers/prestige_interface.py:71 | '/Date(<digits>000)/' gives back the digits' value |
| Prestige.ShortScheduleRaises | packagetrack/carriers/prestige_interface.py:71 | a text of at most 11 characters raises |
| Prestige.Location | packagetrack/carriers/prestige_interface.py:56-57 | `'%s, %s'` of the stripped city and state; `LocationRoundTrip` proves it splits back into them |
| Prestige.LocationRoundTrip | packagetrack/carriers/prestige_interface.py:56-57 | 'city, state' splits on ',' into the stripped city and the stripped state after a space |
| Prestige.EventOf | packagetrack/carriers/prestige_interface.py:55-59 | the event has the entry's timestamp, location and stripped description |
| Prestige.Failure | packagetrack/carriers/prestige_interface.py:44-53 | no JSON is an API failure, an empty reply or history an IndexError, an 'ERROR_' code an API failure 'code: desc', a bad schedule a ValueError |
| Prestige.RecordOf | packagetrack/carriers/prestige_interface.py:52-62 | the record of the reply's number with every entry's event, the delivered flag, and the last update as delivery date when delivered, else the scheduled time |
| Prestige.ParseResponse | packagetrack/carriers/prestige_interface.py:43-63 | the error `Failure` names, else the record with the delivered flag and the last update as delivery date on delivery; with the status as an input, where as written reading `info.status` raises KeyError (see "Left out") |
| Carriers.InOrder | packagetrack/carriers/__init__.py:28 | `__carriers.values()`: the carriers in name order |
| Carriers.Lookup | packagetrack/carriers/__init__.py:17 | the carrier stored under a name, absent iff none has it |
| Carriers.Register | packagetrack/carriers/__init__.py:9-18 | the registry, as a list in name order, after `__carriers[str(carrier)] = carrier`; `RegisterReplacesByName`, `InOrderReplace`, `InOrderAppend` and `Registry.RegisterCarrier` are stated over it |
| Carriers.RegisterReplacesByName | packagetrack/carriers/__init__.py:9-18 | after registering, the name finds the new carrier, other names are unchanged, and the count grows only for a new name |
| Carriers.InOrderReplace | packagetrack/carriers/__init__.py:17 | storing under a known name replaces it in place |
| Carriers.InOrderAppend | packagetrack/carriers/__init__.py:17 | storing under a new name appends it |
| Carriers.InOrderUnchanged | packagetrack/carriers/__init__.py:17 | storing a carrier under a name not in the order leaves the listed values unchanged |
| Carriers.Registry.Carriers | packagetrack/carriers/__init__.py:28 | one carrier per registered name |
| Carriers.Registry.constructor | packagetrack/carriers/__init__.py:7 | the registry starts empty |
| Carriers.RegisterKeepsConsistent | packagetrack/carriers/__init__.py:9-18 | registering keeps every name listed once and every carrier stored under its own name |
| Carriers.Registry.RegisterCarrier | packagetrack/carriers/__init__.py:9-18 | stores the carrier under its name, replacing and keeping the position of an old one, and returns it |
| Carriers.ProbeCarrier | packagetrack/carriers/__init__.py:34-47 | one turn of the probe loop either ends the search with the answer for all remaining carriers or goes on with the next, keeping the probed carriers |
| Carriers.Registry.IdentifySmartPostNumber | packagetrack/carriers/__init__.py:34-47 | the probe loop equals the smart-post rule and reports the carriers it probed |
| Carriers.Registry.IdentifyTrackingNumber | packagetrack/carriers/__init__.py:20-32 | the smart-post probe, falling back to the first identifying carrier |
| Carriers.ProbeStep | packagetrack/carriers/__init__.py:36-43 | one probe step: errors propagate, unidentifying carriers are skipped, a passing track ends the search |
| Carriers.SmartPost | packagetrack/carriers/__init__.py:34-47 | InvalidTrackingNumber for a length other than 22, else the probe over the identifying carriers; `IdentifySmartPostNumber` is proved equal to it, and `WrongLengthIsInvalid`, `ProbeReturnsFirstSurvivor`, `ProbeResultIsFirstSurvivor` and `ProbeUnsupportedIffAllSkipped` characterise it |
| Carriers.WrongLengthIsInvalid | packagetrack/carriers/__init__.py:34-47 | a length other than 22 raises InvalidTrackingNumber and probes no carrier |
| Carriers.ProbeReturnsFirstSurvivor | packagetrack/carriers/__init__.py:36-43 | the first identifying carrier whose track passes is returned, after probing only identifying carriers up to it |
| Carriers.ProbeResultIsFirstSurvivor | packagetrack/carriers/__init__.py:36-43 | a returned carrier identifies the number, passed its track, and every carrier before it was skipped |
| Carriers.ProbeUnsupportedIffAllSkipped | packagetrack/carriers/__init__.py:44-45 | UnsupportedTrackingNumber exactly when every carrier is skipped |
| Carriers.FirstMatch | packagetrack/carriers/__init__.py:28-31 | the fallback loop: the first carrier whose `identify` is true, its errors propagated, UnsupportedTrackingNumber when none is; `FirstMatchIsFirstIdentifying` and `FirstMatchUnsupportedIffNone` characterise it |
| Carriers.FirstMatchIsFirstIdentifying | packagetrack/carriers/__init__.py:28-30 | the first identifying carrier in order is returned |
| Carriers.FirstMatchUnsupportedIffNone | packagetrack/carriers/__init__.py:28-32 | UnsupportedTrackingNumber exactly when no carrier identifies, and a returned one identifies |
| Carriers.Identify | packagetrack/carriers/__init__.py:20-31 | the smart-post probe, and on InvalidTrackingNumber or UnsupportedTrackingNumber the first match; `IdentifyTrackingNumber` is proved equal to it, and `FailedProbesFallBackToFirstMatch`, `IdentifyUnsupportedIffNone` and `TrackErrorsAreNotFallback` are stated over it |
| Carriers.FailedProbesFallBackToFirstMatch | packagetrack/carriers/__init__.py:25-31 | a 22-character number whose probes all fail resolves to the first identifying carrier |
| Carriers.IdentifyUnsupportedIffNone | packagetrack/carriers/__init__.py:28-32 | `identify_tracking_number` raises Unsupported only when no carrier identifies the number |
| Carriers.ProbeResultSurvived | packagetrack/carriers/__init__.py:38-43 | a probe result's track did not raise |
| Carriers.TrackErrorsAreNotFallback | packagetrack/carriers/__init__.py:25-45 | when identification never raises, the only probe error the fallback catches is the probe's own UnsupportedTrackingNumber; an error escaping a probed `track` also escapes the fallback |
| Carriers.SubclassTransitive | packagetrack/carriers/__init__.py:40 | if `a` is a subclass of `b` and `b` is a subclass of `c`, then `a` is a subclass of `c` |
| Carriers.Guarded | packagetrack/carriers/__init__.py:84-88 | InvalidTrackingNumber without running when not identified, the wrapped track otherwise, errors of identify propagated |
| Carriers.SkipCheckIgnored | packagetrack/carriers/__init__.py:84-88 | `skip_check` never changes the outcome |
| Carriers.Url | packagetrack/carriers/__init__.py:100-101 | raises KeyError exactly when the template names a field other than `tracking_number` |
| Carriers.FedexUrl | packagetrack/carriers/fedex_interface.py:15 | the FedEx address ends with the number |
| Carriers.CfgValue | packagetrack/carriers/__init__.py:103-115 | the primary value if found; a non-config error propagates; otherwise the default's value, or the primary's error if the default raises ConfigKeyError too |
| Carriers.DictConfigNeverFallsBack | packagetrack/carriers/__init__.py:108-110 | a dict config never falls back to the defaults |
| Carriers.DefaultMissingKeyIsNone | packagetrack/configuration.py:53-60 | a defaults dict holding the namespace gives None for a missing key instead of raising |
| Carriers.UpsLanguageDefault | packagetrack/carriers/__init__.py:103-115 | UPS's default language is en-US when the primary config provides none |
| Carriers.MissingNamespaceRaises | packagetrack/configuration.py:54-57 | a dict config without the namespace raises AttributeError, not ConfigKeyError |
| ServiceFedex.ExpressUnguarded | packagetrack/service/fedex_interface.py:218-239 | the older Express check raises only ValueError |
| ServiceFedex.ValidateExpress | packagetrack/service/fedex_interface.py:218-239 | the loop equals the rule: ValueError at any non-digit in the first ten characters, else the check of their digit sum compared with the last character |
| ServiceFedex.ExpressAgainstGuarded | packagetrack/service/fedex_interface.py:218-239 | on ten leading digits the two revisions agree; otherwise the older raises where the newer answers False |
| ServiceFedex.Identify | packagetrack/service/fedex_interface.py:49-58 | the older length dispatch; `IdentifyNumber` proves the validator calls equal it, and `OtherLengthsRejected`, `TwentyTwoRule` and `TwelveDigitsCanBeRejected` state its cases |
| ServiceFedex.IdentifyNumber | packagetrack/service/fedex_interface.py:49-58 | the dispatch calling the validators equals the older identification rule |
| ServiceFedex.OtherLengthsRejected | packagetrack/service/fedex_interface.py:52-58 | every length other than 12, 15, 20 and 22 is rejected |
| ServiceFedex.TwentyTwoRule | packagetrack/service/fedex_interface.py:56-57 | 22 characters: '91' accepted unchecked, '00' decided by the SSC-18 check, anything else rejected |
| ServiceFedex.TwelveDigitsCanBeRejected | packagetrack/service/fedex_interface.py:53 | 000000000001 is rejected here although the newer revision accepts it |
| ServiceFedex.ZerosSumToZero | packagetrack/service/fedex_interface.py:226-233 | zeros add nothing to the total |
| ServiceFedex.IdentifyGroundExample | packagetrack/service/fedex_interface.py:54 | 019343586678996 is identified |
| ServiceFedex.Url | packagetrack/service/fedex_interface.py:60-61 | `_url_template.format(tn=tracking_number)`; `UrlSubstitutes` proves the number ends the address |
| ServiceFedex.UrlSubstitutes | packagetrack/service/fedex_interface.py:60-61 | the address ends with the number |
| ServiceUsps.Identify | packagetrack/service/usps_interface.py:40-51 | the older rule per length; `TwentyTwoRule`, `NarrowerThanNewer` and `NinetyOneLeftToFedex` compare it with the newer one |
| ServiceUsps.TwentyTwoRule | packagetrack/service/usps_interface.py:46-48 | 22 characters are identified iff all digits, starting with '9' and not followed by '6' or '1' |
| ServiceUsps.NarrowerThanNewer | packagetrack/service/usps_interface.py:41-51 | the revisions agree except on 22 characters, where the older identifies a subset |
| ServiceUsps.NinetyOneLeftToFedex | packagetrack/service/usps_interface.py:47-48 | a '91' number is identified only by the newer revision |
| ServiceUsps.Url | packagetrack/service/usps_interface.py:57-58 | `_url_template.format(tn=tracking_number)` on the template as evidently intended, with `{tn}` at the end; `UrlSubstitutes` proves the number ends the address |
| ServiceUsps.UrlSubstitutes | packagetrack/service/usps_interface.py:32-33 | the address is the two literal lines followed by the number |
| ServiceUsps.Failure | packagetrack/service/usps_interface.py:66-97 | errors are tracking failures with their description (KeyError without one), a missing TrackInfo or summary a KeyError, and past them the misspelt `service_types` an AttributeError |
| ServiceUsps.ParseResponse | packagetrack/service/usps_interface.py:66-97 | no response yields a record |
| ServiceUsps.ParsedByNewerOnly | packagetrack/service/usps_interface.py:70-97 | what the newer revision parses, this one rejects with AttributeError; its tracking failures carry the newer revision's description |
| ServiceUsps.Recorded | packagetrack/service/usps_interface.py:105-121 | one event per detail, plus one when delivered |
| ServiceUsps.SortKeepsMembers | packagetrack/service/usps_interface.py:114-121 | sorting keeps exactly the recorded events |
| ServiceUsps.SummaryRecordedWhenDelivered | packagetrack/service/usps_interface.py:107-112 | the summary event is recorded on delivery, and otherwise only as a detail |
| ServiceUsps.RecordEvents | packagetrack/service/usps_interface.py:105-121 | the record's events become the sort of the optional summary event and the detail events |
| ServiceCanadaPost.Identify | packagetrack/service/capost_interface.py:6-10 | sixteen characters, all digits; `ValidateIsIdentify`, `NarrowerThanNewer` and `InternationalRejected` are stated over it |
| ServiceCanadaPost.ValidateIsIdentify | packagetrack/service/capost_interface.py:11 | `validate` gives what `identify` gives |
| ServiceCanadaPost.NarrowerThanNewer | packagetrack/service/capost_interface.py:10 | only 16 digits are identified, all of which the newer revision also identifies |
| ServiceCanadaPost.InternationalRejected | packagetrack/service/capost_interface.py:10 | RR123456789CA is identified only by the newer revision |
| ServiceCanadaPost.Url | packagetrack/service/capost_interface.py:16-17 | `_url_template.format(tracking_number=tracking_number)`; `UrlSubstitutes` proves where the number stands |
| ServiceCanadaPost.UrlSubstitutes | packagetrack/service/capost_interface.py:4-17 | the number stands between the two literal parts of the address |
| ServiceCanadaPost.Track | packagetrack/service/capost_interface.py:13-14 | always None |
| ServiceDhl.Identify | packagetrack/service/dhl_interface.py:14-15 | ten characters, all digits; `AgainstNewer` and `ElevenDigitsRejected` compare it with the newer rule |
| ServiceDhl.AgainstNewer | packagetrack/service/dhl_interface.py:14-15 | the revisions agree except that only the newer takes 11 digits |
| ServiceDhl.ElevenDigitsRejected | packagetrack/service/dhl_interface.py:15 | 12345678901 is identified only by the newer revision |
| ServiceDhl.Url | packagetrack/service/dhl_interface.py:20-21 | `_url_template.format(tn=tracking_number)` on the empty template; `UrlIsEmpty` proves the address is empty |
| ServiceDhl.UrlIsEmpty | packagetrack/service/dhl_interface.py:12-21 | the address is empty for every number |
| ServiceDhl.Track | packagetrack/service/dhl_interface.py:17-18 | always None |
| ServiceRegistry.LongName | packagetrack/service/fedex_interface.py:12-13 | the LONG_NAME declared by each interface of this revision (FedEx here, USPS at service/usps_interface.py:11, DHL at service/dhl_interface.py:9), none for Canada Post; `LongNameOf` and `CanadaPostNeverRegistered` are stated over it |
| ServiceRegistry.LongNameOf | packagetrack/service/__init__.py:39 | the LONG_NAME, or AttributeError where none is declared |
| ServiceRegistry.IdentifyErrors | packagetrack/service/__init__.py:47 | an identifier raises only ValueError or IndexError |
| ServiceRegistry.Register | packagetrack/service/__init__.py:38-43 | `register_carrier`: an error for a missing or known LONG_NAME with the dictionary unchanged, else the carrier added under its name; `RegisterKeepsValid`, `SecondRegistrationFails`, `CanadaPostNeverRegistered` and `Registry.RegisterCarrier` are stated over it |
| ServiceRegistry.RegisterKeepsValid | packagetrack/service/__init__.py:38-43 | registration keeps one entry per name under its LONG_NAME; success adds the carrier and keeps the rest; failure changes nothing |
| ServiceRegistry.SecondRegistrationFails | packagetrack/service/__init__.py:55-56 | constructing a second interface with the same LONG_NAME raises 'Carrier X already registered' and changes nothing |
| ServiceRegistry.CanadaPostNeverRegistered | packagetrack/service/__init__.py:39 | the Canada Post interface has no LONG_NAME and cannot register |
| ServiceRegistry.ToString | packagetrack/service/__init__.py:58-59 | `__str__` returns the LONG_NAME, raising where none is declared; `RegisteredUnderItsName` ties it to the key |
| ServiceRegistry.RegisteredUnderItsName | packagetrack/service/__init__.py:58-59 | a registered carrier's `__str__` is its key |
| ServiceRegistry.FirstMatch | packagetrack/service/__init__.py:45-50 | the first registered carrier, in name order, whose `identify` is true, identifier errors propagated, TrackingNumberFailure when none is; `FoundCarrierIdentifies`, `NoMatchRaises` and `Registry.IdentifyTrackingNumber` are stated over it |
| ServiceRegistry.FoundCarrierIdentifies | packagetrack/service/__init__.py:46-48 | a found carrier is registered, identifies the number, and every earlier one declined |
| ServiceRegistry.NoMatchRaises | packagetrack/service/__init__.py:49-50 | TrackingNumberFailure for the number exactly when every carrier declines it |
| ServiceRegistry.Registry.constructor | packagetrack/service/__init__.py:3 | the dictionary starts empty |
| ServiceRegistry.Registry.RegisterCarrier | packagetrack/service/__init__.py:38-43 | the new state and outcome are those of the registration rule |
| ServiceRegistry.Registry.IdentifyTrackingNumber | packagetrack/service/__init__.py:45-50 | the loop with early return equals the first-match rule |
| Overlap.TwentyTwoDigitsClaimedTwice | packagetrack/carriers/usps_interface.py:49 | every 22-digit number is claimed by both FedEx and USPS |
| Overlap.TwentyTwoClaimedOnce | packagetrack/service/usps_interface.py:46-48 | in the older revision no 22-character number is claimed by both, and '91' or '00' numbers are not USPS |
| Overlap.NinetySixUnclaimed | packagetrack/service/usps_interface.py:47-48 | a 22-character '96' number is claimed by neither |
| Text.ParseShowDecimal | packagetrack/carriers/prestige_interface.py:71 | `int` reads back the decimal text of every natural number |
| Text.Lower | packagetrack/carriers/fedex_interface.py:56 | `str.lower()` on ASCII: the same length, each upper-case letter replaced by its lower-case one, every other character kept |
| Text.Upper | packagetrack/carriers/ups_interface.py:33 | `str.upper()` on ASCII: the same length, each lower-case letter replaced by its upper-case one, every other character kept |
| Text.StartsWith | packagetrack/carriers/ups_interface.py:21 | `s.startswith(p)`: `p` is no longer than `s` and is its prefix; `Ups.IdentifyNeverRaises` and the FedEx and USPS rules use it |
| Text.EndsWith | packagetrack/carriers/capost_interface.py:47 | `s.endswith(p)`: `p` is no longer than `s` and is its suffix; `Delivery.SuffixAcceptsNotDelivered` uses it |
| Text.IsDigits | packagetrack/carriers/fedex_interface.py:49 | `s.isdigit()`: false on the empty string, else every character a digit; `Fedex.DigitsNeverRaise` and `Overlap.TwentyTwoDigitsClaimedTwice` use it |
| Text.IntOf | packagetrack/carriers/fedex_interface.py:174 | `int()` of at most one character: a value at most 9 exactly when it is one digit, else ValueError |
| Text.ParseDecimal | packagetrack/carriers/prestige_interface.py:71 | `int()` of a digit string: its decimal value, else ValueError |
| Text.ShowDecimal | packagetrack/carriers/prestige_interface.py:71 | `str(n)`: a non-empty string of digits; `ParseShowDecimal` proves `int` reads it back |
| Text.Reverse | packagetrack/carriers/fedex_interface.py:161 | `s[::-1]`: the same length, character `i` taken from the other end |
| Text.LastChar | packagetrack/carriers/fedex_interface.py:174 | `s[-1:]`: empty for the empty string, else the last character alone |
| Text.Slice | packagetrack/carriers/usps_interface.py:85 | `s[i:j]` clipped to the string: at most `j - i` characters, the plain slice when `j` is in range |
| Text.Split | packagetrack/carriers/dhl_interface.py:98 | `s.split(sep)` for one character: at least one piece; `SplitPiecesLackSeparator`, `JoinSplit`, `SplitJoin`, `SplitAround` and `SplitWithoutSeparator` state its laws |
| Text.SplitPiecesLackSeparator | packagetrack/carriers/dhl_interface.py:98 | no piece of a split holds the separator |
| Text.JoinSplit | packagetrack/carriers/dhl_interface.py:98 | joining the pieces with the separator gives back the string |
| Text.SplitAround | packagetrack/carriers/dhl_interface.py:98 | splitting `a + sep + b` gives the pieces of `a` followed by those of `b` |
| Text.SplitWithoutSeparator | packagetrack/carriers/dhl_interface.py:98 | a string without the separator is its only piece |
| Text.SplitJoin | packagetrack/carriers/usps_interface.py:130-134 | splitting a join of separator-free pieces gives back the pieces |
| Text.JoinChars | packagetrack/carriers/dhl_interface.py:97 | a join holds no character that is absent from its pieces and its separator |
| Text.Strip | packagetrack/carriers/dhl_interface.py:97-98 | `s.strip()`: a slice of the string that neither starts nor ends with white space, and everything cut off before and after it is white space |
| Text.StripUnpadded | packagetrack/carriers/dhl_interface.py:97-98 | a string that neither starts nor ends with white space is its own strip |
| Text.StripIdempotent | packagetrack/carriers/dhl_interface.py:99-100 | stripping twice removes nothing more than stripping once |
| Text.StripKeepsCharsOut | packagetrack/carriers/dhl_interface.py:97-98 | stripping adds no character |
| Text.Replace | packagetrack/carriers/dhl_interface.py:99-101 | `s.replace(old, new)`, left to right without overlaps; `ReplaceAbsent`, `ReplaceAfterChar` and `DeletionKeepsCharsOut` state its laws |
| Text.ReplaceAbsent | packagetrack/carriers/dhl_interface.py:99-101 | a string that does not contain the pattern is unchanged |
| Text.ReplaceAfterChar | packagetrack/carriers/dhl_interface.py:100-101 | a character that cannot start the pattern is kept, and the pattern right after it is replaced |
| Text.DeletionKeepsCharsOut | packagetrack/carriers/dhl_interface.py:99-101 | removing a pattern adds no character |
| Text.Format | packagetrack/carriers/__init__.py:100-101 | `template.format(name=value)`: KeyError for a field with another name, else the template with the value in every field; `FormatOneField` and `FormatNoFields` state its laws |
| Text.FormatOneField | packagetrack/carriers/__init__.py:100-101 | a template with one literal, one matching field and one literal gives the value between the literals |
| Text.FormatNoFields | packagetrack/carriers/__init__.py:100-101 | a template without fields gives the same text for every value |

## Left out

- Network and wire formats are left out as foreign calls: HTTP, SOAP and JSON requests, the XML-to-dict conversion, the FedEx library's request objects, DHL request templates and message references.
  - A reply is an abstract record of the fields that are read.
  - A request's outcome is an input.
- Date and time parsing is left out as library code: `strptime`, `datetime.combine` and `fromtimestamp`, which depends on the local timezone. Timestamps are integers ordered totally.
- `status`, `last_update` and `location` are never defined on `TrackingInfo`. They are inputs: a record's status is passed to `is_delivered`, and its last update to the delivered rule. As written, `__getattr__` (data.py:14-15) reads `self['status']`, which raises KeyError.
- Dhl.ParseResponse: as written, `is_delivered(None, info)` at dhl_interface.py:87 reads `info.status` at :69, which raises KeyError on every reply that passes the error checks, so no DHL reply reaches a record.
- Prestige.ParseResponse: as written, `is_delivered(None, info)` at prestige_interface.py:60 reads `info.status` at :33, which raises KeyError on every reply that passes the error checks, so no Prestige reply reaches a record.
- Prestige.RecordOf: takes the delivered flag and the last update as inputs; as written, reading `info.status` at prestige_interface.py:33 raises KeyError first.
- Fedex.FinishResponse: takes the delivered flag as an input; as written, the call at fedex_interface.py:108 reads `trackinfo.status` and raises KeyError, after the TypeError of the constructor call at :93-98.
- CanadaPost.Stamp: takes the delivered flag as an input; as written, the call at capost_interface.py:39 reads `info.status` at :47 and raises KeyError, after the TypeError of the constructor call at :73-77.
- `DotFileConfig` is left out because it reads a file. Also left out as process entry points or no-ops: packagetrack/__main__.py, packagetrack/__init__.py, setup.py and `auto_register_carriers`.
- packagetrack/carriers/errors.py is not part of this model. InvalidTrackingNumber and UnsupportedTrackingNumber are placed under TrackingFailure.
- `repr` of records and events, and data.py:42 (`self` at class scope), are left out.
- Python 2 iterates a dict in no fixed order. Both registries iterate in insertion order. The first-match lemmas hold for whatever order the names have, and the "no match" lemmas for any order.
- Other broken paths of the older revision are not modelled as working:
  - the FedEx constructor's `super` call and `validate` call, and the `track` built on them;
  - the USPS constructor, `_build_request` and `_send_request`;
  - the imports of the Canada Post and DHL modules;
  - the older USPS module itself, whose line 33 raises IndentationError when it is compiled.

  Their pure functions are modelled as if the modules loaded.
- The TrackingInfo `__getattr__`/`__setattr__` dictionary is modelled as fields plus a map of keyword fields (`service`, `is_delivered`).
- Missing response fields are modelled only where the adapter tests for them or the model names the error:
  - the model raises on a missing UPS service code, UPS activity, USPS TrackInfo or summary, DHL AWBInfo, and Canada Post pin summary;
  - every other field is assumed present, among them UPS `Response`, DHL `ShipmentInfo`, Canada Post `tracking-detail` and Prestige `TrackingNumber`.
- A single DHL `ShipmentEvent` is given as a list: the code does not wrap it, and iterating a lone dict would yield its keys.
- The UPS `delivery_detail` and `last_location` values are computed but not recorded. `Ups.LastLocation` models the latter without a contract.
- Canada Post's `_get_client` cache is left out: it is part of the network layer.
- Prestige.SendRequest: an `Err` outcome of the request stands for a raised `requests.exceptions.RequestException`, the only exception prestige_interface.py:39-40 wraps; other exceptions of the request are not modelled.
- Non-ASCII `isdigit`/`isalpha` behaviour is left out. `strip()` removes the white space up to U+00FF; the Unicode spaces above U+00FF (U+1680, U+2000 to U+200A, U+2028 and others) are left out.
- Concurrency is left out: the code does none.
- Prestige.ScheduledSeconds: accepts only digit strings. Python's `int` also takes a sign and surrounding whitespace, which a `/Date(...)/` text does not hold.
- Data.TrackingInfo.CreateEvent: requires keyword fields other than timestamp, location and detail, because Python rejects a repeated argument before the body runs.
- ServiceUsps.RecordEvents: the event assembly of the older USPS `_parse_response` is unreachable as written. Line 97 raises first (`ServiceUsps.Failure`), and the constructor call at lines 99-103 would raise TypeError (`Data.ServiceKeywordRaises`). The method states what the loop would record on a fresh record.
- ServiceUsps.Url: models the template its two lines evidently mean, the second continuing the first as in carriers/usps_interface.py:34-35. As written, line 33 of service/usps_interface.py is indented with no continuation before it, so the module raises IndentationError and never loads.
- The mod-10 checks returning 10 and the UPS check without a 10-to-0 mapping are modelled as written, not corrected.
- Ups.ParseResponse: builds its record with the corrected constructor (`Data.TrackingInfo.constructor`). As written, the call at ups_interface.py:143-147 passes `service=` and raises TypeError (`Data.ServiceKeywordRaises`), so no UPS reply reaches a record.
- Usps.ParseResponse: builds its record with the corrected constructor. As written, the call at usps_interface.py:88-91 raises TypeError on every reply that passes the error checks.
- Usps.RecordOf: the record it builds is the corrected constructor's; as written, usps_interface.py:88-91 raises TypeError.
- Usps.Failure: states the errors of the corrected path. Its NameError for a 'DELIVERED' summary (usps_interface.py:96) is reached only once the constructor call at lines 88-91 stops raising; as written, that TypeError comes first whenever the error checks pass.
- Usps.TrackInfoFailures: the same corrected path; the NameError it names is preceded, as written, by the TypeError of lines 88-91. `Usps.DeliveredNeverParses` holds either way.
- CanadaPost.ParseResponse: builds its record with the corrected constructor. As written, the call at capost_interface.py:73-77 passes `service=` and raises TypeError.
- CanadaPost.Track: stamps the record `CanadaPost.ParseResponse` builds on the corrected constructor; as written, tracking raises TypeError after a reply without fault.

## Findings

| source | as written | input that shows it | evidently intended | confidence | as-written member | corrected member |
|---|---|---|---|---|---|---|
| packagetrack/data.py:9 | `TrackingInfo.__init__` takes only `tracking_number` and `delivery_date`, but the FedEx, UPS, USPS and Canada Post adapters pass `service=` (FedEx also `delivery_detail=`), and so do the older FedEx and USPS adapters (service/fedex_interface.py:98-103, service/usps_interface.py:99-103), so Python raises TypeError there; DHL and Prestige pass no extra keyword | `TrackingInfo(tracking_number='1Z…', delivery_date=None, service='UPS Ground')` | keep the extra keywords as fields of the record | not executed | Data.InitKeywordsAsWritten | Data.TrackingInfo.constructor |
| packagetrack/carriers/dhl_interface.py:67-68 | without a record, the tracked result is assigned to `tracking_number` and `tracking_info.status` is read from None | `is_delivered('1234567890')` with a successful track | assign the tracked record to `tracking_info` and test its status | not executed | Dhl.IsDeliveredAsWritten | Dhl.IsDeliveredDhl |
