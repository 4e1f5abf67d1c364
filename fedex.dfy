/** The FedEx adapter of packagetrack/carriers/fedex_interface.py: tracking
    number identification with its three checksum validators, the delivered
    test, and the delivered rule that ends `_parse_response`. Converting a
    character with `int()` raises ValueError on a non-digit, so the validators
    and `identify` answer or raise. */
module Fedex {
  import opened Errors
  import opened Text
  import opened Data
  import opened Delivery

  /** Weight of reversed position `k` in the ground and SSC-18 checks. */
  function Weight(k: nat): nat
  {
    if k % 2 == 1 then 3 else 1
  }

  /** `3 * eventotal + oddtotal` after the loop has read reversed positions
      1 .. n-1 of `rev`. */
  function Weighted(rev: string, n: nat): nat
    requires n <= 1 || n <= |rev|
    requires forall k :: 1 <= k < n ==> IsDigit(rev[k])
  {
    if n <= 1 then 0 else Weighted(rev, n - 1) + Weight(n - 1) * DigitValue(rev[n - 1])
  }

  /** `_validate_ground96` (span 14) and `_validate_ssc18` (span 18): reversed
      positions 1..span are read in order, and the first that is missing raises
      IndexError and the first that is not a digit ValueError; then
      `10 - (weighted sum % 10)` is compared with the last character. */
  function ReversedMod10(tn: string, span: nat): (r: Result<bool>)
  {
    var rev := Reverse(tn);
    if exists k :: 1 <= k <= span && k < |rev| && !IsDigit(rev[k]) then
      Err(Error(ValueError, "invalid literal for int() with base 10"))
    else if 1 <= span && |rev| <= span then Err(Error(IndexError, "string index out of range"))
    else match IntOf(LastChar(tn))
      case Err(e) => Err(e)
      case Ok(d) => Ok(10 - Weighted(rev, span + 1) % 10 == d)
  }

  /** The shared check of `_validate_ground96` and `_validate_ssc18`. */
  method ValidateReversedMod10(tn: string, span: nat) returns (r: Result<bool>)
    ensures r == ReversedMod10(tn, span)
  {
    var failure, eventotal, oddtotal := SumReversed(tn, span);
    if failure.Some? {
      return Err(failure.value);
    }
    ReversedMod10OfDigits(tn, span);
    var check := 10 - ((eventotal * 3 + oddtotal) % 10);
    var last := IntOf(LastChar(tn));
    if last.Err? {
      return Err(last.error);
    }
    return Ok(check == last.value);
  }

  /** The loop of the check over reversed positions 1 .. span: the error it
      raises, or the two running sums of the odd and the even positions. */
  method SumReversed(tn: string, span: nat) returns (failure: Option<Error>, eventotal: nat, oddtotal: nat)
    ensures failure.Some? ==> ReversedMod10(tn, span) == Err(failure.value)
    ensures failure.None? ==>
              && (span == 0 || span < |tn|)
              && (forall k :: 1 <= k <= span ==> IsDigit(Reverse(tn)[k]))
              && 3 * eventotal + oddtotal == Weighted(Reverse(tn), span + 1)
  {
    var rev := Reverse(tn);
    eventotal, oddtotal := 0, 0;
    var i := 1;
    while i <= span
      invariant 1 <= i <= span + 1
      invariant i <= 1 || i <= |rev|
      invariant forall k :: 1 <= k < i ==> IsDigit(rev[k])
      invariant 3 * eventotal + oddtotal == Weighted(rev, i)
    {
      if i >= |rev| {
        ReversedMod10Missing(tn, span, i);
        return Some(Error(IndexError, "string index out of range")), eventotal, oddtotal;
      }
      if !IsDigit(rev[i]) {
        ReversedMod10NonDigit(tn, span, i);
        return Some(Error(ValueError, "invalid literal for int() with base 10")), eventotal, oddtotal;
      }
      WeightedStep(rev, i);
      if i % 2 == 1 {
        eventotal := eventotal + DigitValue(rev[i]);
      } else {
        oddtotal := oddtotal + DigitValue(rev[i]);
      }
      i := i + 1;
    }
    failure := None;
  }

  /** Reading position `i` adds three times an odd position's digit and once
      an even one's. */
  lemma WeightedStep(rev: string, i: nat)
    requires 1 <= i < |rev|
    requires forall k :: 1 <= k <= i ==> IsDigit(rev[k])
    ensures Weighted(rev, i + 1) == Weighted(rev, i) + (if i % 2 == 1 then 3 * DigitValue(rev[i]) else DigitValue(rev[i]))
  {
  }

  /** The first position read that is missing raises IndexError. */
  lemma ReversedMod10Missing(tn: string, span: nat, i: nat)
    requires 1 <= i <= span && |tn| <= i
    requires forall k :: 1 <= k < |tn| ==> IsDigit(Reverse(tn)[k])
    ensures ReversedMod10(tn, span) == Err(Error(IndexError, "string index out of range"))
  {
  }

  /** The first position read that is not a digit raises ValueError. */
  lemma ReversedMod10NonDigit(tn: string, span: nat, i: nat)
    requires 1 <= i <= span && i < |tn| && !IsDigit(Reverse(tn)[i])
    ensures ReversedMod10(tn, span) == Err(Error(ValueError, "invalid literal for int() with base 10"))
  {
  }

  function Ground96(tn: string): Result<bool> { ReversedMod10(tn, 14) }

  function Ssc18(tn: string): Result<bool> { ReversedMod10(tn, 18) }

  /** `_validate_ground96` */
  method ValidateGround96(tn: string) returns (r: Result<bool>)
    ensures r == Ground96(tn)
  {
    r := ValidateReversedMod10(tn, 14);
  }

  /** `_validate_ssc18` */
  method ValidateSsc18(tn: string) returns (r: Result<bool>)
    ensures r == Ssc18(tn)
  {
    r := ValidateReversedMod10(tn, 18);
  }

  /** On digits long enough for the loop, the check neither raises nor
      accepts a number whose weighted sum is a multiple of ten: the computed
      check is then 10, which no digit equals. */
  lemma {:induction false} ReversedMod10OnDigits(tn: string, span: nat)
    requires IsDigits(tn) && |tn| > span
    ensures ReversedMod10(tn, span).Ok?
    ensures Weighted(Reverse(tn), span + 1) % 10 == 0 ==> ReversedMod10(tn, span) == Ok(false)
  {
    var rev := Reverse(tn);
    assert forall k :: 1 <= k <= span && k < |rev| ==> IsDigit(rev[k]) by {
      forall k | 1 <= k <= span && k < |rev| ensures IsDigit(rev[k]) {
        assert rev[k] == tn[|tn| - 1 - k];
      }
    }
    assert IsDigit(LastChar(tn)[0]);
  }

  /** No number whose check character is '0' passes either mod-10 check:
      `10 - (sum % 10)` lies in 1..10. */
  lemma ZeroCheckDigitNeverPasses(tn: string, span: nat)
    requires ReversedMod10(tn, span) == Ok(true)
    ensures tn[|tn| - 1] != '0'
  {
    var rev := Reverse(tn);
    assert |rev| > span && IntOf(LastChar(tn)).Ok?;
    assert LastChar(tn)[0] == tn[|tn| - 1];
  }

  lemma ReverseOfExample()
    ensures Reverse("019343586678996") == "699876685343910"
  {
    var rev := Reverse("019343586678996");
    assert forall i :: 0 <= i < |rev| ==> rev[i] == "699876685343910"[i];
  }

  /** The weighted sum of the example's reversed digits. */
  lemma WeightedExample(rev: string)
    requires rev == "699876685343910"
    ensures Weighted(rev, 15) == 154
  {
    assert forall k :: 1 <= k <= 14 ==> IsDigit(rev[k]);
    assert Weighted(rev, 8) == 115 by { WeightedFirstHalf(rev); }
    assert Weighted(rev, 9) == 120;
    assert Weighted(rev, 10) == 129;
    assert Weighted(rev, 11) == 133;
    assert Weighted(rev, 12) == 142;
    assert Weighted(rev, 13) == 151;
    assert Weighted(rev, 14) == 154;
  }

  lemma WeightedFirstHalf(rev: string)
    requires rev == "699876685343910"
    ensures Weighted(rev, 8) == 115
  {
    assert forall k :: 1 <= k <= 14 ==> IsDigit(rev[k]);
    assert Weighted(rev, 2) == 27;
    assert Weighted(rev, 3) == 36;
    assert Weighted(rev, 4) == 60;
    assert Weighted(rev, 5) == 67;
    assert Weighted(rev, 6) == 85;
    assert Weighted(rev, 7) == 91;
  }

  /** The worked example in the docstring of `_validate_ground96`:
      weighted sum 154, check 6, last digit 6. */
  lemma Ground96Example()
    ensures Ground96("019343586678996") == Ok(true)
  {
    var tn := "019343586678996";
    var rev := "699876685343910";
    ReverseOfExample();
    ExampleDigits(rev);
    ReversedMod10OfDigits(tn, 14);
    WeightedExample(rev);
    assert LastChar(tn) == "6";
    assert IntOf(LastChar(tn)) == Ok(6);
    assert ReversedMod10(tn, 14) == Ok(10 - 154 % 10 == 6);
  }

  lemma ExampleDigits(rev: string)
    requires rev == "699876685343910"
    ensures forall k :: 1 <= k <= 14 ==> IsDigit(rev[k])
  {
  }

  /** When every position the loop reads is a digit, the check compares the
      weighted sum with the last character. */
  lemma ReversedMod10OfDigits(tn: string, span: nat)
    requires span == 0 || span < |tn|
    requires forall k :: 1 <= k <= span ==> IsDigit(Reverse(tn)[k])
    ensures IntOf(LastChar(tn)).Ok? ==>
              ReversedMod10(tn, span) == Ok(10 - Weighted(Reverse(tn), span + 1) % 10 == IntOf(LastChar(tn)).value)
  {
  }

  /** `int(digit)` summed over the Express base number: the multiplier stays 1. */
  function DigitSum(s: string): nat
    requires forall i :: 0 <= i < |s| ==> IsDigit(s[i])
  {
    if |s| == 0 then 0 else DigitValue(s[0]) + DigitSum(s[1..])
  }

  /** `total % 11` with 10 mapped to 0. */
  function ExpressCheck(total: nat): (c: nat)
    ensures c <= 9
    ensures c == total % 11 || (total % 11 == 10 && c == 0)
  {
    if total % 11 == 10 then 0 else total % 11
  }

  /** `_validate_express`: not a digit string in characters 0..9 gives False;
      otherwise the check of their digit sum is compared with the LAST
      character, which raises ValueError when it is not a digit. */
  function Express(tn: string): (r: Result<bool>)
  {
    var base := Slice(tn, 0, 10);
    if |base| == 0 || exists i :: 0 <= i < |base| && !IsDigit(base[i]) then Ok(false)
    else match IntOf(LastChar(tn))
      case Err(e) => Err(e)
      case Ok(d) => Ok(ExpressCheck(DigitSum(base)) == d)
  }

  /** `_validate_express`, with its multiplier updates as written: the three
      consecutive `if`s take `mult` from 1 to 3 to 7 and back to 1 within one
      turn, so every digit weighs 1. */
  method ValidateExpress(tn: string) returns (r: Result<bool>)
    ensures r == Express(tn)
  {
    var basenum := Slice(tn, 0, 10);
    if !IsDigits(basenum) {
      return Ok(false);
    }
    var mult := 1;
    var total := 0;
    var i := |basenum|;
    while i > 0
      invariant 0 <= i <= |basenum|
      invariant mult == 1
      invariant total == DigitSum(basenum[i..])
    {
      i := i - 1;
      assert basenum[i..][1..] == basenum[i + 1..];
      total := total + DigitValue(basenum[i]) * mult;
      if mult == 1 { mult := 3; }
      if mult == 3 { mult := 7; }
      if mult == 7 { mult := 1; }
    }
    assert basenum[0..] == basenum;
    var check := total % 11;
    if check == 10 {
      check := 0;
    }
    var last := IntOf(LastChar(tn));
    if last.Err? {
      return Err(last.error);
    }
    return Ok(check == last.value);
  }

  lemma {:induction false} DigitSumConcat(a: string, b: string)
    requires forall i :: 0 <= i < |a| ==> IsDigit(a[i])
    requires forall i :: 0 <= i < |b| ==> IsDigit(b[i])
    ensures DigitSum(a + b) == DigitSum(a) + DigitSum(b)
    decreases |a|
  {
    if |a| > 0 {
      var ab := a + b;
      assert ab[0] == a[0] && ab[1..] == a[1..] + b;
      DigitSumConcat(a[1..], b);
      assert DigitSum(ab) == DigitValue(ab[0]) + DigitSum(ab[1..]);
    } else {
      assert a + b == b;
    }
  }

  /** Because every weight is 1, swapping two adjacent digits of the base
      number never changes the Express verdict. */
  lemma ExpressMissesTransposition(a: string, x: char, y: char, b: string, rest: string)
    requires |rest| > 0
    requires IsDigit(x) && IsDigit(y) && IsDigits(a + [x, y] + b) && |a + [x, y] + b| == 10
    ensures Express(a + [x, y] + b + rest) == Express(a + [y, x] + b + rest)
  {
    var s1, s2 := a + [x, y] + b, a + [y, x] + b;
    SwapKeepsDigitSum(a, x, y, b);
    BaseOfLongNumber(s1, rest);
    BaseOfLongNumber(s2, rest);
  }

  /** Swapping two adjacent digits keeps a string of digits and its digit sum. */
  lemma SwapKeepsDigitSum(a: string, x: char, y: char, b: string)
    requires IsDigit(x) && IsDigit(y) && IsDigits(a + [x, y] + b)
    ensures IsDigits(a + [y, x] + b)
    ensures DigitSum(a + [x, y] + b) == DigitSum(a + [y, x] + b)
  {
    SwapKeepsDigits(a, x, y, b);
    DigitSumConcat(a, [x, y]);
    DigitSumConcat(a + [x, y], b);
    DigitSumConcat(a, [y, x]);
    DigitSumConcat(a + [y, x], b);
    PairSum(x, y);
    PairSum(y, x);
  }

  lemma SwapKeepsDigits(a: string, x: char, y: char, b: string)
    requires IsDigit(x) && IsDigit(y) && IsDigits(a + [x, y] + b)
    ensures IsDigits(a + [y, x] + b)
    ensures forall i :: 0 <= i < |a| ==> IsDigit(a[i])
    ensures forall i :: 0 <= i < |b| ==> IsDigit(b[i])
  {
    var s1, s2 := a + [x, y] + b, a + [y, x] + b;
    assert forall i :: 0 <= i < |a| ==> a[i] == s1[i];
    assert forall i :: 0 <= i < |b| ==> b[i] == s1[|a| + 2 + i];
    forall i | 0 <= i < |s2| ensures IsDigit(s2[i]) {
      if i < |a| { assert s2[i] == s1[i]; }
      else if i == |a| { assert s2[i] == y; }
      else if i == |a| + 1 { assert s2[i] == x; }
      else { assert s2[i] == s1[i]; }
    }
  }

  lemma PairSum(x: char, y: char)
    requires IsDigit(x) && IsDigit(y)
    ensures DigitSum([x, y]) == DigitValue(x) + DigitValue(y)
  {
    assert [x, y][0] == x && [x, y][1..] == [y];
    assert [y][0] == y && [y][1..] == [];
    assert DigitSum([y]) == DigitValue(y) + DigitSum([]);
    assert DigitSum([x, y]) == DigitValue(x) + DigitSum([y]);
  }

  /** The first ten characters of a longer number, and its last character. */
  lemma BaseOfLongNumber(s: string, rest: string)
    requires |s| == 10 && |rest| > 0
    ensures Slice(s + rest, 0, 10) == s && LastChar(s + rest) == LastChar(rest)
  {
    assert (s + rest)[..10] == s;
    assert (s + rest)[|s + rest| - 1] == rest[|rest| - 1];
  }

  /** For 12 characters, the character at index 10 is never read: the check is
      compared with the final character instead. */
  lemma ExpressIgnoresCharacterTen(tn: string, c: char)
    requires |tn| == 12
    ensures Express(tn[10 := c]) == Express(tn)
  {
    assert Slice(tn[10 := c], 0, 10) == Slice(tn, 0, 10);
    assert LastChar(tn[10 := c]) == LastChar(tn);
  }

  /** `identify(tracking_number)`: the dispatch on the length. For 12
      characters `_validate_express(tn) or True` evaluates the check, which
      may raise, and then answers True. */
  function Identify(tn: string): (r: Result<bool>)
  {
    if |tn| == 12 then (if Express(tn).Err? then Err(Express(tn).error) else Ok(true))
    else if |tn| == 15 then Ground96(tn)
    else if |tn| == 20 then (if StartsWith(tn, "96") then Ground96(tn) else Ok(false))
    else if |tn| == 22 then
      (if IsDigits(tn) then Ok(true) else if StartsWith(tn, "00") then Ssc18(tn) else Ok(false))
    else Ok(false)
  }

  /** `identify`, calling the validators. */
  method IdentifyNumber(tn: string) returns (r: Result<bool>)
    ensures r == Identify(tn)
  {
    if |tn| == 12 {
      var express := ValidateExpress(tn);
      r := if express.Err? then Err(express.error) else Ok(true);
    } else if |tn| == 15 {
      r := ValidateGround96(tn);
    } else if |tn| == 20 {
      if StartsWith(tn, "96") {
        r := ValidateGround96(tn);
      } else {
        r := Ok(false);
      }
    } else if |tn| == 22 {
      if IsDigits(tn) {
        r := Ok(true);
      } else if StartsWith(tn, "00") {
        r := ValidateSsc18(tn);
      } else {
        r := Ok(false);
      }
    } else {
      r := Ok(false);
    }
  }

  /** Every length other than 12, 15, 20 and 22 is rejected. */
  lemma OtherLengthsRejected(tn: string)
    requires |tn| !in {12, 15, 20, 22}
    ensures Identify(tn) == Ok(false)
  {
  }

  /** Twelve characters are never rejected: they are accepted, or the check
      raises, which happens exactly when characters 0..9 are digits and the
      last one is not. */
  lemma TwelveNeverRejected(tn: string)
    requires |tn| == 12
    ensures Identify(tn) != Ok(false)
    ensures Identify(tn).Err? <==> IsDigits(tn[..10]) && !IsDigit(tn[11])
  {
    assert Slice(tn, 0, 10) == tn[..10];
    assert LastChar(tn) == [tn[11]];
  }

  /** All-digit numbers of the accepted lengths never make `identify` raise,
      and every all-digit 22-character number is claimed by FedEx. */
  lemma DigitsNeverRaise(tn: string)
    requires IsDigits(tn)
    ensures Identify(tn).Ok?
    ensures |tn| == 22 ==> Identify(tn) == Ok(true)
  {
    if |tn| == 15 || |tn| == 20 {
      ReversedMod10OnDigits(tn, 14);
    } else if |tn| == 12 {
      assert IsDigits(Slice(tn, 0, 10)) by {
        assert Slice(tn, 0, 10) == tn[..10];
        assert forall i :: 0 <= i < 10 ==> tn[..10][i] == tn[i];
      }
      assert IsDigit(LastChar(tn)[0]);
    }
  }

  /** A 20-character number is accepted exactly when it starts with "96" and
      passes the ground check. */
  lemma TwentyNeedsGroundCheck(tn: string)
    requires |tn| == 20
    ensures Identify(tn) == Ok(true) <==> StartsWith(tn, "96") && Ground96(tn) == Ok(true)
  {
  }

  /** The 15-character docstring example is identified as FedEx. */
  lemma IdentifyGroundExample()
    ensures Identify("019343586678996") == Ok(true)
  {
    Ground96Example();
  }

  /** `is_delivered`: case-insensitive equality of the status with "delivered". */
  function IsDeliveredFedex(given: Option<string>, tracked: Result<string>): (r: Result<bool>)
    ensures given.Some? ==> (r == Ok(true) <==> Lower(given.value) == "delivered")
  {
    IsDelivered(StatusIsDelivered, given, tracked)
  }

  /** The end of `_parse_response`: `is_delivered(None, trackinfo)` on the
      record's own status, then the delivered rule. */
  method FinishResponse(info: TrackingInfo, status: string, lastUpdate: int)
    modifies info`extra, info`deliveryDate
    ensures info.extra == old(info.extra)["is_delivered" := Flag(StatusIsDelivered(status))]
    ensures info.deliveryDate == if StatusIsDelivered(status) then Some(lastUpdate) else old(info.deliveryDate)
    ensures DeliveryConsistent(info.extra, info.deliveryDate, lastUpdate)
  {
    var delivered := IsDeliveredFedex(Some(status), Err(Error(KeyError, "status")));
    RecordDelivery(info, delivered.value, lastUpdate);
  }
}
