/** The FedEx adapter of the older packagetrack/service/fedex_interface.py:
    its identification rules and its Express check, which unlike the newer
    one has no digit guard, and its `url`. The ground and SSC-18 validators
    are the same text as in the newer adapter and are shared with it. */
module ServiceFedex {
  import opened Errors
  import opened Text
  import Fedex

  /** `_validate_express` without the digit guard: the loop runs over the
      first ten characters from the end, so any non-digit among them makes
      `int(digit)` raise ValueError; otherwise the digit-sum check is
      compared with the last character, which may raise too. */
  function ExpressUnguarded(tn: string): (r: Result<bool>)
    ensures r.Err? ==> r.error.cls == ValueError
  {
    var base := Slice(tn, 0, 10);
    if exists i :: 0 <= i < |base| && !IsDigit(base[i]) then
      Err(Error(ValueError, "invalid literal for int() with base 10"))
    else match IntOf(LastChar(tn))
      case Err(e) => Err(e)
      case Ok(d) => Ok(Fedex.ExpressCheck(Fedex.DigitSum(base)) == d)
  }

  /** The loop of `_validate_express`, multiplier updates as written. */
  method ValidateExpress(tn: string) returns (r: Result<bool>)
    ensures r == ExpressUnguarded(tn)
  {
    var basenum := Slice(tn, 0, 10);
    var mult := 1;
    var total := 0;
    var i := |basenum|;
    while i > 0
      invariant 0 <= i <= |basenum|
      invariant mult == 1
      invariant forall k :: i <= k < |basenum| ==> IsDigit(basenum[k])
      invariant total == Fedex.DigitSum(basenum[i..])
    {
      i := i - 1;
      if !IsDigit(basenum[i]) {
        return Err(Error(ValueError, "invalid literal for int() with base 10"));
      }
      assert basenum[i..][1..] == basenum[i + 1..];
      total := total + DigitValue(basenum[i]) * mult;
      if mult == 1 { mult := 3; }
      if mult == 3 { mult := 7; }
      if mult == 7 { mult := 1; }
    }
    assert basenum[0..] == basenum;
    var check := total % 11;
    if check == 10 {
      check := 0;
    }
    var last := IntOf(LastChar(tn));
    if last.Err? {
      return Err(last.error);
    }
    return Ok(check == last.value);
  }

  /** Where the newer check answers False for a non-digit in the base number,
      this one raises; on a digit base the two agree. */
  lemma ExpressAgainstGuarded(tn: string)
    ensures IsDigits(Slice(tn, 0, 10)) ==> ExpressUnguarded(tn) == Fedex.Express(tn)
    ensures |tn| > 0 && !IsDigits(Slice(tn, 0, 10)) ==>
              ExpressUnguarded(tn).Err? && Fedex.Express(tn) == Ok(false)
  {
  }

  /** `identify(tracking_number)`: 12 characters are exactly the Express
      check; 15 the ground check; 20 "96" and the ground check; 22 "91" with
      nothing else checked, or "00" and the SSC-18 check. */
  function Identify(tn: string): Result<bool>
  {
    if |tn| == 12 then ExpressUnguarded(tn)
    else if |tn| == 15 then Fedex.Ground96(tn)
    else if |tn| == 20 then (if StartsWith(tn, "96") then Fedex.Ground96(tn) else Ok(false))
    else if |tn| == 22 then
      (if StartsWith(tn, "91") then Ok(true) else if StartsWith(tn, "00") then Fedex.Ssc18(tn) else Ok(false))
    else Ok(false)
  }

  /** `identify`, calling the validators. */
  method IdentifyNumber(tn: string) returns (r: Result<bool>)
    ensures r == Identify(tn)
  {
    if |tn| == 12 {
      r := ValidateExpress(tn);
    } else if |tn| == 15 {
      r := Fedex.ValidateGround96(tn);
    } else if |tn| == 20 && StartsWith(tn, "96") {
      r := Fedex.ValidateGround96(tn);
    } else if |tn| == 22 && StartsWith(tn, "91") {
      r := Ok(true);
    } else if |tn| == 22 && StartsWith(tn, "00") {
      r := Fedex.ValidateSsc18(tn);
    } else {
      r := Ok(false);
    }
  }

  /** Every length other than 12, 15, 20 and 22 is rejected. */
  lemma OtherLengthsRejected(tn: string)
    requires |tn| !in {12, 15, 20, 22}
    ensures Identify(tn) == Ok(false)
  {
  }

  /** A 22-character number starting with "91" is accepted whatever follows;
      one starting with "00" must pass the SSC-18 check; any other is
      rejected. */
  lemma TwentyTwoRule(tn: string)
    requires |tn| == 22
    ensures StartsWith(tn, "91") ==> Identify(tn) == Ok(true)
    ensures StartsWith(tn, "00") ==> Identify(tn) == Fedex.Ssc18(tn)
    ensures !StartsWith(tn, "91") && !StartsWith(tn, "00") ==> Identify(tn) == Ok(false)
  {
    if StartsWith(tn, "00") {
      assert tn[..2] == "00";
      assert tn[..2] != "91" by { assert tn[..2][0] == '0'; }
    }
  }

  /** The twelve-digit number 000000000001, whose check digit is wrong, is
      rejected here but accepted by the newer adapter, whose 12-character rule
      is or-ed with True. */
  lemma TwelveDigitsCanBeRejected()
    ensures Identify("000000000001") == Ok(false)
    ensures Fedex.Identify("000000000001") == Ok(true)
  {
    var tn := "000000000001";
    var base := Slice(tn, 0, 10);
    assert base == "0000000000";
    assert IsDigits(base);
    ZerosSumToZero(base);
    assert LastChar(tn) == "1";
  }

  /** A run of zeros has digit sum zero. */
  lemma {:induction false} ZerosSumToZero(s: string)
    requires forall i :: 0 <= i < |s| ==> s[i] == '0'
    ensures Fedex.DigitSum(s) == 0
  {
    if |s| > 0 {
      ZerosSumToZero(s[1..]);
    }
  }

  /** The 15-character docstring example is identified here too. */
  lemma IdentifyGroundExample()
    ensures Identify("019343586678996") == Ok(true)
  {
    Fedex.Ground96Example();
  }

  /** `_url_template`, whose field is named `tn`. */
  const UrlTemplate: seq<TemplatePart> :=
    [Lit("http://www.fedex.com/Tracking?tracknumbers="), Field("tn"), Lit("")]

  /** `url(tracking_number)`: `_url_template.format(tn=tracking_number)`. */
  function Url(tn: string): Result<string>
  {
    Format(UrlTemplate, "tn", tn)
  }

  /** The number is substituted into the template. */
  lemma UrlSubstitutes(tn: string)
    ensures Url(tn) == Ok("http://www.fedex.com/Tracking?tracknumbers=" + tn)
  {
    FormatOneField("http://www.fedex.com/Tracking?tracknumbers=", "tn", "", tn);
    assert "http://www.fedex.com/Tracking?tracknumbers=" + tn + "" == "http://www.fedex.com/Tracking?tracknumbers=" + tn;
  }
}
