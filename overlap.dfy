/** How the 22-character identification rules of FedEx and USPS meet, in the
    newer packagetrack/carriers revision and in the older
    packagetrack/service revision. */
module Overlap {
  import opened Errors
  import opened Text
  import Fedex
  import Usps
  import ServiceFedex
  import ServiceUsps

  /** In the newer revision every all-digit 22-character number is claimed
      by both FedEx and USPS, which is why a smart-post probe decides
      between them. */
  lemma TwentyTwoDigitsClaimedTwice(tn: string)
    requires |tn| == 22 && IsDigits(tn)
    ensures Fedex.Identify(tn) == Ok(true)
    ensures Usps.Identify(tn)
  {
    Fedex.DigitsNeverRaise(tn);
  }

  /** In the older revision no 22-character number is claimed by both:
      '91' and '00' belong to FedEx only, and any other '9' prefix but '96'
      to USPS only. */
  lemma TwentyTwoClaimedOnce(tn: string)
    requires |tn| == 22
    ensures !(ServiceUsps.Identify(tn) && ServiceFedex.Identify(tn) == Ok(true))
    ensures StartsWith(tn, "91") || StartsWith(tn, "00") ==> !ServiceUsps.Identify(tn)
  {
    ServiceFedex.TwentyTwoRule(tn);
    if StartsWith(tn, "00") {
      assert tn[..2][0] == tn[0] && tn[..1][0] == tn[0];
    }
  }

  /** A 22-character number starting with '96' is claimed by neither. */
  lemma NinetySixUnclaimed(tn: string)
    requires |tn| == 22 && StartsWith(tn, "96")
    ensures !ServiceUsps.Identify(tn)
    ensures ServiceFedex.Identify(tn) == Ok(false)
  {
    ServiceFedex.TwentyTwoRule(tn);
    assert tn[..2] == "96";
    assert tn[..2] != "91" && tn[..2] != "00" by { assert tn[..2][1] == '6'; }
  }
}
