/** The DHL adapter of the older packagetrack/service/dhl_interface.py:
    identification of ten-digit numbers, a `url` over an empty template, and
    a `track` that does nothing. */
module ServiceDhl {
  import opened Errors
  import opened Text
  import Dhl

  /** `identify(tracking_number)`: ten characters, all digits. */
  predicate Identify(tn: string)
  {
    |tn| == 10 && IsDigits(tn)
  }

  /** The newer adapter also takes eleven digits; otherwise the two agree. */
  lemma AgainstNewer(tn: string)
    ensures |tn| != 11 ==> (Identify(tn) <==> Dhl.Identify(tn))
    ensures |tn| == 11 ==> !Identify(tn)
  {
  }

  /** An eleven-digit number the newer adapter identifies and this one does
      not. */
  lemma ElevenDigitsRejected()
    ensures Dhl.Identify("12345678901") && !Identify("12345678901")
  {
  }

  /** `_url_template = ''` */
  const UrlTemplate: seq<TemplatePart> := []

  /** `url(tracking_number)`: `_url_template.format(tn=tracking_number)`. */
  function Url(tn: string): Result<string>
  {
    Format(UrlTemplate, "tn", tn)
  }

  /** The address is empty for every number. */
  lemma UrlIsEmpty(tn: string)
    ensures Url(tn) == Ok("")
  {
  }

  /** `track(tracking_number)`: the body is `pass`, so the answer is always
      `None`. */
  function Track(tn: string): (r: Option<string>)
    ensures r.None?
  {
    None
  }
}
