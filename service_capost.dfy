/** The Canada Post adapter of the older packagetrack/service/capost_interface.py:
    identification of sixteen-digit numbers, `validate` as the same function,
    `url`, and a `track` that does nothing. */
module ServiceCanadaPost {
  import opened Errors
  import opened Text
  import CanadaPost

  /** `identify(tn)`: sixteen characters, all digits. */
  predicate Identify(tn: string)
  {
    |tn| == 16 && IsDigits(tn)
  }

  /** `validate = identify`: the very same function under a second name. */
  const Validate: string -> bool := Identify

  /** Validation and identification never disagree. */
  lemma ValidateIsIdentify(tn: string)
    ensures Validate(tn) == Identify(tn)
  {
  }

  /** The newer adapter identifies every number this one does, and also the
      11- and 13-character international forms this one rejects. */
  lemma NarrowerThanNewer(tn: string)
    ensures Identify(tn) ==> CanadaPost.Identify(tn)
    ensures |tn| != 16 ==> !Identify(tn)
  {
  }

  /** An international number the newer adapter identifies but this one does
      not. */
  lemma InternationalRejected()
    ensures CanadaPost.Identify("RR123456789CA") && !Identify("RR123456789CA")
  {
    CanadaPost.InternationalExample();
  }

  /** `_url_template`, whose field is named `tracking_number`. */
  const UrlTemplate: seq<TemplatePart> :=
    [Lit("http://www.canadapost.ca/cpotools/apps/track/personal/findByTrackNumber?trackingNumber="),
     Field("tracking_number"), Lit("&LOCALE=en")]

  /** `url(tracking_number)` */
  function Url(tn: string): Result<string>
  {
    Format(UrlTemplate, "tracking_number", tn)
  }

  /** The number is substituted between the two literal parts. */
  lemma UrlSubstitutes(tn: string)
    ensures Url(tn) == Ok("http://www.canadapost.ca/cpotools/apps/track/personal/findByTrackNumber?trackingNumber="
                          + tn + "&LOCALE=en")
  {
    FormatOneField("http://www.canadapost.ca/cpotools/apps/track/personal/findByTrackNumber?trackingNumber=",
                   "tracking_number", "&LOCALE=en", tn);
  }

  /** `track(tracking_number)`: the body is `pass`, so the answer is always
      `None`, whatever the number. */
  function Track(tn: string): (r: Option<string>)
    ensures r.None?
  {
    None
  }
}
