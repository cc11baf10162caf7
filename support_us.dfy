/**
 * The "Support us" page: the donate button opens a UPI deep link to the
 * platform's own UPI id, and the share buttons open a Twitter or LinkedIn
 * share window, or copy the share message for Instagram.
 */
module SupportUs {
  import opened Basics
  import opened Text
  import opened Uri
  import opened ProfileDonate

  const PlatformUpiId := "9967431900@yapl"
  const PlatformPayee := "Acadlyst"
  const PlatformNote := "Support Acadlyst Platform"

  /** The optional amount; the page leaves it empty. */
  const Amount := ""

  const SiteUrl := "https://acadlystapp.vercel.app/"
  const ShareMessage := "I just supported Acadlyst! Join me in making a difference. https://acadlystapp.vercel.app/"

  const TwitterIntent := "https://twitter.com/intent/tweet"
  const LinkedInHost := "https://www.linkedin.com"
  const LinkedInShare := LinkedInHost + "/sharing/share-offsite/"

  /** `handleDonateClick`'s target for a given amount: `&am=<amount>` is appended (not
      encoded) only when the amount is non-empty. */
  function DonationUrl(amount: string): string {
    UpiPayUrl(PlatformUpiId, PlatformPayee, PlatformNote) + (if amount != "" then "&am=" + amount else "")
  }

  /** The page's link: the amount is empty, so no `am` parameter is ever added, and the
      link carries exactly the platform's payee id, name and note. */
  lemma SupportLink()
    ensures DonationUrl(Amount) == UpiPayUrl(PlatformUpiId, PlatformPayee, PlatformNote)
    ensures QueryAfterFirstMark(DonationUrl(Amount)) == [("pa", PlatformUpiId), ("pn", PlatformPayee), ("tn", PlatformNote)]
    ensures PayeeId(DonationUrl(Amount)) == PlatformUpiId
  {
    var url := UpiPayUrl(PlatformUpiId, PlatformPayee, PlatformNote);
    assert DonationUrl(Amount) == url + "";
    assert url + "" == url;
    UpiPayUrlReadsBack(PlatformUpiId, PlatformPayee, PlatformNote);
    PayeeOfPayUrl(PlatformUpiId, PlatformPayee, PlatformNote);
  }

  datatype Platform = Twitter | LinkedIn | Instagram

  /** What a share button does: open a window on a URL, or copy a text. */
  datatype ShareAction = OpenWindow(url: string) | CopyToClipboard(text: string)

  /** `handleShare`, for the page's message and site. */
  function ShareActionOf(p: Platform): ShareAction {
    ShareFor(p, ShareMessage, SiteUrl)
  }

  function ShareFor(p: Platform, message: string, site: string): ShareAction {
    var encodedMessage := EncodeURIComponent(message);
    match p
    case Twitter => OpenWindow(TwitterIntent + "?text=" + encodedMessage)
    case LinkedIn => OpenWindow(LinkedInShare + "?url=" + EncodeURIComponent(site) + "&summary=" + encodedMessage)
    case Instagram => CopyToClipboard(message)
  }

  lemma ShareBasesHaveNoMark()
    ensures '?' !in TwitterIntent && '?' !in LinkedInShare
  {
    assert forall i :: 0 <= i < |TwitterIntent| ==> TwitterIntent[i] != '?';
    LinkedInHostHasNoMark();
    LinkedInPathHasNoMark();
    NoMarkInConcat(LinkedInHost, "/sharing/share-offsite/");
  }

  lemma LinkedInHostHasNoMark()
    ensures forall i :: 0 <= i < |LinkedInHost| ==> LinkedInHost[i] != '?'
  {
  }

  lemma LinkedInPathHasNoMark()
    ensures var p := "/sharing/share-offsite/"; forall i :: 0 <= i < |p| ==> p[i] != '?'
  {
  }

  lemma NoMarkInConcat(a: string, b: string)
    requires forall i :: 0 <= i < |a| ==> a[i] != '?'
    requires forall i :: 0 <= i < |b| ==> b[i] != '?'
    ensures '?' !in a + b
  {
    forall i | 0 <= i < |a + b| ensures (a + b)[i] != '?' {
      if i >= |a| { assert (a + b)[i] == b[i - |a|]; }
    }
  }

  /** Twitter's intent carries the message as `text`. */
  lemma TwitterShare(message: string, site: string)
    ensures ShareFor(Twitter, message, site).OpenWindow?
    ensures var url := ShareFor(Twitter, message, site).url;
      Split(url, '?')[0] == TwitterIntent && QueryAfterFirstMark(url) == [("text", message)]
  {
    var ps := [("text", message)];
    assert PlainName("text") by { assert forall i :: 0 <= i < 4 ==> IsUriUnreserved("text"[i]); }
    ShareBasesHaveNoMark();
    assert TemplateQuery(ps) == "text" + "=" + EncodeURIComponent(message);
    assert ShareFor(Twitter, message, site).url == TwitterIntent + "?" + TemplateQuery(ps);
    TemplateUrlReadsBack(TwitterIntent, ps);
  }

  /** LinkedIn's share page carries the site as `url` and the message as `summary`. */
  lemma LinkedInShareParams(message: string, site: string)
    ensures ShareFor(LinkedIn, message, site).OpenWindow?
    ensures var url := ShareFor(LinkedIn, message, site).url;
      Split(url, '?')[0] == LinkedInShare && QueryAfterFirstMark(url) == [("url", site), ("summary", message)]
  {
    var ps := [("url", site), ("summary", message)];
    assert PlainName("url") by { assert forall i :: 0 <= i < 3 ==> IsUriUnreserved("url"[i]); }
    assert PlainName("summary") by { assert forall i :: 0 <= i < 7 ==> IsUriUnreserved("summary"[i]); }
    ShareBasesHaveNoMark();
    TemplateQueryOfTwo(("url", site), ("summary", message));
    LinkedInGlue(EncodeURIComponent(site), EncodeURIComponent(message));
    TemplateUrlReadsBack(LinkedInShare, ps);
  }

  /** The share-offsite URL as the page writes it is the template with `url` and
      `summary`. */
  lemma LinkedInGlue(a: string, b: string)
    ensures LinkedInShare + "?" + ("url" + "=" + a + "&" + ("summary" + "=" + b))
      == LinkedInShare + "?url=" + a + "&summary=" + b
  {
    var base := LinkedInShare + "?";
    var x, y := "url=" + a, "summary=" + b;
    assert "url" + "=" == "url=" && "summary" + "=" == "summary=";
    assert "?" + "url=" == "?url=" && "&" + "summary=" == "&summary=";
    var s := LinkedInShare + "?url=" + a;
    calc {
      base + (x + "&" + y);
      { Reassociate(base, x + "&", y); Reassociate(base, x, "&"); }
      base + x + "&" + y;
      { Reassociate(base, "url=", a); Reassociate(LinkedInShare, "?", "url="); }
      s + "&" + y;
      { Reassociate(s + "&", "summary=", b); Reassociate(s, "&", "summary="); }
      s + "&summary=" + b;
    }
  }

  /** Instagram opens no window; the message itself is copied. */
  lemma InstagramCopies()
    ensures ShareActionOf(Instagram) == CopyToClipboard(ShareMessage)
    ensures forall p: Platform :: ShareActionOf(p).CopyToClipboard? <==> p == Instagram
  {
  }
}
