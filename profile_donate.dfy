/**
 * The donate button on another user's profile. The stored UPI link may be a
 * bare UPI id or a full `upi://` deep link; the payee id is taken from the
 * latter's `pa` parameter, and a fresh deep link is built from it with the
 * user's name and a fixed note. The browser is sent to that link.
 */
module ProfileDonate {
  import opened Basics
  import opened Text
  import opened Uri

  const UpiScheme := "upi://"
  const PayPrefix := "upi://pay"

  /** `new URLSearchParams(s.split('?')[1])`: the text between the first and second '?',
      or no parameters when there is no '?'. */
  function QueryAfterFirstMark(s: string): Params {
    var parts := Split(s, '?');
    if |parts| > 1 then ParseQuery(parts[1]) else []
  }

  /** The payee id: a `upi://` link's `pa` parameter (the whole link when it is missing or
      empty); any other text as it is. */
  function PayeeId(upiLink: string): string {
    if StartsWith(upiLink, UpiScheme) then OrElse(Get(QueryAfterFirstMark(upiLink), "pa"), upiLink)
    else upiLink
  }

  /** The deep link's parameters. */
  function PayParams(pa: string, pn: string, tn: string): Params {
    [("pa", pa), ("pn", pn), ("tn", tn)]
  }

  /** `upi://pay?pa=<enc>&pn=<enc>&tn=<enc>` */
  function UpiPayUrl(pa: string, pn: string, tn: string): string {
    PayPrefix + "?" + TemplateQuery(PayParams(pa, pn, tn))
  }

  function SupportNote(userName: string): string {
    "Support " + userName + " on Acadlyst"
  }

  /** `handleDonate`'s target. */
  function DonateUrl(upiLink: string, userName: string): string {
    UpiPayUrl(PayeeId(upiLink), userName, SupportNote(userName))
  }

  /** The names of the deep link's parameters are written literally. */
  lemma PayNamesArePlain(pa: string, pn: string, tn: string)
    ensures forall i :: 0 <= i < 3 ==> PlainName(PayParams(pa, pn, tn)[i].0)
  {
    assert PlainName("pa") by { assert forall i :: 0 <= i < 2 ==> IsUriUnreserved("pa"[i]); }
    assert PlainName("pn") by { assert forall i :: 0 <= i < 2 ==> IsUriUnreserved("pn"[i]); }
    assert PlainName("tn") by { assert forall i :: 0 <= i < 2 ==> IsUriUnreserved("tn"[i]); }
  }

  /** A URL template `<base>?<query>` whose base has no '?' splits at that '?', and its
      query reads back as the template's parameters. */
  lemma TemplateUrlReadsBack(base: string, ps: Params)
    requires '?' !in base
    requires forall i :: 0 <= i < |ps| ==> PlainName(ps[i].0)
    ensures Split(base + "?" + TemplateQuery(ps), '?') == [base, TemplateQuery(ps)]
    ensures QueryAfterFirstMark(base + "?" + TemplateQuery(ps)) == ps
  {
    TemplateQueryHasNoQuestionMark(ps);
    TemplateQueryRoundTrip(ps);
    assert base + "?" + TemplateQuery(ps) == Join([base, TemplateQuery(ps)], '?');
    SplitJoin([base, TemplateQuery(ps)], '?');
  }

  /** A deep link splits at its one '?' into `upi://pay` and the query, which reads back
      as exactly the three parameters, in order, with their values. */
  lemma UpiPayUrlReadsBack(pa: string, pn: string, tn: string)
    ensures Split(UpiPayUrl(pa, pn, tn), '?') == [PayPrefix, TemplateQuery(PayParams(pa, pn, tn))]
    ensures QueryAfterFirstMark(UpiPayUrl(pa, pn, tn)) == PayParams(pa, pn, tn)
    ensures StartsWith(UpiPayUrl(pa, pn, tn), UpiScheme)
  {
    PayNamesArePlain(pa, pn, tn);
    TemplateUrlReadsBack(PayPrefix, PayParams(pa, pn, tn));
    assert UpiPayUrl(pa, pn, tn)[..6] == UpiScheme;
  }

  /** The payee read from a deep link is its `pa` value, when that is not empty. */
  lemma PayeeOfPayUrl(pa: string, pn: string, tn: string)
    requires pa != ""
    ensures PayeeId(UpiPayUrl(pa, pn, tn)) == pa
  {
    UpiPayUrlReadsBack(pa, pn, tn);
  }

  /** The deep link written out as the template writes it. */
  lemma UpiPayUrlText(pa: string, pn: string, tn: string)
    ensures UpiPayUrl(pa, pn, tn)
      == "upi://pay?pa=" + EncodeURIComponent(pa) + "&pn=" + EncodeURIComponent(pn) + "&tn=" + EncodeURIComponent(tn)
  {
    TemplateQueryOfThree(("pa", pa), ("pn", pn), ("tn", tn));
    PayPieces(pa, pn, tn);
    PayTemplateGlue(EncodeURIComponent(pa), EncodeURIComponent(pn), EncodeURIComponent(tn));
  }

  lemma PayPieces(pa: string, pn: string, tn: string)
    ensures TemplatePiece(("pa", pa)) == "pa=" + EncodeURIComponent(pa)
    ensures "&" + TemplatePiece(("pn", pn)) == "&pn=" + EncodeURIComponent(pn)
    ensures "&" + TemplatePiece(("tn", tn)) == "&tn=" + EncodeURIComponent(tn)
  {
    assert "pa" + "=" == "pa=";
    Reassociate("&", "pn" + "=", EncodeURIComponent(pn));
    assert "&" + ("pn" + "=") == "&pn=";
    Reassociate("&", "tn" + "=", EncodeURIComponent(tn));
    assert "&" + ("tn" + "=") == "&tn=";
  }

  lemma PayTemplateGlue(a: string, b: string, c: string)
    ensures PayPrefix + "?" + ("pa=" + a + ("&pn=" + b) + ("&tn=" + c)) == "upi://pay?pa=" + a + "&pn=" + b + "&tn=" + c
  {
    var p1, p2, p3 := "pa=" + a, "&pn=" + b, "&tn=" + c;
    calc {
      PayPrefix + "?" + (p1 + p2 + p3);
      "upi://pay?" + (p1 + p2 + p3);
      { Reassociate("upi://pay?", p1 + p2, p3); Reassociate("upi://pay?", p1, p2); }
      "upi://pay?" + p1 + p2 + p3;
      { Reassociate("upi://pay?", "pa=", a); }
      "upi://pay?pa=" + a + p2 + p3;
      { Reassociate("upi://pay?pa=" + a, "&pn=", b); Reassociate("upi://pay?pa=" + a + p2, "&tn=", c); }
      "upi://pay?pa=" + a + "&pn=" + b + "&tn=" + c;
    }
  }

  /** Every generated link starts with `upi://pay?pa=`, followed by the encoded payee id,
      name and note. */
  lemma DonateUrlText(upiLink: string, userName: string)
    ensures var url := DonateUrl(upiLink, userName);
      url == "upi://pay?pa=" + EncodeURIComponent(PayeeId(upiLink)) + "&pn=" + EncodeURIComponent(userName)
             + "&tn=" + EncodeURIComponent(SupportNote(userName))
      && StartsWith(url, "upi://pay?pa=")
  {
    var id := PayeeId(upiLink);
    var tn := SupportNote(userName);
    UpiPayUrlText(id, userName, tn);
    var head := "upi://pay?pa=";
    var s1 := head + EncodeURIComponent(id);
    var s3 := s1 + "&pn=" + EncodeURIComponent(userName);
    assert StartsWith(head, head) by { assert head[..|head|] == head; }
    StartsWithAppend(head, EncodeURIComponent(id), head);
    StartsWithAppend(s1, "&pn=", head);
    StartsWithAppend(s1 + "&pn=", EncodeURIComponent(userName), head);
    StartsWithAppend(s3, "&tn=", head);
    StartsWithAppend(s3 + "&tn=", EncodeURIComponent(tn), head);
  }

  /** The generated link carries exactly `pa` = the payee id, `pn` = the user's name and
      `tn` = the note. */
  lemma DonateUrlParams(upiLink: string, userName: string)
    ensures QueryAfterFirstMark(DonateUrl(upiLink, userName))
      == [("pa", PayeeId(upiLink)), ("pn", userName), ("tn", SupportNote(userName))]
  {
    UpiPayUrlReadsBack(PayeeId(upiLink), userName, SupportNote(userName));
  }

  /** A link that is not a `upi://` link is taken verbatim as the payee id. */
  lemma PlainIdVerbatim(upiLink: string)
    requires !StartsWith(upiLink, UpiScheme)
    ensures PayeeId(upiLink) == upiLink
  {
  }

  /** Reading the payee back out of a generated link gives the payee it was made from,
      when that payee is not empty: regenerating from a generated link changes nothing. */
  lemma PayeeRoundTrip(upiLink: string, userName: string)
    requires PayeeId(upiLink) != ""
    ensures PayeeId(DonateUrl(upiLink, userName)) == PayeeId(upiLink)
    ensures DonateUrl(DonateUrl(upiLink, userName), userName) == DonateUrl(upiLink, userName)
  {
    PayeeOfPayUrl(PayeeId(upiLink), userName, SupportNote(userName));
  }

  /** A `upi://` link whose `pa` is missing or empty names itself as the payee, so the
      payee id is never empty unless the stored link is. */
  lemma MissingPaIsWholeLink(upiLink: string)
    requires StartsWith(upiLink, UpiScheme) && !Truthy(Get(QueryAfterFirstMark(upiLink), "pa"))
    ensures PayeeId(upiLink) == upiLink && upiLink != ""
  {
  }

  /** The payee id is empty only for an empty stored link; the link generated from it has
      an empty `pa`, so it names the whole generated link as the next payee. */
  lemma EmptyPayeeFallsBack(upiLink: string, userName: string)
    requires PayeeId(upiLink) == ""
    ensures upiLink == ""
    ensures PayeeId(DonateUrl(upiLink, userName)) == DonateUrl(upiLink, userName)
  {
    UpiPayUrlReadsBack(PayeeId(upiLink), userName, SupportNote(userName));
  }
}
