/**
 * The UPI donation unlock card: who may publish a payment link (ten uploads
 * and a hundred votes, or any administrator), the progress bars and shortfall
 * messages towards that, and the guard in front of saving the link.
 *
 * Progress is a percentage, taken here over exact reals.
 */
module UpiUnlock {
  import opened Basics
  import opened Text

  const RequiredUploads: int := 10
  const RequiredVotes: int := 100

  predicate EligibleByContribution(totalUploads: int, totalVotes: int) {
    totalUploads >= RequiredUploads && totalVotes >= RequiredVotes
  }

  predicate Eligible(totalUploads: int, totalVotes: int, isAdmin: bool) {
    EligibleByContribution(totalUploads, totalVotes) || isAdmin
  }

  /** `Math.min((current / required) * 100, 100)` */
  function Progress(current: int, required: int): real
    requires required > 0
  {
    var p := (current as real / required as real) * 100.0;
    if p < 100.0 then p else 100.0
  }

  /** The line shown once a requirement is met. The page's text holds the UTF-8 bytes of a
      check mark read back as Windows-1252, so it shows these three characters before the
      words. */
  const RequirementMet := "\U{E2}\U{153}\U{2026} Requirement met!"

  /** The line under a bar: met, or how many more are needed. */
  function RequirementText(current: int, required: int, noun: string): string {
    if current >= required then RequirementMet
    else IntToString(required - current) + " more " + noun + " needed"
  }

  function IntToString(n: int): string {
    if n < 0 then "-" + NatToString(-n) else NatToString(n)
  }

  /** The bars are hidden only for an administrator who is not eligible by contribution. */
  predicate ShowsProgress(totalUploads: int, totalVotes: int, isAdmin: bool) {
    !isAdmin || EligibleByContribution(totalUploads, totalVotes)
  }

  /** The link input and its save button. */
  predicate ShowsLinkInput(totalUploads: int, totalVotes: int, isAdmin: bool) {
    Eligible(totalUploads, totalVotes, isAdmin)
  }

  /** Eligibility needs both thresholds, unless the viewer is an administrator. */
  lemma EligibilityRule(totalUploads: int, totalVotes: int, isAdmin: bool)
    ensures isAdmin ==> Eligible(totalUploads, totalVotes, isAdmin)
    ensures !isAdmin ==> (Eligible(totalUploads, totalVotes, isAdmin) <==> totalUploads >= 10 && totalVotes >= 100)
    ensures ShowsLinkInput(totalUploads, totalVotes, isAdmin) <==> Eligible(totalUploads, totalVotes, isAdmin)
    ensures !ShowsProgress(totalUploads, totalVotes, isAdmin) <==> isAdmin && !(totalUploads >= 10 && totalVotes >= 100)
  {
  }

  /** A bar never passes 100, is never negative for a non-negative count, and is full
      exactly when the requirement is met. */
  lemma ProgressBounds(current: int, required: int)
    requires required > 0
    ensures Progress(current, required) <= 100.0
    ensures current >= 0 ==> Progress(current, required) >= 0.0
    ensures Progress(current, required) == 100.0 <==> current >= required
  {
    var p := (current as real / required as real) * 100.0;
    if current >= required {
      assert current as real / required as real >= 1.0;
    } else {
      assert current as real / required as real < 1.0;
    }
  }

  /** An unmet requirement shows a positive shortfall, required minus current. */
  lemma ShortfallPositive(current: int, required: int, noun: string)
    requires current < required
    ensures RequirementText(current, required, noun) == NatToString(required - current) + " more " + noun + " needed"
    ensures required - current > 0
  {
  }

  /** The met line shows exactly when the requirement is met: a shortfall caption starts
      with a digit, the met line does not. */
  lemma MetTextIffMet(current: int, required: int, noun: string)
    ensures RequirementText(current, required, noun) == RequirementMet <==> current >= required
  {
    if current < required {
      var t := RequirementText(current, required, noun);
      assert t[0] == NatToString(required - current)[0];
      assert RequirementMet[0] == '\U{E2}';
    }
  }

  /** The save request: the link exactly as typed and the public flag. */
  datatype UpiUpdate = UpiUpdate(upiLink: string, isUpiPublic: bool)

  /** `handleSaveUpi`: nothing is sent for a link that is blank after trimming. */
  function SaveUpi(upiLink: string, isPublic: bool): (r: Option<UpiUpdate>)
    ensures r.None? <==> IsBlank(upiLink)
    ensures r.Some? ==> r.value.upiLink == upiLink && r.value.isUpiPublic == isPublic
  {
    TrimEmptyIffBlank(upiLink);
    if Trim(upiLink) == "" then None else Some(UpiUpdate(upiLink, isPublic))
  }

  /** The card's initial input values: the stored link or "", and the stored flag or
      false. */
  function InitialInputs(currentUpiLink: Option<string>, currentIsUpiPublic: Option<bool>): (string, bool) {
    (OrElse(currentUpiLink, ""), currentIsUpiPublic == Some(true))
  }

  /** Saving the stored link unchanged sends it back as it was. */
  lemma SaveStoredLink(currentUpiLink: Option<string>, currentIsUpiPublic: Option<bool>)
    requires currentUpiLink.Some? && !IsBlank(currentUpiLink.value)
    ensures var (link, pub) := InitialInputs(currentUpiLink, currentIsUpiPublic);
      SaveUpi(link, pub) == Some(UpiUpdate(currentUpiLink.value, currentIsUpiPublic == Some(true)))
  {
  }
}
