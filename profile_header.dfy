/**
 * The card at the top of a profile page: avatar letter, name and username,
 * the edit button and dialog and the email for the viewer's own profile, the
 * donate button for someone else's public profile that shares its UPI link,
 * and badges for the course and university.
 */
module ProfileHeader {
  import opened Basics
  import opened Text
  import opened Uri
  import opened ProfileData
  import opened ProfileDonate

  /** `shouldShowDonateButton` */
  predicate ShowDonate(p: UserRow, isMyProfile: bool, isPublicView: bool) {
    isPublicView && !isMyProfile && Truthy(p.upiLink) && p.isUpiPublic
  }

  /** `profile.name?.charAt(0)?.toUpperCase() || 'U'` */
  function AvatarLetter(name: string): string {
    if name == [] then "U" else [UpperChar(name[0])]
  }

  /** One letter: "U" for an empty name, else the name's first character in upper case,
      so never a lower-case ASCII letter. */
  lemma AvatarLetterSpec(name: string)
    ensures |AvatarLetter(name)| == 1
    ensures name == [] ==> AvatarLetter(name) == "U"
    ensures name != [] ==> AvatarLetter(name)[0] == UpperChar(name[0])
    ensures !('a' <= AvatarLetter(name)[0] <= 'z')
    ensures name != [] && !('a' <= name[0] <= 'z') ==> AvatarLetter(name)[0] == name[0]
  {
  }

  datatype Badge = CourseBadge(course: string) | UniversityBadge(university: string)

  /** The rendered card. */
  datatype Header = Header(
    avatar: string, name: string, usernameLine: Option<string>, editButton: bool,
    donateUrl: Option<string>, email: Option<string>, badges: seq<Badge>, bio: Option<string>,
    editDialog: bool)

  function BadgesOf(p: UserRow): seq<Badge> {
    (if Truthy(p.course) then [CourseBadge(p.course.value)] else [])
    + (if Truthy(p.university) then [UniversityBadge(p.university.value)] else [])
  }

  /** `ProfileHeader`; the donate button's target is the link `ProfileDonateButton` opens. */
  function HeaderOf(p: UserRow, isMyProfile: bool, isPublicView: bool): Header {
    Header(
      AvatarLetter(p.name), p.name,
      if Truthy(p.username) then Some("@" + p.username.value) else None,
      isMyProfile,
      if ShowDonate(p, isMyProfile, isPublicView) then Some(DonateUrl(p.upiLink.value, p.name)) else None,
      if isMyProfile then Some(p.email) else None,
      BadgesOf(p), OrNull(p.bio), isMyProfile)
  }

  /** The email, the edit button and the edit dialog appear exactly on the viewer's own
      profile; the donate button exactly on someone else's public view of a profile with
      a non-empty UPI link marked public, so never on the viewer's own profile and never
      outside a public view. */
  lemma PrivacyRules(p: UserRow, isMyProfile: bool, isPublicView: bool)
    ensures var h := HeaderOf(p, isMyProfile, isPublicView);
      (h.email.Some? <==> isMyProfile) && (h.email.Some? ==> h.email.value == p.email)
      && (h.editButton <==> isMyProfile) && (h.editDialog <==> isMyProfile)
      && (h.donateUrl.Some? <==> isPublicView && !isMyProfile && Truthy(p.upiLink) && p.isUpiPublic)
      && (isMyProfile || !isPublicView || !p.isUpiPublic ==> h.donateUrl.None?)
  {
  }

  /** The profile hook's own-profile mode (no username and no user id in the location)
      never shows a donate button. */
  lemma OwnProfileModeHasNoDonate(p: UserRow, isMyProfile: bool, username: Option<string>, userId: Option<string>)
    requires !IsPublicView(username, userId)
    ensures HeaderOf(p, isMyProfile, IsPublicView(username, userId)).donateUrl.None?
  {
  }

  /** The donate button pays the profile's payee id, with the profile's name and the
      support note. */
  lemma DonateTarget(p: UserRow, isMyProfile: bool, isPublicView: bool)
    requires ShowDonate(p, isMyProfile, isPublicView)
    ensures var url := HeaderOf(p, isMyProfile, isPublicView).donateUrl.value;
      Get(QueryAfterFirstMark(url), "pa") == Some(PayeeId(p.upiLink.value))
      && Get(QueryAfterFirstMark(url), "pn") == Some(p.name)
  {
    DonateUrlParams(p.upiLink.value, p.name);
  }

  /** A badge appears for each of course and university that is non-empty, course first;
      the badge row shows exactly when one of them does. The username line shows exactly
      for a non-empty username. */
  lemma BadgesAndUsername(p: UserRow, isMyProfile: bool, isPublicView: bool)
    ensures var h := HeaderOf(p, isMyProfile, isPublicView);
      (|h.badges| > 0 <==> Truthy(p.course) || Truthy(p.university))
      && (CourseBadge(OrElse(p.course, "")) in h.badges <==> Truthy(p.course))
      && (UniversityBadge(OrElse(p.university, "")) in h.badges <==> Truthy(p.university))
      && (Truthy(p.course) ==> h.badges[0] == CourseBadge(p.course.value))
      && (h.usernameLine.Some? <==> Truthy(p.username))
  {
  }
}
