/**
 * The username link shown next to uploads and creators: where it points, what
 * it says, whether it is a link at all, and which profile row its hover card
 * looks up.
 */
module ClickableUsername {
  import opened Basics
  import opened Text
  import opened Uri
  import opened App
  import opened ProfileData

  /** `getProfileLink`: by username when it is valid, else by user id, else `#`. */
  function ProfileLink(username: Option<string>, userId: Option<string>): string {
    if ValidUsername(username) then "/profile?username=" + EncodeURIComponent(username.value)
    else if Truthy(userId) then "/profile?userId=" + EncodeURIComponent(userId.value)
    else "#"
  }

  /** The hover card's query: enabled when a username or a user id is truthy, then the same
      username-first choice as the profile page. */
  function HoverLookup(username: Option<string>, userId: Option<string>): Lookup {
    if !(Truthy(username) || Truthy(userId)) then NoLookup
    else if ValidUsername(username) then ByUsername(username.value)
    else if Truthy(userId) then ById(userId.value)
    else NoLookup
  }

  /** The hover card asks for the same row the profile page would for the same link
      parameters, and it asks for one exactly when the link goes somewhere. */
  lemma HoverLookupMatchesProfile(username: Option<string>, userId: Option<string>)
    ensures HoverLookup(username, userId) == PublicLookup(username, userId)
    ensures HoverLookup(username, userId) == NoLookup <==> ProfileLink(username, userId) == "#"
  {
  }

  /** The link's query for each case, in the template's `name=value` form. */
  lemma LinkShape(username: Option<string>, userId: Option<string>)
    ensures ValidUsername(username) ==>
      ProfileLink(username, userId) == "/profile" + "?" + TemplateQuery([("username", username.value)])
    ensures !ValidUsername(username) && Truthy(userId) ==>
      ProfileLink(username, userId) == "/profile" + "?" + TemplateQuery([("userId", userId.value)])
    ensures !ValidUsername(username) && !Truthy(userId) ==> ProfileLink(username, userId) == "#"
  {
    if ValidUsername(username) {
      TemplateQueryOfOne(("username", username.value));
      ProfileLinkText("/profile?username=", "username", EncodeURIComponent(username.value));
    } else if Truthy(userId) {
      TemplateQueryOfOne(("userId", userId.value));
      ProfileLinkText("/profile?userId=", "userId", EncodeURIComponent(userId.value));
    }
  }

  /** `/profile?<name>=` followed by a value is the profile path, '?' and the piece. */
  lemma ProfileLinkText(prefix: string, name: string, e: string)
    requires prefix == "/profile" + "?" + name + "="
    ensures prefix + e == "/profile" + "?" + (name + "=" + e)
  {
    Reassociate("/profile" + "?", name + "=", e);
    Reassociate("/profile" + "?", name, "=");
  }

  /** A `/profile?...` link reaches the router as path `/profile` and its query. */
  lemma ProfileLocation(q: Params)
    ensures Location("/profile" + "?" + TemplateQuery(q)) == ("/profile", "?" + TemplateQuery(q))
  {
    var search := "?" + TemplateQuery(q);
    Reassociate("/profile", "?", TemplateQuery(q));
    var link := "/profile" + search;
    assert link[..8] == "/profile";
    assert link[8] == '?';
    IndexOfAt(link, '?', 8);
    assert link[8..] == search;
  }

  /** Following a username link opens that user's public profile, with or without a
      session. */
  lemma UsernameLinkDestination(username: Option<string>, userId: Option<string>, loggedIn: bool)
    requires ValidUsername(username)
    ensures var loc := Location(ProfileLink(username, userId));
      loc.0 == "/profile" && IsPublicProfileView(loc.0, loc.1)
      && Get(ParseQuery(loc.1), "username") == Some(username.value)
      && ScreenAt(loc.0, loc.1, false, loggedIn) == Show(Profile)
  {
    var q := [("username", username.value)];
    LinkShape(username, userId);
    ProfileLocation(q);
    LinkQueryReadsBack("username", username.value);
    ProfileScreen("?" + TemplateQuery(q), loggedIn);
  }

  /** Following a user-id link opens the profile page only for a signed-in viewer; a
      visitor meets the sign-in screen. */
  lemma UserIdLinkDestination(username: Option<string>, userId: Option<string>, loggedIn: bool)
    requires !ValidUsername(username) && Truthy(userId)
    ensures var loc := Location(ProfileLink(username, userId));
      loc.0 == "/profile" && !IsPublicProfileView(loc.0, loc.1)
      && Get(ParseQuery(loc.1), "userId") == Some(userId.value)
      && ScreenAt(loc.0, loc.1, false, loggedIn) == (if loggedIn then Show(Profile) else SignIn)
  {
    var q := [("userId", userId.value)];
    LinkShape(username, userId);
    ProfileLocation(q);
    UserIdLinkIsGated(userId.value);
    LinkQueryReadsBack("userId", userId.value);
    ProfileScreen("?" + TemplateQuery(q), loggedIn);
  }

  /** The one parameter of a profile link reads back with its value. */
  lemma LinkQueryReadsBack(name: string, value: string)
    requires name == "username" || name == "userId"
    ensures Get(ParseQuery("?" + TemplateQuery([(name, value)])), name) == Some(value)
  {
    assert PlainName("username") by { assert forall i :: 0 <= i < 8 ==> IsUriUnreserved("username"[i]); }
    assert PlainName("userId") by { assert forall i :: 0 <= i < 6 ==> IsUriUnreserved("userId"[i]); }
    TemplateQueryRoundTrip([(name, value)]);
  }

  /** `shouldShowHover`: a fetched profile, a valid username or a user id. */
  predicate ShouldShowHover(hoverProfile: Option<UserRow>, username: Option<string>, userId: Option<string>) {
    hoverProfile.Some? || ValidUsername(username) || Truthy(userId)
  }

  /** What the component renders: a plain grey name, or a link with its text and the level
      shown on the hover card (if any). */
  datatype View = Plain(text: string) | ProfileAnchor(to: string, text: string, level: Option<int>)

  function ViewOf(hoverProfile: Option<UserRow>, username: Option<string>, displayName: Option<string>, userId: Option<string>): View {
    if !ShouldShowHover(hoverProfile, username, userId) then Plain(OrElse(displayName, "Anonymous"))
    else
      var text := if Truthy(displayName) then displayName.value else OrElse(username, "View Profile");
      var level := if hoverProfile.Some? && hoverProfile.value.badgeLevel.Some? && hoverProfile.value.badgeLevel.value > 0
                   then hoverProfile.value.badgeLevel else None;
      ProfileAnchor(ProfileLink(username, userId), text, level)
  }

  /** A hover profile exists only when something was looked up. Then the name is plain
      text exactly when the link would go nowhere; plain text is the display name or
      "Anonymous"; link text is the display name, else the username (even the text
      "null"), else "View Profile"; the level shows only when it is positive. */
  lemma ViewRules(hoverProfile: Option<UserRow>, username: Option<string>, displayName: Option<string>, userId: Option<string>)
    requires HoverLookup(username, userId) == NoLookup ==> hoverProfile.None?
    ensures ViewOf(hoverProfile, username, displayName, userId).Plain? <==> ProfileLink(username, userId) == "#"
    ensures ViewOf(hoverProfile, username, displayName, userId).Plain? ==>
      ViewOf(hoverProfile, username, displayName, userId).text == (if Truthy(displayName) then displayName.value else "Anonymous")
    ensures var v := ViewOf(hoverProfile, username, displayName, userId);
      v.ProfileAnchor? ==>
        v.to == ProfileLink(username, userId)
        && v.text == (if Truthy(displayName) then displayName.value else if Truthy(username) then username.value else "View Profile")
        && (v.level.Some? <==> hoverProfile.Some? && hoverProfile.value.badgeLevel.Some? && hoverProfile.value.badgeLevel.value > 0)
        && (v.level.Some? ==> v.level == hoverProfile.value.badgeLevel)
  {
  }
}
