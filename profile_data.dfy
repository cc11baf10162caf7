/**
 * The three profile queries: the profile row itself (a public lookup by
 * username or user id, or the viewer's own row), the profile's badges, newest
 * first, and the profile's uploads, newest first, hiding hidden uploads from
 * other people.
 */
module ProfileData {
  import opened Basics
  import opened Ordering
  import opened Listing
  import opened BadgeDisplay

  /** A row of `users` as the profile pages read it. */
  datatype UserRow = UserRow(
    id: string, name: string, username: Option<string>, email: string,
    course: Option<string>, university: Option<string>, bio: Option<string>,
    upiLink: Option<string>, isUpiPublic: bool, badgeLevel: Option<int>)

  /** A username worth looking up: truthy and not the text "null". */
  predicate ValidUsername(username: Option<string>) {
    Truthy(username) && username.value != "null"
  }

  /** `isPublicView = !!(username || userId)` */
  predicate IsPublicView(username: Option<string>, userId: Option<string>) {
    Truthy(username) || Truthy(userId)
  }

  /** Which row the query asks for. `maybeSingle` gives null for no row; the own-profile
      lookup uses `single`, for which no row is an error. */
  datatype Lookup = ByUsername(username: string) | ById(id: string) | OwnById(ownId: string) | NoLookup

  /** The public lookup: the username when it is valid, else the user id, else nothing. */
  function PublicLookup(username: Option<string>, userId: Option<string>): (r: Lookup)
    ensures r.ByUsername? <==> ValidUsername(username)
    ensures r.ByUsername? ==> r.username == username.value
    ensures r.ById? <==> !ValidUsername(username) && Truthy(userId)
    ensures r.ById? ==> r.id == userId.value
    ensures !r.OwnById?
  {
    if ValidUsername(username) then ByUsername(username.value)
    else if Truthy(userId) then ById(userId.value)
    else NoLookup
  }

  /** `useProfileData`'s query function (with its `enabled` flag): a public view looks up
      the named user, otherwise the viewer's own row when someone is signed in. */
  function ProfileLookup(username: Option<string>, loggedInUserId: Option<string>, userId: Option<string>): Lookup {
    if IsPublicView(username, userId) then PublicLookup(username, userId)
    else if Truthy(loggedInUserId) then OwnById(loggedInUserId.value)
    else NoLookup
  }

  /** The `enabled` option. */
  predicate ProfileEnabled(username: Option<string>, loggedInUserId: Option<string>, userId: Option<string>) {
    if IsPublicView(username, userId) then Truthy(username) || Truthy(userId) else Truthy(loggedInUserId)
  }

  /** Public views never look up the viewer's own row and own views never look anyone else
      up; a disabled query looks nothing up, and a public view whose username is the text
      "null" without a user id is enabled yet looks nothing up. */
  lemma LookupSelection(username: Option<string>, loggedInUserId: Option<string>, userId: Option<string>)
    ensures var l := ProfileLookup(username, loggedInUserId, userId);
      (IsPublicView(username, userId) ==> l == PublicLookup(username, userId) && !l.OwnById?)
      && (!IsPublicView(username, userId) ==>
            (l.OwnById? <==> Truthy(loggedInUserId)) && (l.OwnById? ==> l.ownId == loggedInUserId.value)
            && !l.ByUsername? && !l.ById?)
      && (!ProfileEnabled(username, loggedInUserId, userId) ==> l == NoLookup)
      && (username == Some("null") && !Truthy(userId) ==> ProfileEnabled(username, loggedInUserId, userId) && l == NoLookup)
  {
  }

  /** The cache key: `['profile', 'public', username, userId]` or `['profile', 'my', id]`. */
  function ProfileKey(username: Option<string>, loggedInUserId: Option<string>, userId: Option<string>): seq<Option<string>> {
    if IsPublicView(username, userId) then [Some("profile"), Some("public"), username, userId]
    else [Some("profile"), Some("my"), loggedInUserId]
  }

  /** A public view and an own view never share a cache entry, and two public views share
      one only for the same username and user id. */
  lemma ProfileKeysDistinct(u1: Option<string>, l1: Option<string>, i1: Option<string>,
                            u2: Option<string>, l2: Option<string>, i2: Option<string>)
    ensures IsPublicView(u1, i1) && !IsPublicView(u2, i2) ==> ProfileKey(u1, l1, i1) != ProfileKey(u2, l2, i2)
    ensures IsPublicView(u1, i1) && IsPublicView(u2, i2) ==>
      (ProfileKey(u1, l1, i1) == ProfileKey(u2, l2, i2) <==> u1 == u2 && i1 == i2)
  {
    if IsPublicView(u1, i1) && !IsPublicView(u2, i2) {
      assert ProfileKey(u1, l1, i1)[1] != ProfileKey(u2, l2, i2)[1];
    }
    if IsPublicView(u1, i1) && IsPublicView(u2, i2) && ProfileKey(u1, l1, i1) == ProfileKey(u2, l2, i2) {
      assert ProfileKey(u1, l1, i1)[2] == ProfileKey(u2, l2, i2)[2];
      assert ProfileKey(u1, l1, i1)[3] == ProfileKey(u2, l2, i2)[3];
    }
  }

  predicate Matches(l: Lookup, u: UserRow) {
    match l
    case ByUsername(name) => u.username == Some(name)
    case ById(id) => u.id == id
    case OwnById(id) => u.id == id
    case NoLookup => false
  }

  /** The rows the `.eq` filter keeps, in table order. */
  function Matching(users: seq<UserRow>, l: Lookup): (r: seq<UserRow>)
    ensures forall u :: u in r <==> u in users && Matches(l, u)
    ensures |r| <= |users|
  {
    if users == [] then []
    else
      var rest := Matching(users[1..], l);
      assert users == [users[0]] + users[1..];
      if Matches(l, users[0]) then [users[0]] + rest else rest
  }

  /** The outcome of the profile query. */
  datatype Fetched = Found(row: UserRow) | NotFound | Failed

  /** `maybeSingle` / `single` over the matching rows. */
  function Fetch(users: seq<UserRow>, l: Lookup): Fetched {
    if l.NoLookup? then NotFound
    else
      var m := Matching(users, l);
      if |m| == 1 then Found(m[0])
      else if m == [] && !l.OwnById? then NotFound
      else Failed
  }

  /** A found row is one the lookup asked for; "not found" means no row matched (or
      nothing was asked); the viewer's own lookup is never "not found", it fails instead. */
  lemma FetchOutcome(users: seq<UserRow>, l: Lookup)
    ensures Fetch(users, l).Found? ==> Fetch(users, l).row in users && Matches(l, Fetch(users, l).row)
    ensures Fetch(users, l).NotFound? <==> l.NoLookup? || (!l.OwnById? && forall u :: u in users ==> !Matches(l, u))
    ensures l.OwnById? ==> !Fetch(users, l).NotFound?
  {
    var m := Matching(users, l);
    if m != [] {
      assert m[0] in m;
    }
  }

  /** When exactly one row matches, the query finds it. */
  lemma {:induction false} UniqueMatchFound(users: seq<UserRow>, l: Lookup, k: nat)
    requires k < |users| && Matches(l, users[k])
    requires forall i :: 0 <= i < |users| && Matches(l, users[i]) ==> i == k
    ensures Matching(users, l) == [users[k]]
    ensures Fetch(users, l) == Found(users[k])
  {
    if k == 0 {
      forall i | 0 <= i < |users[1..]| ensures !Matches(l, users[1..][i]) {
        assert users[1..][i] == users[i + 1];
      }
      NothingMatching(users[1..], l);
    } else {
      forall i | 0 <= i < |users[1..]| && Matches(l, users[1..][i]) ensures i == k - 1 {
        assert users[1..][i] == users[i + 1];
      }
      UniqueMatchFound(users[1..], l, k - 1);
    }
  }

  lemma {:induction false} NothingMatching(users: seq<UserRow>, l: Lookup)
    requires forall i :: 0 <= i < |users| ==> !Matches(l, users[i])
    ensures Matching(users, l) == []
  {
    if users != [] {
      NothingMatching(users[1..], l);
    }
  }

  /** `useProfileBadges`: nothing without a user id, otherwise that user's badges, newest
      first (a NULL award date sorts first). */
  function ProfileBadges(badges: seq<BadgeRow>, profileUserId: Option<string>): seq<BadgeRow> {
    if !Truthy(profileUserId) then []
    else SortDescBy(BadgesOf(badges, profileUserId.value), (b: BadgeRow) => b.awardedAt)
  }

  function BadgesOf(badges: seq<BadgeRow>, userId: string): (r: seq<BadgeRow>)
    ensures forall b :: multiset(r)[b] == if b.userId == userId then multiset(badges)[b] else 0
  {
    if badges == [] then []
    else
      var rest := BadgesOf(badges[1..], userId);
      assert badges == [badges[0]] + badges[1..];
      if badges[0].userId == userId then [badges[0]] + rest else rest
  }

  /** Without an id there are no badges; with one, the result holds each of that user's
      badges as often as the table does and nobody else's, ordered by award date. */
  lemma ProfileBadgesSpec(badges: seq<BadgeRow>, profileUserId: Option<string>)
    ensures !Truthy(profileUserId) ==> ProfileBadges(badges, profileUserId) == []
    ensures Truthy(profileUserId) ==>
      var r := ProfileBadges(badges, profileUserId);
      (forall b :: multiset(r)[b] == if b.userId == profileUserId.value then multiset(badges)[b] else 0)
      && (forall i, j :: 0 <= i < j < |r| ==> KeyGe(r[i].awardedAt, r[j].awardedAt))
  {
    if Truthy(profileUserId) {
      var key := (b: BadgeRow) => b.awardedAt;
      var r := ProfileBadges(badges, profileUserId);
      assert SortedDescBy(r, key);
      assert forall i, j :: 0 <= i < j < |r| ==> KeyGe(key(r[i]), key(r[j]));
    }
  }

  /** The rows of one user, in table order. */
  function UploadsOf(rows: seq<Upload>, userId: string): (r: seq<Upload>)
    ensures forall x :: multiset(r)[x] == if x.userId == userId then multiset(rows)[x] else 0
  {
    if rows == [] then []
    else
      var rest := UploadsOf(rows[1..], userId);
      assert rows == [rows[0]] + rows[1..];
      if rows[0].userId == userId then [rows[0]] + rest else rest
  }

  /** The extra filter: `is_hidden = false` exactly on a public view of someone else. */
  function UploadsCriteria(isPublicView: bool, isMyProfile: bool): Criteria {
    NoCriteria.(visibility := if isPublicView && !isMyProfile then NotHidden else Unrestricted)
  }

  /** `useProfileUploads`: nothing without a user id, otherwise that user's uploads, newest
      first, with hidden ones left out for other people's public views. */
  function ProfileUploads(rows: seq<Upload>, profileUserId: Option<string>, isPublicView: bool, isMyProfile: bool): seq<Upload> {
    if !Truthy(profileUserId) then []
    else Select(UploadsOf(rows, profileUserId.value), UploadsCriteria(isPublicView, isMyProfile), ByCreatedAt)
  }

  /** The uploads a profile lists: exactly the user's rows, each as often as stored, minus
      the rows not marked visible when someone else views the profile publicly; sorted by
      creation time, newest first. */
  lemma ProfileUploadsSpec(rows: seq<Upload>, profileUserId: string, isPublicView: bool, isMyProfile: bool)
    requires profileUserId != ""
    ensures var r := ProfileUploads(rows, Some(profileUserId), isPublicView, isMyProfile);
      SortedDesc(r, ByCreatedAt)
      && forall x :: multiset(r)[x] ==
           if x.userId == profileUserId && (isPublicView && !isMyProfile ==> IsShown(x)) then multiset(rows)[x] else 0
  {
    var own := UploadsOf(rows, profileUserId);
    var c := UploadsCriteria(isPublicView, isMyProfile);
    var r := Select(own, c, ByCreatedAt);
    assert IsFilterOf(r, own, c);
    forall x: Upload ensures multiset(r)[x] ==
      if x.userId == profileUserId && (isPublicView && !isMyProfile ==> IsShown(x)) then multiset(rows)[x] else 0
    {
      assert Satisfies(c, x) <==> (isPublicView && !isMyProfile ==> IsShown(x));
    }
  }

  /** A hidden upload (or one whose flag is NULL) is listed on its owner's own profile and
      on a private view, never on someone else's public view. */
  lemma HiddenUploadsOnlyForOwner(rows: seq<Upload>, x: Upload, isPublicView: bool, isMyProfile: bool)
    requires x in rows && x.userId != "" && !IsShown(x)
    ensures x in ProfileUploads(rows, Some(x.userId), isPublicView, isMyProfile) <==> !isPublicView || isMyProfile
  {
    ProfileUploadsSpec(rows, x.userId, isPublicView, isMyProfile);
    var r := ProfileUploads(rows, Some(x.userId), isPublicView, isMyProfile);
    assert multiset(rows)[x] > 0;
    assert x in r <==> multiset(r)[x] > 0;
  }
}
