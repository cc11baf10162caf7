/**
 * The study-groups page: each group's platform label and badge colour, the
 * join buttons, and the join mutation, which inserts a membership unless the
 * cached membership set already holds the group and treats a unique-key
 * violation (code 23505) as success.
 *
 * The `group_members` table is a sequence of memberships; the cached set of
 * joined group ids is a field refreshed from the table after a successful
 * join.
 */
module Groups {
  import opened Basics
  import opened Text

  datatype Group = Group(id: string, name: string, telegramLink: Option<string>, whatsappLink: Option<string>)

  datatype Membership = Membership(groupId: string, userId: string)

  /** `getPlatform` */
  function Platform(g: Group): string {
    var hasTelegram := Truthy(g.telegramLink);
    var hasWhatsapp := Truthy(g.whatsappLink);
    if hasTelegram && hasWhatsapp then "Both"
    else if hasTelegram then "Telegram"
    else if hasWhatsapp then "WhatsApp"
    else "Community"
  }

  /** `getPlatformColor`: matched on the lower-cased label. */
  function PlatformColor(platform: string): string {
    match ToLower(platform)
    case "telegram" => "bg-blue-500"
    case "discord" => "bg-purple-500"
    case "whatsapp" => "bg-green-500"
    case "both" => "bg-indigo-500"
    case _ => "bg-gray-500"
  }

  /** The label names exactly the links the group has. */
  lemma PlatformNamesLinks(g: Group)
    ensures Platform(g) == "Both" <==> Truthy(g.telegramLink) && Truthy(g.whatsappLink)
    ensures Platform(g) == "Telegram" <==> Truthy(g.telegramLink) && !Truthy(g.whatsappLink)
    ensures Platform(g) == "WhatsApp" <==> !Truthy(g.telegramLink) && Truthy(g.whatsappLink)
    ensures Platform(g) == "Community" <==> !Truthy(g.telegramLink) && !Truthy(g.whatsappLink)
  {
  }

  /** The colour ignores letter case, and the purple "discord" colour is never chosen for a
      label the page produces. */
  lemma ColorOfPlatforms(g: Group, a: string, b: string)
    ensures ToLower(a) == ToLower(b) ==> PlatformColor(a) == PlatformColor(b)
    ensures PlatformColor(Platform(g)) != "bg-purple-500"
    ensures PlatformColor(Platform(g)) == "bg-gray-500" <==> Platform(g) == "Community"
  {
    var p := Platform(g);
    assert ToLower("Both") == "both";
    assert ToLower("Telegram") == "telegram";
    assert ToLower("WhatsApp") == "whatsapp";
    assert ToLower("Community") == "community";
  }

  /** The cached set of groups the user belongs to; empty without a user. */
  function JoinedGroupIds(members: seq<Membership>, userId: Option<string>): (r: set<string>)
    ensures userId.None? ==> r == {}
    ensures userId.Some? ==> forall id :: id in r <==> Membership(id, userId.value) in members
  {
    if userId.None? then {}
    else set m | m in members && m.userId == userId.value :: m.groupId
  }

  /** What the card offers under a group. */
  datatype Action = OpenLink(link: string) | JoinVia(linkToOpen: Option<string>) | JoinedBadge

  function Actions(g: Group, isJoined: bool): seq<Action> {
    var t := if Truthy(g.telegramLink) then [g.telegramLink.value] else [];
    var w := if Truthy(g.whatsappLink) then [g.whatsappLink.value] else [];
    if isJoined then
      (if t != [] then [OpenLink(t[0])] else []) + (if w != [] then [OpenLink(w[0])] else [])
      + (if t == [] && w == [] then [JoinedBadge] else [])
    else
      (if t != [] then [JoinVia(Some(t[0]))] else []) + (if w != [] then [JoinVia(Some(w[0]))] else [])
      + (if t == [] && w == [] then [JoinVia(None)] else [])
  }

  /** A group without links offers a single join action that opens nothing; a joined group
      offers no join action. */
  lemma ActionsOfLinklessGroup(g: Group, isJoined: bool)
    ensures !Truthy(g.telegramLink) && !Truthy(g.whatsappLink) && !isJoined ==> Actions(g, isJoined) == [JoinVia(None)]
    ensures isJoined ==> forall a :: a in Actions(g, isJoined) ==> !a.JoinVia?
    ensures !isJoined ==> forall a :: a in Actions(g, isJoined) ==> a.JoinVia?
  {
  }

  /** The insert's result. */
  datatype InsertResult = Inserted | InsertError(code: string, message: string)

  const UniqueViolation := "23505"
  const NotLoggedIn := "You must be logged in to join a group."
  /** Shown when the insert fails with an empty message. */
  const JoinFailed := "There was an issue joining the group."

  /** A join's visible outcome: the error shown, or whether "Group Joined!" was shown and
      which link was opened. */
  datatype Outcome = Failed(message: string) | Joined(announced: bool, link: Option<string>)

  datatype PageState = PageState(members: seq<Membership>, joined: set<string>)

  /** The join mutation with its success and error handlers. */
  function JoinSpec(st: PageState, userId: Option<string>, g: Group, linkToOpen: Option<string>, result: InsertResult): (PageState, Outcome) {
    if userId.None? then (st, Failed(NotLoggedIn))
    else
      var already := g.id in st.joined;
      if !already && result.InsertError? && result.code != UniqueViolation then (st, Failed(OrElse(Some(result.message), JoinFailed)))
      else
        var members := if !already && result.Inserted? then st.members + [Membership(g.id, userId.value)] else st.members;
        (PageState(members, JoinedGroupIds(members, userId)),
         Joined(!already, if Truthy(linkToOpen) then linkToOpen else None))
  }

  /** Joining without a user fails and changes nothing. */
  lemma JoinNeedsUser(st: PageState, g: Group, linkToOpen: Option<string>, result: InsertResult)
    ensures JoinSpec(st, None, g, linkToOpen, result) == (st, Failed(NotLoggedIn))
  {
  }

  /** A group already in the cached set is not inserted again and is not announced, but its
      link still opens. */
  lemma ExistingMemberNotReinserted(st: PageState, userId: string, g: Group, linkToOpen: Option<string>, result: InsertResult)
    requires g.id in st.joined
    ensures var (st', out) := JoinSpec(st, Some(userId), g, linkToOpen, result);
      st'.members == st.members && out == Joined(false, if Truthy(linkToOpen) then linkToOpen else None)
  {
  }

  /** For a new group: a successful insert adds one membership and announces the join; a
      unique-key violation is taken as success without a new row; any other error fails
      with its message, or a fixed line when that is empty, and changes nothing. After a
      successful join the refreshed set holds the group exactly when the table has the
      membership. */
  lemma NewMemberJoin(st: PageState, userId: string, g: Group, linkToOpen: Option<string>, result: InsertResult)
    requires g.id !in st.joined
    ensures var (st', out) := JoinSpec(st, Some(userId), g, linkToOpen, result);
      (result.Inserted? ==> st'.members == st.members + [Membership(g.id, userId)] && out.Joined? && out.announced && g.id in st'.joined)
      && (result.InsertError? && result.code == UniqueViolation ==> st'.members == st.members && out.Joined? && out.announced)
      && (result.InsertError? && result.code != UniqueViolation ==> st' == st && out == Failed(if result.message != "" then result.message else JoinFailed))
      && (out.Joined? ==> (g.id in st'.joined <==> Membership(g.id, userId) in st'.members))
  {
    var (st', out) := JoinSpec(st, Some(userId), g, linkToOpen, result);
    if result.Inserted? {
      assert Membership(g.id, userId) in st'.members;
    }
  }

  /** The page's membership table, its cached joined set, and the join handler. */
  class Page {
    var members: seq<Membership>
    var joined: set<string>

    function State(): PageState
      reads this
    {
      PageState(members, joined)
    }

    constructor (members: seq<Membership>, userId: Option<string>)
      ensures State() == PageState(members, JoinedGroupIds(members, userId))
    {
      this.members := members;
      joined := JoinedGroupIds(members, userId);
    }

    method Join(userId: Option<string>, g: Group, linkToOpen: Option<string>, result: InsertResult) returns (out: Outcome)
      modifies this
      ensures (State(), out) == JoinSpec(old(State()), userId, g, linkToOpen, result)
    {
      if userId.None? {
        return Failed(NotLoggedIn);
      }
      var isAlreadyMember := g.id in joined;
      if !isAlreadyMember {
        match result {
          case Inserted =>
            members := members + [Membership(g.id, userId.value)];
          case InsertError(code, message) =>
            if code != UniqueViolation {
              return Failed(OrElse(Some(message), JoinFailed));
            }
        }
      }
      var wasAlreadyMember := isAlreadyMember;
      joined := JoinedGroupIds(members, userId);
      out := Joined(!wasAlreadyMember, if Truthy(linkToOpen) then linkToOpen else None);
    }
  }
}
