/**
 * The list inside the notification popover: one item per cached notification,
 * with an icon for its type, a sentence built from its `data` object, a link,
 * and a highlight while it is unread.
 */
module NotificationsList {
  import opened Basics
  import opened App
  import opened Notifications

  datatype Icon = ThumbsUp | Award | Flag | BellIcon

  /** `NotificationIcon`: one icon per known type, a bell for anything else. */
  function IconOf(t: NotificationType): Icon {
    match t
    case NewVote => ThumbsUp
    case NewBadge => Award
    case ContentFlagged => Flag
    case OtherType(_) => BellIcon
  }

  /** The three known types get three different icons, none of them the bell; the icon
      depends on the type alone, so a notification showing the generic sentence still
      shows its type's icon. */
  lemma IconRules(t: NotificationType, u: NotificationType)
    ensures IconOf(t) == BellIcon <==> t.OtherType?
    ensures !t.OtherType? && !u.OtherType? ==> (IconOf(t) == IconOf(u) <==> t == u)
  {
  }

  /** `data && typeof data === 'object' && key in data` */
  predicate HasKey(data: Option<Json>, key: string) {
    data.Some? && data.value.Object? && key in data.value.fields
  }

  /** `data[key] || fallback` for a key the object holds. */
  function FieldOr(data: Option<Json>, key: string, fallback: string): string
    requires HasKey(data, key)
  {
    OrElse(data.value.fields[key], fallback)
  }

  /** What an item says. */
  datatype Content = Upvoted(title: string) | BadgeEarned(badge: string) | Flagged(title: string) | Generic

  datatype Item = Item(content: Content, linkTo: string, highlighted: bool)

  /** `NotificationItem`: the type's sentence when its data carries the key it needs, the
      generic sentence otherwise; unread items are highlighted. */
  function ItemOf(n: Notification): Item {
    var c :=
      if n.ntype == NewVote && HasKey(n.data, "upload_title") then Upvoted(FieldOr(n.data, "upload_title", "a post"))
      else if n.ntype == NewBadge && HasKey(n.data, "badge_type") then BadgeEarned(FieldOr(n.data, "badge_type", "New Badge"))
      else if n.ntype == ContentFlagged && HasKey(n.data, "upload_title") then Flagged(FieldOr(n.data, "upload_title", "a post"))
      else Generic;
    Item(c, if c.Upvoted? || c.Flagged? then "/notes" else "/profile", !n.isRead)
  }

  /** The sentence shown for a content. */
  function ContentText(c: Content): string {
    match c
    case Upvoted(t) => "Someone upvoted your post: " + t
    case BadgeEarned(b) => "You've earned a new badge: " + b + "!"
    case Flagged(t) => "Your post \"" + t + "\" was flagged."
    case Generic => "You have a new notification."
  }

  /** The generic sentence shows exactly for a generic item; otherwise the sentence carries
      the title or badge the data holds, or its fallback when that value is missing or
      empty. */
  lemma ItemSentence(n: Notification)
    ensures ContentText(ItemOf(n).content) == "You have a new notification." <==> ItemOf(n).content.Generic?
    ensures n.ntype == NewVote && HasKey(n.data, "upload_title") ==>
      ContentText(ItemOf(n).content) == "Someone upvoted your post: " + OrElse(n.data.value.fields["upload_title"], "a post")
    ensures n.ntype == NewBadge && HasKey(n.data, "badge_type") ==>
      ContentText(ItemOf(n).content) == "You've earned a new badge: " + OrElse(n.data.value.fields["badge_type"], "New Badge") + "!"
    ensures n.ntype == ContentFlagged && HasKey(n.data, "upload_title") ==>
      ContentText(ItemOf(n).content) == "Your post \"" + OrElse(n.data.value.fields["upload_title"], "a post") + "\" was flagged."
  {
    var c := ItemOf(n).content;
    var generic := "You have a new notification.";
    match c
    case Upvoted(t) =>
      assert ContentText(c)[0] == 'S' != generic[0];
    case BadgeEarned(b) =>
      assert ContentText(c)[3] == '\'' != generic[3];
    case Flagged(t) =>
      assert ContentText(c)[3] == 'r' != generic[3];
    case Generic =>
  }

  /** Each type gets its own sentence exactly when its data object holds the key it reads;
      a missing, null or empty value shows the fallback; votes and flags link to the notes
      page and everything else to the profile. */
  lemma ItemRules(n: Notification)
    ensures ItemOf(n).content.Upvoted? <==> n.ntype == NewVote && HasKey(n.data, "upload_title")
    ensures ItemOf(n).content.BadgeEarned? <==> n.ntype == NewBadge && HasKey(n.data, "badge_type")
    ensures ItemOf(n).content.Flagged? <==> n.ntype == ContentFlagged && HasKey(n.data, "upload_title")
    ensures ItemOf(n).content.Generic? <==>
      n.ntype.OtherType? || !HasKey(n.data, if n.ntype == NewBadge then "badge_type" else "upload_title")
    ensures ItemOf(n).content.Upvoted? || ItemOf(n).content.Flagged? ==>
      var v := n.data.value.fields["upload_title"];
      ItemOf(n).content.title == if Truthy(v) then v.value else "a post"
    ensures ItemOf(n).content.BadgeEarned? ==>
      var v := n.data.value.fields["badge_type"];
      ItemOf(n).content.badge == if Truthy(v) then v.value else "New Badge"
    ensures ItemOf(n).linkTo == "/notes" <==> ItemOf(n).content.Upvoted? || ItemOf(n).content.Flagged?
    ensures ItemOf(n).linkTo != "/notes" ==> ItemOf(n).linkTo == "/profile"
    ensures ItemOf(n).highlighted <==> !n.isRead
  {
  }

  /** Every item links to a page inside the layout: the notes page or the profile page,
      which a signed-in user sees. */
  lemma ItemLinksAreLayoutPages(n: Notification)
    ensures OutsidePage(ItemOf(n).linkTo).None?
    ensures ScreenAt(ItemOf(n).linkTo, "", false, true) == Show(if ItemOf(n).linkTo == "/notes" then Notes else Profile)
  {
    ItemRules(n);
  }

  /** The items, in the order of the cached list. */
  function Items(ns: seq<Notification>): (r: seq<Item>)
    ensures |r| == |ns|
  {
    if ns == [] then [] else [ItemOf(ns[0])] + Items(ns[1..])
  }

  function Highlighted(items: seq<Item>): nat {
    if items == [] then 0 else (if items[0].highlighted then 1 else 0) + Highlighted(items[1..])
  }

  /** The list highlights exactly as many items as the bell counts unread. */
  lemma {:induction false} HighlightedIsUnreadCount(ns: seq<Notification>)
    ensures Highlighted(Items(ns)) == UnreadCount(Some(ns))
  {
    if ns != [] {
      HighlightedIsUnreadCount(ns[1..]);
      assert Items(ns)[1..] == Items(ns[1..]);
    }
  }

  /** What the popover body shows. */
  datatype ListView = LoadingView | ErrorView | EmptyView | ItemsView(items: seq<Item>)

  /** `NotificationsList`: loading first, then the error, then the empty notice, then the
      items. */
  function ListViewOf(isLoading: bool, failed: bool, cache: Option<seq<Notification>>): ListView {
    if isLoading then LoadingView
    else if failed then ErrorView
    else if cache.None? || |cache.value| == 0 then EmptyView
    else ItemsView(Items(cache.value))
  }

  /** Items are shown exactly when the list is loaded without error and not empty, one per
      cached notification, in order, and as many highlighted as the bell counts. */
  lemma ListViewSpec(isLoading: bool, failed: bool, cache: Option<seq<Notification>>)
    ensures ListViewOf(isLoading, failed, cache).ItemsView? <==>
      !isLoading && !failed && cache.Some? && |cache.value| > 0
    ensures ListViewOf(isLoading, failed, cache).ItemsView? ==>
      var items := ListViewOf(isLoading, failed, cache).items;
      |items| == |cache.value|
      && (forall i :: 0 <= i < |items| ==> items[i] == ItemOf(cache.value[i]))
      && Highlighted(items) == UnreadCount(cache)
  {
    if ListViewOf(isLoading, failed, cache).ItemsView? {
      ItemsAt(cache.value);
      HighlightedIsUnreadCount(cache.value);
    }
  }

  lemma {:induction false} ItemsAt(ns: seq<Notification>)
    ensures forall i :: 0 <= i < |ns| ==> Items(ns)[i] == ItemOf(ns[i])
  {
    if ns != [] {
      ItemsAt(ns[1..]);
      var rest := Items(ns[1..]);
      assert Items(ns) == [ItemOf(ns[0])] + rest;
      forall i | 1 <= i < |ns| ensures Items(ns)[i] == ItemOf(ns[i]) {
        assert Items(ns)[i] == rest[i - 1];
        assert ns[i] == ns[1..][i - 1];
      }
    }
  }
}
