/**
 * The notification bell in the header. A visitor without a session gets a
 * plain link to the profile page; a signed-in user gets a button with the
 * unread count, and opening it marks the unread notifications read after a
 * short delay.
 */
module NotificationsPopover {
  import opened Basics
  import opened Text
  import opened Uri
  import opened App
  import opened Notifications

  /** The red badge on the bell: hidden at zero, the count up to nine, "9+" above. */
  function BadgeLabel(count: nat): Option<string> {
    if count > 0 then Some(if count > 9 then "9+" else NatToString(count)) else None
  }

  /** The badge shows exactly when something is unread; up to nine it is the count as
      one digit that reads back as the count, above nine it is "9+". */
  lemma BadgeLabelSpec(count: nat)
    ensures BadgeLabel(count).Some? <==> count > 0
    ensures count > 9 ==> BadgeLabel(count) == Some("9+")
    ensures 0 < count <= 9 ==>
      |BadgeLabel(count).value| == 1 && ParseDigits(BadgeLabel(count).value) == count
  {
    if 0 < count <= 9 {
      NatToStringRoundTrip(count);
    }
  }

  /** Two different counts below ten never show the same badge. */
  lemma BadgeLabelDistinct(m: nat, n: nat)
    requires m <= 9 && n <= 9 && m != n
    ensures BadgeLabel(m) != BadgeLabel(n)
  {
    if m > 0 && n > 0 {
      NatToStringInjective(m, n);
    }
  }

  function IdsOf(ns: seq<Notification>): seq<string> {
    seq(|ns|, i requires 0 <= i < |ns| => ns[i].id)
  }

  /** `notifications?.filter(n => !n.is_read).map(n => n.id) ?? []` */
  function UnreadIds(cache: Option<seq<Notification>>): seq<string> {
    if cache.Some? then IdsOf(Unread(cache.value)) else []
  }

  /** The ids gathered are those of the unread cached notifications, one per unread
      notification. */
  lemma UnreadIdsSpec(cache: Option<seq<Notification>>)
    ensures |UnreadIds(cache)| == UnreadCount(cache)
    ensures cache.Some? ==> forall id ::
      id in UnreadIds(cache) <==> exists i :: 0 <= i < |cache.value| && cache.value[i].id == id && !cache.value[i].isRead
  {
    if cache.Some? {
      var ns := cache.value;
      var u := Unread(ns);
      forall id ensures id in UnreadIds(cache) <==> exists i :: 0 <= i < |ns| && ns[i].id == id && !ns[i].isRead {
        if id in UnreadIds(cache) {
          var k :| 0 <= k < |u| && u[k].id == id;
          assert u[k] in multiset(u);
          assert u[k] in multiset(ns);
          var i :| 0 <= i < |ns| && ns[i] == u[k];
        }
        if exists i :: 0 <= i < |ns| && ns[i].id == id && !ns[i].isRead {
          var i :| 0 <= i < |ns| && ns[i].id == id && !ns[i].isRead;
          assert ns[i] in multiset(ns);
          assert ns[i] in multiset(u);
          var k :| 0 <= k < |u| && u[k] == ns[i];
          assert IdsOf(u)[k] == id;
        }
      }
    }
  }

  /** The effect that runs on opening: the ids to mark read once the delay is over, if
      any. */
  function MarkOnOpen(isOpen: bool, cache: Option<seq<Notification>>): Option<seq<string>> {
    if isOpen && UnreadCount(cache) > 0 then
      var ids := UnreadIds(cache);
      if |ids| > 0 then Some(ids) else None
    else None
  }

  /** Marking is scheduled exactly when the popover is open with something unread (the
      check on the gathered ids never fails on its own), and marks the unread ids. */
  lemma MarkOnOpenSpec(isOpen: bool, cache: Option<seq<Notification>>)
    ensures MarkOnOpen(isOpen, cache).Some? <==> isOpen && UnreadCount(cache) > 0
    ensures MarkOnOpen(isOpen, cache).Some? ==> MarkOnOpen(isOpen, cache).value == UnreadIds(cache)
  {
    UnreadIdsSpec(cache);
  }

  /** Marking the scheduled ids leaves nothing unread in the list they came from, so the
      refetched list schedules no further marking. */
  lemma OpeningClearsCount(ns: seq<Notification>)
    requires MarkOnOpen(true, Some(ns)).Some?
    ensures UnreadCount(Some(MarkRead(ns, MarkOnOpen(true, Some(ns)).value))) == 0
    ensures MarkOnOpen(true, Some(MarkRead(ns, MarkOnOpen(true, Some(ns)).value))).None?
  {
    var ids := MarkOnOpen(true, Some(ns)).value;
    var r := MarkRead(ns, ids);
    MarkOnOpenSpec(true, Some(ns));
    UnreadIdsSpec(Some(ns));
    MarkReadSpec(ns, ids);
    forall i | 0 <= i < |r| ensures r[i].isRead {
      if !ns[i].isRead {
        assert ns[i].id in ids;
      }
    }
    UnreadCountZero(Some(r));
  }

  /** The bell: a sign-in link for a visitor, a button with the badge otherwise. */
  datatype Bell = LoginLink(to: string) | NotificationsButton(badge: Option<string>)

  function BellView(loggedIn: bool, cache: Option<seq<Notification>>): Bell {
    if !loggedIn then LoginLink("/profile") else NotificationsButton(BadgeLabel(UnreadCount(cache)))
  }

  /** A visitor's bell shows no count and leads to the profile route, where the gate shows
      the sign-in screen. */
  lemma VisitorBellLeadsToSignIn(cache: Option<seq<Notification>>)
    ensures BellView(false, cache) == LoginLink("/profile")
    ensures ScreenAt(BellView(false, cache).to, "", false, false) == SignIn
  {
    assert ParsePieces(Split("", '&')) == ParsePieces([]);
  }
}
