/**
 * The signed-in user's notifications: the query that reads the user's newest
 * twenty, the unread count, marking notifications read, and the realtime
 * channel that prepends each newly inserted notification to the cached list.
 *
 * `created_at` timestamps are compared as numbers. The `data` column is JSON:
 * either an object whose keys hold text or null, or some other JSON value.
 */
module Notifications {
  import opened Basics
  import opened Ordering

  /** The `notification_type` enum; `OtherType` stands for any other text a row could
      carry, which the enum keeps out of the database. */
  datatype NotificationType = NewVote | ContentFlagged | NewBadge | OtherType(name: string)

  datatype Json = Object(fields: map<string, Option<string>>) | NotAnObject

  /** A row of `notifications`. */
  datatype Notification = Notification(
    id: string, userId: string, createdAt: int, isRead: bool, ntype: NotificationType, data: Option<Json>)

  /** `.limit(20)` */
  const PageSize: nat := 20

  /** The unread notifications, in order. */
  function Unread(ns: seq<Notification>): (r: seq<Notification>)
    ensures |r| <= |ns|
    ensures forall n :: multiset(r)[n] == if n.isRead then 0 else multiset(ns)[n]
  {
    if ns == [] then []
    else
      var rest := Unread(ns[1..]);
      assert ns == [ns[0]] + ns[1..];
      if ns[0].isRead then rest else [ns[0]] + rest
  }

  /** `notifications?.filter(n => !n.is_read).length ?? 0`: zero while nothing is
      cached. */
  function UnreadCount(cache: Option<seq<Notification>>): nat {
    if cache.Some? then |Unread(cache.value)| else 0
  }

  /** The count is zero exactly when nothing is cached or every cached notification is
      read, and never exceeds the number cached. */
  lemma UnreadCountZero(cache: Option<seq<Notification>>)
    ensures UnreadCount(cache) == 0 <==> cache.None? || forall i :: 0 <= i < |cache.value| ==> cache.value[i].isRead
    ensures cache.Some? ==> UnreadCount(cache) <= |cache.value|
  {
    if cache.Some? {
      var ns := cache.value;
      var r := Unread(ns);
      if r == [] {
        forall i | 0 <= i < |ns| ensures ns[i].isRead {
          assert multiset(ns)[ns[i]] > 0;
          assert multiset(r)[ns[i]] == 0;
        }
      } else {
        assert multiset(r)[r[0]] > 0;
        assert r[0] in multiset(ns);
        var i :| 0 <= i < |ns| && ns[i] == r[0];
        assert !ns[i].isRead;
      }
    }
  }

  /** A new notification adds one to the count when it is unread. */
  lemma UnreadCountAfterPrepend(n: Notification, ns: seq<Notification>)
    ensures UnreadCount(Some([n] + ns)) == UnreadCount(Some(ns)) + if n.isRead then 0 else 1
  {
    assert ([n] + ns)[1..] == ns;
  }

  /** `.eq('user_id', userId)`: the user's rows, in table order. */
  function OwnedBy(table: seq<Notification>, userId: string): (r: seq<Notification>)
    ensures forall n :: multiset(r)[n] == if n.userId == userId then multiset(table)[n] else 0
  {
    if table == [] then []
    else
      var rest := OwnedBy(table[1..], userId);
      assert table == [table[0]] + table[1..];
      if table[0].userId == userId then [table[0]] + rest else rest
  }

  /** `fetchNotifications`: the user's rows, newest first, at most twenty. */
  function FetchNotifications(table: seq<Notification>, userId: string): seq<Notification> {
    Limit(NewestFirst(table, userId), PageSize)
  }

  /** The user's rows, newest first (ties in any order). */
  function NewestFirst(table: seq<Notification>, userId: string): seq<Notification> {
    SortDescBy(OwnedBy(table, userId), (n: Notification) => Some(n.createdAt))
  }

  /** The query returns at most twenty of the user's own notifications, newest first. */
  lemma FetchOwnNewestFirst(table: seq<Notification>, userId: string)
    ensures var r := FetchNotifications(table, userId);
      |r| <= PageSize
      && (forall i :: 0 <= i < |r| ==> r[i].userId == userId && r[i] in table)
      && (forall i, j :: 0 <= i < j < |r| ==> r[i].createdAt >= r[j].createdAt)
  {
    var key := (n: Notification) => Some(n.createdAt);
    var owned := OwnedBy(table, userId);
    var s := NewestFirst(table, userId);
    var r := FetchNotifications(table, userId);
    assert r == s[..|r|];
    forall i | 0 <= i < |r| ensures r[i].userId == userId && r[i] in table {
      assert r[i] == s[i];
      assert s[i] in multiset(s);
      assert multiset(owned)[s[i]] > 0;
    }
    forall i, j | 0 <= i < j < |r| ensures r[i].createdAt >= r[j].createdAt {
      assert r[i] == s[i] && r[j] == s[j];
      assert KeyGe(key(s[i]), key(s[j]));
    }
  }

  /** Any of the user's notifications the query leaves out is no newer than the last one
      it returns, and when fewer than twenty come back they are all of the user's. */
  lemma FetchKeepsNewest(table: seq<Notification>, userId: string)
    ensures var r := FetchNotifications(table, userId);
      (forall n :: n in table && n.userId == userId && n !in r ==>
         |r| == PageSize && r[PageSize - 1].createdAt >= n.createdAt)
      && (|r| < PageSize ==> forall n :: multiset(r)[n] == if n.userId == userId then multiset(table)[n] else 0)
  {
    var key := (n: Notification) => Some(n.createdAt);
    var owned := OwnedBy(table, userId);
    var s := NewestFirst(table, userId);
    var r := FetchNotifications(table, userId);
    assert r == s[..|r|];
    forall n | n in table && n.userId == userId && n !in r
      ensures |r| == PageSize && r[PageSize - 1].createdAt >= n.createdAt
    {
      assert multiset(owned)[n] > 0;
      assert n in multiset(s);
      var j :| 0 <= j < |s| && s[j] == n;
      assert |r| <= j;
      assert r[PageSize - 1] == s[PageSize - 1];
      assert KeyGe(key(s[PageSize - 1]), key(s[j]));
    }
    if |r| < PageSize {
      assert r == s;
    }
  }

  /** `.update({ is_read: true }).in('id', ids)` */
  function MarkRead(table: seq<Notification>, ids: seq<string>): (r: seq<Notification>)
    ensures |r| == |table|
  {
    seq(|table|, i requires 0 <= i < |table| => if table[i].id in ids then table[i].(isRead := true) else table[i])
  }

  /** Marking sets the read flag of exactly the listed notifications, keeps every other
      column and every other row as it was, and marking again changes nothing. */
  lemma MarkReadSpec(table: seq<Notification>, ids: seq<string>)
    ensures var r := MarkRead(table, ids);
      (forall i :: 0 <= i < |table| ==>
         r[i].(isRead := table[i].isRead) == table[i]
         && (r[i].isRead <==> table[i].isRead || table[i].id in ids))
      && MarkRead(r, ids) == r
  {
  }

  /** After marking, no listed notification is unread; the unread ones left are unread
      ones from before whose ids were not listed. */
  lemma {:induction false} UnreadAfterMark(ns: seq<Notification>, ids: seq<string>)
    ensures forall n :: n in Unread(MarkRead(ns, ids)) ==> n.id !in ids && n in Unread(ns)
  {
    var r := MarkRead(ns, ids);
    forall n | n in Unread(r) ensures n.id !in ids && n in Unread(ns) {
      assert multiset(Unread(r))[n] > 0;
      assert n in multiset(r);
      var i :| 0 <= i < |r| && r[i] == n;
      assert !n.isRead;
      assert multiset(ns)[ns[i]] > 0;
    }
  }

  /** The query cache entry `['notifications', userId]` with the rows behind it. */
  class Inbox {
    const userId: string
    /** The `notifications` table. */
    var table: seq<Notification>
    /** The cached query result; `None` until first fetched. */
    var cache: Option<seq<Notification>>
    /** The update requests sent, each the ids it marks. */
    var updates: seq<seq<string>>

    constructor (userId: string, table: seq<Notification>)
      ensures this.userId == userId && this.table == table && cache == None && updates == []
    {
      this.userId := userId;
      this.table := table;
      cache := None;
      updates := [];
    }

    /** The query runs (on mount, or after an invalidation) and caches its result. */
    method Load()
      modifies this
      ensures cache == Some(FetchNotifications(table, userId))
      ensures table == old(table) && updates == old(updates)
    {
      cache := Some(FetchNotifications(table, userId));
    }

    /** `markAsRead(ids)`: an empty list sends no request but still counts as a success,
        so the query is invalidated and refetched; otherwise one update is sent, and on
        success the rows change and the query is refetched, on error nothing changes. */
    method MarkAsRead(ids: seq<string>, ok: bool)
      modifies this
      ensures ids == [] ==> updates == old(updates) && table == old(table)
      ensures ids != [] ==> updates == old(updates) + [ids]
      ensures ids != [] && !ok ==> table == old(table) && cache == old(cache)
      ensures ids != [] && ok ==> table == MarkRead(old(table), ids)
      ensures ids == [] || ok ==> cache == Some(FetchNotifications(table, userId))
    {
      if |ids| != 0 {
        updates := updates + [ids];
        if !ok {
          return;
        }
        table := MarkRead(table, ids);
      }
      Load();
    }

    /** A row is inserted into `notifications`. The channel is filtered on the user's id:
        for the user's own row the new notification is put in front of the cached list
        (or of an empty one), with no limit applied. */
    method Inserted(n: Notification)
      modifies this
      ensures table == old(table) + [n] && updates == old(updates)
      ensures n.userId == userId ==> cache == Some([n] + old(cache).GetOr([]))
      ensures n.userId != userId ==> cache == old(cache)
    {
      table := table + [n];
      if n.userId == userId {
        var cached := if cache.Some? then cache.value else [];
        cache := Some([n] + cached);
      }
    }
  }

  /** The realtime prepend does not keep the query's limit: after a full page, one
      insert leaves twenty-one notifications cached, more than the query would return. */
  lemma RealtimeOutgrowsPage(table: seq<Notification>, userId: string, n: Notification)
    requires |FetchNotifications(table, userId)| == PageSize
    ensures |[n] + FetchNotifications(table, userId)| == PageSize + 1
    ensures |[n] + FetchNotifications(table, userId)| > |FetchNotifications(table + [n], userId)|
  {
    FetchOwnNewestFirst(table + [n], userId);
  }
}
