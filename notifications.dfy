/** The notification endpoints: a user's inbox newest first, marking one
    notification read, and marking all of them read. */
module Notifications {
  import opened Common
  import opened Models
  import opened Store

  function CreatedAt(n: Notification): int { n.createdAt }

  /** The rows addressed to `recipient`, newest first (`filter(recipient_id == ...)
      .order_by(created_at.desc())`); rows created at the same instant keep table order. */
  function Inbox(recipient: nat, ns: seq<Notification>): (r: seq<Notification>)
    ensures multiset(r) == multiset(Filter(ns, (n: Notification) => n.recipientId == recipient))
    ensures |r| == |Filter(ns, (n: Notification) => n.recipientId == recipient)|
    ensures SortedDesc(r, CreatedAt)
    ensures forall n :: n in r <==> n in ns && n.recipientId == recipient
  {
    var mine := Filter(ns, (n: Notification) => n.recipientId == recipient);
    SortDescCorrect(mine, CreatedAt);
    InMultiset(SortDesc(mine, CreatedAt), mine);
    SortDesc(mine, CreatedAt)
  }

  /** Sequences with the same multiset hold the same elements. */
  lemma InMultiset<T>(a: seq<T>, b: seq<T>)
    requires multiset(a) == multiset(b)
    ensures forall x :: x in a <==> x in b
  {
    forall x ensures x in a <==> x in b {
      assert x in a <==> x in multiset(a);
      assert x in b <==> x in multiset(b);
    }
  }

  /** A contiguous slice of a newest-first list is newest first. */
  lemma WindowSorted(s: seq<Notification>, skip: nat, limit: nat)
    requires SortedDesc(s, CreatedAt)
    ensures SortedDesc(Window(s, skip, limit), CreatedAt)
  {
    var w := Window(s, skip, limit);
    forall i, j | 0 <= i < j < |w| ensures CreatedAt(w[i]) >= CreatedAt(w[j]) {
      assert w[i] == s[skip + i] && w[j] == s[skip + j];
    }
  }

  /** `read_notifications`: the caller's notifications, newest first, `skip` of them skipped,
      at most `limit` returned; nobody else's rows ever appear. */
  function ReadNotifications(caller: User, ns: seq<Notification>, skip: nat, limit: nat): (r: seq<Notification>)
    ensures |r| <= limit
    ensures forall i :: 0 <= i < |r| ==> r[i] in ns && r[i].recipientId == caller.id
    ensures SortedDesc(r, CreatedAt)
    ensures r == Window(Inbox(caller.id, ns), skip, limit)
  {
    var inbox := Inbox(caller.id, ns);
    WindowSorted(inbox, skip, limit);
    assert forall i :: 0 <= i < |Window(inbox, skip, limit)| ==> Window(inbox, skip, limit)[i] in inbox;
    Window(inbox, skip, limit)
  }

  /** From the start with a limit that covers the inbox, the listing holds every one of the
      caller's notifications, each as often as it is stored. */
  lemma ReadNotificationsComplete(caller: User, ns: seq<Notification>, limit: nat)
    requires limit >= |Filter(ns, (n: Notification) => n.recipientId == caller.id)|
    ensures multiset(ReadNotifications(caller, ns, 0, limit)) ==
      multiset(Filter(ns, (n: Notification) => n.recipientId == caller.id))
  {
    var inbox := Inbox(caller.id, ns);
    assert Window(inbox, 0, limit) == inbox;
  }

  function FindNotification(ns: seq<Notification>, id: nat): (r: Option<nat>)
    ensures r.Some? ==> r.value < |ns| && ns[r.value].id == id
    ensures r.None? ==> forall i :: 0 <= i < |ns| ==> ns[i].id != id
  {
    FindFirst(ns, (n: Notification) => n.id == id)
  }

  /** The answer of a write endpoint and the table after it. */
  datatype Marked = Marked(response: Response<Notification>, rows: seq<Notification>)

  /** `mark_notification_as_read`: 404 for an unknown id, 400 for someone else's
      notification (nothing changes in either case), else that row alone becomes read. */
  function MarkRead(caller: User, ns: seq<Notification>, id: nat): (r: Marked)
    ensures r.response.Err? ==> r.rows == ns
    ensures r.response == Err(HttpError(404, "Notification not found")) <==> FindNotification(ns, id).None?
    ensures r.response == Err(HttpError(400, "Not enough permissions")) <==>
      FindNotification(ns, id).Some? && ns[FindNotification(ns, id).value].recipientId != caller.id
    ensures r.response.Ok? ==>
      var i := FindNotification(ns, id).value;
      ns[i].recipientId == caller.id &&
      r.response.value == ns[i].(isRead := true) &&
      |r.rows| == |ns| && r.rows[i] == r.response.value &&
      forall j :: 0 <= j < |ns| && j != i ==> r.rows[j] == ns[j]
  {
    match FindNotification(ns, id)
    case None => Marked(Err(HttpError(404, "Notification not found")), ns)
    case Some(i) =>
      if ns[i].recipientId != caller.id then Marked(Err(HttpError(400, "Not enough permissions")), ns)
      else Marked(Ok(ns[i].(isRead := true)), ns[i := ns[i].(isRead := true)])
  }

  /** Marking the same notification read twice leaves the table as marking it once. */
  lemma {:induction false} MarkReadIdempotent(caller: User, ns: seq<Notification>, id: nat)
    ensures var once := MarkRead(caller, ns, id);
      MarkRead(caller, once.rows, id).rows == once.rows
  {
    var once := MarkRead(caller, ns, id);
    match FindNotification(ns, id)
    case None =>
    case Some(i) =>
      if ns[i].recipientId == caller.id {
        assert FindNotification(once.rows, id) == Some(i) by {
          var f := FindNotification(once.rows, id);
          assert once.rows[i].id == id;
          assert forall j :: 0 <= j < i ==> once.rows[j] == ns[j];
        }
      }
  }

  /** `mark_notification_as_read` on the session. */
  method MarkNotificationAsRead(db: Database, caller: User, id: nat) returns (r: Response<Notification>)
    requires db.Valid()
    modifies db
    ensures db.Valid()
    ensures db.users == old(db.users) && db.jobs == old(db.jobs) && db.applications == old(db.applications)
    ensures db.resetTokens == old(db.resetTokens) && db.profiles == old(db.profiles)
    ensures db.projects == old(db.projects) && db.nextId == old(db.nextId)
    ensures r == MarkRead(caller, old(db.notifications), id).response
    ensures db.notifications == MarkRead(caller, old(db.notifications), id).rows
  {
    var found := FindNotification(db.notifications, id);
    if found.None? {
      return Err(HttpError(404, "Notification not found"));
    }
    var i := found.value;
    if db.notifications[i].recipientId != caller.id {
      return Err(HttpError(400, "Not enough permissions"));
    }
    var n := db.notifications[i].(isRead := true);
    ReplaceSameKey(db.notifications, NotificationId, db.nextId, i, n);
    db.notifications := db.notifications[i := n];
    r := Ok(n);
  }

  /** One row after the bulk update of `mark_all_as_read`. */
  function MarkedForAll(n: Notification, recipient: nat): Notification
  {
    if n.recipientId == recipient && !n.isRead then n.(isRead := true) else n
  }

  /** The table after `mark_all_as_read`: every notification of the recipient is read, and
      apart from that flag no row changes, no other recipient's row at all. */
  function MarkAll(ns: seq<Notification>, recipient: nat): (r: seq<Notification>)
    ensures |r| == |ns|
    ensures forall i :: 0 <= i < |ns| && ns[i].recipientId == recipient ==> r[i] == ns[i].(isRead := true)
    ensures forall i :: 0 <= i < |ns| && ns[i].recipientId != recipient ==> r[i] == ns[i]
  {
    seq(|ns|, i requires 0 <= i < |ns| => MarkedForAll(ns[i], recipient))
  }

  /** After marking all read, the recipient has no unread notification left. */
  lemma {:induction false} NothingUnreadAfterMarkAll(ns: seq<Notification>, recipient: nat)
    ensures Count(MarkAll(ns, recipient), (n: Notification) => n.recipientId == recipient && !n.isRead) == 0
  {
    var r := MarkAll(ns, recipient);
    forall i | 0 <= i < |r| ensures !(r[i].recipientId == recipient && !r[i].isRead) {
      if ns[i].recipientId == recipient {
        assert r[i] == ns[i].(isRead := true);
      }
    }
  }

  /** The list `mark_all_as_read` answers with: the recipient's newest hundred. */
  const MarkAllLimit: nat := 100

  /** That list is newest first, at most 100 long, all the caller's and all read. */
  lemma {:induction false} MarkAllAnswer(caller: User, ns: seq<Notification>)
    ensures var r := ReadNotifications(caller, MarkAll(ns, caller.id), 0, MarkAllLimit);
      |r| <= 100 && SortedDesc(r, CreatedAt) &&
      forall i :: 0 <= i < |r| ==> r[i].recipientId == caller.id && r[i].isRead
  {
    var marked := MarkAll(ns, caller.id);
    var r := ReadNotifications(caller, marked, 0, MarkAllLimit);
    forall i | 0 <= i < |r| ensures r[i].isRead {
      assert r[i] in marked;
      var k :| 0 <= k < |marked| && marked[k] == r[i];
      assert ns[k].recipientId == caller.id;
    }
  }

  /** `mark_all_as_read`: the bulk update, one row at a time, then the newest hundred. */
  method MarkAllAsRead(db: Database, caller: User) returns (r: seq<Notification>)
    requires db.Valid()
    modifies db
    ensures db.Valid()
    ensures db.users == old(db.users) && db.jobs == old(db.jobs) && db.applications == old(db.applications)
    ensures db.resetTokens == old(db.resetTokens) && db.profiles == old(db.profiles)
    ensures db.projects == old(db.projects) && db.nextId == old(db.nextId)
    ensures db.notifications == MarkAll(old(db.notifications), caller.id)
    ensures r == ReadNotifications(caller, db.notifications, 0, MarkAllLimit)
  {
    ghost var before := db.notifications;
    for i := 0 to |db.notifications|
      invariant db.Valid()
      invariant |db.notifications| == |before|
      invariant forall j :: 0 <= j < i ==> db.notifications[j] == MarkedForAll(before[j], caller.id)
      invariant forall j :: i <= j < |before| ==> db.notifications[j] == before[j]
      invariant db.users == old(db.users) && db.jobs == old(db.jobs) && db.applications == old(db.applications)
      invariant db.resetTokens == old(db.resetTokens) && db.profiles == old(db.profiles)
      invariant db.projects == old(db.projects) && db.nextId == old(db.nextId)
    {
      var n := db.notifications[i];
      if n.recipientId == caller.id && !n.isRead {
        ReplaceSameKey(db.notifications, NotificationId, db.nextId, i, n.(isRead := true));
        db.notifications := db.notifications[i := n.(isRead := true)];
      }
    }
    assert db.notifications == MarkAll(before, caller.id);
    r := ReadNotifications(caller, db.notifications, 0, MarkAllLimit);
  }
}
