/** The student navigation bar's notification bell: the list it holds, the unread badge,
    marking one or all notifications read, when it refetches, and the profile button. */
module Navbar {
  import opened Common
  import opened Models
  import RealtimeClient
  import StudentPortal

  /** The unread badge: how many notifications are not read. */
  function UnreadCount(ns: seq<Notification>): (r: nat)
    ensures r == |Filter(ns, (n: Notification) => !n.isRead)|
    ensures r == 0 <==> forall i :: 0 <= i < |ns| ==> ns[i].isRead
  {
    Count(ns, (n: Notification) => !n.isRead)
  }

  /** A fetch replaces the list with the server's answer; a failed fetch keeps it. */
  function AfterFetch(ns: seq<Notification>, fetched: Option<seq<Notification>>): (r: seq<Notification>)
    ensures fetched.Some? ==> r == fetched.value
    ensures fetched.None? ==> r == ns
  {
    if fetched.Some? then fetched.value else ns
  }

  /** Only a `status_updated` event makes the bar refetch. */
  predicate RefetchOn(lastEvent: Option<RealtimeClient.WsEvent>)
    ensures RefetchOn(lastEvent) <==> StudentPortal.OnEvent(lastEvent, 1).fetchApplications
  {
    lastEvent.Some? && lastEvent.value.event == "status_updated"
  }

  /** One notification after `n.id === id ? {...n, is_read: true} : n`. */
  function MarkedIfId(n: Notification, id: nat): Notification
  {
    if n.id == id then n.(isRead := true) else n
  }

  /** The list after marking notification `id` read locally. */
  function MarkOneLocal(ns: seq<Notification>, id: nat): (r: seq<Notification>)
    ensures |r| == |ns|
    ensures forall i :: 0 <= i < |ns| ==> r[i] == MarkedIfId(ns[i], id)
  {
    if ns == [] then [] else [MarkedIfId(ns[0], id)] + MarkOneLocal(ns[1..], id)
  }

  /** The badge drops by exactly the number of unread notifications carrying that id. */
  lemma {:induction false} MarkOneUnread(ns: seq<Notification>, id: nat)
    ensures UnreadCount(MarkOneLocal(ns, id)) ==
      UnreadCount(ns) - Count(ns, (n: Notification) => n.id == id && !n.isRead)
  {
    if ns != [] {
      var r := MarkOneLocal(ns, id);
      assert r[1..] == MarkOneLocal(ns[1..], id);
      MarkOneUnread(ns[1..], id);
    }
  }

  /** `handleMarkRead`: the local flag flips only once the request succeeded. */
  function HandleMarkRead(ns: seq<Notification>, id: nat, requestOk: bool): (r: seq<Notification>)
    ensures !requestOk ==> r == ns
    ensures requestOk ==> r == MarkOneLocal(ns, id)
  {
    if requestOk then MarkOneLocal(ns, id) else ns
  }

  /** Clicking item `i`: an unread one is marked (one request), a read one does nothing.
      Returns the list and whether a request was sent. */
  function ClickItem(ns: seq<Notification>, i: nat, requestOk: bool): (r: (seq<Notification>, bool))
    requires i < |ns|
    ensures ns[i].isRead ==> r == (ns, false)
    ensures !ns[i].isRead ==> r == (HandleMarkRead(ns, ns[i].id, requestOk), true)
  {
    if ns[i].isRead then (ns, false) else (HandleMarkRead(ns, ns[i].id, requestOk), true)
  }

  /** "Mark all read": every notification read locally, whatever the request does. */
  function MarkAllLocal(ns: seq<Notification>): (r: seq<Notification>)
    ensures |r| == |ns|
    ensures forall i :: 0 <= i < |ns| ==> r[i] == ns[i].(isRead := true)
  {
    seq(|ns|, i requires 0 <= i < |ns| => ns[i].(isRead := true))
  }

  /** After mark-all the badge is gone. */
  lemma MarkAllClearsBadge(ns: seq<Notification>)
    ensures UnreadCount(MarkAllLocal(ns)) == 0
  {
    var r := MarkAllLocal(ns);
    assert forall i :: 0 <= i < |r| ==> r[i].isRead;
  }

  /** The mark-all button is shown only while something is unread. */
  predicate MarkAllShown(ns: seq<Notification>)
    ensures MarkAllShown(ns) <==> exists i :: 0 <= i < |ns| && !ns[i].isRead
  {
    UnreadCount(ns) > 0
  }

  /** Marking the same notification twice changes nothing the second time. */
  lemma MarkOneIdempotent(ns: seq<Notification>, id: nat)
    ensures MarkOneLocal(MarkOneLocal(ns, id), id) == MarkOneLocal(ns, id)
  {
    var once := MarkOneLocal(ns, id);
    var twice := MarkOneLocal(once, id);
    assert forall i :: 0 <= i < |ns| ==> twice[i] == once[i];
  }

  /** Where the profile button leads. */
  datatype NavAction = SwitchTab(tab: string) | NavigateTo(path: string)

  /** `handleProfileClick`: the profile tab when the page passed `onTabChange`, else the
      dashboard; the menu is closed in both cases (the second component). */
  function ProfileClick(hasTabHandler: bool): (r: (NavAction, bool))
    ensures hasTabHandler ==> r.0 == SwitchTab("profile")
    ensures !hasTabHandler ==> r.0 == NavigateTo("/dashboard")
    ensures !r.1
  {
    (if hasTabHandler then SwitchTab("profile") else NavigateTo("/dashboard"), false)
  }
}
