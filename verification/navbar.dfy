/** The top navigation bar: the unread badge, the tab guard and the notification dropdown. */
module Navbar {
  import opened Types
  import opened Seqs
  import App

  predicate Unread(n: AppNotification)
  {
    !n.isRead
  }

  function IsUnread(): AppNotification -> bool
  {
    (n: AppNotification) => Unread(n)
  }

  /** `unreadCount` (Navbar.tsx:30). */
  function UnreadCount(ns: seq<AppNotification>): (count: nat)
    ensures count <= |ns|
    ensures count == 0 <==> forall i :: 0 <= i < |ns| ==> ns[i].isRead
  {
    var unread := Filter(ns, IsUnread());
    assert unread != [] ==> unread[0] in unread;
    assert forall i :: 0 <= i < |ns| ==> ns[i] in ns;
    |unread|
  }

  /** The red badge on the bell (Navbar.tsx:79). */
  function ShowBadge(ns: seq<AppNotification>): (shown: bool)
    ensures shown <==> exists i :: 0 <= i < |ns| && !ns[i].isRead
  {
    UnreadCount(ns) > 0
  }

  /** A new notification, which is always unread, adds one to the count. */
  lemma {:induction false} UnreadAfterAdd(n: AppNotification, ns: seq<AppNotification>)
    requires !n.isRead
    ensures UnreadCount([n] + ns) == UnreadCount(ns) + 1
  {
    FilterPrepend(n, ns, IsUnread());
  }

  /** Marking an id read never raises the count. */
  lemma {:induction false} UnreadAfterRead(ns: seq<AppNotification>, id: string)
    ensures UnreadCount(App.MarkRead(ns, id)) <= UnreadCount(ns)
  {
    if ns != [] {
      var init, last := ns[..|ns| - 1], ns[|ns| - 1];
      assert init + [last] == ns;
      UnreadAfterRead(init, id);
      UnreadCountAppend(init, last);
      UnreadCountAppend(App.MarkRead(init, id), App.MarkOne(last, id));
    }
  }

  /** Marking an id read lowers the count when the notification at `i` has that id and was unread. */
  lemma {:induction false} UnreadDropsOnRead(ns: seq<AppNotification>, id: string, i: nat)
    requires i < |ns| && ns[i].id == id && !ns[i].isRead
    ensures UnreadCount(App.MarkRead(ns, id)) < UnreadCount(ns)
  {
    var init, last := ns[..|ns| - 1], ns[|ns| - 1];
    assert init + [last] == ns;
    UnreadCountAppend(init, last);
    UnreadCountAppend(App.MarkRead(init, id), App.MarkOne(last, id));
    if i < |init| {
      UnreadDropsOnRead(init, id, i);
    } else {
      UnreadAfterRead(init, id);
    }
  }

  /** One more notification at the end adds one to the count exactly when it is unread. */
  lemma UnreadCountAppend(ns: seq<AppNotification>, n: AppNotification)
    ensures UnreadCount(ns + [n]) == UnreadCount(ns) + (if n.isRead then 0 else 1)
  {
    FilterAppend(ns, n, IsUnread());
  }

  /** What a click on a navigation tab does. */
  datatype TabEffect = AskToSignIn | SwitchTo(tab: AppTab)

  /** A desktop tab click (Navbar.tsx:53-59). */
  function TabClick(signedIn: bool, tab: AppTab): (effect: TabEffect)
    ensures effect == AskToSignIn <==> !signedIn && tab != Home
    ensures effect != AskToSignIn ==> effect == SwitchTo(tab)
  {
    if !signedIn && tab != Home then AskToSignIn else SwitchTo(tab)
  }

  /**
   * A tab click never lands a signed-out user on a protected tab, so the
   * shell's protected-route effect has nothing to undo after it.
   */
  lemma TabClickKeepsGuard(signedIn: bool, tab: AppTab)
    ensures TabClick(signedIn, tab).SwitchTo? && !signedIn ==> TabClick(signedIn, tab).tab == Home
  {
  }

  /** What a click on a notification in the dropdown does. */
  datatype NotificationEffect = NotificationEffect(readId: string, dropdownOpen: bool)

  /** The click on a dropdown entry (Navbar.tsx:109). */
  function NotificationClick(n: AppNotification): (effect: NotificationEffect)
    ensures effect.readId == n.id && !effect.dropdownOpen
  {
    NotificationEffect(n.id, false)
  }

  /** After a click on the entry at `i`, that entry is read and, if it was unread, the count drops. */
  lemma ClickReadsEntry(ns: seq<AppNotification>, i: nat)
    requires i < |ns|
    ensures App.MarkRead(ns, NotificationClick(ns[i]).readId)[i].isRead
    ensures !ns[i].isRead ==> UnreadCount(App.MarkRead(ns, NotificationClick(ns[i]).readId)) < UnreadCount(ns)
  {
    if !ns[i].isRead {
      UnreadDropsOnRead(ns, ns[i].id, i);
    }
  }
}
