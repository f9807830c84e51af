/**
 * The application shell: the signed-in user, the active tab, the
 * notification list, the rooms a user asked to be told about, and the
 * simulated timers that later report those rooms live.
 */
module App {
  import opened Types
  import opened Seqs

  /** `n` with its `isRead` flag set when its id is `id`, untouched otherwise. */
  function MarkOne(n: AppNotification, id: string): AppNotification
  {
    if n.id == id then n.(isRead := true) else n
  }

  /** `handleReadNotification`'s update (App.tsx:82-84). */
  function MarkRead(ns: seq<AppNotification>, id: string): (r: seq<AppNotification>)
    ensures |r| == |ns|
    ensures forall i :: 0 <= i < |ns| ==> r[i].id == ns[i].id && (r[i].isRead <==> ns[i].isRead || ns[i].id == id)
    ensures forall i :: 0 <= i < |ns| ==> r[i] == ns[i].(isRead := r[i].isRead)
  {
    if ns == [] then []
    else MarkRead(ns[..|ns| - 1], id) + [MarkOne(ns[|ns| - 1], id)]
  }

  /** Marking the same id read twice is the same as marking it once. */
  lemma MarkReadIdempotent(ns: seq<AppNotification>, id: string)
    ensures MarkRead(MarkRead(ns, id), id) == MarkRead(ns, id)
  {
    var once := MarkRead(ns, id);
    var twice := MarkRead(once, id);
    assert forall i :: 0 <= i < |ns| ==> twice[i] == once[i];
  }

  /** A registry record as `localStorage` holds it: its email, its name and every other field. */
  datatype RegistryEntry = RegistryEntry(email: string, name: string, others: map<string, string>)

  /** `findIndex` of the first entry with this email (App.tsx:111). */
  function FindByEmail(registry: seq<RegistryEntry>, email: string): (found: Option<nat>)
    ensures found.None? <==> forall i :: 0 <= i < |registry| ==> registry[i].email != email
    ensures found.Some? ==>
      && found.value < |registry| && registry[found.value].email == email
      && forall i :: 0 <= i < found.value ==> registry[i].email != email
  {
    if registry == [] then None
    else if registry[0].email == email then Some(0)
    else match FindByEmail(registry[1..], email)
      case None => None
      case Some(k) => Some(k + 1)
  }

  /**
   * The registry rewrite in `handleUpdateProfile` (App.tsx:110-115): only
   * the name of the first entry with this email changes; its email and
   * other fields, and every other entry, stay as they were.
   */
  function UpdateRegistry(registry: seq<RegistryEntry>, email: string, name: string): (r: seq<RegistryEntry>)
    ensures |r| == |registry|
    ensures forall i :: 0 <= i < |registry| ==>
      if registry[i].email == email && forall j :: 0 <= j < i ==> registry[j].email != email
      then r[i] == RegistryEntry(email, name, registry[i].others)
      else r[i] == registry[i]
  {
    match FindByEmail(registry, email)
    case None => registry
    case Some(k) => registry[k := registry[k].(name := name)]
  }

  /** With no entry for this email, the registry is not rewritten. */
  lemma UpdateRegistryNoMatch(registry: seq<RegistryEntry>, email: string, name: string)
    requires forall i :: 0 <= i < |registry| ==> registry[i].email != email
    ensures UpdateRegistry(registry, email, name) == registry
  {
  }

  /** A second update with the same name changes nothing more. */
  lemma UpdateRegistryIdempotent(registry: seq<RegistryEntry>, email: string, name: string)
    ensures UpdateRegistry(UpdateRegistry(registry, email, name), email, name) == UpdateRegistry(registry, email, name)
  {
    var once := UpdateRegistry(registry, email, name);
    assert forall i :: 0 <= i < |registry| ==> once[i].email == registry[i].email;
  }

  /** No two rooms share an id. */
  predicate DistinctIds(rooms: seq<StudyGroup>)
  {
    forall i, j :: 0 <= i < j < |rooms| ==> rooms[i].id != rooms[j].id
  }

  function IsNot(id: string): string -> bool
  {
    (other: string) => other != id
  }

  /** The application's state. */
  class Shell {
    var activeTab: AppTab
    var currentUser: Option<User>
    var isAuthModalOpen: bool
    var isSettingsOpen: bool
    var activePeerChat: Option<Peer>
    var notifications: seq<AppNotification>
    var activeRoom: Option<StudyGroup>
    var notifiedRoomIds: seq<string>
    var roomsGoneLive: seq<string>
    /** The go-live timers `handleNotifyRoom` started and that have not fired yet, oldest first. */
    var pendingLive: seq<StudyGroup>
    /** The `peerpath_registry` list in local storage. */
    var registry: seq<RegistryEntry>

    /**
     * No room is waited for twice, and every running timer belongs to a
     * room still waited for, so each timer removes exactly its own room.
     */
    ghost predicate Valid()
      reads this
    {
      && NoDuplicates(notifiedRoomIds)
      && DistinctIds(pendingLive)
      && forall i :: 0 <= i < |pendingLive| ==> pendingLive[i].id in notifiedRoomIds
    }

    /** The state after the mount effect has read back what local storage held. */
    constructor (savedUser: Option<User>, savedNotifications: seq<AppNotification>, savedNotified: seq<string>, savedRegistry: seq<RegistryEntry>)
      requires NoDuplicates(savedNotified)
      ensures Valid()
      ensures activeTab == Home && currentUser == savedUser && !isAuthModalOpen && !isSettingsOpen
      ensures activePeerChat == None && activeRoom == None
      ensures notifications == savedNotifications && notifiedRoomIds == savedNotified
      ensures roomsGoneLive == [] && pendingLive == [] && registry == savedRegistry
    {
      activeTab := Home;
      currentUser := savedUser;
      isAuthModalOpen, isSettingsOpen := false, false;
      activePeerChat, activeRoom := None, None;
      notifications := savedNotifications;
      notifiedRoomIds := savedNotified;
      roomsGoneLive, pendingLive := [], [];
      registry := savedRegistry;
    }

    /** `addNotification` (App.tsx:71-79): `id` is the random id, `now` the clock. */
    method AddNotification(kind: NotificationType, title: string, message: string, link: Option<string>, id: string, now: Timestamp)
      modifies this`notifications
      ensures notifications == [AppNotification(id, kind, title, message, now, false, link)] + old(notifications)
    {
      notifications := [AppNotification(id, kind, title, message, now, false, link)] + notifications;
    }

    /** `handleClearNotifications` (App.tsx:81). */
    method ClearNotifications()
      modifies this`notifications
      ensures notifications == []
    {
      notifications := [];
    }

    /** `handleReadNotification` (App.tsx:82-84). */
    method ReadNotification(id: string)
      modifies this`notifications
      ensures notifications == MarkRead(old(notifications), id)
    {
      notifications := MarkRead(notifications, id);
    }

    /** The protected-route effect (App.tsx:51-61). */
    method EnforceProtectedRoute(id: string, now: Timestamp)
      modifies this`activeTab, this`isAuthModalOpen, this`notifications
      ensures currentUser.None? ==> activeTab == Home
      ensures if old(currentUser.None? && activeTab != Home) then
          && isAuthModalOpen
          && notifications == [AppNotification(id, Alert, "Authentication Required", "Please log in to access this feature.", now, false, None)] + old(notifications)
        else
          activeTab == old(activeTab) && isAuthModalOpen == old(isAuthModalOpen) && notifications == old(notifications)
    {
      if currentUser.None? && activeTab != Home {
        activeTab := Home;
        isAuthModalOpen := true;
        AddNotification(Alert, "Authentication Required", "Please log in to access this feature.", None, id, now);
      }
    }

    /** `handleUpdateProfile` (App.tsx:105-122). */
    method UpdateProfile(updatedUser: User, id: string, now: Timestamp)
      modifies this`currentUser, this`registry, this`notifications
      ensures currentUser == Some(updatedUser)
      ensures registry == UpdateRegistry(old(registry), updatedUser.email, updatedUser.name)
      ensures notifications == [AppNotification(id, Follow, "Profile Updated", "Your account settings have been successfully saved.", now, false, None)] + old(notifications)
    {
      currentUser := Some(updatedUser);
      var userIndex := FindByEmail(registry, updatedUser.email);
      if userIndex.Some? {
        var k := userIndex.value;
        registry := registry[k := registry[k].(name := updatedUser.name)];
      }
      AddNotification(Follow, "Profile Updated", "Your account settings have been successfully saved.", None, id, now);
    }

    /** `handleLogout` (App.tsx:124-131). */
    method Logout()
      modifies this`currentUser, this`activeTab, this`activePeerChat, this`activeRoom, this`isSettingsOpen
      ensures currentUser == None && activeTab == Home && activePeerChat == None && activeRoom == None && !isSettingsOpen
    {
      currentUser := None;
      activeTab := Home;
      activePeerChat := None;
      activeRoom := None;
      isSettingsOpen := false;
    }

    /** A tab of the bottom navigation bar is tapped (App.tsx:254-260). */
    method ClickMobileTab(tab: AppTab)
      modifies this`isAuthModalOpen, this`activeTab
      ensures currentUser.None? && tab != Home ==> isAuthModalOpen && activeTab == old(activeTab)
      ensures currentUser.Some? || tab == Home ==> activeTab == tab && isAuthModalOpen == old(isAuthModalOpen)
    {
      if currentUser.None? && tab != Home {
        isAuthModalOpen := true;
        return;
      }
      activeTab := tab;
    }

    /** `handleJoinGroup` (App.tsx:148-160). */
    method JoinGroup(group: StudyGroup, id: string, now: Timestamp)
      modifies this`isAuthModalOpen, this`activeRoom, this`notifications
      ensures old(currentUser).None? ==>
        isAuthModalOpen && activeRoom == old(activeRoom) && notifications == old(notifications)
      ensures old(currentUser).Some? ==>
        && isAuthModalOpen == old(isAuthModalOpen) && activeRoom == Some(group)
        && notifications == [AppNotification(id, Invite, "Room Entered", "You've joined \"" + group.title + "\". Stay focused!", now, false, None)] + old(notifications)
    {
      if currentUser.None? {
        isAuthModalOpen := true;
        return;
      }
      activeRoom := Some(group);
      AddNotification(Invite, "Room Entered", "You've joined \"" + group.title + "\". Stay focused!", None, id, now);
    }

    /**
     * `handleNotifyRoom` (App.tsx:162-176), up to starting its timer; the
     * timer is recorded in `pendingLive` and fires in `RoomGoesLive`.
     */
    method NotifyRoom(group: StudyGroup, id: string, now: Timestamp)
      requires Valid()
      modifies this`isAuthModalOpen, this`notifiedRoomIds, this`notifications, this`pendingLive
      ensures Valid()
      ensures old(currentUser).None? ==>
        isAuthModalOpen && notifiedRoomIds == old(notifiedRoomIds) && notifications == old(notifications)
        && pendingLive == old(pendingLive)
      ensures old(currentUser).Some? && group.id in old(notifiedRoomIds) ==>
        isAuthModalOpen == old(isAuthModalOpen) && notifiedRoomIds == old(notifiedRoomIds)
        && notifications == old(notifications) && pendingLive == old(pendingLive)
      ensures old(currentUser).Some? && group.id !in old(notifiedRoomIds) ==>
        && isAuthModalOpen == old(isAuthModalOpen)
        && notifiedRoomIds == old(notifiedRoomIds) + [group.id]
        && notifications == [AppNotification(id, Invite, "Notification Set", "We'll alert you when \"" + group.title + "\" goes live.", now, false, None)] + old(notifications)
        && pendingLive == old(pendingLive) + [group]
    {
      if currentUser.None? {
        isAuthModalOpen := true;
        return;
      }
      if group.id in notifiedRoomIds {
        return;
      }
      AppendNotified(group);
      AddNotification(Invite, "Notification Set", "We'll alert you when \"" + group.title + "\" goes live.", None, id, now);
    }

    /** Records that `group` is waited for and starts its timer. */
    method AppendNotified(group: StudyGroup)
      requires Valid() && group.id !in notifiedRoomIds
      modifies this`notifiedRoomIds, this`pendingLive
      ensures Valid()
      ensures notifiedRoomIds == old(notifiedRoomIds) + [group.id] && pendingLive == old(pendingLive) + [group]
    {
      notifiedRoomIds := notifiedRoomIds + [group.id];
      pendingLive := pendingLive + [group];
    }

    /** The go-live timer of `pendingLive[k]` fires (App.tsx:178-188). */
    method RoomGoesLive(k: nat, id: string, now: Timestamp)
      requires Valid() && k < |pendingLive|
      modifies this`notifiedRoomIds, this`roomsGoneLive, this`notifications, this`pendingLive
      ensures Valid()
      ensures var group := old(pendingLive[k]);
        && notifiedRoomIds == Filter(old(notifiedRoomIds), IsNot(group.id))
        && group.id !in notifiedRoomIds
        && roomsGoneLive == old(roomsGoneLive) + [group.id]
        && pendingLive == old(pendingLive[..k] + pendingLive[k + 1..])
        && notifications == [AppNotification(id, Invite, "Room Now Live!", "\"" + group.title + "\" is now active. Join your peers!", now, false, Some("groups"))] + old(notifications)
    {
      var group := pendingLive[k];
      RemovePending(k);
      roomsGoneLive := roomsGoneLive + [group.id];
      AddNotification(Invite, "Room Now Live!", "\"" + group.title + "\" is now active. Join your peers!", Some("groups"), id, now);
    }

    /** Drops the timer `pendingLive[k]` and its room from the waited-for list. */
    method RemovePending(k: nat)
      requires Valid() && k < |pendingLive|
      modifies this`notifiedRoomIds, this`pendingLive
      ensures Valid()
      ensures var group := old(pendingLive[k]);
        && notifiedRoomIds == Filter(old(notifiedRoomIds), IsNot(group.id))
        && group.id !in notifiedRoomIds
        && pendingLive == old(pendingLive[..k] + pendingLive[k + 1..])
    {
      var group := pendingLive[k];
      ghost var before := pendingLive;
      FilterIsSubsequence(notifiedRoomIds, IsNot(group.id));
      SubsequenceNoDuplicates(Filter(notifiedRoomIds, IsNot(group.id)), notifiedRoomIds);
      notifiedRoomIds := Filter(notifiedRoomIds, IsNot(group.id));
      pendingLive := pendingLive[..k] + pendingLive[k + 1..];
      RemovedIdsDistinct(before, k);
      forall i | 0 <= i < |pendingLive|
        ensures pendingLive[i].id in notifiedRoomIds
      {
        var j := if i < k then i else i + 1;
        assert pendingLive[i] == before[j];
        assert before[j].id != before[k].id;
      }
    }
  }

  /** Removing one timer keeps the ids of the rest distinct. */
  lemma RemovedIdsDistinct(rooms: seq<StudyGroup>, k: nat)
    requires k < |rooms| && DistinctIds(rooms)
    ensures DistinctIds(rooms[..k] + rooms[k + 1..])
  {
    var rest := rooms[..k] + rooms[k + 1..];
    forall i, j | 0 <= i < j < |rest|
      ensures rest[i].id != rest[j].id
    {
      var i' := if i < k then i else i + 1;
      var j' := if j < k then j else j + 1;
      assert rest[i] == rooms[i'] && rest[j] == rooms[j'];
    }
  }
}
