/**
 * Study rooms: the searchable, filterable list, the dialog that opens a room
 * live or schedules it, and the button on each card that joins a live room
 * or asks to be told when it goes live.
 */
module StudyGroups {
  import opened Types
  import opened Strings
  import opened Seqs

  const Filters: seq<string> := ["All", "CSE", "CSBS", "ECE", "EEE", "ME", "EE", "Live Only"]

  /** `isActuallyLive`: live from the start, or reported live since. */
  predicate IsActuallyLive(group: StudyGroup, roomsGoneLive: seq<string>)
  {
    group.isLive || group.id in roomsGoneLive
  }

  /** `matchesSearch` (StudyGroups.tsx:37-38). */
  predicate MatchesSearch(group: StudyGroup, searchTerm: string)
  {
    Contains(ToLower(group.title), ToLower(searchTerm)) || Contains(ToLower(group.subject), ToLower(searchTerm))
  }

  /** `matchesFilter` (StudyGroups.tsx:39-44). */
  predicate MatchesFilter(group: StudyGroup, activeFilter: string, roomsGoneLive: seq<string>)
  {
    if activeFilter == "All" then true
    else if activeFilter == "Live Only" then IsActuallyLive(group, roomsGoneLive)
    else group.subject == activeFilter
  }

  function Shown(searchTerm: string, activeFilter: string, roomsGoneLive: seq<string>): StudyGroup -> bool
  {
    (g: StudyGroup) => MatchesSearch(g, searchTerm) && MatchesFilter(g, activeFilter, roomsGoneLive)
  }

  /** `filteredGroups` (StudyGroups.tsx:36-46). */
  function FilteredGroups(groups: seq<StudyGroup>, searchTerm: string, activeFilter: string, roomsGoneLive: seq<string>): (r: seq<StudyGroup>)
    ensures forall g :: g in r <==> g in groups && MatchesSearch(g, searchTerm) && MatchesFilter(g, activeFilter, roomsGoneLive)
    ensures IsSubsequence(r, groups)
  {
    FilterIsSubsequence(groups, Shown(searchTerm, activeFilter, roomsGoneLive));
    Filter(groups, Shown(searchTerm, activeFilter, roomsGoneLive))
  }

  /** The three kinds of filter: everything, the live rooms, or one subject. */
  lemma FilterKinds(g: StudyGroup, activeFilter: string, roomsGoneLive: seq<string>)
    ensures activeFilter == "All" ==> MatchesFilter(g, activeFilter, roomsGoneLive)
    ensures activeFilter == "Live Only" ==>
      (MatchesFilter(g, activeFilter, roomsGoneLive) <==> g.isLive || g.id in roomsGoneLive)
    ensures activeFilter != "All" && activeFilter != "Live Only" ==>
      (MatchesFilter(g, activeFilter, roomsGoneLive) <==> g.subject == activeFilter)
  {
  }

  /**
   * A title of Unicode spaces only is blank for `trim` (StudyGroups.tsx:49),
   * so no room is created for it; any other character makes it non-blank.
   */
  lemma BlankTitles()
    ensures IsBlank("\U{3000}") && IsBlank(" \U{00A0}\U{2003}\U{1680}\t")
    ensures !IsBlank(" a ") && !IsBlank("\U{200B}")
  {
    assert " a "[1] == 'a';
    assert "\U{200B}"[0] == '\U{200B}';
  }

  /** With the "All" filter and an empty search every room is listed. */
  lemma EverythingListed(groups: seq<StudyGroup>, roomsGoneLive: seq<string>)
    ensures FilteredGroups(groups, "", "All", roomsGoneLive) == groups
  {
    forall g | g in groups
      ensures Shown("", "All", roomsGoneLive)(g)
    {
      assert ToLower("") == "";
    }
    FilterKeepsAll(groups, Shown("", "All", roomsGoneLive));
  }

  /** Which callback a room card's button, or a newly created room, calls. */
  datatype RoomAction = Join(group: StudyGroup) | Notify(group: StudyGroup) | NoAction

  /** `handleGroupAction` (StudyGroups.tsx:84-91). */
  function GroupAction(group: StudyGroup, roomsGoneLive: seq<string>): (action: RoomAction)
    ensures action.Join? <==> IsActuallyLive(group, roomsGoneLive)
    ensures action.Join? || action.Notify?
    ensures action != NoAction ==> action.group == group
  {
    if IsActuallyLive(group, roomsGoneLive) then Join(group) else Notify(group)
  }

  /** The room list and the creation dialog. */
  class Rooms {
    var groups: seq<StudyGroup>
    var activeFilter: string
    var searchTerm: string
    var isCreateModalOpen: bool
    var showScheduler: bool
    var newTitle: string
    var newSubject: string
    var customTime: string

    /** `groups` holds the sample rooms the page starts with. */
    constructor (initial: seq<StudyGroup>)
      ensures groups == initial && activeFilter == "All" && searchTerm == ""
      ensures !isCreateModalOpen && !showScheduler && newTitle == "" && newSubject == "CSE" && customTime == ""
    {
      groups := initial;
      activeFilter := "All";
      searchTerm := "";
      isCreateModalOpen := false;
      showScheduler := false;
      newTitle, newSubject, customTime := "", "CSE", "";
    }

    /**
     * `handleCreateRoom` (StudyGroups.tsx:48-72). `id` is the random id and
     * `scheduled` the parse of `customTime`; the result is the callback the
     * new room is handed to.
     */
    method CreateRoom(isLiveNow: bool, id: string, scheduled: Timestamp) returns (action: RoomAction)
      modifies this
      ensures activeFilter == old(activeFilter) && searchTerm == old(searchTerm)
      ensures IsBlank(old(newTitle)) ==>
        action == NoAction && groups == old(groups) && isCreateModalOpen == old(isCreateModalOpen)
        && showScheduler == old(showScheduler) && newTitle == old(newTitle)
        && newSubject == old(newSubject) && customTime == old(customTime)
      ensures !IsBlank(old(newTitle)) ==>
        var room := StudyGroup(id, old(newTitle), "Collaborative session for " + old(newSubject) + " students.", 1,
                               old(newSubject), isLiveNow,
                               if !isLiveNow && old(customTime) != "" then Some(scheduled) else None, None);
        && groups == [room] + old(groups)
        && !isCreateModalOpen && !showScheduler && newTitle == "" && newSubject == "CSE" && customTime == ""
        && action == (if isLiveNow then Join(room) else Notify(room))
    {
      if IsBlank(newTitle) {
        return NoAction;
      }
      var scheduledDate := if !isLiveNow && customTime != "" then Some(scheduled) else None;
      var room := StudyGroup(id, newTitle, "Collaborative session for " + newSubject + " students.", 1,
                             newSubject, isLiveNow, scheduledDate, None);
      groups := [room] + groups;
      isCreateModalOpen := false;
      ResetForm();
      action := if isLiveNow then Join(room) else Notify(room);
    }

    /** `resetForm` (StudyGroups.tsx:74-77). */
    method ResetForm()
      modifies this`newTitle, this`newSubject, this`customTime, this`showScheduler
      ensures newTitle == "" && newSubject == "CSE" && customTime == "" && !showScheduler
    {
      newTitle, newSubject, customTime := "", "CSE", "";
      showScheduler := false;
    }

    /** `handleCloseModal` (StudyGroups.tsx:79-82). */
    method CloseModal()
      modifies this`isCreateModalOpen, this`newTitle, this`newSubject, this`customTime, this`showScheduler
      ensures !isCreateModalOpen && newTitle == "" && newSubject == "CSE" && customTime == "" && !showScheduler
    {
      isCreateModalOpen := false;
      ResetForm();
    }
  }
}
