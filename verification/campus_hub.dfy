/** The campus events page: a fixed list of six events, filtered by category and search. */
module CampusHub {
  import opened Strings
  import opened Seqs

  /** An event card (the `CampusEvent` record of CampusHub.tsx, without its image URL). */
  datatype CampusEvent = CampusEvent(
    id: string,
    title: string,
    category: string,
    description: string,
    date: string,
    location: string,
    participants: int,
    hostedBy: string,
    status: string)

  const Categories: seq<string> := ["All", "Hackathon", "Championship", "Tech Fest", "Function", "Workshop"]

  /** The listed events (CampusHub.tsx:22-95). */
  const Events: seq<CampusEvent> := [
    CampusEvent("e1", "AOT Hack-O-Future 2024", "Hackathon",
      "The flagship inter-departmental hackathon focused on sustainable campus solutions. Show your coding prowess!",
      "Oct 24 - 26, 2024", "Main Auditorium & CS Lab 1", 120, "AOT Coding Club", "Upcoming"),
    CampusEvent("e2", "Checkmate: Annual Chess Championship", "Championship",
      "Battle of the minds. The annual AOT Chess tournament to crown the Grandmaster of Campus.",
      "Sept 15, 2024", "Student Activity Center", 64, "AOT Sports Wing", "Live"),
    CampusEvent("e3", "Arcadia 24: Mega Tech Fest", "Tech Fest",
      "The biggest tech festival of AOT. Robotics, coding contests, and keynote sessions from industry leaders.",
      "Nov 12 - 14, 2024", "Entire Campus", 2500, "AOT Student Council", "Upcoming"),
    CampusEvent("e6", "AOT Hackathon 2.0 (Junior Edition)", "Hackathon",
      "Specially organized for 1st and 2nd-year students to jumpstart their building journey.",
      "Dec 05, 2024", "Block D, IT Labs", 80, "Department Peers", "Upcoming"),
    CampusEvent("e4", "Monsoon Induction Meet", "Function",
      "Common function for all departments to welcome the new batch and celebrate campus culture.",
      "Aug 30, 2024", "Main Playground Stage", 1500, "AOT Administration", "Upcoming"),
    CampusEvent("e5", "Inter-Departmental Cricket Cup", "Championship",
      "Final championship match between CSE and ECE departments.",
      "Sept 20, 2024", "AOT Cricket Ground", 300, "AOT Sports Wing", "Upcoming")
  ]

  /** `matchesCategory && matchesSearch` (CampusHub.tsx:100-102). */
  predicate EventMatches(e: CampusEvent, activeCategory: string, searchTerm: string)
  {
    && (activeCategory == "All" || e.category == activeCategory)
    && (Contains(ToLower(e.title), ToLower(searchTerm)) || Contains(ToLower(e.description), ToLower(searchTerm)))
  }

  function Matching(activeCategory: string, searchTerm: string): CampusEvent -> bool
  {
    (e: CampusEvent) => EventMatches(e, activeCategory, searchTerm)
  }

  /** `filteredEvents` (CampusHub.tsx:99-104), over any list of events. */
  function FilterEvents(events: seq<CampusEvent>, activeCategory: string, searchTerm: string): (r: seq<CampusEvent>)
    ensures forall e :: e in r <==> e in events && EventMatches(e, activeCategory, searchTerm)
    ensures IsSubsequence(r, events)
  {
    FilterIsSubsequence(events, Matching(activeCategory, searchTerm));
    Filter(events, Matching(activeCategory, searchTerm))
  }

  function FilteredEvents(activeCategory: string, searchTerm: string): seq<CampusEvent>
  {
    FilterEvents(Events, activeCategory, searchTerm)
  }

  /** With "All" and an empty search, the page lists all six events in order. */
  lemma AllEventsListed()
    ensures FilteredEvents("All", "") == Events && |FilteredEvents("All", "")| == 6
  {
    EmptySearchKeepsAll(Events);
  }

  /** "All" with an empty search keeps every event of any list. */
  lemma EmptySearchKeepsAll(events: seq<CampusEvent>)
    ensures FilterEvents(events, "All", "") == events
  {
    assert ToLower("") == "";
    forall e | e in events
      ensures Matching("All", "")(e)
    {
      assert "" <= ToLower(e.title);
    }
    FilterKeepsAll(events, Matching("All", ""));
  }

  /** The category of each listed event. */
  lemma EventCategories()
    ensures forall e :: e in Events ==> e.category in {"Hackathon", "Championship", "Tech Fest", "Function"}
  {
    var cats := seq(|Events|, i requires 0 <= i < |Events| => Events[i].category);
    assert cats == ["Hackathon", "Championship", "Tech Fest", "Hackathon", "Function", "Championship"];
  }

  /** No listed event is a workshop, so the "Workshop" chip always shows an empty page. */
  lemma NoWorkshops(searchTerm: string)
    ensures FilteredEvents("Workshop", searchTerm) == []
  {
    EventCategories();
    forall e | e in Events
      ensures !Matching("Workshop", searchTerm)(e)
    {
    }
    FilterDropsAll(Events, Matching("Workshop", searchTerm));
  }
}
