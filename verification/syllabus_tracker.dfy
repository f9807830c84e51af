/**
 * The syllabus tracker: the catalogue filtered by department and year, the
 * filtered items grouped by semester, and the set of topics marked complete
 * with a per-subject count.
 */
module SyllabusTracker {
  import opened Types
  import opened Strings
  import opened Seqs

  const Departments: seq<string> := ["CSE", "CSBS", "ECE", "EEE", "ME", "EE"]
  const Years: seq<string> := ["1st Year", "2nd Year", "3rd Year", "4th Year"]

  function InSelection(department: string, year: string): SyllabusItem -> bool
  {
    (item: SyllabusItem) => item.department == department && item.year == year
  }

  /** `filteredSyllabus` (SyllabusTracker.tsx:943-947). */
  function FilteredSyllabus(catalogue: seq<SyllabusItem>, department: string, year: string): (r: seq<SyllabusItem>)
    ensures forall item :: item in r <==> item in catalogue && item.department == department && item.year == year
    ensures IsSubsequence(r, catalogue)
  {
    FilterIsSubsequence(catalogue, InSelection(department, year));
    Filter(catalogue, InSelection(department, year))
  }

  /** Adds `topicId` to the set when absent, removes it when present. */
  function Toggle(completed: set<string>, topicId: string): (r: set<string>)
    ensures topicId in r <==> topicId !in completed
    ensures forall id :: id != topicId ==> (id in r <==> id in completed)
  {
    if topicId in completed then completed - {topicId} else completed + {topicId}
  }

  /** Toggling the same topic twice restores the set. */
  lemma ToggleTwice(completed: set<string>, topicId: string)
    ensures Toggle(Toggle(completed, topicId), topicId) == completed
  {
    assert forall id :: id in Toggle(Toggle(completed, topicId), topicId) <==> id in completed;
  }

  /** The key of topic `idx` of a subject: `${item.id}-${idx}`. */
  function TopicId(itemId: string, idx: nat): string
  {
    itemId + "-" + NatToString(idx)
  }

  /** `item.topics.map((_, idx) => TopicId(item.id, idx))`, for the first `n` topics. */
  function TopicIdsUpTo(itemId: string, n: nat): (r: seq<string>)
    ensures |r| == n
    ensures forall i :: 0 <= i < n ==> r[i] == TopicId(itemId, i)
  {
    if n == 0 then [] else TopicIdsUpTo(itemId, n - 1) + [TopicId(itemId, n - 1)]
  }

  function TopicIds(item: SyllabusItem): (r: seq<string>)
    ensures |r| == |item.topics|
  {
    TopicIdsUpTo(item.id, |item.topics|)
  }

  /** Different topics of one subject have different keys. */
  lemma TopicIdsDistinct(item: SyllabusItem)
    ensures NoDuplicates(TopicIds(item))
  {
    var ids := TopicIds(item);
    forall i, j | 0 <= i < j < |ids|
      ensures ids[i] != ids[j]
    {
      NatToStringInjective(i, j);
      var prefix := item.id + "-";
      assert ids[i] == prefix + NatToString(i) && ids[j] == prefix + NatToString(j);
      assert ids[i][|prefix|..] == NatToString(i);
      assert ids[j][|prefix|..] == NatToString(j);
    }
  }

  function IsCompleted(completed: set<string>): string -> bool
  {
    (id: string) => id in completed
  }

  /**
   * `completedCount` (SyllabusTracker.tsx:1053-1054): how many of the
   * subject's topic keys are in the completed set.
   */
  function CompletedCount(item: SyllabusItem, completed: set<string>): (count: nat)
    ensures count <= |item.topics|
    ensures count == |set id | id in TopicIds(item) && id in completed|
    ensures count == |item.topics| <==> forall i :: 0 <= i < |item.topics| ==> TopicId(item.id, i) in completed
  {
    var ids := TopicIds(item);
    TopicIdsDistinct(item);
    CompletedKeys(ids, completed);
    FilterKeepsAllIff(ids, IsCompleted(completed));
    AllTopicsCompleted(item, completed);
    |Filter(ids, IsCompleted(completed))|
  }

  /** The completed keys of a duplicate-free list are counted once each. */
  lemma CompletedKeys(ids: seq<string>, completed: set<string>)
    requires NoDuplicates(ids)
    ensures |Filter(ids, IsCompleted(completed))| == |set id | id in ids && id in completed|
  {
    var kept := Filter(ids, IsCompleted(completed));
    FilterIsSubsequence(ids, IsCompleted(completed));
    SubsequenceNoDuplicates(kept, ids);
    DistinctCardinality(kept);
    assert (set x | x in kept) == (set id | id in ids && id in completed);
  }

  /** Every topic key is completed exactly when every topic index's key is. */
  lemma AllTopicsCompleted(item: SyllabusItem, completed: set<string>)
    ensures (forall id :: id in TopicIds(item) ==> IsCompleted(completed)(id)) <==>
      forall i :: 0 <= i < |item.topics| ==> TopicId(item.id, i) in completed
  {
    var ids := TopicIds(item);
    if forall id :: id in ids ==> IsCompleted(completed)(id) {
      forall i | 0 <= i < |item.topics|
        ensures TopicId(item.id, i) in completed
      {
        assert ids[i] == TopicId(item.id, i);
        assert ids[i] in ids;
      }
    }
    if forall i :: 0 <= i < |item.topics| ==> TopicId(item.id, i) in completed {
      forall id | id in ids
        ensures IsCompleted(completed)(id)
      {
        var i :| 0 <= i < |ids| && ids[i] == id;
        assert ids[i] == TopicId(item.id, i);
      }
    }
  }

  /** Toggling one id changes the count of members of a duplicate-free list by one, when the list holds it. */
  lemma {:induction false} CountAfterToggle(ids: seq<string>, completed: set<string>, topicId: string)
    requires NoDuplicates(ids)
    ensures |Filter(ids, IsCompleted(Toggle(completed, topicId)))| ==
      |Filter(ids, IsCompleted(completed))| + (if topicId !in ids then 0 else if topicId in completed then -1 else 1)
  {
    if ids != [] {
      var init := ids[..|ids| - 1];
      var x := ids[|ids| - 1];
      assert NoDuplicates(init);
      assert ids == init + [x];
      FilterAppend(init, x, IsCompleted(Toggle(completed, topicId)));
      FilterAppend(init, x, IsCompleted(completed));
      if x == topicId {
        assert topicId !in init;
        FilterAgree(init, IsCompleted(Toggle(completed, topicId)), IsCompleted(completed));
      } else {
        CountAfterToggle(init, completed, topicId);
      }
    }
  }

  /** Ticking or unticking topic `k` of a subject moves its completed count by exactly one. */
  lemma ToggleTopicCount(item: SyllabusItem, completed: set<string>, k: nat)
    requires k < |item.topics|
    ensures CompletedCount(item, Toggle(completed, TopicId(item.id, k))) ==
      CompletedCount(item, completed) + (if TopicId(item.id, k) in completed then -1 else 1)
  {
    TopicIdsDistinct(item);
    assert TopicIds(item)[k] == TopicId(item.id, k);
    CountAfterToggle(TopicIds(item), completed, TopicId(item.id, k));
  }

  function InSemester(semester: string): SyllabusItem -> bool
  {
    (item: SyllabusItem) => item.semester == semester
  }

  /** Semester `s` occurs in `items` before the first occurrence of semester `t`. */
  ghost predicate SeenBefore(items: seq<SyllabusItem>, s: string, t: string)
  {
    exists a :: 0 <= a < |items| && items[a].semester == s && forall b :: 0 <= b <= a ==> items[b].semester != t
  }

  /** The distinct semesters of `items` in order of first occurrence: the key order of the grouping object. */
  function SemesterOrder(items: seq<SyllabusItem>): (r: seq<string>)
    ensures NoDuplicates(r)
    ensures forall s :: s in r <==> exists item :: item in items && item.semester == s
    ensures forall i, j :: 0 <= i < j < |r| ==> SeenBefore(items, r[i], r[j])
  {
    if items == [] then []
    else
      var init := items[..|items| - 1];
      var last := items[|items| - 1];
      assert forall item :: item in items <==> item in init || item == last;
      assert init + [last] == items;
      var earlier := SemesterOrder(init);
      SeenBeforeKept(init, last, earlier);
      if last.semester in earlier then earlier
      else
        SeenBeforeNew(init, last, earlier);
        earlier + [last.semester]
  }

  /** Appending an item keeps every earlier first-seen relation. */
  lemma SeenBeforeKept(init: seq<SyllabusItem>, last: SyllabusItem, earlier: seq<string>)
    requires forall i, j :: 0 <= i < j < |earlier| ==> SeenBefore(init, earlier[i], earlier[j])
    ensures forall i, j :: 0 <= i < j < |earlier| ==> SeenBefore(init + [last], earlier[i], earlier[j])
  {
    forall i, j | 0 <= i < j < |earlier|
      ensures SeenBefore(init + [last], earlier[i], earlier[j])
    {
      SeenBeforeExtends(init, last, earlier[i], earlier[j]);
    }
  }

  /** A first-seen relation between two semesters survives appending an item. */
  lemma SeenBeforeExtends(init: seq<SyllabusItem>, last: SyllabusItem, s: string, t: string)
    requires SeenBefore(init, s, t)
    ensures SeenBefore(init + [last], s, t)
  {
    var items := init + [last];
    var a :| 0 <= a < |init| && init[a].semester == s && forall b :: 0 <= b <= a ==> init[b].semester != t;
    forall b | 0 <= b <= a
      ensures items[b].semester != t
    {
      assert items[b] == init[b];
    }
    assert items[a].semester == s;
  }

  /** A semester new with the last item is seen after every semester seen before it. */
  lemma SeenBeforeNew(init: seq<SyllabusItem>, last: SyllabusItem, earlier: seq<string>)
    requires forall s :: s in earlier <==> exists item :: item in init && item.semester == s
    requires last.semester !in earlier
    ensures forall i :: 0 <= i < |earlier| ==> SeenBefore(init + [last], earlier[i], last.semester)
  {
    var items := init + [last];
    forall i | 0 <= i < |earlier|
      ensures SeenBefore(items, earlier[i], last.semester)
    {
      assert earlier[i] in earlier;
      var item :| item in init && item.semester == earlier[i];
      var a :| 0 <= a < |init| && init[a] == item;
      forall b | 0 <= b <= a
        ensures items[b].semester != last.semester
      {
        assert items[b] == init[b];
        assert init[b] in init;
      }
      assert items[a].semester == earlier[i];
    }
  }

  /**
   * `groups` is the grouping of `items` by semester: one non-empty bucket per
   * semester, keyed in first-occurrence order, each holding that semester's
   * items in their original order.
   */
  ghost predicate Grouped(items: seq<SyllabusItem>, semesters: seq<string>, groups: map<string, seq<SyllabusItem>>)
  {
    && semesters == SemesterOrder(items)
    && (forall s :: s in groups <==> s in semesters)
    && forall s :: s in groups ==> groups[s] == Filter(items, InSemester(s)) && groups[s] != []
  }

  /** Appending one item adds it at the end of its own semester's bucket only. */
  lemma FilterSemesterAppend(items: seq<SyllabusItem>, item: SyllabusItem, groups: map<string, seq<SyllabusItem>>)
    requires forall s :: s in groups ==> groups[s] == Filter(items, InSemester(s))
    ensures forall s :: s in groups ==>
      Filter(items + [item], InSemester(s)) == groups[s] + (if s == item.semester then [item] else [])
  {
    forall s | s in groups
      ensures Filter(items + [item], InSemester(s)) == groups[s] + (if s == item.semester then [item] else [])
    {
      FilterAppend(items, item, InSemester(s));
    }
  }

  /** Appending one item adds its semester at the end of the key order, unless it is already there. */
  lemma SemesterOrderAppend(items: seq<SyllabusItem>, item: SyllabusItem)
    ensures SemesterOrder(items + [item]) ==
      if item.semester in SemesterOrder(items) then SemesterOrder(items) else SemesterOrder(items) + [item.semester]
  {
    var all := items + [item];
    assert all[..|all| - 1] == items;
  }

  /** A semester absent from the keys has no items. */
  lemma FilterAbsentSemester(items: seq<SyllabusItem>, semester: string)
    requires semester !in SemesterOrder(items)
    ensures Filter(items, InSemester(semester)) == []
  {
  }

  /** The buckets after a pass of the `forEach` body for a semester not seen yet. */
  lemma BucketsAfterNew(items: seq<SyllabusItem>, item: SyllabusItem, semesters: seq<string>, groups: map<string, seq<SyllabusItem>>)
    requires Grouped(items, semesters, groups) && item.semester !in groups
    ensures var groups' := groups[item.semester := [item]];
      forall s :: s in groups' ==> groups'[s] == Filter(items + [item], InSemester(s))
  {
    var groups' := groups[item.semester := [item]];
    assert Filter(items + [item], InSemester(item.semester)) == [item] by {
      FilterAbsentSemester(items, item.semester);
      FilterAppend(items, item, InSemester(item.semester));
    }
    assert forall s :: s in groups ==> groups'[s] == Filter(items + [item], InSemester(s)) by {
      FilterSemesterAppend(items, item, groups);
    }
  }

  /** The buckets after a pass of the `forEach` body for a semester already seen. */
  lemma BucketsAfterOld(items: seq<SyllabusItem>, item: SyllabusItem, semesters: seq<string>, groups: map<string, seq<SyllabusItem>>)
    requires Grouped(items, semesters, groups) && item.semester in groups
    ensures var groups' := groups[item.semester := groups[item.semester] + [item]];
      forall s :: s in groups' ==> groups'[s] == Filter(items + [item], InSemester(s))
  {
    FilterSemesterAppend(items, item, groups);
  }

  /** One pass of the `forEach` body for a semester not seen yet opens its bucket. */
  lemma GroupedStepNew(items: seq<SyllabusItem>, item: SyllabusItem, semesters: seq<string>, groups: map<string, seq<SyllabusItem>>)
    requires Grouped(items, semesters, groups) && item.semester !in groups
    ensures Grouped(items + [item], semesters + [item.semester], groups[item.semester := [item]])
  {
    SemesterOrderAppend(items, item);
    BucketsAfterNew(items, item, semesters, groups);
  }

  /** One pass of the `forEach` body for a semester already seen extends its bucket. */
  lemma GroupedStepOld(items: seq<SyllabusItem>, item: SyllabusItem, semesters: seq<string>, groups: map<string, seq<SyllabusItem>>)
    requires Grouped(items, semesters, groups) && item.semester in groups
    ensures Grouped(items + [item], semesters, groups[item.semester := groups[item.semester] + [item]])
  {
    SemesterOrderAppend(items, item);
    BucketsAfterOld(items, item, semesters, groups);
  }

  /** `groupedBySemester` (SyllabusTracker.tsx:961-970). */
  method GroupBySemester(items: seq<SyllabusItem>) returns (semesters: seq<string>, groups: map<string, seq<SyllabusItem>>)
    ensures Grouped(items, semesters, groups)
    ensures groups == map[] <==> items == []
  {
    semesters := [];
    groups := map[];
    var i := 0;
    while i < |items|
      invariant 0 <= i <= |items|
      invariant Grouped(items[..i], semesters, groups)
    {
      var item := items[i];
      assert items[..i + 1] == items[..i] + [item];
      if item.semester !in groups {
        GroupedStepNew(items[..i], item, semesters, groups);
        groups := groups[item.semester := [item]];
        semesters := semesters + [item.semester];
      } else {
        GroupedStepOld(items[..i], item, semesters, groups);
        groups := groups[item.semester := groups[item.semester] + [item]];
      }
      i := i + 1;
    }
    assert items[..i] == items;
    if items != [] {
      assert items[0].semester in SemesterOrder(items);
      assert items[0].semester in groups;
    } else {
      assert groups.Keys == {};
    }
  }

  /** "No Syllabus Available" is shown exactly when nothing matches the selection (SyllabusTracker.tsx:1038). */
  method ShowsNoSyllabus(catalogue: seq<SyllabusItem>, department: string, year: string) returns (empty: bool)
    ensures empty <==> forall item :: item in catalogue ==> !(item.department == department && item.year == year)
  {
    var semesters, groups := GroupBySemester(FilteredSyllabus(catalogue, department, year));
    empty := |groups| == 0;
    if !empty {
      var f := FilteredSyllabus(catalogue, department, year);
      assert f[0] in f;
    }
  }

  /** The tracker's state: the selection and the topics marked complete. */
  class Tracker {
    var selectedDepartment: string
    var selectedYear: string
    var completedTopics: set<string>

    constructor ()
      ensures selectedDepartment == "CSE" && selectedYear == "3rd Year" && completedTopics == {}
    {
      selectedDepartment := "CSE";
      selectedYear := "3rd Year";
      completedTopics := {};
    }

    /** `toggleTopicCompletion` (SyllabusTracker.tsx:949-959). */
    method ToggleTopicCompletion(topicId: string)
      modifies this`completedTopics
      ensures completedTopics == Toggle(old(completedTopics), topicId)
    {
      var next := completedTopics;
      if topicId in next {
        next := next - {topicId};
      } else {
        next := next + {topicId};
      }
      completedTopics := next;
    }
  }
}
