/**
 * Automatic story selection of sprint planning: one greedy pass over the
 * backlog in priority order, taking every story whose status is "backlog"
 * and whose points fit into what is left of the capacity. There is no
 * backtracking, so the result is not an optimal packing.
 */
module Greedy {
  import opened Stories
  import Wrappers
  import PrioritySort

  /** The test applied to each story: it fits the points left, and it is still in the backlog. */
  predicate Takes(story: UserStory, available: int) {
    story.storyPoints <= available && story.status == BACKLOG
  }

  /** The points left just before the story at position `k` of `s` is examined. */
  function AvailableBefore(s: seq<UserStory>, capacity: int, k: nat): int
    requires k <= |s|
  {
    if k == 0 then capacity
    else
      var available := AvailableBefore(s, capacity, k - 1);
      if Takes(s[k - 1], available) then available - s[k - 1].storyPoints else available
  }

  /** The positions of `s`, among the first `k`, that the pass selects, in the order selected. */
  function Chosen(s: seq<UserStory>, capacity: int, k: nat): (r: seq<nat>)
    requires k <= |s|
    ensures forall j | 0 <= j < |r| :: r[j] < k
  {
    if k == 0 then []
    else if Takes(s[k - 1], AvailableBefore(s, capacity, k - 1)) then Chosen(s, capacity, k - 1) + [k - 1]
    else Chosen(s, capacity, k - 1)
  }

  predicate Within(s: seq<UserStory>, p: seq<nat>) {
    forall j | 0 <= j < |p| :: p[j] < |s|
  }

  function IdsAt(s: seq<UserStory>, p: seq<nat>): (ids: seq<string>)
    requires Within(s, p)
    ensures |ids| == |p|
  {
    seq(|p|, j requires 0 <= j < |p| => s[p[j]].id)
  }

  /** Sum of the story points of the stories at positions `p`. */
  function PointsAt(s: seq<UserStory>, p: seq<nat>): int
    requires Within(s, p)
  {
    if p == [] then 0 else PointsAt(s, p[..|p| - 1]) + s[p[|p| - 1]].storyPoints
  }

  /** Identifiers the greedy pass over `s` selects. */
  function GreedyIds(s: seq<UserStory>, capacity: int): seq<string> {
    IdsAt(s, Chosen(s, capacity, |s|))
  }

  /** Identifiers selected when planning is given no explicit list: the pass over the priority-sorted backlog. */
  function AutoSelect(backlog: seq<UserStory>, capacity: int): seq<string> {
    GreedyIds(PrioritySort.SortByPriority(backlog), capacity)
  }

  /** The selection loop of sprint planning, over the already sorted backlog. */
  method SelectStories(sorted: seq<UserStory>, capacity: int) returns (selected: seq<string>)
    ensures selected == GreedyIds(sorted, capacity)
  {
    var available := capacity;
    selected := [];
    for i := 0 to |sorted|
      invariant available == AvailableBefore(sorted, capacity, i)
      invariant selected == IdsAt(sorted, Chosen(sorted, capacity, i))
    {
      var story := sorted[i];
      if story.storyPoints <= available && story.status == BACKLOG {
        selected := selected + [story.id];
        available := available - story.storyPoints;
      }
    }
  }

  /** A position is selected exactly when, at the moment it was examined, its story was eligible and fitted. */
  lemma {:induction false} ChosenIff(s: seq<UserStory>, capacity: int, n: nat, k: nat)
    requires k < n <= |s|
    ensures k in Chosen(s, capacity, n) <==> Takes(s[k], AvailableBefore(s, capacity, k))
  {
    if k < n - 1 {
      ChosenIff(s, capacity, n - 1, k);
    }
  }

  /** Selected positions are strictly increasing: stories are selected in the order examined. */
  lemma {:induction false} ChosenIncreasing(s: seq<UserStory>, capacity: int, n: nat)
    requires n <= |s|
    ensures forall i, j | 0 <= i < j < |Chosen(s, capacity, n)| :: Chosen(s, capacity, n)[i] < Chosen(s, capacity, n)[j]
  {
    if n > 0 {
      ChosenIncreasing(s, capacity, n - 1);
    }
  }

  /**
   * The points selected are the capacity minus the points left, and once
   * anything is selected the points left are never negative.
   */
  lemma {:induction false} PointsAccounted(s: seq<UserStory>, capacity: int, n: nat)
    requires n <= |s|
    ensures PointsAt(s, Chosen(s, capacity, n)) == capacity - AvailableBefore(s, capacity, n)
    ensures Chosen(s, capacity, n) != [] ==> AvailableBefore(s, capacity, n) >= 0
  {
    if n > 0 {
      PointsAccounted(s, capacity, n - 1);
      var c := Chosen(s, capacity, n - 1);
      if Takes(s[n - 1], AvailableBefore(s, capacity, n - 1)) {
        assert (c + [n - 1])[..|c|] == c;
      }
    }
  }

  /** The selected stories never exceed the capacity (unless the capacity is negative and nothing is selected). */
  lemma CapacityRespected(s: seq<UserStory>, capacity: int)
    ensures capacity >= 0 || Chosen(s, capacity, |s|) != [] ==> PointsAt(s, Chosen(s, capacity, |s|)) <= capacity
  {
    PointsAccounted(s, capacity, |s|);
  }

  /** Only stories whose status is "backlog" are selected. */
  lemma OnlyEligibleSelected(s: seq<UserStory>, capacity: int)
    ensures forall j | 0 <= j < |Chosen(s, capacity, |s|)| :: s[Chosen(s, capacity, |s|)[j]].status == BACKLOG
  {
    var c := Chosen(s, capacity, |s|);
    forall j | 0 <= j < |c| ensures s[c[j]].status == BACKLOG {
      ChosenIff(s, capacity, |s|, c[j]);
    }
  }

  /** An eligible story that was skipped did not fit the points left when it was examined. */
  lemma SkippedDidNotFit(s: seq<UserStory>, capacity: int, k: nat)
    requires k < |s| && s[k].status == BACKLOG && k !in Chosen(s, capacity, |s|)
    ensures s[k].storyPoints > AvailableBefore(s, capacity, k)
  {
    ChosenIff(s, capacity, |s|, k);
  }

  lemma {:induction false} AvailableNeverGrows(s: seq<UserStory>, capacity: int, k: nat, n: nat)
    requires k <= n <= |s|
    requires forall j | 0 <= j < |s| :: s[j].storyPoints >= 0
    ensures AvailableBefore(s, capacity, n) <= AvailableBefore(s, capacity, k)
  {
    if k < n {
      AvailableNeverGrows(s, capacity, k, n - 1);
    }
  }

  /**
   * With non-negative story points the selection is maximal: adding any
   * skipped eligible story to it would exceed the capacity.
   */
  lemma SelectionIsMaximal(s: seq<UserStory>, capacity: int, k: nat)
    requires forall j | 0 <= j < |s| :: s[j].storyPoints >= 0
    requires k < |s| && s[k].status == BACKLOG && k !in Chosen(s, capacity, |s|)
    ensures PointsAt(s, Chosen(s, capacity, |s|)) + s[k].storyPoints > capacity
  {
    SkippedDidNotFit(s, capacity, k);
    AvailableNeverGrows(s, capacity, k, |s|);
    PointsAccounted(s, capacity, |s|);
  }

  /** The backlog positions automatic selection picks, in the order it picks them. */
  function SelectedPositions(backlog: seq<UserStory>, capacity: int): (q: seq<nat>)
    ensures Within(backlog, q)
  {
    var p := PrioritySort.SortedPositions(backlog, |backlog|);
    var c := Chosen(PrioritySort.SortByPriority(backlog), capacity, |backlog|);
    seq(|c|, j requires 0 <= j < |c| => p[c[j]])
  }

  lemma {:induction false} PointsAtAgree(s: seq<UserStory>, p: seq<nat>, t: seq<UserStory>, q: seq<nat>)
    requires Within(s, p) && Within(t, q) && |p| == |q|
    requires forall j | 0 <= j < |p| :: s[p[j]].storyPoints == t[q[j]].storyPoints
    ensures PointsAt(s, p) == PointsAt(t, q)
  {
    if p != [] {
      PointsAtAgree(s, p[..|p| - 1], t, q[..|q| - 1]);
    }
  }

  /** The selected positions of the sorted backlog and of the backlog name the same stories. */
  lemma SelectedAligned(backlog: seq<UserStory>, capacity: int)
    ensures var sorted := PrioritySort.SortByPriority(backlog);
      var c := Chosen(sorted, capacity, |backlog|);
      var q := SelectedPositions(backlog, capacity);
      |c| == |q| && Within(sorted, c) &&
      forall j | 0 <= j < |c| :: sorted[c[j]] == backlog[q[j]]
  {
  }

  lemma SelectedIds(backlog: seq<UserStory>, capacity: int)
    ensures AutoSelect(backlog, capacity) == IdsAt(backlog, SelectedPositions(backlog, capacity))
  {
    SelectedAligned(backlog, capacity);
  }

  lemma SelectedEligible(backlog: seq<UserStory>, capacity: int)
    ensures forall j | 0 <= j < |SelectedPositions(backlog, capacity)| ::
      backlog[SelectedPositions(backlog, capacity)[j]].status == BACKLOG
  {
    SelectedAligned(backlog, capacity);
    OnlyEligibleSelected(PrioritySort.SortByPriority(backlog), capacity);
  }

  lemma SelectedInOrder(backlog: seq<UserStory>, capacity: int)
    ensures forall j, k | 0 <= j < k < |SelectedPositions(backlog, capacity)| ::
      PrioritySort.Before(backlog, SelectedPositions(backlog, capacity)[j], SelectedPositions(backlog, capacity)[k])
  {
    ChosenIncreasing(PrioritySort.SortByPriority(backlog), capacity, |backlog|);
    PrioritySort.SortedPositionsInOrder(backlog, |backlog|);
  }

  lemma SelectedWithinCapacity(backlog: seq<UserStory>, capacity: int)
    ensures capacity >= 0 || SelectedPositions(backlog, capacity) != [] ==>
      PointsAt(backlog, SelectedPositions(backlog, capacity)) <= capacity
  {
    var sorted := PrioritySort.SortByPriority(backlog);
    SelectedAligned(backlog, capacity);
    CapacityRespected(sorted, capacity);
    PointsAtAgree(sorted, Chosen(sorted, capacity, |backlog|), backlog, SelectedPositions(backlog, capacity));
  }

  /**
   * Automatic selection stated on the backlog itself: it selects the
   * identifiers of distinct backlog positions, all with status "backlog",
   * taken by ascending priority with ties in backlog order, whose points sum
   * to at most the capacity.
   */
  lemma AutoSelectOnBacklog(backlog: seq<UserStory>, capacity: int)
    ensures AutoSelect(backlog, capacity) == IdsAt(backlog, SelectedPositions(backlog, capacity))
    ensures forall j | 0 <= j < |SelectedPositions(backlog, capacity)| ::
      backlog[SelectedPositions(backlog, capacity)[j]].status == BACKLOG
    ensures forall j, k | 0 <= j < k < |SelectedPositions(backlog, capacity)| ::
      PrioritySort.Before(backlog, SelectedPositions(backlog, capacity)[j], SelectedPositions(backlog, capacity)[k])
    ensures capacity >= 0 || SelectedPositions(backlog, capacity) != [] ==>
      PointsAt(backlog, SelectedPositions(backlog, capacity)) <= capacity
  {
    SelectedIds(backlog, capacity);
    SelectedEligible(backlog, capacity);
    SelectedInOrder(backlog, capacity);
    SelectedWithinCapacity(backlog, capacity);
  }

  /** The backlog of the planning scenario: points 10, 15, 20 at priorities 1, 2, 3. */
  const ScenarioBacklog: seq<UserStory> := [
    UserStory("US-001", "Feature 1", "Description 1", ["AC1"], 10, 1, BACKLOG, Wrappers.None),
    UserStory("US-002", "Feature 2", "Description 2", ["AC2"], 15, 2, BACKLOG, Wrappers.None),
    UserStory("US-003", "Feature 3", "Description 3", ["AC3"], 20, 3, BACKLOG, Wrappers.None)
  ]

  /** With capacity 40 exactly the first two stories are selected (25 points); the third no longer fits. */
  lemma ScenarioSelectsFirstTwo()
    ensures AutoSelect(ScenarioBacklog, 40) == ["US-001", "US-002"]
  {
    var b := ScenarioBacklog;
    assert PrioritySort.SortedPositions(b, 1) == [0];
    assert PrioritySort.SortedPositions(b, 2) == [0, 1];
    assert PrioritySort.Insert(b, 2, [1]) == [1, 2];
    assert PrioritySort.SortedPositions(b, 3) == [0, 1, 2];
    var sorted := PrioritySort.SortByPriority(b);
    assert sorted == b;
    assert AvailableBefore(b, 40, 1) == 30;
    assert AvailableBefore(b, 40, 2) == 15;
    assert Chosen(b, 40, 1) == [0];
    assert Chosen(b, 40, 2) == [0, 1];
    assert !Takes(b[2], 15);
    assert Chosen(b, 40, 3) == [0, 1];
  }

  /**
   * The pass is greedy, not optimal: with points 30, 20, 20 and capacity 40
   * only the first story is selected, although the other two together fill
   * the capacity exactly.
   */
  lemma GreedyIsNotOptimal()
    ensures
      var b := [
        UserStory("US-001", "A", "", [], 30, 1, BACKLOG, Wrappers.None),
        UserStory("US-002", "B", "", [], 20, 2, BACKLOG, Wrappers.None),
        UserStory("US-003", "C", "", [], 20, 3, BACKLOG, Wrappers.None)];
      AutoSelect(b, 40) == ["US-001"] && PointsAt(b, [1, 2]) == 40
  {
    var b := [
      UserStory("US-001", "A", "", [], 30, 1, BACKLOG, Wrappers.None),
      UserStory("US-002", "B", "", [], 20, 2, BACKLOG, Wrappers.None),
      UserStory("US-003", "C", "", [], 20, 3, BACKLOG, Wrappers.None)];
    assert PrioritySort.SortedPositions(b, 1) == [0];
    assert PrioritySort.SortedPositions(b, 2) == [0, 1];
    assert PrioritySort.Insert(b, 2, [1]) == [1, 2];
    assert PrioritySort.SortedPositions(b, 3) == [0, 1, 2];
    assert PrioritySort.SortByPriority(b) == b;
    assert AvailableBefore(b, 40, 1) == 10;
    assert AvailableBefore(b, 40, 2) == 10;
    assert Chosen(b, 40, 1) == [0];
    assert Chosen(b, 40, 2) == [0];
    assert Chosen(b, 40, 3) == [0];
    assert [1, 2][..1] == [1];
    assert [1][..0] == [];
    assert PointsAt(b, [1]) == 20;
  }
}
