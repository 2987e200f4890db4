/**
 * The sprint bookkeeping of the agent development team: a backlog of user
 * stories, the current sprint, the history of development sprints and the
 * sprint configuration, owned by one team object. The group chat that the
 * team drives is outside the model; a development sprint receives its
 * outcome (a reply or a raised error) as a parameter.
 */
module DevTeam {
  import opened Wrappers
  import opened Stories
  import opened Agents
  import Decimal
  import PrioritySort
  import Greedy

  /** What the group chat of a development sprint did: it returned a response, or it raised. */
  datatype ChatOutcome =
    | Replied(summary: string, chatHistory: Option<seq<string>>)
    | Raised(error: string)

  /** One entry of the sprint history. Timestamps are not modelled. */
  datatype SprintResult =
    | Completed(featureRequest: string, execution: string, chatHistory: seq<string>,
                projectPath: string, iterationsUsed: nat, maxIterations: int)
    | Failed(featureRequest: string, error: string)
  {
    function Status(): string {
      if Completed? then "completed" else "failed"
    }

    function Phase(): SprintPhase {
      if Completed? then Complete else Development
    }
  }

  /** `max_iterations or sprint_config.max_iterations`: both `None` and `0` fall back to the configuration. */
  function EffectiveMaxIterations(requested: Option<int>, configured: int): int {
    if requested.None? || requested.value == 0 then configured else requested.value
  }

  /** The history entry a development sprint records for the chat's outcome. */
  function SprintResultOf(featureRequest: string, maxIterations: int, projectPath: string, chat: ChatOutcome): SprintResult {
    match chat
    case Replied(summary, history) =>
      var messages := if history.Some? then history.value else [];
      Completed(featureRequest, summary, messages, projectPath, |messages|, maxIterations)
    case Raised(error) =>
      Failed(featureRequest, error)
  }

  /** The stories a plan commits: the caller's list verbatim, or the automatic selection. */
  function PlannedStories(backlog: seq<UserStory>, capacity: int, requested: Option<seq<string>>): seq<string> {
    if requested.Some? then requested.value else Greedy.AutoSelect(backlog, capacity)
  }

  /** The backlog after planning: every story whose identifier is listed moves to "sprint_backlog". */
  function MarkSelected(backlog: seq<UserStory>, ids: seq<string>): (r: seq<UserStory>)
    ensures |r| == |backlog|
    ensures forall i | 0 <= i < |backlog| ::
      r[i].status == (if backlog[i].id in ids then SPRINT_BACKLOG else backlog[i].status)
    ensures forall i | 0 <= i < |backlog| :: r[i].(status := backlog[i].status) == backlog[i]
  {
    seq(|backlog|, i requires 0 <= i < |backlog| => Marked(backlog[i], ids))
  }

  function Marked(story: UserStory, ids: seq<string>): UserStory {
    if story.id in ids then story.(status := SPRINT_BACKLOG) else story
  }

  /** A backlog story's identifier is automatically selected exactly when its position is. */
  lemma SelectedIdIffPosition(backlog: seq<UserStory>, capacity: int, i: nat)
    requires IdsFollowPositions(backlog) && i < |backlog|
    ensures backlog[i].id in Greedy.AutoSelect(backlog, capacity) <==> i in Greedy.SelectedPositions(backlog, capacity)
  {
    Greedy.AutoSelectOnBacklog(backlog, capacity);
    IdsDistinct(backlog);
    var q := Greedy.SelectedPositions(backlog, capacity);
    var ids := Greedy.AutoSelect(backlog, capacity);
    if backlog[i].id in ids {
      var j :| 0 <= j < |ids| && ids[j] == backlog[i].id;
      assert backlog[q[j]].id == backlog[i].id;
    }
    if i in q {
      var j :| 0 <= j < |q| && q[j] == i;
      assert ids[j] == backlog[i].id;
    }
  }

  /**
   * After automatic planning the stories at the selected positions are in
   * "sprint_backlog" and every other story keeps its status (identifiers are
   * distinct, so no other story is touched).
   */
  lemma AutoPlanMarksExactlySelected(backlog: seq<UserStory>, capacity: int)
    requires IdsFollowPositions(backlog)
    ensures forall i | 0 <= i < |backlog| ::
      MarkSelected(backlog, Greedy.AutoSelect(backlog, capacity))[i].status
        == if i in Greedy.SelectedPositions(backlog, capacity) then SPRINT_BACKLOG else backlog[i].status
  {
    forall i | 0 <= i < |backlog|
      ensures MarkSelected(backlog, Greedy.AutoSelect(backlog, capacity))[i].status
        == if i in Greedy.SelectedPositions(backlog, capacity) then SPRINT_BACKLOG else backlog[i].status
    {
      SelectedIdIffPosition(backlog, capacity, i);
    }
  }

  /** A story that is not in status "backlog" (already committed, say) is never selected automatically. */
  lemma CommittedStoriesNotReselected(backlog: seq<UserStory>, capacity: int, i: nat)
    requires IdsFollowPositions(backlog)
    requires i < |backlog| && backlog[i].status != BACKLOG
    ensures backlog[i].id !in Greedy.AutoSelect(backlog, capacity)
  {
    Greedy.AutoSelectOnBacklog(backlog, capacity);
    IdsDistinct(backlog);
    var q := Greedy.SelectedPositions(backlog, capacity);
    var ids := Greedy.AutoSelect(backlog, capacity);
    forall j | 0 <= j < |ids| ensures ids[j] != backlog[i].id {
      assert backlog[q[j]].status == BACKLOG;
    }
  }

  /** With no story left in status "backlog", automatic planning selects nothing. */
  lemma NothingEligibleNothingSelected(backlog: seq<UserStory>, capacity: int)
    requires forall i | 0 <= i < |backlog| :: backlog[i].status != BACKLOG
    ensures Greedy.AutoSelect(backlog, capacity) == []
  {
    Greedy.AutoSelectOnBacklog(backlog, capacity);
  }

  /** Identifiers that name no backlog story change nothing when planned. */
  lemma UnknownIdsIgnored(backlog: seq<UserStory>, ids: seq<string>, unknown: seq<string>)
    requires forall i, k | 0 <= i < |backlog| && 0 <= k < |unknown| :: backlog[i].id != unknown[k]
    ensures MarkSelected(backlog, ids + unknown) == MarkSelected(backlog, ids)
  {
    forall i | 0 <= i < |backlog| ensures backlog[i].id in ids + unknown <==> backlog[i].id in ids {
    }
  }

  /** Planning the same list again changes nothing further. */
  lemma MarkSelectedIdempotent(backlog: seq<UserStory>, ids: seq<string>)
    ensures MarkSelected(MarkSelected(backlog, ids), ids) == MarkSelected(backlog, ids)
  {
  }

  /** The scenario's first plan commits its first two stories and only those. */
  lemma ScenarioFirstPlan()
    ensures Greedy.AutoSelect(Greedy.ScenarioBacklog, 40) == ["US-001", "US-002"]
    ensures var marked := MarkSelected(Greedy.ScenarioBacklog, ["US-001", "US-002"]);
      marked[0].status == SPRINT_BACKLOG && marked[1].status == SPRINT_BACKLOG && marked[2].status == BACKLOG
  {
    Greedy.ScenarioSelectsFirstTwo();
  }

  /** The scenario's backlog after the first sprint committed its first two stories. */
  lemma ScenarioSecondSelection()
    ensures Greedy.AutoSelect(MarkSelected(Greedy.ScenarioBacklog, ["US-001", "US-002"]), 40) == ["US-003"]
  {
    var b := MarkSelected(Greedy.ScenarioBacklog, ["US-001", "US-002"]);
    assert b[0].status == SPRINT_BACKLOG && b[1].status == SPRINT_BACKLOG && b[2].status == BACKLOG;
    assert PrioritySort.SortedPositions(b, 1) == [0];
    assert PrioritySort.SortedPositions(b, 2) == [0, 1];
    assert PrioritySort.Insert(b, 2, [1]) == [1, 2];
    assert PrioritySort.SortedPositions(b, 3) == [0, 1, 2];
    assert PrioritySort.SortByPriority(b) == b;
    assert !Greedy.Takes(b[0], 40) && !Greedy.Takes(b[1], 40) && Greedy.Takes(b[2], 40);
    assert Greedy.AvailableBefore(b, 40, 1) == 40;
    assert Greedy.AvailableBefore(b, 40, 2) == 40;
    assert Greedy.Chosen(b, 40, 1) == [];
    assert Greedy.Chosen(b, 40, 2) == [];
    assert Greedy.Chosen(b, 40, 3) == [2];
  }

  datatype TeamStatus = TeamStatus(
    teamComposition: map<string, string>,
    currentSprint: Option<Sprint>,
    backlogSize: nat,
    sprintHistoryCount: nat,
    projectPath: string,
    durationDays: int,
    capacityPoints: int,
    focusAreas: seq<string>)

  /** A backlog entry of the export; the creation time is not modelled. */
  datatype StoryRecord = StoryRecord(
    id: string,
    title: string,
    description: string,
    acceptanceCriteria: seq<string>,
    storyPoints: int,
    priority: int,
    status: string)

  /** The exported document, before it is written as JSON. */
  datatype Export = Export(teamConfig: TeamStatus, backlog: seq<StoryRecord>, sprintHistory: seq<SprintResult>)

  function ToRecord(story: UserStory): StoryRecord {
    StoryRecord(story.id, story.title, story.description, story.acceptanceCriteria,
                story.storyPoints, story.priority, story.status)
  }

  class AgentDevTeam {
    var projectPath: string
    var sprintConfig: SprintConfig
    var currentSprint: Option<Sprint>
    var backlog: seq<UserStory>
    var sprintHistory: seq<SprintResult>
    var agents: map<AgentRole, Agent>

    /** Story identifiers follow creation order, and every role has an agent. */
    ghost predicate Valid()
      reads this
    {
      IdsFollowPositions(backlog) && agents.Keys == AllRoles
    }

    constructor(projectPath: string, sprintConfig: Option<SprintConfig> := None,
                customAgents: Option<map<AgentRole, Agent>> := None)
      ensures Valid()
      ensures this.projectPath == projectPath
      ensures this.sprintConfig == if sprintConfig.Some? then sprintConfig.value else DefaultSprintConfig
      ensures currentSprint == None && backlog == [] && sprintHistory == []
      ensures customAgents.Some? ==> forall r | r in customAgents.value :: r in agents && agents[r] == customAgents.value[r]
      ensures forall r | r in AllRoles && (customAgents.None? || r !in customAgents.value) :: agents[r] == DefaultAgent(r)
    {
      var team := CreateAgents(customAgents);
      this.projectPath := projectPath;
      this.sprintConfig := if sprintConfig.Some? then sprintConfig.value else DefaultSprintConfig;
      currentSprint := None;
      backlog := [];
      sprintHistory := [];
      agents := team;
    }

    /** Append a new story, numbered after the current backlog length, with status "backlog". */
    method CreateUserStory(title: string, description: string, acceptanceCriteria: seq<string>,
                           storyPoints: int := DEFAULT_POINTS, priority: int := DEFAULT_PRIORITY)
      returns (story: UserStory)
      requires Valid()
      modifies this`backlog
      ensures Valid()
      ensures story == UserStory(StoryId(|old(backlog)| + 1), title, description, acceptanceCriteria,
                                 storyPoints, priority, BACKLOG, None)
      ensures backlog == old(backlog) + [story]
    {
      story := UserStory(StoryId(|backlog| + 1), title, description, acceptanceCriteria,
                         storyPoints, priority, BACKLOG, None);
      backlog := backlog + [story];
    }

    /**
     * Plan a sprint: select stories (or take the caller's list), make the new
     * sprint the current one, and move the selected stories to "sprint_backlog".
     * The sprint is numbered after the history length, which planning leaves alone.
     */
    method PlanSprint(sprintGoal: string, selectedStories: Option<seq<string>> := None) returns (sprint: Sprint)
      requires Valid()
      modifies this`currentSprint, this`backlog
      ensures Valid()
      ensures sprint == Sprint(SprintId(|sprintHistory| + 1), sprintGoal,
                               PlannedStories(old(backlog), sprintConfig.capacityPoints, selectedStories),
                               Planning, sprintConfig.capacityPoints)
      ensures currentSprint == Some(sprint)
      ensures backlog == MarkSelected(old(backlog), sprint.stories)
    {
      var selected: seq<string>;
      if selectedStories.None? {
        var sorted := PrioritySort.SortByPriority(backlog);
        selected := Greedy.SelectStories(sorted, sprintConfig.capacityPoints);
      } else {
        selected := selectedStories.value;
      }
      sprint := Sprint(SprintId(|sprintHistory| + 1), sprintGoal, selected, Planning, sprintConfig.capacityPoints);
      currentSprint := Some(sprint);

      UpdateStoryStatuses(selected);
    }

    /** Move every backlog story whose identifier is listed to "sprint_backlog"; unknown identifiers are ignored. */
    method UpdateStoryStatuses(selected: seq<string>)
      modifies this`backlog
      ensures backlog == MarkSelected(old(backlog), selected)
    {
      ghost var before := backlog;
      for i := 0 to |selected|
        invariant |backlog| == |before|
        invariant forall k | 0 <= k < |backlog| :: backlog[k] == Marked(before[k], selected[..i])
      {
        var storyId := selected[i];
        assert selected[..i + 1] == selected[..i] + [storyId];
        for j := 0 to |backlog|
          invariant |backlog| == |before|
          invariant forall k | 0 <= k < j :: backlog[k] == Marked(before[k], selected[..i + 1])
          invariant forall k | j <= k < |backlog| :: backlog[k] == Marked(before[k], selected[..i])
        {
          if backlog[j].id == storyId {
            backlog := backlog[j := backlog[j].(status := SPRINT_BACKLOG)];
          }
        }
      }
      assert selected[..|selected|] == selected;
    }

    /**
     * Record a development sprint: exactly one history entry per call,
     * "completed" when the chat returned and "failed" when it raised.
     */
    method RunDevelopmentSprint(featureRequest: string, maxIterations: Option<int>, chat: ChatOutcome)
      returns (result: SprintResult)
      requires Valid()
      modifies this`sprintHistory
      ensures Valid()
      ensures result == SprintResultOf(featureRequest,
                                       EffectiveMaxIterations(maxIterations, sprintConfig.maxIterations),
                                       projectPath, chat)
      ensures sprintHistory == old(sprintHistory) + [result]
    {
      var bound := EffectiveMaxIterations(maxIterations, sprintConfig.maxIterations);
      match chat {
        case Replied(summary, history) =>
          var messages := if history.Some? then history.value else [];
          result := Completed(featureRequest, summary, messages, projectPath, |messages|, bound);
        case Raised(error) =>
          result := Failed(featureRequest, error);
      }
      sprintHistory := sprintHistory + [result];
    }

    /** The status summary: sizes of backlog and history, the current sprint and the team, one member per role. */
    function GetTeamStatus(): (status: TeamStatus)
      reads this
      requires Valid()
      ensures |status.teamComposition| == 6
      ensures forall r | r in agents ::
        RoleValue(r) in status.teamComposition && status.teamComposition[RoleValue(r)] == agents[r].name
      ensures status.backlogSize == |backlog| && status.sprintHistoryCount == |sprintHistory|
      ensures status.currentSprint == currentSprint
    {
      CompositionOfFullTeam(agents);
      TeamStatus(Composition(agents), currentSprint, |backlog|, |sprintHistory|, projectPath,
                 sprintConfig.durationDays, sprintConfig.capacityPoints, sprintConfig.focusAreas)
    }

    /**
     * The export document: one record per story in backlog order, with
     * distinct identifiers, and a summary whose counts agree with the lists.
     */
    function ExportSprintHistory(): (snapshot: Export)
      reads this
      requires Valid()
      ensures |snapshot.backlog| == snapshot.teamConfig.backlogSize == |backlog|
      ensures |snapshot.sprintHistory| == snapshot.teamConfig.sprintHistoryCount
      ensures forall i | 0 <= i < |backlog| ::
        snapshot.backlog[i].id == backlog[i].id && snapshot.backlog[i].title == backlog[i].title
        && snapshot.backlog[i].status == backlog[i].status
      ensures forall i, j | 0 <= i < j < |snapshot.backlog| :: snapshot.backlog[i].id != snapshot.backlog[j].id
    {
      IdsDistinct(backlog);
      Export(GetTeamStatus(), seq(|backlog|, i requires 0 <= i < |backlog| reads this => ToRecord(backlog[i])), sprintHistory)
    }
  }

  /**
   * The planning test's team: stories of 10, 15 and 20 points at priorities
   * 1, 2, 3 in a fresh team with the default capacity of 40.
   */
  method ScenarioTeam() returns (team: AgentDevTeam)
    ensures fresh(team) && team.Valid()
    ensures team.backlog == Greedy.ScenarioBacklog && team.sprintHistory == []
    ensures team.sprintConfig == DefaultSprintConfig
  {
    team := new AgentDevTeam("project");
    StoryIdExamples();
    var story1 := team.CreateUserStory("Feature 1", "Description 1", ["AC1"], 10, 1);
    var story2 := team.CreateUserStory("Feature 2", "Description 2", ["AC2"], 15, 2);
    var story3 := team.CreateUserStory("Feature 3", "Description 3", ["AC3"], 20, 3);
  }

  /**
   * The first plan over the planning test's team commits the first two
   * stories, in priority order, and moves exactly those to "sprint_backlog".
   */
  method PlanningScenario() returns (first: Sprint, statuses: seq<string>)
    ensures first.id == "Sprint-1" && first.goal == "Implement core features"
    ensures first.phase == Planning && first.capacity == 40 && first.stories == ["US-001", "US-002"]
    ensures statuses == [SPRINT_BACKLOG, SPRINT_BACKLOG, BACKLOG]
  {
    var team := ScenarioTeam();
    SprintIdExamples();
    ScenarioFirstPlan();
    first := team.PlanSprint("Implement core features");
    statuses := [team.backlog[0].status, team.backlog[1].status, team.backlog[2].status];
  }

  /**
   * The same backlog after its first two stories were committed: planning
   * again without running a sprint reuses "Sprint-1" and commits the
   * remaining story, which now fits.
   */
  method ReplanningScenario() returns (second: Sprint)
    ensures second.id == "Sprint-1" && second.stories == ["US-003"]
  {
    var team := ScenarioTeam();
    var first := team.PlanSprint("Implement core features", Some(["US-001", "US-002"]));
    SprintIdExamples();
    ScenarioSecondSelection();
    second := team.PlanSprint("Finish the backlog");
  }

  /** The backlog of the status test: one story of 5 points at priority 1. */
  const SingleStoryBacklog: seq<UserStory> :=
    [UserStory("US-001", "Test Story", "Description", ["AC"], 5, 1, BACKLOG, None)]

  /** The single story is selected, and once committed nothing is left to select. */
  lemma SingleStorySelection()
    ensures Greedy.AutoSelect(SingleStoryBacklog, 40) == ["US-001"]
    ensures Greedy.AutoSelect(MarkSelected(SingleStoryBacklog, ["US-001"]), 40) == []
  {
    var b := SingleStoryBacklog;
    assert PrioritySort.SortedPositions(b, 1) == [0];
    assert PrioritySort.SortByPriority(b) == b;
    assert Greedy.Chosen(b, 40, 1) == [0];
    var marked := MarkSelected(b, ["US-001"]);
    assert marked[0].status == SPRINT_BACKLOG;
    NothingEligibleNothingSelected(marked, 40);
  }

  /** The status test's team: a fresh team holding the single story. */
  method SingleStoryTeam() returns (team: AgentDevTeam)
    ensures fresh(team) && team.Valid()
    ensures team.backlog == SingleStoryBacklog && team.sprintHistory == []
    ensures team.sprintConfig == DefaultSprintConfig
  {
    team := new AgentDevTeam("project");
    StoryIdExamples();
    var story := team.CreateUserStory("Test Story", "Description", ["AC"], 5, 1);
  }

  /**
   * The status test, continued: one story, one plan. Planning leaves the
   * history empty, so planning again is "Sprint-1" once more, and finds
   * nothing eligible.
   */
  method RenumberingScenario() returns (status: TeamStatus, first: Sprint, again: Sprint)
    ensures first.id == "Sprint-1" && first.stories == ["US-001"]
    ensures status.backlogSize == 1 && status.sprintHistoryCount == 0 && |status.teamComposition| == 6
    ensures again.id == "Sprint-1" && again.stories == []
  {
    var team := SingleStoryTeam();
    SprintIdExamples();
    SingleStorySelection();
    first := team.PlanSprint("Test Sprint");
    status := team.GetTeamStatus();
    again := team.PlanSprint("Test Sprint");
  }

  /**
   * Only development sprints enter the history, failed ones included: after
   * one failed development sprint the next plan is "Sprint-2".
   */
  method HistoryScenario() returns (result: SprintResult, next: Sprint)
    ensures result.Status() == "failed" && result.Phase() == Development
    ensures next.id == "Sprint-2" && next.stories == []
  {
    var team := new AgentDevTeam("project");
    result := team.RunDevelopmentSprint("Feature", None, Raised("chat failed"));
    SprintIdExamples();
    assert PrioritySort.SortByPriority([]) == [];
    next := team.PlanSprint("Next Sprint");
  }
}
