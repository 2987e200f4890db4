# Sprint bookkeeping of the agent development team

This project models the sprint bookkeeping of `AgentDevTeam`, the agile
"development team" of AI agents in `autogen/agentchat/agent_dev_team.py`.
A team object owns four things:

- a backlog of user stories;
- the current sprint;
- the history of development sprints;
- the sprint configuration.

The team also holds one agent per role. The model covers these operations:

- `create_user_story` appends a story numbered `US-001`, `US-002`, and so on.
- `plan_sprint` either takes the caller's list of story identifiers or selects stories greedily. The greedy pass walks the backlog stably sorted by priority and takes every story in status "backlog" that still fits into the capacity. The plan becomes the current sprint, and the selected stories move to "sprint_backlog".
- `run_development_sprint` keeps the history. It appends one entry per call: "completed" when the group chat returns, "failed" when it raises.
- `_create_agents` merges the role-to-agent map. Custom agents are kept, and every missing role gets a default agent.
- `get_team_status` reports the state.
- The backlog projection of `export_sprint_history` renders the backlog as records.

Module layout:

- `wrappers.dfy` holds `Option`.
- `decimal.dfy` holds the decimal rendering and parsing of naturals behind the `%03d` and `%d` formats.
- `stories.dfy` holds `UserStory`, `SprintConfig`, `SprintPhase`, the sprint record, and the story and sprint identifiers.
- `priority_sort.dfy` holds the stable sort by priority (Python's `sorted` with a key).
- `greedy.dfy` holds the greedy selection, as a specification function and as the source's loop.
- `agents.dfy` holds the roles and the agent-map merge.
- `dev_team.dfy` holds the `AgentDevTeam` class, its read-outs, and the test scenarios of `test/agentchat/test_agent_dev_team.py` restated as verified methods.

The sprint identifier is `"Sprint-" + (len(sprint_history) + 1)`. Planning never appends to the history, so planning twice without running a development sprint yields the same identifier twice. The model follows the code here. It does not follow the "n-th planned sprint is Sprint-n" reading of the identifier.

## Model

| member | source | states |
|---|---|---|
| Stories.StoryIdExamples | autogen/agentchat/agent_dev_team.py:246 | identifiers are "US-" and the number zero-padded to at least three digits: 1 gives "US-001", 12 gives "US-012", 1000 gives "US-1000" (never truncated) |
| Stories.StoryNumberOfStoryId | autogen/agentchat/agent_dev_team.py:246 | the number a story identifier was made from can be read back from it |
| Stories.StoryIdInjective | autogen/agentchat/agent_dev_team.py:246 | two story identifiers are equal if and only if their numbers are |
| Stories.SprintIdInjective | autogen/agentchat/agent_dev_team.py:277 | two sprint identifiers are equal if and only if their numbers are |
| Stories.SprintIdExamples | autogen/agentchat/agent_dev_team.py:277 | the first sprint identifiers are "Sprint-1" and "Sprint-2" |
| Stories.IdsDistinct | autogen/agentchat/agent_dev_team.py:245-253 | in a backlog built by story creation, identifiers are pairwise distinct and the story at position i carries number i + 1 (strictly increasing) |
| Decimal.ZeroPadRoundTrip | autogen/agentchat/agent_dev_team.py:246 | parsing the zero-padded rendering of n gives back n |
| Decimal.ZeroPadShape | autogen/agentchat/agent_dev_team.py:246 | the zero-padded rendering is all digits and at least as long as the width |
| Decimal.ZeroPadInjective | autogen/agentchat/agent_dev_team.py:246 | distinct numbers get distinct padded renderings |
| Decimal.DigitsInjective | autogen/agentchat/agent_dev_team.py:277 | distinct numbers get distinct decimal renderings |
| Decimal.ValueOfDigits | autogen/agentchat/agent_dev_team.py:277 | parsing the decimal rendering of n gives back n |
| PrioritySort.SortIsStablePermutation | autogen/agentchat/agent_dev_team.py:270 | the sort visits every backlog position exactly once, by ascending priority, with equal priorities in backlog order (stability) |
| PrioritySort.SortByPriorityCorrect | autogen/agentchat/agent_dev_team.py:270 | the sorted backlog has the same stories (as a multiset) and non-decreasing priorities |
| PrioritySort.InsertKeepsOrder | autogen/agentchat/agent_dev_team.py:270 | inserting a later position into a priority-ordered list keeps it ordered by (priority, position) |
| PrioritySort.SortedPositionsPermute | autogen/agentchat/agent_dev_team.py:270 | the sorted positions are a permutation of 0 .. n-1 |
| PrioritySort.PickSortedPositions | autogen/agentchat/agent_dev_team.py:270 | the stories at the sorted positions are a permutation of the backlog prefix |
| Greedy.SelectStories | autogen/agentchat/agent_dev_team.py:266-274 | the selection loop (points left, appended identifiers) computes exactly the greedy selection over the sorted backlog |
| Greedy.ChosenIff | autogen/agentchat/agent_dev_team.py:272 | a story is selected if and only if, when it is examined, it is in status "backlog" and its points fit the points left |
| Greedy.ChosenIncreasing | autogen/agentchat/agent_dev_team.py:271-273 | stories are selected in the order they are examined, each at most once |
| Greedy.PointsAccounted | autogen/agentchat/agent_dev_team.py:274 | the points left equal the capacity minus the points selected so far, and stay non-negative once anything is selected |
| Greedy.CapacityRespected | autogen/agentchat/agent_dev_team.py:265-274 | with a non-negative capacity (or any selection at all) the selected points sum to at most the capacity |
| Greedy.OnlyEligibleSelected | autogen/agentchat/agent_dev_team.py:272 | only stories in status "backlog" are selected |
| Greedy.SkippedDidNotFit | autogen/agentchat/agent_dev_team.py:272-274 | an eligible story that was skipped had more points than were left when it was examined (no backtracking) |
| Greedy.AvailableNeverGrows | autogen/agentchat/agent_dev_team.py:274 | with non-negative points, the points left never grow during the pass |
| Greedy.SelectionIsMaximal | autogen/agentchat/agent_dev_team.py:265-274 | with non-negative points, adding any skipped eligible story to the selection would exceed the capacity |
| Greedy.AutoSelectOnBacklog | autogen/agentchat/agent_dev_team.py:265-274 | automatic selection restated on the unsorted backlog: identifiers of backlog positions in status "backlog", ordered by (priority, position), within capacity |
| Greedy.ScenarioSelectsFirstTwo | test/agentchat/test_agent_dev_team.py:165-176 | with points 10/15/20, priorities 1/2/3 and capacity 40 exactly "US-001" and "US-002" are selected |
| Greedy.GreedyIsNotOptimal | autogen/agentchat/agent_dev_team.py:271-274 | the greedy pass is not an optimal packing: with points 30/20/20 and capacity 40 it selects 30 points while 40 were reachable |
| Agents.CreateAgents | autogen/agentchat/agent_dev_team.py:119-220 | the merged map has exactly the six roles as keys, keeps every custom agent unchanged and gives every missing role its default agent |
| Agents.RoleValueInjective | autogen/agentchat/agent_dev_team.py:47-54 | distinct roles have distinct string values |
| Agents.Composition | autogen/agentchat/agent_dev_team.py:551-553 | the team composition maps each role's value to the name of that role's agent, and has no other keys |
| Agents.CompositionOfFullTeam | test/agentchat/test_agent_dev_team.py:203 | a team with all six roles has a composition of six entries |
| DevTeam.AgentDevTeam.constructor | autogen/agentchat/agent_dev_team.py:106-114 | a new team has the given or the default configuration, no current sprint, an empty backlog and history, and the merged agents |
| DevTeam.AgentDevTeam.CreateUserStory | autogen/agentchat/agent_dev_team.py:236-255 | appends exactly one story, numbered after the old backlog length, with status "backlog", no assignee and the given fields (defaults 5 points, priority 3); earlier stories unchanged; identifiers keep following positions |
| DevTeam.AgentDevTeam.PlanSprint | autogen/agentchat/agent_dev_team.py:257-295 | the sprint gets "Sprint-" and the history length plus one, the goal, phase planning, the configured capacity, and either the caller's list verbatim or the automatic selection; it becomes the current sprint; the backlog is updated as MarkSelected states; the history is not touched |
| DevTeam.AgentDevTeam.UpdateStoryStatuses | autogen/agentchat/agent_dev_team.py:288-292 | the nested loop leaves the backlog exactly as MarkSelected of the old backlog and the list |
| DevTeam.MarkSelected | autogen/agentchat/agent_dev_team.py:288-292 | same length and order; a story whose identifier is listed gets status "sprint_backlog", any other keeps its status; no field other than the status changes |
| DevTeam.AutoPlanMarksExactlySelected | autogen/agentchat/agent_dev_team.py:265-292 | after automatic planning exactly the stories at the selected positions are in "sprint_backlog"; every other story keeps its status |
| DevTeam.SelectedIdIffPosition | autogen/agentchat/agent_dev_team.py:273 | a backlog story's identifier is selected if and only if its position is |
| DevTeam.CommittedStoriesNotReselected | autogen/agentchat/agent_dev_team.py:272 | a story not in status "backlog" is never selected automatically |
| DevTeam.NothingEligibleNothingSelected | autogen/agentchat/agent_dev_team.py:272 | with no story in status "backlog", automatic selection is empty |
| DevTeam.UnknownIdsIgnored | autogen/agentchat/agent_dev_team.py:289-292 | identifiers that name no backlog story change nothing |
| DevTeam.MarkSelectedIdempotent | autogen/agentchat/agent_dev_team.py:289-292 | marking the same list twice is the same as marking it once |
| DevTeam.AgentDevTeam.RunDevelopmentSprint | autogen/agentchat/agent_dev_team.py:343-447 | appends exactly one history entry per call: "completed" (phase complete, the summary, the chat history or none, iterations used, the effective bound) when the chat returned, "failed" (phase development, the error) when it raised |
| DevTeam.AgentDevTeam.GetTeamStatus | autogen/agentchat/agent_dev_team.py:548-563 | six composition entries, one per role with its agent's name; backlog size and history count are the lengths of backlog and history; the current sprint as held |
| DevTeam.AgentDevTeam.ExportSprintHistory | autogen/agentchat/agent_dev_team.py:569-585 | one record per backlog story in backlog order with the same identifier, title and status; identifiers distinct; the counts in the team summary agree with the lists |
| DevTeam.ScenarioFirstPlan | test/agentchat/test_agent_dev_team.py:165-181 | the first plan over stories of 10/15/20 points selects "US-001" and "US-002", and after it the statuses are sprint_backlog, sprint_backlog, backlog |
| DevTeam.ScenarioSecondSelection | autogen/agentchat/agent_dev_team.py:265-274 | once the first two stories are committed, the next automatic selection is "US-003" alone |
| DevTeam.SingleStorySelection | test/agentchat/test_agent_dev_team.py:191-192 | a single 5-point story is selected, and once committed nothing is left to select |
| DevTeam.PlanningScenario | test/agentchat/test_agent_dev_team.py:157-181 | through the class: the first plan is "Sprint-1" with the given goal, phase planning, capacity 40 and stories "US-001", "US-002"; statuses become sprint_backlog, sprint_backlog, backlog |
| DevTeam.ReplanningScenario | autogen/agentchat/agent_dev_team.py:276-286 | through the class: planning again without a development sprint reuses "Sprint-1" and selects "US-003" |
| DevTeam.RenumberingScenario | test/agentchat/test_agent_dev_team.py:183-205 | through the class: after one story and one plan the status shows six team members, backlog size 1 and history count 0; planning again is "Sprint-1" with nothing selected |
| DevTeam.HistoryScenario | autogen/agentchat/agent_dev_team.py:437-447 | through the class: a failed development sprint is still recorded, so the next plan is "Sprint-2" |

## Left out

- The group-chat runtime is not modelled: `ConversableAgent`, `AutoPattern`, `run_group_chat`, the prompts and the system messages. A development sprint receives the chat's outcome as a parameter (`ChatOutcome`), either a reply with a summary and an optional chat history, or a raised error.
- A reply whose `chat_history` attribute exists but is `None` makes the source's `len` raise. The source then records a failure. The model takes the history as present (a list) or absent, so it has no such case.
- Agents keep only their name. The system messages, the descriptions, the LLM configuration and the scrum master's termination predicate are not modelled, and neither is `_setup_team_pattern`.
- Timestamps are not modelled: `created_at`, `start_date`, `end_date`, `timestamp` and `exported_at`.
- `export_sprint_history` only computes the document. Writing the JSON file and choosing the output path are I/O.
- `project_path` is a string given to the constructor. The `Path.cwd()` default is not modelled.
- `run_sprint_planning`, `run_code_review` and `run_retrospective` are not modelled: they only send prompts to the chat runtime.
- The factory functions `create_agent_dev_team` and `create_self_improving_team` are not modelled.
- Stories are values. The source hands out the same story objects it keeps in the backlog, so a caller holding a story sees later status changes. The model states the backlog after each call instead, and does not model that aliasing.
- Story points and priorities are unbounded integers, as in Python. A negative capacity or negative points follow the same comparisons as the source. The capacity bound is stated for a non-negative capacity or a non-empty selection, and maximality for non-negative points.
- The other files of the repository are not part of this model: the MCP tools, the servers, the deployment script and the examples.
