/**
 * The values the sprint bookkeeping works on: user stories, the sprint
 * configuration, sprint phases and the sprint record that planning produces,
 * with the identifier formats `US-%03d` and `Sprint-<n>`.
 */
module Stories {
  import opened Wrappers
  import Decimal

  /** The two status values the team object itself assigns. */
  const BACKLOG: string := "backlog"
  const SPRINT_BACKLOG: string := "sprint_backlog"

  /** Default story points and priority of a new story. */
  const DEFAULT_POINTS: int := 5
  const DEFAULT_PRIORITY: int := 3

  datatype SprintPhase = Planning | Development | Review | Testing | Retrospective | Complete

  /**
   * A user story. Points and priority are unconstrained integers (no validation
   * is done); lower priority values are planned first. The creation timestamp
   * is not modelled.
   */
  datatype UserStory = UserStory(
    id: string,
    title: string,
    description: string,
    acceptanceCriteria: seq<string>,
    storyPoints: int,
    priority: int,
    status: string,
    assignedTo: Option<string>)

  datatype SprintConfig = SprintConfig(
    durationDays: int,
    capacityPoints: int,
    focusAreas: seq<string>,
    maxIterations: int,
    autoTesting: bool,
    codeReviewRequired: bool)

  const DefaultSprintConfig: SprintConfig :=
    SprintConfig(14, 40, ["functionality", "quality", "performance"], 10, true, true)

  /** The current-sprint record built by planning; start and end dates are not modelled. */
  datatype Sprint = Sprint(
    id: string,
    goal: string,
    stories: seq<string>,
    phase: SprintPhase,
    capacity: int)

  /** Identifier of the `n`-th story created: "US-" and `n` zero-padded to three digits. */
  function StoryId(n: nat): string {
    "US-" + Decimal.ZeroPad(n, 3)
  }

  /** Identifier of a sprint with 1-based number `n`: "Sprint-" and `n` in decimal. */
  function SprintId(n: nat): string {
    "Sprint-" + Decimal.Digits(n)
  }

  /** The sequence number a story identifier was made from. */
  function StoryNumber(id: string): nat {
    if |id| < 3 then 0 else Decimal.Value(id[3..])
  }

  lemma StoryNumberOfStoryId(n: nat)
    ensures StoryNumber(StoryId(n)) == n
  {
    assert StoryId(n)[3..] == Decimal.ZeroPad(n, 3);
    Decimal.ZeroPadRoundTrip(n, 3);
  }

  /** Distinct sequence numbers give distinct story identifiers. */
  lemma StoryIdInjective(a: nat, b: nat)
    ensures StoryId(a) == StoryId(b) <==> a == b
  {
    StoryNumberOfStoryId(a);
    StoryNumberOfStoryId(b);
  }

  lemma SprintIdInjective(a: nat, b: nat)
    ensures SprintId(a) == SprintId(b) <==> a == b
  {
    if SprintId(a) == SprintId(b) {
      assert SprintId(a)[7..] == Decimal.Digits(a);
      assert SprintId(b)[7..] == Decimal.Digits(b);
      Decimal.DigitsInjective(a, b);
    }
  }

  /** The identifiers "US-001", "US-002", "US-003", "US-012" and "US-1000": at least three digits, never truncated. */
  lemma StoryIdExamples()
    ensures StoryId(1) == "US-001" && StoryId(2) == "US-002" && StoryId(3) == "US-003"
    ensures StoryId(12) == "US-012"
    ensures StoryId(1000) == "US-1000"
  {
    assert Decimal.Digits(1) == "1";
    assert Decimal.Digits(2) == "2";
    assert Decimal.Digits(3) == "3";
    assert Decimal.Digits(12) == "12" by { assert Decimal.Digits(1) == "1"; }
    assert Decimal.Digits(1000) == "1000" by {
      assert Decimal.Digits(1) == "1";
      assert Decimal.Digits(10) == "10";
      assert Decimal.Digits(100) == "100";
    }
    assert Decimal.Zeros(2) == "00";
    assert Decimal.Zeros(1) == "0";
  }

  /** The first two sprint identifiers. */
  lemma SprintIdExamples()
    ensures SprintId(1) == "Sprint-1" && SprintId(2) == "Sprint-2"
  {
    assert Decimal.Digits(1) == "1";
    assert Decimal.Digits(2) == "2";
  }

  /**
   * The invariant the backlog keeps: the story at position `i` carries the
   * identifier made from `i + 1` (identifiers follow creation order).
   */
  predicate IdsFollowPositions(backlog: seq<UserStory>) {
    forall i | 0 <= i < |backlog| :: backlog[i].id == StoryId(i + 1)
  }

  /** Under that invariant every identifier in the backlog is distinct and numbered from 1. */
  lemma IdsDistinct(backlog: seq<UserStory>)
    requires IdsFollowPositions(backlog)
    ensures forall i, j | 0 <= i < j < |backlog| :: backlog[i].id != backlog[j].id
    ensures forall i | 0 <= i < |backlog| :: StoryNumber(backlog[i].id) == i + 1
  {
    forall i, j | 0 <= i < j < |backlog| ensures backlog[i].id != backlog[j].id {
      StoryIdInjective(i + 1, j + 1);
    }
    forall i | 0 <= i < |backlog| ensures StoryNumber(backlog[i].id) == i + 1 {
      StoryNumberOfStoryId(i + 1);
    }
  }
}
