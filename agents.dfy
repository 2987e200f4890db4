/**
 * The six roles of the development team and how the team's role map is
 * built: agents supplied by the caller are kept, and every role still
 * missing gets its default agent. Agents are reduced to their name; their
 * prompts and the chat runtime are not modelled.
 */
module Agents {
  import opened Wrappers

  datatype AgentRole = ProductOwner | TechArchitect | SeniorDeveloper | QaEngineer | DevopsEngineer | ScrumMaster

  /** The role's enum value, also the name of its default agent. */
  function RoleValue(r: AgentRole): string {
    match r
    case ProductOwner => "product_owner"
    case TechArchitect => "tech_architect"
    case SeniorDeveloper => "senior_developer"
    case QaEngineer => "qa_engineer"
    case DevopsEngineer => "devops_engineer"
    case ScrumMaster => "scrum_master"
  }

  const AllRoles: set<AgentRole> :=
    {ProductOwner, TechArchitect, SeniorDeveloper, QaEngineer, DevopsEngineer, ScrumMaster}

  /** Every role is one of the six. */
  lemma AllRolesComplete(r: AgentRole)
    ensures r in AllRoles
  {
  }

  /** An agent, reduced to its name; system messages and descriptions are prompt text and not modelled. */
  datatype Agent = Agent(name: string)

  /** The agent created for a role the caller did not supply: named after the role's value. */
  function DefaultAgent(r: AgentRole): Agent {
    Agent(RoleValue(r))
  }

  /** The order in which the roles are filled in. */
  const RoleOrder: seq<AgentRole> :=
    [ProductOwner, TechArchitect, SeniorDeveloper, QaEngineer, DevopsEngineer, ScrumMaster]

  /** `agents` holds `given` unchanged plus the default agent of each role of `done` that `given` lacks. */
  ghost predicate Merged(given: map<AgentRole, Agent>, agents: map<AgentRole, Agent>, done: seq<AgentRole>) {
    && (forall r :: r in agents <==> r in given || r in done)
    && (forall r | r in given :: agents[r] == given[r])
    && (forall r | r in done && r !in given :: agents[r] == DefaultAgent(r))
  }

  /**
   * The team's role map: the custom agents, if any, then the default agent
   * of each role that is still missing, role by role.
   */
  method CreateAgents(custom: Option<map<AgentRole, Agent>>) returns (agents: map<AgentRole, Agent>)
    ensures agents.Keys == AllRoles
    ensures custom.Some? ==> forall r | r in custom.value :: r in agents && agents[r] == custom.value[r]
    ensures forall r | r in AllRoles && (custom.None? || r !in custom.value) :: agents[r] == DefaultAgent(r)
  {
    agents := map[];
    if custom.Some? && custom.value != map[] {
      agents := agents + custom.value;
    }
    ghost var given := agents;
    assert custom.Some? ==> given == custom.value;
    for i := 0 to |RoleOrder|
      invariant Merged(given, agents, RoleOrder[..i])
    {
      var role := RoleOrder[i];
      if role !in agents {
        agents := agents[role := DefaultAgent(role)];
      }
      assert RoleOrder[..i + 1] == RoleOrder[..i] + [role];
    }
    assert RoleOrder[..|RoleOrder|] == RoleOrder;
    forall r ensures r in agents <==> r in AllRoles {
      AllRolesComplete(r);
    }
  }

  lemma RoleValueInjective(a: AgentRole, b: AgentRole)
    ensures RoleValue(a) == RoleValue(b) <==> a == b
  {
  }

  /** The status report's team composition: role value to agent name. */
  function Composition(agents: map<AgentRole, Agent>): (m: map<string, string>)
    ensures m.Keys == set r | r in agents :: RoleValue(r)
    ensures forall r | r in agents :: m[RoleValue(r)] == agents[r].name
  {
    map r | r in agents :: RoleValue(r) := agents[r].name
  }

  lemma {:induction false} CompositionKeysCount(roles: set<AgentRole>)
    ensures |set r | r in roles :: RoleValue(r)| == |roles|
  {
    if roles != {} {
      var x :| x in roles;
      var rest := roles - {x};
      CompositionKeysCount(rest);
      var values := set r | r in rest :: RoleValue(r);
      assert (set r | r in roles :: RoleValue(r)) == values + {RoleValue(x)};
      if RoleValue(x) in values {
        var y :| y in rest && RoleValue(y) == RoleValue(x);
        RoleValueInjective(x, y);
      }
    }
  }

  /** A team holding all six roles reports six members, one per role value. */
  lemma CompositionOfFullTeam(agents: map<AgentRole, Agent>)
    requires agents.Keys == AllRoles
    ensures |Composition(agents)| == 6
  {
    CompositionKeysCount(AllRoles);
  }
}
