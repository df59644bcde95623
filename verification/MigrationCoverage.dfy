// The plan is right and complete: its steps fit the tenant, own different resources, and cover all that is not settled.
module MigrationCoverage {
  import opened Wrappers
  import opened Tenants
  import opened MigrationPlans
  import opened MigrationGoals
  import opened MigrationRuns

  // ------------------------------------------------------------------ what is in the plan

  /** The six loops of `plan`, one step of one item. */
  ghost predicate Planned(s: Setup, t: Tenant, step: Step) {
    || (exists i :: 0 <= i < |s.template.skills| && step in PlanSkill(t, s.template.skills[i]))
    || (exists i :: 0 <= i < |s.template.agents| && step in PlanAgent(t, s.template.agents[i]))
    || (exists i :: 0 <= i < |s.mapping.connectors| && step in PlanConnector(s, t, s.mapping.connectors[i]))
    || (exists i :: 0 <= i < |t.projects| && step in PlanProject(s, t, t.projects[i]))
    || (exists i :: 0 <= i < |t.projects| && step in PlanName(s, t, t.projects[i]))
    || (exists i :: 0 <= i < |s.mapping.agents| && step in PlanDeprecation(s, t, s.mapping.agents[i]))
  }

  lemma InPlan(s: Setup, t: Tenant, step: Step)
    ensures step in Plan(s, t) <==> Planned(s, t, step)
  {
    InCollect(s.template.skills, SkillSteps(t), step);
    InCollect(s.template.agents, AgentSteps(t), step);
    InCollect(s.mapping.connectors, ConnectorSteps(s, t), step);
    InCollect(t.projects, ProjectSteps(s, t), step);
    InCollect(t.projects, NameSteps(s, t), step);
    InCollect(s.mapping.agents, DeprecationSteps(s, t), step);
  }

  lemma {:induction false} InProjectWorkflows(s: Setup, t: Tenant, project: Entry<Project>, names: seq<string>,
                                              step: Step)
    ensures step in PlanProjectWorkflows(s, t, project, names) <==>
              exists i :: 0 <= i < |names| && step in PlanWorkflow(s, t, project, names[i])
  {
    if names != [] {
      var front := names[..|names| - 1];
      InProjectWorkflows(s, t, project, front, step);
      if i :| 0 <= i < |names| && step in PlanWorkflow(s, t, project, names[i]) {
        if i < |names| - 1 { assert step in PlanWorkflow(s, t, project, front[i]); }
      }
      if i :| 0 <= i < |front| && step in PlanWorkflow(s, t, project, front[i]) {
        assert step in PlanWorkflow(s, t, project, names[i]);
      }
    }
  }

  // ------------------------------------------------------------------ tightenings, listed

  lemma {:induction false} InNarrowingsOf(s: Setup, t: Tenant, project: string, oldName: string, newName: string,
                                          operations: seq<Operation>, x: Tightening)
    ensures x in NarrowingsOf(s, t, project, oldName, newName, operations) <==>
              exists i :: 0 <= i < |operations| && x in Narrowing(s, t, project, oldName, newName, operations[i])
  {
    if operations != [] {
      var front := operations[..|operations| - 1];
      InNarrowingsOf(s, t, project, oldName, newName, front, x);
      if i :| 0 <= i < |operations| && x in Narrowing(s, t, project, oldName, newName, operations[i]) {
        if i < |operations| - 1 { assert x in Narrowing(s, t, project, oldName, newName, front[i]); }
      }
      if i :| 0 <= i < |front| && x in Narrowing(s, t, project, oldName, newName, front[i]) {
        assert x in Narrowing(s, t, project, oldName, newName, operations[i]);
      }
    }
  }

  lemma {:induction false} InNarrowings(s: Setup, t: Tenant, projects: seq<Entry<Project>>, oldName: string,
                                        newName: string, x: Tightening)
    requires oldName in t.connectors
    ensures x in Narrowings(s, t, projects, oldName, newName) <==>
              exists i :: 0 <= i < |projects| &&
                x in NarrowingsOf(s, t, projects[i].key, oldName, newName, t.connectors[oldName].operations)
  {
    if projects != [] {
      var front := projects[..|projects| - 1];
      var operations := t.connectors[oldName].operations;
      InNarrowings(s, t, front, oldName, newName, x);
      if i :| 0 <= i < |projects| && x in NarrowingsOf(s, t, projects[i].key, oldName, newName, operations) {
        if i < |projects| - 1 { assert x in NarrowingsOf(s, t, front[i].key, oldName, newName, operations); }
      }
      if i :| 0 <= i < |front| && x in NarrowingsOf(s, t, front[i].key, oldName, newName, operations) {
        assert x in NarrowingsOf(s, t, projects[i].key, oldName, newName, operations);
      }
    }
  }

  lemma KnownIn(operations: seq<Operation>, i: nat)
    requires i < |operations|
    ensures Known(operations, operations[i].name).Some?
  {}

  /** What is planned of the tightenings comes from a decision on an operation of the old connector. */
  lemma PlannedIsDecided(s: Setup, t: Tenant, oldName: string, newName: string, x: Tightening) returns (p: nat, i: nat)
    requires oldName in t.connectors && x in Narrowings(s, t, t.projects, oldName, newName)
    ensures p < |t.projects| && i < |t.connectors[oldName].operations| && x.project == t.projects[p].key
    ensures var operation := t.connectors[oldName].operations[i];
            && x.operation == Renamed(s.mapping, operation.name)
            && Decision(t.tightenings, x.project, oldName, operation) == Some(x.policy)
  {
    hide Narrowings, NarrowingsOf, Renamed;
    var operations := t.connectors[oldName].operations;
    InNarrowings(s, t, t.projects, oldName, newName, x);
    p :| 0 <= p < |t.projects| && x in NarrowingsOf(s, t, t.projects[p].key, oldName, newName, operations);
    InNarrowingsOf(s, t, t.projects[p].key, oldName, newName, operations, x);
    i :| 0 <= i < |operations| && x in Narrowing(s, t, t.projects[p].key, oldName, newName, operations[i]);
  }

  lemma PlannedTighteningIsRight(s: Setup, t: Tenant, oldName: string, newName: string, x: Tightening)
    requires Sane(s, t) && OldName(s, newName) == Some(oldName) && oldName in t.connectors
    requires x in Narrowings(s, t, t.projects, oldName, newName)
    ensures Narrowed(s, t.projects, t.connectors, t.tightenings, TightenKey(newName, x)) == Some(x.policy)
  {
    hide Narrowings, OldName, Renamed, OperationsAgree, DecisionsAgree, Decided;
    var p, i := PlannedIsDecided(s, t, oldName, newName, x);
    assert AgreeingCopy(s, t, newName);
    DecidedAt(s.mapping, t.projects, t.tightenings, p, oldName, t.connectors[oldName].operations, i);
    FindAt(t.projects, p);
  }

  /** What projects decided is on the copy already, or planned. */
  lemma NarrowedIsPlanned(s: Setup, t: Tenant, oldName: string, newName: string, k: OperationKey)
    requires OldName(s, newName) == Some(oldName) && oldName in t.connectors && k.connector == newName
    requires Narrowed(s, t.projects, t.connectors, t.tightenings, k).Some?
    ensures var policy := Narrowed(s, t.projects, t.connectors, t.tightenings, k).value;
            ProjectPolicy(t, k) == Some(policy) ||
            Tightening(k.project, k.operation, policy) in Narrowings(s, t, t.projects, oldName, newName)
  {
    var operations := t.connectors[oldName].operations;
    var policy := Narrowed(s, t.projects, t.connectors, t.tightenings, k).value;
    var j :| 0 <= j < |operations| && Renamed(s.mapping, operations[j].name) == k.operation
             && Decision(t.tightenings, k.project, oldName, operations[j]) == Some(policy);
    var p :| 0 <= p < |t.projects| && t.projects[p].key == k.project;
    hide Narrowed, Decided, OldName, Renamed, Narrowings;
    DecisionIsPlanned(s, t, oldName, newName, p, j);
  }

  /** A decision shows on the copy already, or is planned. */
  lemma DecisionIsPlanned(s: Setup, t: Tenant, oldName: string, newName: string, p: nat, i: nat)
    requires oldName in t.connectors && p < |t.projects| && i < |t.connectors[oldName].operations|
    requires Decision(t.tightenings, t.projects[p].key, oldName, t.connectors[oldName].operations[i]).Some?
    ensures var operation := t.connectors[oldName].operations[i];
            var k := OperationKey(t.projects[p].key, newName, Renamed(s.mapping, operation.name));
            var decision := Decision(t.tightenings, k.project, oldName, operation);
            ProjectPolicy(t, k) == decision ||
            Tightening(k.project, k.operation, decision.value) in Narrowings(s, t, t.projects, oldName, newName)
  {
    hide Renamed, Narrowings, NarrowingsOf;
    var operations, project := t.connectors[oldName].operations, t.projects[p].key;
    var operation := operations[i];
    var k := OperationKey(project, newName, Renamed(s.mapping, operation.name));
    KnownIn(operations, i);
    var x := Tightening(project, k.operation, Decision(t.tightenings, project, oldName, operation).value);
    if ProjectPolicy(t, k) != Some(x.policy) {
      assert x in Narrowing(s, t, project, oldName, newName, operations[i]);
      InNarrowingsOf(s, t, project, oldName, newName, operations, x);
      InNarrowings(s, t, t.projects, oldName, newName, x);
    }
  }

  // ------------------------------------------------------------------ every planned step fits

  lemma RenameAt(s: Setup, i: nat)
    requires ValidSetup(s) && i < |s.mapping.connectors|
    ensures OldName(s, s.mapping.connectors[i].value) == Some(s.mapping.connectors[i].key)
  {
    FindAt(Flip(s.mapping.connectors), i);
  }

  lemma ConnectorFits(s: Setup, t: Tenant, i: nat, step: Step)
    requires ValidSetup(s) && Sane(s, t) && i < |s.mapping.connectors|
    requires step in PlanConnector(s, t, s.mapping.connectors[i])
    ensures step.Copy? && Fits(s, t, step) && StepOwner(step) == OfConnector(s.mapping.connectors[i].value)
  {
    var oldName, newName := s.mapping.connectors[i].key, s.mapping.connectors[i].value;
    RenameAt(s, i);
    forall x | x in step.tightenings
      ensures Narrowed(s, t.projects, t.connectors, t.tightenings, TightenKey(newName, x)) == Some(x.policy)
    {
      PlannedTighteningIsRight(s, t, oldName, newName, x);
    }
    forall k: OperationKey | k.connector == newName && Narrowed(s, t.projects, t.connectors, t.tightenings, k).Some?
      ensures var narrowed := Narrowed(s, t.projects, t.connectors, t.tightenings, k);
              || Get(t.tightenings, k) == narrowed
              || Tightening(k.project, k.operation, narrowed.value) in step.tightenings
    {
      NarrowedIsPlanned(s, t, oldName, newName, k);
    }
  }

  lemma WorkflowFits(s: Setup, t: Tenant, i: nat, name: string, step: Step)
    requires WellFormed(t) && i < |t.projects| && name in t.projects[i].value.workflows
    requires step in PlanWorkflow(s, t, t.projects[i], name)
    ensures Fits(s, t, step) && StepOwner(step) == OfWorkflow(WorkflowKey(t.projects[i].key, name))
  {
    FindAt(t.projects, i);
  }

  lemma ProjectFits(s: Setup, t: Tenant, i: nat, step: Step)
    requires WellFormed(t) && i < |t.projects| && step in PlanProject(s, t, t.projects[i])
    ensures Fits(s, t, step)
    ensures || StepOwner(step) == OfRouting(t.projects[i].key)
            || (StepOwner(step).OfWorkflow? && StepOwner(step).workflow.project == t.projects[i].key)
  {
    FindAt(t.projects, i);
    InProjectWorkflows(s, t, t.projects[i], t.projects[i].value.workflows, step);
    var names := t.projects[i].value.workflows;
    if j :| 0 <= j < |names| && step in PlanWorkflow(s, t, t.projects[i], names[j]) {
      WorkflowFits(s, t, i, names[j], step);
    }
  }

  lemma TemplateFits(s: Setup, t: Tenant, step: Step)
    requires DistinctKeys(s.template.skills) && DistinctKeys(s.template.agents)
    requires || (exists i :: 0 <= i < |s.template.skills| && step in PlanSkill(t, s.template.skills[i]))
             || (exists i :: 0 <= i < |s.template.agents| && step in PlanAgent(t, s.template.agents[i]))
    ensures Fits(s, t, step)
  {
    if i :| 0 <= i < |s.template.skills| && step in PlanSkill(t, s.template.skills[i]) {
      FindAt(s.template.skills, i);
    } else {
      var i :| 0 <= i < |s.template.agents| && step in PlanAgent(t, s.template.agents[i]);
      FindAt(s.template.agents, i);
    }
  }

  lemma NameFits(s: Setup, t: Tenant, i: nat, step: Step)
    requires DistinctKeys(t.projects) && i < |t.projects| && step in PlanName(s, t, t.projects[i])
    ensures Fits(s, t, step)
  {
    FindAt(t.projects, i);
  }

  lemma DeprecationFits(s: Setup, t: Tenant, i: nat, step: Step)
    requires DistinctKeys(s.mapping.agents) && i < |s.mapping.agents|
    requires step in PlanDeprecation(s, t, s.mapping.agents[i])
    ensures Fits(s, t, step)
  {
    FindAt(s.mapping.agents, i);
  }

  /** Only the loop over connectors plans copies. */
  lemma PlannedCopy(s: Setup, t: Tenant, step: Step) returns (i: nat)
    requires step in Plan(s, t) && step.Copy?
    ensures i < |s.mapping.connectors| && step in PlanConnector(s, t, s.mapping.connectors[i])
  {
    InPlan(s, t, step);
    if p :| 0 <= p < |t.projects| && step in PlanProject(s, t, t.projects[p]) {
      InProjectWorkflows(s, t, t.projects[p], t.projects[p].value.workflows, step);
    }
    hide PlanProject;
    i :| 0 <= i < |s.mapping.connectors| && step in PlanConnector(s, t, s.mapping.connectors[i]);
  }

  lemma OtherStepFits(s: Setup, t: Tenant, step: Step)
    requires ValidSetup(s) && WellFormed(t) && step in Plan(s, t) && !step.Copy?
    ensures Fits(s, t, step)
  {
    InPlan(s, t, step);
    if i :| 0 <= i < |t.projects| && step in PlanProject(s, t, t.projects[i]) {
      ProjectFits(s, t, i, step);
    } else if i :| 0 <= i < |t.projects| && step in PlanName(s, t, t.projects[i]) {
      NameFits(s, t, i, step);
    } else if i :| 0 <= i < |s.mapping.agents| && step in PlanDeprecation(s, t, s.mapping.agents[i]) {
      DeprecationFits(s, t, i, step);
    } else {
      TemplateFits(s, t, step);
    }
  }

  lemma PlanFits(s: Setup, t: Tenant, step: Step)
    requires ValidSetup(s) && Sane(s, t) && step in Plan(s, t)
    ensures Fits(s, t, step)
  {
    if step.Copy? {
      var i := PlannedCopy(s, t, step);
      ConnectorFits(s, t, i, step);
    } else {
      OtherStepFits(s, t, step);
    }
  }

  // ------------------------------------------------------------------ each with an owner of its own

  ghost predicate Apart(a: seq<Step>, b: seq<Step>) {
    forall x, y :: x in a && y in b ==> StepOwner(x) != StepOwner(y)
  }

  lemma ConcatDistinct(a: seq<Step>, b: seq<Step>)
    requires DistinctOwners(a) && DistinctOwners(b) && Apart(a, b)
    ensures DistinctOwners(a + b)
  {
    forall i, j | 0 <= i < j < |a + b| ensures StepOwner((a + b)[i]) != StepOwner((a + b)[j]) {
      if i < |a| <= j { assert (a + b)[i] in a && (a + b)[j] in b; }
    }
  }

  lemma {:induction false} CollectDistinct<T(!new)>(items: seq<T>, steps: T -> seq<Step>)
    requires forall i :: 0 <= i < |items| ==> DistinctOwners(steps(items[i]))
    requires forall i, j :: 0 <= i < j < |items| ==> Apart(steps(items[i]), steps(items[j]))
    ensures DistinctOwners(Collect(items, steps))
  {
    if items != [] {
      var front, last := items[..|items| - 1], items[|items| - 1];
      CollectDistinct(front, steps);
      forall x, y | x in Collect(front, steps) && y in steps(last) ensures StepOwner(x) != StepOwner(y) {
        InCollect(front, steps, x);
        var i :| 0 <= i < |front| && x in steps(front[i]);
        assert Apart(steps(items[i]), steps(items[|items| - 1]));
      }
      ConcatDistinct(Collect(front, steps), steps(last));
    }
  }

  lemma ProjectDistinct(s: Setup, t: Tenant, i: nat)
    requires WellFormed(t) && i < |t.projects|
    ensures DistinctOwners(PlanProject(s, t, t.projects[i]))
  {
    var names := t.projects[i].value.workflows;
    ProjectWorkflowsDistinct(s, t, i, |names|);
    assert names[..|names|] == names;
    forall x | x in PlanProjectWorkflows(s, t, t.projects[i], names) ensures StepOwner(x).OfWorkflow? {
      InProjectWorkflows(s, t, t.projects[i], names, x);
      var j :| 0 <= j < |names| && x in PlanWorkflow(s, t, t.projects[i], names[j]);
      WorkflowFits(s, t, i, names[j], x);
    }
    ConcatDistinct(PlanProjectWorkflows(s, t, t.projects[i], names), PlanRouting(s, t, t.projects[i]));
  }

  lemma {:induction false} ProjectWorkflowsDistinct(s: Setup, t: Tenant, i: nat, n: nat)
    requires WellFormed(t) && i < |t.projects| && n <= |t.projects[i].value.workflows|
    ensures DistinctOwners(PlanProjectWorkflows(s, t, t.projects[i], t.projects[i].value.workflows[..n]))
  {
    if n > 0 {
      var names := t.projects[i].value.workflows;
      ProjectWorkflowsDistinct(s, t, i, n - 1);
      assert names[..n][..n - 1] == names[..n - 1];
      var a := PlanProjectWorkflows(s, t, t.projects[i], names[..n - 1]);
      var b := PlanWorkflow(s, t, t.projects[i], names[n - 1]);
      forall x, y | x in a && y in b ensures StepOwner(x) != StepOwner(y) {
        InProjectWorkflows(s, t, t.projects[i], names[..n - 1], x);
        var j :| 0 <= j < n - 1 && x in PlanWorkflow(s, t, t.projects[i], names[..n - 1][j]);
        WorkflowFits(s, t, i, names[j], x);
        WorkflowFits(s, t, i, names[n - 1], y);
      }
      ConcatDistinct(a, b);
    }
  }

  lemma PartsDistinct(s: Setup, t: Tenant)
    requires ValidSetup(s) && WellFormed(t)
    ensures DistinctOwners(Collect(s.template.skills, SkillSteps(t)))
    ensures DistinctOwners(Collect(s.template.agents, AgentSteps(t)))
    ensures DistinctOwners(Collect(t.projects, NameSteps(s, t)))
    ensures DistinctOwners(Collect(s.mapping.agents, DeprecationSteps(s, t)))
  {
    hide Collect, Find;
    CollectDistinct(s.template.skills, SkillSteps(t));
    CollectDistinct(s.template.agents, AgentSteps(t));
    CollectDistinct(t.projects, NameSteps(s, t));
    CollectDistinct(s.mapping.agents, DeprecationSteps(s, t));
  }

  lemma ConnectorPartDistinct(s: Setup, t: Tenant)
    requires ValidSetup(s) && WellFormed(t)
    ensures DistinctOwners(Collect(s.mapping.connectors, ConnectorSteps(s, t)))
  {
    var m := s.mapping.connectors;
    forall i, j | 0 <= i < j < |m| ensures Apart(PlanConnector(s, t, m[i]), PlanConnector(s, t, m[j])) {
      assert Flip(m)[i].key != Flip(m)[j].key;
    }
    CollectDistinct(m, ConnectorSteps(s, t));
  }

  lemma ProjectPartDistinct(s: Setup, t: Tenant)
    requires ValidSetup(s) && WellFormed(t)
    ensures DistinctOwners(Collect(t.projects, ProjectSteps(s, t)))
  {
    forall i | 0 <= i < |t.projects|
      ensures DistinctOwners(ProjectSteps(s, t)(t.projects[i]))
    {
      ProjectDistinct(s, t, i);
    }
    forall i, j | 0 <= i < j < |t.projects|
      ensures Apart(ProjectSteps(s, t)(t.projects[i]), ProjectSteps(s, t)(t.projects[j]))
    {
      forall x, y | x in PlanProject(s, t, t.projects[i]) && y in PlanProject(s, t, t.projects[j])
        ensures StepOwner(x) != StepOwner(y)
      {
        ProjectFits(s, t, i, x);
        ProjectFits(s, t, j, y);
      }
    }
    CollectDistinct(t.projects, ProjectSteps(s, t));
  }

  /** Which of the six loops a step comes from shows in its owner; the two about agents own different agents. */
  function LoopOf(s: Setup, o: Owner): nat {
    match o
    case OfSkill(_) => 0
    case OfAgent(slug) => if Find(s.template.agents, slug).Some? then 1 else 5
    case OfConnector(_) => 2
    case OfWorkflow(_) => 3
    case OfRouting(_) => 3
    case OfName(_) => 4
  }

  ghost predicate InLoop(s: Setup, steps: seq<Step>, loop: nat) {
    forall x :: x in steps ==> LoopOf(s, StepOwner(x)) == loop
  }

  lemma {:induction false} CollectInLoop<T(!new)>(s: Setup, items: seq<T>, steps: T -> seq<Step>, loop: nat)
    requires forall i :: 0 <= i < |items| ==> InLoop(s, steps(items[i]), loop)
    ensures InLoop(s, Collect(items, steps), loop)
  {
    forall x | x in Collect(items, steps) ensures LoopOf(s, StepOwner(x)) == loop { InCollect(items, steps, x); }
  }

  lemma TemplateInLoop(s: Setup, t: Tenant)
    requires DistinctKeys(s.template.agents)
    ensures InLoop(s, Collect(s.template.skills, SkillSteps(t)), 0)
    ensures InLoop(s, Collect(s.template.agents, AgentSteps(t)), 1)
  {
    CollectInLoop(s, s.template.skills, SkillSteps(t), 0);
    forall i | 0 <= i < |s.template.agents| ensures InLoop(s, AgentSteps(t)(s.template.agents[i]), 1) {
      FindAt(s.template.agents, i);
    }
    CollectInLoop(s, s.template.agents, AgentSteps(t), 1);
  }

  lemma MappingInLoop(s: Setup, t: Tenant)
    requires forall i :: 0 <= i < |s.mapping.agents| ==> Find(s.template.agents, s.mapping.agents[i].key).None?
    ensures InLoop(s, Collect(s.mapping.connectors, ConnectorSteps(s, t)), 2)
    ensures InLoop(s, Collect(s.mapping.agents, DeprecationSteps(s, t)), 5)
  {
    CollectInLoop(s, s.mapping.connectors, ConnectorSteps(s, t), 2);
    CollectInLoop(s, s.mapping.agents, DeprecationSteps(s, t), 5);
  }

  lemma ProjectsInLoop(s: Setup, t: Tenant)
    requires WellFormed(t)
    ensures InLoop(s, Collect(t.projects, ProjectSteps(s, t)), 3) && InLoop(s, Collect(t.projects, NameSteps(s, t)), 4)
  {
    hide PlanProject, Fits, Collect, Find;
    forall i | 0 <= i < |t.projects| ensures InLoop(s, ProjectSteps(s, t)(t.projects[i]), 3) {
      forall x | x in PlanProject(s, t, t.projects[i]) ensures LoopOf(s, StepOwner(x)) == 3 { ProjectFits(s, t, i, x); }
    }
    CollectInLoop(s, t.projects, ProjectSteps(s, t), 3);
    CollectInLoop(s, t.projects, NameSteps(s, t), 4);
  }

  ghost predicate BeforeLoop(s: Setup, steps: seq<Step>, loop: nat) {
    forall x :: x in steps ==> LoopOf(s, StepOwner(x)) < loop
  }

  lemma AppendLoop(s: Setup, a: seq<Step>, b: seq<Step>, loop: nat)
    requires DistinctOwners(a) && BeforeLoop(s, a, loop) && DistinctOwners(b) && InLoop(s, b, loop)
    ensures DistinctOwners(a + b) && BeforeLoop(s, a + b, loop + 1)
  {
    forall x, y | x in a && y in b ensures StepOwner(x) != StepOwner(y) {}
    ConcatDistinct(a, b);
  }

  lemma PlanDistinct(s: Setup, t: Tenant)
    requires ValidSetup(s) && WellFormed(t)
    ensures DistinctOwners(Plan(s, t))
  {
    TemplateInLoop(s, t);
    MappingInLoop(s, t);
    ProjectsInLoop(s, t);
    PartsDistinct(s, t);
    ConnectorPartDistinct(s, t);
    ProjectPartDistinct(s, t);
    var a, b, c := Collect(s.template.skills, SkillSteps(t)), Collect(s.template.agents, AgentSteps(t)),
                   Collect(s.mapping.connectors, ConnectorSteps(s, t));
    AppendLoop(s, a, b, 1);
    AppendLoop(s, a + b, c, 2);
    AppendLoop(s, a + b + c, Collect(t.projects, ProjectSteps(s, t)), 3);
    AppendLoop(s, a + b + c + Collect(t.projects, ProjectSteps(s, t)), Collect(t.projects, NameSteps(s, t)), 4);
    AppendLoop(s, a + b + c + Collect(t.projects, ProjectSteps(s, t)) + Collect(t.projects, NameSteps(s, t)),
               Collect(s.mapping.agents, DeprecationSteps(s, t)), 5);
  }

  // ------------------------------------------------------------------ nothing unsettled is forgotten

  ghost predicate Covered(s: Setup, t: Tenant, o: Owner) {
    exists step :: step in Plan(s, t) && StepOwner(step) == o
  }

  lemma CoveredBy(s: Setup, t: Tenant, step: Step)
    requires Planned(s, t, step)
    ensures Covered(s, t, StepOwner(step))
  {
    InPlan(s, t, step);
  }

  lemma SkillCovered(s: Setup, t: Tenant, name: string)
    requires !Settled(s, t, OfSkill(name))
    ensures Covered(s, t, OfSkill(name))
  {
    var i :| 0 <= i < |s.template.skills| && s.template.skills[i].key == name;
    var step := Single(CreateSkill(name, s.template.skills[i].value));
    assert step in PlanSkill(t, s.template.skills[i]);
    CoveredBy(s, t, step);
  }

  lemma AgentCovered(s: Setup, t: Tenant, slug: string)
    requires !Settled(s, t, OfAgent(slug))
    ensures Covered(s, t, OfAgent(slug))
  {
    hide Covered, Planned;
    if slug in t.agents {
      var i :| 0 <= i < |s.mapping.agents| && s.mapping.agents[i] == Entry(slug, Find(s.mapping.agents, slug).value);
      assert Single(Deprecate(slug)) in PlanDeprecation(s, t, s.mapping.agents[i]);
      CoveredBy(s, t, Single(Deprecate(slug)));
    } else {
      var i :| 0 <= i < |s.template.agents| && s.template.agents[i].key == slug;
      var step := Single(CreateAgent(slug, s.template.agents[i].value));
      assert step in PlanAgent(t, s.template.agents[i]);
      CoveredBy(s, t, step);
    }
  }

  /** A copy that the plan passes over is what it should be. */
  lemma PassedOverIsSettled(s: Setup, t: Tenant, i: nat)
    requires ValidSetup(s) && Sane(s, t) && i < |s.mapping.connectors| && s.mapping.connectors[i].key in t.connectors
    requires PlanConnector(s, t, s.mapping.connectors[i]) == []
    ensures Settled(s, t, OfConnector(s.mapping.connectors[i].value))
  {
    var oldName, name := s.mapping.connectors[i].key, s.mapping.connectors[i].value;
    RenameAt(s, i);
    var source, operations := t.connectors[oldName], t.connectors[name].operations;
    assert AgreeingCopy(s, t, name);
    DifferencesMerge(s.mapping, name, source.operations, operations);
    assert CopyOf(s, source, Some(t.connectors[name])) == t.connectors[name];
    forall k: OperationKey | k.connector == name
      ensures Get(t.tightenings, k) == GoalTightening(s, t.projects, t.connectors, t.tightenings, k)
    {
      if Narrowed(s, t.projects, t.connectors, t.tightenings, k).Some? { NarrowedIsPlanned(s, t, oldName, name, k); }
    }
  }

  lemma ConnectorCovered(s: Setup, t: Tenant, name: string)
    requires ValidSetup(s) && Sane(s, t) && !Settled(s, t, OfConnector(name))
    ensures Covered(s, t, OfConnector(name))
  {
    assert SourceOf(s, t.connectors, name).Some?;
    var m := s.mapping.connectors;
    var i :| 0 <= i < |m| && Flip(m)[i] == Entry(name, OldName(s, name).value);
    assert m[i].key == OldName(s, name).value && m[i].value == name;
    var steps := PlanConnector(s, t, m[i]);
    hide Settled, Planned, Covered, ValidSetup, Sane, Flip, OldName;
    if steps == [] {
      PassedOverIsSettled(s, t, i);
    } else {
      assert steps[0] in PlanConnector(s, t, m[i]);
      CoveredBy(s, t, steps[0]);
    }
  }

  lemma WorkflowCovered(s: Setup, t: Tenant, w: WorkflowKey)
    requires !Settled(s, t, OfWorkflow(w))
    ensures Covered(s, t, OfWorkflow(w))
  {
    hide Republished, Covered, Planned;
    var document := Due(s, t.projects, t.open, w, t.workflows[w]).value;
    var i :| 0 <= i < |t.projects| && t.projects[i] == Entry(w.project, Find(t.projects, w.project).value);
    var names := t.projects[i].value.workflows;
    var j :| 0 <= j < |names| && names[j] == w.name;
    var step := Single(PublishWorkflow(w, document));
    assert step in PlanWorkflow(s, t, t.projects[i], names[j]);
    InProjectWorkflows(s, t, t.projects[i], names, step);
    assert step in PlanProject(s, t, t.projects[i]);
    CoveredBy(s, t, step);
  }

  lemma RelabelChanges(labels: map<string, string>, rules: seq<Rule>)
    requires RelabelRules(labels, rules) != rules
    ensures Relabels(labels, rules)
  {
    var i :| 0 <= i < |rules| && RelabelRule(labels, rules[i]) != rules[i];
    var j :| 0 <= j < |rules[i].labelsAny| && RelabelRule(labels, rules[i]).labelsAny[j] != rules[i].labelsAny[j];
  }

  lemma RoutingCovered(s: Setup, t: Tenant, project: string)
    requires !Settled(s, t, OfRouting(project))
    ensures Covered(s, t, OfRouting(project))
  {
    RelabelChanges(s.mapping.routingLabels, t.routing[project]);
    var i :| 0 <= i < |t.projects| && t.projects[i].key == project;
    assert Relabel(project) in PlanProject(s, t, t.projects[i]);
    CoveredBy(s, t, Relabel(project));
  }

  lemma NameCovered(s: Setup, t: Tenant, project: string)
    requires !Settled(s, t, OfName(project))
    ensures Covered(s, t, OfName(project))
  {
    hide Covered, Planned;
    var i :| 0 <= i < |t.projects| && t.projects[i] == Entry(project, Find(t.projects, project).value);
    var step := Single(RenameProject(project, Wanted(s, t.projects, project).value));
    assert step in PlanName(s, t, t.projects[i]);
    CoveredBy(s, t, step);
  }

  lemma PlanCovers(s: Setup, t: Tenant, o: Owner)
    requires ValidSetup(s) && Sane(s, t)
    ensures Settled(s, t, o) || Covered(s, t, o)
  {
    if !Settled(s, t, o) {
      match o
      case OfSkill(name) => SkillCovered(s, t, name);
      case OfAgent(slug) => AgentCovered(s, t, slug);
      case OfConnector(name) => ConnectorCovered(s, t, name);
      case OfWorkflow(w) => WorkflowCovered(s, t, w);
      case OfRouting(project) => RoutingCovered(s, t, project);
      case OfName(project) => NameCovered(s, t, project);
    }
  }
}
