// What any number of runs makes of skills, agents, workflows, routing and names, whether or not operations that become
// one agree.
module MigrationVersions {
  import opened Wrappers
  import opened Tenants
  import opened MigrationPlans
  import opened MigrationGoals
  import opened MigrationRuns
  import opened MigrationCoverage
  import opened MigrationRefusals

  // ------------------------------------------------------------------ tenants stay well formed

  lemma ExecKeepsWellFormed(s: Setup, t: Tenant, c: Call)
    requires ValidSetup(s) && WellFormed(t)
    ensures WellFormed(Exec(s.server, t, c))
  {
    var u := Exec(s.server, t, c);
    if c.PatchOperation? && c.name in t.connectors {
      assert SameNames(t.connectors[c.name].operations, u.connectors[c.name].operations);
    }
  }

  lemma {:induction false} CallsKeepWellFormed(s: Setup, t: Tenant, calls: seq<Call>)
    requires ValidSetup(s) && WellFormed(t)
    ensures WellFormed(ExecAll(s.server, t, calls))
    decreases |calls|
  {
    hide ValidSetup, WellFormed, Exec;
    if calls != [] {
      ExecKeepsWellFormed(s, t, calls[0]);
      CallsKeepWellFormed(s, Exec(s.server, t, calls[0]), calls[1..]);
    }
  }

  // ------------------------------------------------------------------ writes that are due

  /** A write of a connector, or one towards what the tenant should become. */
  ghost predicate DueCall(s: Setup, t: Tenant, c: Call) {
    OwnerOf(c).OfConnector? || Toward(s, t, c)
  }

  /** Each write is due where it is made. */
  ghost predicate AllDue(s: Setup, t: Tenant, calls: seq<Call>)
    decreases |calls|
  {
    calls == [] || (DueCall(s, t, calls[0]) && AllDue(s, Exec(s.server, t, calls[0]), calls[1..]))
  }

  lemma {:induction false} AllDueConcat(s: Setup, t: Tenant, a: seq<Call>, b: seq<Call>)
    requires AllDue(s, t, a) && AllDue(s, ExecAll(s.server, t, a), b)
    ensures AllDue(s, t, a + b)
    decreases |a|
  {
    hide DueCall, Exec;
    if a == [] {
      assert a + b == b;
    } else {
      assert (a + b)[0] == a[0] && (a + b)[1..] == a[1..] + b;
      AllDueConcat(s, Exec(s.server, t, a[0]), a[1..], b);
    }
  }

  lemma {:induction false} AllDuePrefix(s: Setup, t: Tenant, calls: seq<Call>, k: nat)
    requires AllDue(s, t, calls) && k <= |calls|
    ensures AllDue(s, t, calls[..k])
    decreases |calls|
  {
    hide DueCall, Exec;
    if k > 0 {
      AllDuePrefix(s, Exec(s.server, t, calls[0]), calls[1..], k - 1);
      assert calls[..k][1..] == calls[1..][..k - 1];
    }
  }

  /** Of connectors nothing is asked. */
  lemma {:induction false} ConnectorCallsAreDue(s: Setup, t: Tenant, calls: seq<Call>)
    requires forall c :: c in calls ==> OwnerOf(c).OfConnector?
    ensures AllDue(s, t, calls)
    decreases |calls|
  {
    hide Exec, Toward;
    if calls != [] {
      assert calls[0] in calls;
      ConnectorCallsAreDue(s, Exec(s.server, t, calls[0]), calls[1..]);
    }
  }

  /** Every object but the connectors should become the same. */
  ghost predicate SameObjectGoal(s: Setup, t: Tenant, u: Tenant) {
    && u.projects == t.projects && u.open == t.open
    && (forall k :: GoalSkill(s, t.skills, k) == GoalSkill(s, u.skills, k))
    && (forall k :: GoalAgent(s, t.agents, k) == GoalAgent(s, u.agents, k))
    && (forall k :: GoalWorkflow(s, t.projects, t.open, t.workflows, k) ==
                    GoalWorkflow(s, u.projects, u.open, u.workflows, k))
    && (forall k :: GoalRouting(s, t.projects, t.routing, k) == GoalRouting(s, u.projects, u.routing, k))
    && (forall k :: GoalName(s, t.projects, t.names, k) == GoalName(s, u.projects, u.names, k))
  }

  lemma ConnectorCallsLeaveObjects(s: Setup, t: Tenant, c: Call)
    requires OwnerOf(c).OfConnector?
    ensures SameObjectGoal(s, t, Exec(s.server, t, c))
  {
    hide GoalSkill, GoalAgent, GoalWorkflow, GoalRouting, GoalName;
  }

  lemma OnlyWorkflowsChange(s: Setup, t: Tenant, c: Call)
    requires c.PublishWorkflow?
    ensures var u := Exec(s.server, t, c); u == t.(workflows := u.workflows)
  {}

  lemma OnlyAgentsChange(s: Setup, t: Tenant, c: Call)
    requires c.CreateAgent? || c.Deprecate?
    ensures var u := Exec(s.server, t, c); u == t.(agents := u.agents)
  {}

  lemma DueKeepsGoal(s: Setup, t: Tenant, c: Call)
    requires ValidSetup(s) && DueCall(s, t, c)
    ensures SameObjectGoal(s, t, Exec(s.server, t, c))
  {
    hide ValidSetup, GoalSkill, GoalAgent, GoalWorkflow, GoalRouting, GoalName;
    if OwnerOf(c).OfConnector? {
      ConnectorCallsLeaveObjects(s, t, c);
    } else if c.PublishWorkflow? {
      PublishKeepsGoal(s, t, c.workflow, c.next);
      OnlyWorkflowsChange(s, t, c);
    } else if c.CreateAgent? || c.Deprecate? {
      AgentCallKeepsGoal(s, t, c);
      OnlyAgentsChange(s, t, c);
    } else {
      PlainCallKeepsGoal(s, t, c);
    }
  }

  lemma SameObjectGoalTransitive(s: Setup, t: Tenant, u: Tenant, v: Tenant)
    requires SameObjectGoal(s, t, u) && SameObjectGoal(s, u, v)
    ensures SameObjectGoal(s, t, v)
  {
    hide GoalSkill, GoalAgent, GoalWorkflow, GoalRouting, GoalName;
  }

  lemma {:induction false} AllDueKeepGoal(s: Setup, t: Tenant, calls: seq<Call>)
    requires ValidSetup(s) && AllDue(s, t, calls)
    ensures SameObjectGoal(s, t, ExecAll(s.server, t, calls))
    decreases |calls|
  {
    if calls != [] {
      hide ValidSetup, DueCall, Exec, SameObjectGoal;
      DueKeepsGoal(s, t, calls[0]);
      AllDueKeepGoal(s, Exec(s.server, t, calls[0]), calls[1..]);
      SameObjectGoalTransitive(s, t, Exec(s.server, t, calls[0]), ExecAll(s.server, t, calls));
    }
  }

  // ------------------------------------------------------------------ one run

  ghost predicate DueStep(s: Setup, t: Tenant, step: Step) {
    step.Copy? || Fits(s, t, step)
  }

  lemma DueStepStays(s: Setup, t: Tenant, u: Tenant, step: Step)
    requires DueStep(s, t, step) && u.projects == t.projects && u.open == t.open && Untouched(t, u, StepOwner(step))
    ensures DueStep(s, u, step)
  {
    if !step.Copy? { SingleStays(s, t, u, step); }
  }

  lemma SingleStays(s: Setup, t: Tenant, u: Tenant, step: Step)
    requires !step.Copy? && Fits(s, t, step) && u.projects == t.projects && u.open == t.open
    requires Untouched(t, u, StepOwner(step))
    ensures Fits(s, u, step)
  {
    if step.Relabel? {
      assert Get(t.routing, step.project) == Get(u.routing, step.project);
    } else {
      UntouchedSingleFits(s, t, u, step);
    }
  }

  lemma ExecKeepsOpen(s: Setup, t: Tenant, c: Call)
    ensures Exec(s.server, t, c).open == t.open
  {}

  lemma {:induction false} CallsKeepOpen(s: Setup, t: Tenant, calls: seq<Call>)
    ensures ExecAll(s.server, t, calls).open == t.open
    decreases |calls|
  {
    if calls != [] {
      ExecKeepsOpen(s, t, calls[0]);
      hide Exec;
      CallsKeepOpen(s, Exec(s.server, t, calls[0]), calls[1..]);
    }
  }

  lemma TowardIsDue(s: Setup, t: Tenant, c: Call)
    requires AllToward(s, t, [c])
    ensures AllDue(s, t, [c])
  {
    assert [c][1..] == [];
  }

  lemma StepIsDue(s: Setup, t: Tenant, step: Step)
    requires ValidSetup(s) && Ready(s, t, step) && DueStep(s, t, step)
    ensures AllDue(s, t, Calls(s, t, step))
  {
    hide ValidSetup, Ready, DueCall, Toward;
    if step.Copy? {
      forall c | c in Calls(s, t, step) ensures OwnerOf(c).OfConnector? { StepTouchesOwner(s, t, step, c); }
      ConnectorCallsAreDue(s, t, Calls(s, t, step));
    } else {
      SingleSettles(s, t, step);
      assert |Calls(s, t, step)| == 1;
      TowardIsDue(s, t, Calls(s, t, step)[0]);
    }
  }

  lemma {:induction false} StepsAreDue(s: Setup, t: Tenant, steps: seq<Step>)
    requires ValidSetup(s) && DistinctOwners(steps)
    requires forall step :: step in steps ==> Ready(s, t, step) && DueStep(s, t, step)
    ensures AllDue(s, t, Trace(s, t, steps))
    decreases |steps|
  {
    if steps != [] {
      hide ValidSetup, Ready, DueStep, Calls, StepOwner, Untouched;
      var calls, rest := Calls(s, t, steps[0]), steps[1..];
      var u := ExecAll(s.server, t, calls);
      assert steps[0] in steps;
      StepIsDue(s, t, steps[0]);
      DueRest(s, t, steps);
      StepsAreDue(s, u, rest);
      AllDueConcat(s, t, calls, Trace(s, u, rest));
    }
  }

  /** After the first of these steps the others are ready and due. */
  lemma DueRest(s: Setup, t: Tenant, steps: seq<Step>)
    requires steps != [] && DistinctOwners(steps)
    requires forall step :: step in steps ==> Ready(s, t, step) && DueStep(s, t, step)
    ensures var u := ExecAll(s.server, t, Calls(s, t, steps[0]));
            && DistinctOwners(steps[1..]) && u.projects == t.projects && u.open == t.open
            && forall step :: step in steps[1..] ==>
                 StepOwner(step) != StepOwner(steps[0]) && Ready(s, u, step) && DueStep(s, u, step)
  {
    hide Ready, DueStep, Calls, StepOwner, Untouched;
    var u := ExecAll(s.server, t, Calls(s, t, steps[0]));
    assert steps[0] in steps;
    RestIsReady(s, t, steps);
    CallsKeepOpen(s, t, Calls(s, t, steps[0]));
    CallsKeepProjects(s, t, Calls(s, t, steps[0]));
    forall other | other in steps[1..] ensures DueStep(s, u, other) {
      StepLeaves(s, t, steps[0], StepOwner(other));
      DueStepStays(s, t, u, other);
    }
  }

  lemma {:induction false} CallsKeepProjects(s: Setup, t: Tenant, calls: seq<Call>)
    ensures ExecAll(s.server, t, calls).projects == t.projects
    decreases |calls|
  {
    if calls != [] {
      ExecKeepsProjects(s, t, calls[0]);
      hide Exec;
      CallsKeepProjects(s, Exec(s.server, t, calls[0]), calls[1..]);
    }
  }

  lemma PlanIsDue(s: Setup, t: Tenant)
    requires ValidSetup(s) && WellFormed(t)
    ensures DistinctOwners(Plan(s, t)) && forall step :: step in Plan(s, t) ==> Ready(s, t, step) && DueStep(s, t, step)
  {
    PlanDistinct(s, t);
    hide ValidSetup, WellFormed, Plan, Ready, Fits;
    forall step | step in Plan(s, t) ensures Ready(s, t, step) && DueStep(s, t, step) {
      PlanIsReady(s, t, step);
      if !step.Copy? { OtherStepFits(s, t, step); }
    }
  }

  /** What an object should become depends on it alone. */
  lemma SettledReads(s: Setup, t: Tenant, u: Tenant, o: Owner)
    requires !o.OfConnector? && Settled(s, t, o) && Untouched(t, u, o)
    requires u.projects == t.projects && u.open == t.open
    ensures Settled(s, u, o)
  {
    hide Due, RelabelRules, Replaced, Wanted;
  }

  /** A run of steps settles the objects they own and unsettles none. */
  lemma {:induction false} StepsSettleObject(s: Setup, t: Tenant, steps: seq<Step>, o: Owner)
    requires ValidSetup(s) && DistinctOwners(steps) && !o.OfConnector?
    requires forall step :: step in steps ==> Ready(s, t, step) && DueStep(s, t, step)
    requires Settled(s, t, o) || exists step :: step in steps && StepOwner(step) == o
    ensures Settled(s, ExecAll(s.server, t, Trace(s, t, steps)), o)
    decreases |steps|
  {
    if steps != [] {
      hide ValidSetup, Ready, DueStep, Calls, Untouched, Settled;
      var step, rest := steps[0], steps[1..];
      var u := ExecAll(s.server, t, Calls(s, t, step));
      assert step in steps;
      DueRest(s, t, steps);
      if StepOwner(step) == o {
        OwnerSettles(s, t, step);
      } else if Settled(s, t, o) {
        StepLeaves(s, t, step, o);
        SettledReads(s, t, u, o);
      } else {
        var x :| x in steps && StepOwner(x) == o;
        assert x in rest;
      }
      StepsSettleObject(s, u, rest, o);
      ExecConcat(s.server, t, Calls(s, t, step), Trace(s, u, rest));
    }
  }

  lemma OwnerSettles(s: Setup, t: Tenant, step: Step)
    requires ValidSetup(s) && DueStep(s, t, step) && !StepOwner(step).OfConnector?
    ensures Settled(s, ExecAll(s.server, t, Calls(s, t, step)), StepOwner(step))
  {
    hide ValidSetup, Settled, Fits;
    SingleSettles(s, t, step);
  }

  /** A run that completes leaves each object but the connectors as it should become. */
  lemma RunSettlesObject(s: Setup, t: Tenant, o: Owner)
    requires ValidSetup(s) && WellFormed(t) && !o.OfConnector?
    ensures Settled(s, Completed(s, t), o)
  {
    hide ValidSetup, WellFormed, Plan, Ready, Settled, DueStep;
    PlanIsDue(s, t);
    if !Settled(s, t, o) { ObjectCovered(s, t, o); }
    StepsSettleObject(s, t, Plan(s, t), o);
  }

  lemma ObjectCovered(s: Setup, t: Tenant, o: Owner)
    requires !o.OfConnector? && !Settled(s, t, o)
    ensures exists step :: step in Plan(s, t) && StepOwner(step) == o
  {
    assert Covered(s, t, o) by {
      match o
      case OfSkill(name) => SkillCovered(s, t, name);
      case OfAgent(slug) => AgentCovered(s, t, slug);
      case OfWorkflow(w) => WorkflowCovered(s, t, w);
      case OfRouting(project) => RoutingCovered(s, t, project);
      case OfName(project) => NameCovered(s, t, project);
    }
  }

  // ------------------------------------------------------------------ over all runs

  lemma {:induction false} AttemptsKeepObjects(s: Setup, t: Tenant, stops: seq<nat>)
    requires ValidSetup(s) && WellFormed(t)
    ensures WellFormed(Attempts(s, t, stops)) && SameObjectGoal(s, t, Attempts(s, t, stops))
    decreases |stops|
  {
    if stops != [] {
      hide ValidSetup, WellFormed, Plan, Trace, AllDue, SameObjectGoal, Ready, DueStep;
      var trace, next := Trace(s, t, Plan(s, t)), Interrupted(s, t, stops[0]);
      var n := Passed(s.server, t, trace, stops[0]);
      PlanIsDue(s, t);
      StepsAreDue(s, t, Plan(s, t));
      AllDuePrefix(s, t, trace, n);
      AllDueKeepGoal(s, t, trace[..n]);
      CallsKeepWellFormed(s, t, trace[..n]);
      AttemptsKeepObjects(s, next, stops[1..]);
      SameObjectGoalTransitive(s, t, next, Attempts(s, t, stops));
    }
  }

  /** Runs of which the last one completes. */
  predicate Finishes(s: Setup, t: Tenant, stops: seq<nat>, k: nat) {
    var u := Attempts(s, t, stops);
    Completes(s, u) && |Trace(s, u, Plan(s, u))| <= k
  }

  /** The tenant after them. */
  function Finished(s: Setup, t: Tenant, stops: seq<nat>, k: nat): Tenant {
    Interrupted(s, Attempts(s, t, stops), k)
  }

  lemma ObjectsFinish(s: Setup, t: Tenant, stops: seq<nat>, k: nat)
    requires ValidSetup(s) && WellFormed(t) && Finishes(s, t, stops, k)
    ensures forall o: Owner :: !o.OfConnector? ==> Settled(s, Finished(s, t, stops, k), o)
    ensures SameObjectGoal(s, t, Finished(s, t, stops, k))
  {
    hide ValidSetup, WellFormed, Plan, Trace, AllDue, SameObjectGoal, Ready, DueStep, Settled, Completes;
    var u := Attempts(s, t, stops);
    CompletedRun(s, u, k);
    AttemptsKeepObjects(s, t, stops);
    forall o: Owner | !o.OfConnector? ensures Settled(s, Completed(s, u), o) { RunSettlesObject(s, u, o); }
    PlanIsDue(s, u);
    StepsAreDue(s, u, Plan(s, u));
    AllDueKeepGoal(s, u, Trace(s, u, Plan(s, u)));
    SameObjectGoalTransitive(s, t, u, Completed(s, u));
  }

  /** Over runs of which the last completes, a workflow that is due a document gains exactly one version, any other
      none, whether or not operations that become one agree. */
  lemma OneVersionOverAllRuns(s: Setup, t: Tenant, stops: seq<nat>, k: nat, w: WorkflowKey)
    requires ValidSetup(s) && WellFormed(t) && w in t.workflows && Finishes(s, t, stops, k)
    ensures var last := Finished(s, t, stops, k);
            w in last.workflows && last.workflows[w] == GoalVersions(s, t.projects, t.open, w, t.workflows[w])
  {
    hide ValidSetup, WellFormed, Finished, Finishes;
    ObjectsFinish(s, t, stops, k);
    assert Settled(s, Finished(s, t, stops, k), OfWorkflow(w));
    assert GoalWorkflow(s, t.projects, t.open, t.workflows, w).Some?;
  }
}
