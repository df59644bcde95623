// What the migration promises: it resumes from any interruption, a second run finds nothing to do, it only adds.
module Migrations {
  import opened Wrappers
  import opened Tenants
  import opened MigrationPlans
  import opened MigrationGoals
  import opened MigrationRuns
  import opened MigrationCoverage
  import opened MigrationRefusals

  // ------------------------------------------------------------------ resuming

  /** A run that completes leaves everything as it should become. */
  lemma CompletedIsSettled(s: Setup, t: Tenant)
    requires ValidSetup(s) && Sane(s, t)
    ensures AllToward(s, t, Trace(s, t, Plan(s, t)))
    ensures var u := Completed(s, t); Sane(s, u) && SameGoal(s, t, u) && forall o :: Settled(s, u, o)
  {
    forall step | step in Plan(s, t) ensures Fits(s, t, step) { PlanFits(s, t, step); }
    PlanDistinct(s, t);
    StepsSettle(s, t, Plan(s, t));
    AllTowardKeepsGoal(s, t, Trace(s, t, Plan(s, t)));
    forall o ensures Settled(s, Completed(s, t), o) { PlanCovers(s, t, o); }
  }

  /** Wherever a run stops, even inside the copy of one connector, the goal is the same. */
  lemma InterruptedKeepsGoal(s: Setup, t: Tenant, k: nat)
    requires ValidSetup(s) && Sane(s, t)
    ensures Sane(s, Interrupted(s, t, k)) && SameGoal(s, t, Interrupted(s, t, k))
  {
    hide Trace, Plan, AllToward, SameGoal, Sane, Settled, ExecAll, ValidSetup;
    CompletedIsSettled(s, t);
    var trace := Trace(s, t, Plan(s, t));
    var n := Passed(s.server, t, trace, k);
    AllTowardPrefix(s, t, trace, n);
    AllTowardKeepsGoal(s, t, trace[..n]);
  }

  lemma {:induction false} AttemptsKeepGoal(s: Setup, t: Tenant, stops: seq<nat>)
    requires ValidSetup(s) && Sane(s, t)
    ensures Sane(s, Attempts(s, t, stops)) && SameGoal(s, t, Attempts(s, t, stops))
    decreases |stops|
  {
    if stops != [] {
      var u := Interrupted(s, t, stops[0]);
      InterruptedKeepsGoal(s, t, stops[0]);
      AttemptsKeepGoal(s, u, stops[1..]);
      SameGoalTransitive(s, t, u, Attempts(s, t, stops));
    }
  }

  /** What projects narrowed exists: the API removes an operation with what was narrowed of it. */
  ghost predicate NoOrphans(t: Tenant) {
    forall k :: k in t.tightenings ==>
      k.connector in t.connectors && Has(t.connectors[k.connector].operations, k.operation)
  }

  /** A decision that is not made on the copy yet and that the copy, once it is what it should become, will not take. */
  ghost predicate Stuck(s: Setup, t: Tenant, k: OperationKey) {
    var narrowed := Narrowed(s, t.projects, t.connectors, t.tightenings, k);
    var copy := GoalConnector(s, t.connectors, k.connector);
    && narrowed.Some? && Get(t.tightenings, k) != narrowed
    && !(copy.Some? && Takes(s.server, copy.value.operations, k.operation, narrowed.value))
  }

  ghost predicate NoneStuck(s: Setup, t: Tenant) {
    forall k :: !Stuck(s, t, k)
  }

  lemma CopiedIsGoal(s: Setup, t: Tenant, name: string)
    requires ValidSetup(s) && Sane(s, t) && SourceOf(s, t.connectors, name).Some?
    ensures var source := SourceOf(s, t.connectors, name).value;
            GoalConnector(s, t.connectors, name) ==
            Some(Filled(s, source, Get(t.connectors, name)).(operations := CopiedOperations(s, t, source, name)))
  {
    var source := SourceOf(s, t.connectors, name).value;
    assert AgreeingCopy(s, t, name);
    assert DistinctNames(CopiedNames(s, t, source, name));
    DifferencesMerge(s.mapping, name, source.operations, CopiedNames(s, t, source, name));
  }

  lemma ShownIsNarrowed(t: Tenant, k: OperationKey)
    requires NoOrphans(t)
    ensures ProjectPolicy(t, k) == Get(t.tightenings, k)
  {
    if k in t.tightenings { KnownIsHad(t.connectors[k.connector].operations, k.operation); }
  }

  /** A run completes exactly when no decision is stuck. */
  lemma CompletesUnlessStuck(s: Setup, t: Tenant)
    requires ValidSetup(s) && Sane(s, t) && NoOrphans(t)
    ensures Completes(s, t) <==> NoneStuck(s, t)
  {
    hide NarrowedLands, Stuck, ValidSetup, Sane, NoOrphans, Completes;
    assert WellFormed(t) by { SaneIsWellFormed(s, t); }
    CompletesExactlyWhen(s, t);
    var m := s.mapping.connectors;
    if NarrowedLand(s, t) {
      forall k ensures !Stuck(s, t, k) { LandedIsNotStuck(s, t, k); }
    }
    if NoneStuck(s, t) {
      forall i | 0 <= i < |m| ensures NarrowedLands(s, t, m[i]) { NotStuckLands(s, t, i); }
    }
  }

  lemma SaneIsWellFormed(s: Setup, t: Tenant)
    requires Sane(s, t)
    ensures WellFormed(t)
  {}

  lemma LandedIsNotStuck(s: Setup, t: Tenant, k: OperationKey)
    requires ValidSetup(s) && Sane(s, t) && NoOrphans(t) && NarrowedLand(s, t)
    ensures !Stuck(s, t, k)
  {
    hide Filled, CopiedOperations, Takes, ProjectPolicy, OperationsAgree, DecisionsAgree;
    var narrowed := Narrowed(s, t.projects, t.connectors, t.tightenings, k);
    if narrowed.Some? {
      var m, source := s.mapping.connectors, SourceOf(s, t.connectors, k.connector).value;
      var i :| 0 <= i < |m| && Flip(m)[i] == Entry(k.connector, OldName(s, k.connector).value);
      assert m[i].key == OldName(s, k.connector).value && m[i].value == k.connector && NarrowedLands(s, t, m[i]);
      var p :| 0 <= p < |t.projects| && t.projects[p].key == k.project;
      var j :| 0 <= j < |source.operations| && Renamed(s.mapping, source.operations[j].name) == k.operation
               && Decision(t.tightenings, k.project, m[i].key, source.operations[j]) == narrowed;
      assert DecisionShows(s, t, m[i], p, j) || DecisionTaken(s, t, m[i], p, j);
      ShownIsNarrowed(t, k);
      CopiedIsGoal(s, t, k.connector);
    }
  }

  lemma NotStuckLands(s: Setup, t: Tenant, i: nat)
    requires ValidSetup(s) && Sane(s, t) && NoOrphans(t) && NoneStuck(s, t) && i < |s.mapping.connectors|
    ensures NarrowedLands(s, t, s.mapping.connectors[i])
  {
    hide Filled, CopiedOperations, Takes, ProjectPolicy, OperationsAgree, NoneStuck;
    var rename := s.mapping.connectors[i];
    RenameAt(s, i);
    if rename.key in t.connectors {
      var source := t.connectors[rename.key];
      CopiedIsGoal(s, t, rename.value);
      assert AgreeingCopy(s, t, rename.value);
      forall p, j | 0 <= p < |t.projects| && 0 <= j < |source.operations|
                    && Decision(t.tightenings, t.projects[p].key, rename.key, source.operations[j]).Some?
        ensures DecisionShows(s, t, rename, p, j) || DecisionTaken(s, t, rename, p, j)
      {
        var k := OperationKey(t.projects[p].key, rename.value, Renamed(s.mapping, source.operations[j].name));
        FindAt(t.projects, p);
        DecidedAt(s.mapping, t.projects, t.tightenings, p, rename.key, source.operations, j);
        ShownIsNarrowed(t, k);
        assert !Stuck(s, t, k) by { NotStuck(s, t, k); }
      }
    }
  }

  lemma NotStuck(s: Setup, t: Tenant, k: OperationKey)
    requires NoneStuck(s, t)
    ensures !Stuck(s, t, k)
  {}

  /** A write that the API takes frees no decision and makes none stuck. */
  lemma TakenKeepsStuck(s: Setup, t: Tenant, c: Call, k: OperationKey)
    requires ValidSetup(s) && Sane(s, t) && Toward(s, t, c) && Accepted(s.server, t, c)
    ensures Stuck(s, Exec(s.server, t, c), k) <==> Stuck(s, t, k)
  {
    hide Narrowed, GoalConnector, GoalTightening, Takes, Sane, ValidSetup, SameGoal, Exec, Toward, Accepted;
    var u := Exec(s.server, t, c);
    TowardKeepsGoal(s, t, c);
    SameGoalAt(s, t, u, k);
    TightensOne(s, t, c, k);
    if c.Tighten? && c.key == k { MadeIsTaken(s, t, c); }
  }

  /** A tightening that the API takes is of a decision that was not stuck. */
  lemma MadeIsTaken(s: Setup, t: Tenant, c: Call)
    requires Toward(s, t, c) && Accepted(s.server, t, c) && c.Tighten?
    ensures Narrowed(s, t.projects, t.connectors, t.tightenings, c.key) == Some(c.narrowed) && !Stuck(s, t, c.key)
  {
    hide Narrowed, GoalConnector, Takes;
  }

  lemma SameGoalAt(s: Setup, t: Tenant, u: Tenant, k: OperationKey)
    requires SameGoal(s, t, u)
    ensures Narrowed(s, t.projects, t.connectors, t.tightenings, k) ==
            Narrowed(s, u.projects, u.connectors, u.tightenings, k)
    ensures GoalConnector(s, t.connectors, k.connector) == GoalConnector(s, u.connectors, k.connector)
  {}

  lemma TightensOne(s: Setup, t: Tenant, c: Call, k: OperationKey)
    ensures Get(Exec(s.server, t, c).tightenings, k) ==
            if c.Tighten? && c.key == k then Some(c.narrowed) else Get(t.tightenings, k)
  {}

  lemma TakenLeavesNoOrphans(s: Setup, t: Tenant, c: Call)
    requires NoOrphans(t) && Toward(s, t, c) && Accepted(s.server, t, c)
    ensures NoOrphans(Exec(s.server, t, c))
  {
    hide SourceOf, Carries, Narrowed, Due, Wanted, Replaced, Find, Copied;
    if c.PatchOperation? {
      var operations := t.connectors[c.name].operations;
      SameNamesHave(operations, PatchAll(operations, c.operation, c.policy, c.groups));
    }
  }

  lemma {:induction false} TakenCallsKeepStuck(s: Setup, t: Tenant, calls: seq<Call>)
    requires ValidSetup(s) && Sane(s, t) && NoOrphans(t) && AllToward(s, t, calls) && AllAccepted(s.server, t, calls)
    ensures var u := ExecAll(s.server, t, calls); NoOrphans(u) && (NoneStuck(s, u) <==> NoneStuck(s, t))
    decreases |calls|
  {
    hide Toward, Accepted, Exec, Stuck, NoOrphans, Sane, ValidSetup;
    if calls != [] {
      var u := Exec(s.server, t, calls[0]);
      TowardKeepsGoal(s, t, calls[0]);
      TakenLeavesNoOrphans(s, t, calls[0]);
      forall k ensures Stuck(s, u, k) <==> Stuck(s, t, k) { TakenKeepsStuck(s, t, calls[0], k); }
      TakenCallsKeepStuck(s, u, calls[1..]);
    }
  }

  /** So whether a run can complete does not change over attempts. */
  lemma {:induction false} AttemptsKeepStuck(s: Setup, t: Tenant, stops: seq<nat>)
    requires ValidSetup(s) && Sane(s, t) && NoOrphans(t)
    ensures var u := Attempts(s, t, stops); NoOrphans(u) && (NoneStuck(s, u) <==> NoneStuck(s, t))
    decreases |stops|
  {
    hide Trace, Plan, AllToward, SameGoal, Sane, Settled, ExecAll, ValidSetup, NoOrphans, NoneStuck, AllAccepted;
    if stops != [] {
      var trace := Trace(s, t, Plan(s, t));
      var n := Passed(s.server, t, trace, stops[0]);
      CompletedIsSettled(s, t);
      AllTowardPrefix(s, t, trace, n);
      PassedAreAccepted(s.server, t, trace, stops[0]);
      TakenCallsKeepStuck(s, t, trace[..n]);
      InterruptedKeepsGoal(s, t, stops[0]);
      AttemptsKeepStuck(s, Interrupted(s, t, stops[0]), stops[1..]);
    }
  }

  /** After any number of attempts the goal is the same, so a run that completes leaves the same tenant. */
  lemma SameCompletion(s: Setup, t: Tenant, stops: seq<nat>)
    requires ValidSetup(s) && Sane(s, t)
    ensures Completed(s, Attempts(s, t, stops)) == Completed(s, t)
  {
    hide Agreeing, Settled;
    var u := Attempts(s, t, stops);
    AttemptsKeepGoal(s, t, stops);
    CompletedIsSettled(s, t);
    CompletedIsSettled(s, u);
    SameGoalTransitive(s, t, u, Completed(s, u));
    SameGoalSymmetric(s, t, Completed(s, t));
    SameGoalTransitive(s, Completed(s, t), t, Completed(s, u));
    SettledTenantsAgree(s, Completed(s, t), Completed(s, u));
  }

  /** When operations that become one agree: after any number of runs, wherever they stopped, a run completes exactly if
      the first would have completed on a lasting connection, and then leaves exactly the tenant that the uninterrupted
      run would have left. */
  lemma AgreeingRunsResume(s: Setup, t: Tenant, stops: seq<nat>)
    requires ValidSetup(s) && Sane(s, t) && NoOrphans(t)
    ensures Completes(s, Attempts(s, t, stops)) <==> Completes(s, t)
    ensures Completed(s, Attempts(s, t, stops)) == Completed(s, t)
  {
    hide Completes, NoneStuck, NoOrphans, Agreeing;
    AttemptsKeepGoal(s, t, stops);
    AttemptsKeepStuck(s, t, stops);
    CompletesUnlessStuck(s, t);
    CompletesUnlessStuck(s, Attempts(s, t, stops));
    SameCompletion(s, t, stops);
  }

  lemma SameGoalSymmetric(s: Setup, t: Tenant, u: Tenant)
    requires SameGoal(s, t, u)
    ensures SameGoal(s, u, t)
  {}

  // ------------------------------------------------------------------ a second run

  /** Every operation that a project narrowed is one the copy will have, under its new name. */
  ghost predicate NarrowedThere(s: Setup, t: Tenant, rename: Entry<string>) {
    rename.key in t.connectors ==>
      var source := t.connectors[rename.key];
      forall p, i :: 0 <= p < |t.projects| && 0 <= i < |source.operations|
                     && Decision(t.tightenings, t.projects[p].key, rename.key, source.operations[i]).Some? ==>
        Has(CopiedNames(s, t, source, rename.value), Renamed(s.mapping, source.operations[i].name))
  }

  lemma LandedIsThere(s: Setup, t: Tenant, rename: Entry<string>)
    requires NarrowedLands(s, t, rename)
    ensures NarrowedThere(s, t, rename)
  {
    if rename.key in t.connectors {
      hide Filled, Patched, Differences, ProjectPolicy, Takes;
      var source := t.connectors[rename.key];
      forall p, i | 0 <= p < |t.projects| && 0 <= i < |source.operations|
                    && Decision(t.tightenings, t.projects[p].key, rename.key, source.operations[i]).Some?
        ensures Has(CopiedNames(s, t, source, rename.value), Renamed(s.mapping, source.operations[i].name))
      {
        var k := OperationKey(t.projects[p].key, rename.value, Renamed(s.mapping, source.operations[i].name));
        if DecisionShows(s, t, rename, p, i) {
          ShownIsThere(s, t, source, k);
        } else {
          assert DecisionTaken(s, t, rename, p, i);
          TakenIsThere(s, t, source, rename.value, k.operation,
                       Decision(t.tightenings, t.projects[p].key, rename.key, source.operations[i]).value);
        }
      }
    }
  }

  lemma ShownIsThere(s: Setup, t: Tenant, source: Connector, k: OperationKey)
    requires ProjectPolicy(t, k).Some?
    ensures Has(CopiedNames(s, t, source, k.connector), k.operation)
  {
    ShownIsHad(t, k);
  }

  lemma TakenIsThere(s: Setup, t: Tenant, source: Connector, name: string, operation: string, narrowed: string)
    requires Takes(s.server, CopiedOperations(s, t, source, name), operation, narrowed)
    ensures Has(CopiedNames(s, t, source, name), operation)
  {
    var operations := CopiedNames(s, t, source, name);
    PatchedKeepsNames(operations, Differences(s.mapping, name, source.operations, operations));
    SameNamesHave(operations, CopiedOperations(s, t, source, name));
  }

  lemma {:induction false} PatchedKeepsNames(operations: seq<Operation>, calls: seq<Call>)
    ensures SameNames(operations, Patched(operations, calls))
    decreases |calls|
  {
    if calls != [] { PatchedKeepsNames(operations, calls[..|calls| - 1]); }
  }

  /** The copy of this connector will have operations if it is discovered, and each operation a project narrowed. */
  ghost predicate Lands(s: Setup, t: Tenant, rename: Entry<string>) {
    Fills(s, t, rename) && NarrowedThere(s, t, rename)
  }

  /** The copy of an MCP connector will have operations. */
  predicate Fills(s: Setup, t: Tenant, rename: Entry<string>) {
    rename.key in t.connectors ==>
      !(t.connectors[rename.key].body.ty == MCP && CopiedNames(s, t, t.connectors[rename.key], rename.value) == [])
  }

  predicate AllFill(s: Setup, t: Tenant) {
    forall i :: 0 <= i < |s.mapping.connectors| ==> Fills(s, t, s.mapping.connectors[i])
  }

  /** When operations that become one agree. */
  lemma SecondLookFindsNothing(s: Setup, t: Tenant)
    requires ValidSetup(s) && Sane(s, t)
    ensures Plan(s, Completed(s, t)) == [] <==>
              forall i :: 0 <= i < |s.mapping.connectors| ==> Lands(s, t, s.mapping.connectors[i])
  {
    hide Fills, NarrowedThere, PlanConnector, Planned, Settled, Plan, Completed, SameGoal, Sane;
    var u, m := Completed(s, t), s.mapping.connectors;
    CompletedIsSettled(s, t);
    OtherLoopsFindNothing(s, u);
    OnlyConnectorsLeft(s, u);
    forall i | 0 <= i < |m| ensures PlanConnector(s, u, m[i]) == [] <==> Lands(s, t, m[i]) {
      SecondLook(s, t, u, i);
    }
  }

  lemma OnlyConnectorsLeft(s: Setup, u: Tenant)
    requires forall step :: Planned(s, u, step) <==>
               exists i :: 0 <= i < |s.mapping.connectors| && step in PlanConnector(s, u, s.mapping.connectors[i])
    ensures Plan(s, u) == [] <==>
              forall i :: 0 <= i < |s.mapping.connectors| ==> PlanConnector(s, u, s.mapping.connectors[i]) == []
  {
    var m := s.mapping.connectors;
    if Plan(s, u) == [] {
      forall i | 0 <= i < |m| ensures PlanConnector(s, u, m[i]) == [] {
        if PlanConnector(s, u, m[i]) != [] {
          var step := PlanConnector(s, u, m[i])[0];
          assert step in PlanConnector(s, u, m[i]);
          InPlan(s, u, step);
        }
      }
    } else {
      InPlan(s, u, Plan(s, u)[0]);
      assert Planned(s, u, Plan(s, u)[0]);
    }
  }

  lemma OtherLoopsFindNothing(s: Setup, u: Tenant)
    requires ValidSetup(s) && WellFormed(u) && forall o :: Settled(s, u, o)
    ensures forall step :: Planned(s, u, step) <==>
              exists i :: 0 <= i < |s.mapping.connectors| && step in PlanConnector(s, u, s.mapping.connectors[i])
  {
    forall i | 0 <= i < |s.template.skills| ensures PlanSkill(u, s.template.skills[i]) == [] {
      assert Settled(s, u, OfSkill(s.template.skills[i].key));
    }
    forall i | 0 <= i < |s.template.agents| ensures PlanAgent(u, s.template.agents[i]) == [] {
      assert Settled(s, u, OfAgent(s.template.agents[i].key));
    }
    forall i | 0 <= i < |u.projects|
      ensures PlanProject(s, u, u.projects[i]) == [] && PlanName(s, u, u.projects[i]) == []
    {
      ProjectFindsNothing(s, u, i);
    }
    forall i | 0 <= i < |s.mapping.agents| ensures PlanDeprecation(s, u, s.mapping.agents[i]) == [] {
      FindAt(s.mapping.agents, i);
      assert Settled(s, u, OfAgent(s.mapping.agents[i].key));
    }
  }

  lemma ProjectFindsNothing(s: Setup, u: Tenant, i: nat)
    requires ValidSetup(s) && WellFormed(u) && i < |u.projects| && forall o :: Settled(s, u, o)
    ensures PlanProject(s, u, u.projects[i]) == [] && PlanName(s, u, u.projects[i]) == []
  {
    var project := u.projects[i];
    FindAt(u.projects, i);
    RoutingFindsNothing(s, u, i);
    var names := project.value.workflows;
    forall j | 0 <= j < |names|
      ensures PlanWorkflow(s, u, project, names[j]) == []
    {
      WorkflowFindsNothing(s, u, i, j);
    }
    hide PlanWorkflow, PlanRouting, PlanName;
    var steps := PlanProjectWorkflows(s, u, project, names);
    if steps != [] { InProjectWorkflows(s, u, project, names, steps[0]); }
  }

  lemma WorkflowFindsNothing(s: Setup, u: Tenant, i: nat, j: nat)
    requires i < |u.projects| && Find(u.projects, u.projects[i].key) == Some(u.projects[i].value)
    requires j < |u.projects[i].value.workflows| && forall o :: Settled(s, u, o)
    ensures PlanWorkflow(s, u, u.projects[i], u.projects[i].value.workflows[j]) == []
  {
    hide Republished, Find;
    assert Settled(s, u, OfWorkflow(WorkflowKey(u.projects[i].key, u.projects[i].value.workflows[j])));
  }

  lemma RoutingFindsNothing(s: Setup, u: Tenant, i: nat)
    requires ValidSetup(s) && i < |u.projects| && Find(u.projects, u.projects[i].key) == Some(u.projects[i].value)
    requires forall o :: Settled(s, u, o)
    ensures PlanRouting(s, u, u.projects[i]) == [] && PlanName(s, u, u.projects[i]) == []
  {
    hide Find, RelabelRules, Relabels;
    var project := u.projects[i].key;
    assert Settled(s, u, OfName(project)) && Settled(s, u, OfRouting(project));
    if project in u.routing { SettledRules(s, u.routing[project]); }
  }

  lemma SettledRules(s: Setup, rules: seq<Rule>)
    requires ValidSetup(s)
    ensures RelabelRules(s.mapping.routingLabels, rules) == rules ==> !Relabels(s.mapping.routingLabels, rules)
  {
    var labels := s.mapping.routingLabels;
    if i, j :| 0 <= i < |rules| && 0 <= j < |rules[i].labelsAny| && rules[i].labelsAny[j] in labels {
      assert RelabelRules(labels, rules)[i].labelsAny[j] == labels[rules[i].labelsAny[j]];
    }
  }

  /** What the run left of the sources: nothing changed. */
  lemma SourcesUntouched(s: Setup, t: Tenant, u: Tenant, i: nat)
    requires ValidSetup(s) && SameGoal(s, t, u) && (forall o :: Settled(s, u, o)) && i < |s.mapping.connectors|
    ensures var oldName := s.mapping.connectors[i].key;
            && Get(u.connectors, oldName) == Get(t.connectors, oldName)
            && forall k: OperationKey :: k.connector == oldName ==> Get(u.tightenings, k) == Get(t.tightenings, k)
  {
    var oldName := s.mapping.connectors[i].key;
    assert OldName(s, oldName).None? by {
      forall j | 0 <= j < |Flip(s.mapping.connectors)| ensures Flip(s.mapping.connectors)[j].key != oldName {
        assert s.mapping.connectors[j].value != s.mapping.connectors[i].key;
      }
    }
    assert Settled(s, u, OfConnector(oldName));
    assert GoalConnector(s, t.connectors, oldName) == GoalConnector(s, u.connectors, oldName);
  }

  lemma KnownIsHad(operations: seq<Operation>, name: string)
    ensures Known(operations, name).Some? <==> Has(operations, name)
  {
    var known := Known(operations, name);
    if known.Some? {
      var i :| 0 <= i < |operations| && operations[i] == known.value;
    }
  }

  /** Once merged, nothing differs. */
  lemma {:induction false} MergedHasNoDifference(m: Mapping, newName: string, all: seq<Operation>, n: nat,
                                                 operations: seq<Operation>)
    requires OperationsAgree(m, all, operations) && n <= |all| && MergeAll(m, all, operations) == operations
    ensures Differences(m, newName, all[..n], operations) == []
  {
    hide OperationsAgree, CarriedPolicy, CarriedGroups;
    if n > 0 {
      MergedHasNoDifference(m, newName, all, n - 1, operations);
      assert all[..n][..n - 1] == all[..n - 1];
      var name := Renamed(m, all[n - 1].name);
      var known := Known(operations, name);
      if known.Some? {
        var i :| 0 <= i < |operations| && operations[i] == known.value;
        assert Has(operations, name);
        CarriedPolicyAt(m, all, operations, n - 1);
        CarriedGroupsAt(m, all, operations, n - 1);
        assert MergeAll(m, all, operations)[i] ==
               Merge(operations[i], CarriedPolicy(m, all, name), CarriedGroups(m, all, name));
      }
    }
  }

  lemma SecondLook(s: Setup, t: Tenant, u: Tenant, i: nat)
    requires ValidSetup(s) && Sane(s, t) && Sane(s, u) && SameGoal(s, t, u) && (forall o :: Settled(s, u, o))
    requires i < |s.mapping.connectors|
    ensures PlanConnector(s, u, s.mapping.connectors[i]) == [] <==> Lands(s, t, s.mapping.connectors[i])
  {
    hide Flip, Find, WellFormed, Narrowings, Renamed, OperationsAgree, DecisionsAgree;
    var oldName, name := s.mapping.connectors[i].key, s.mapping.connectors[i].value;
    SourcesUntouched(s, t, u, i);
    assert oldName in t.connectors <==> Get(t.connectors, oldName).Some?;
    assert oldName in u.connectors <==> Get(u.connectors, oldName).Some?;
    if oldName in t.connectors {
      RenameAt(s, i);
      var source := t.connectors[oldName];
      var filled := Filled(s, source, Get(t.connectors, name));
      assert Settled(s, u, OfConnector(name));
      assert GoalConnector(s, t.connectors, name) == GoalConnector(s, u.connectors, name);
      var copy := u.connectors[name];
      assert copy == CopyOf(s, source, Get(t.connectors, name));
      CopyTwice(s, source, Get(t.connectors, name));
      assert AgreeingCopy(s, t, name);
      MergeKeepsNames(s.mapping, source.operations, filled.operations);
      AgreementReadsNames(s.mapping, source.operations, filled.operations, copy.operations);
      assert MergeAll(s.mapping, source.operations, copy.operations) == copy.operations;
      MergedHasNoDifference(s.mapping, name, source.operations, |source.operations|, copy.operations);
      assert source.operations[..|source.operations|] == source.operations;
      NarrowingsLeft(s, t, u, i, source, filled.operations);
    }
  }

  /** The tightenings a second look still lists: those whose operation the copy does not have. */
  lemma NarrowingsLeft(s: Setup, t: Tenant, u: Tenant, r: nat, source: Connector, filled: seq<Operation>)
    requires ValidSetup(s) && Sane(s, u) && r < |s.mapping.connectors| && t.projects == u.projects
    requires var rename := s.mapping.connectors[r];
             && Get(t.connectors, rename.key) == Some(source) == Get(u.connectors, rename.key)
             && rename.value in u.connectors && SameNames(filled, u.connectors[rename.value].operations)
             && filled == CopiedNames(s, t, source, rename.value)
             && (forall k: OperationKey :: k.connector == rename.key ==> Get(u.tightenings, k) == Get(t.tightenings, k))
             && Settled(s, u, OfConnector(rename.value))
    ensures var rename := s.mapping.connectors[r];
            Narrowings(s, u, u.projects, rename.key, rename.value) == [] <==> NarrowedThere(s, t, rename)
  {
    hide Narrowings, Narrowed, Agreeing, ProjectPolicy, Filled, GoalTightening, GoalConnector;
    var rename, operations := s.mapping.connectors[r], source.operations;
    RenameAt(s, r);
    SameNamesHave(filled, u.connectors[rename.value].operations);
    if Narrowings(s, u, u.projects, rename.key, rename.value) == [] {
      forall p, i | 0 <= p < |t.projects| && 0 <= i < |operations|
                    && Decision(t.tightenings, t.projects[p].key, rename.key, operations[i]).Some?
        ensures Has(filled, Renamed(s.mapping, operations[i].name))
      {
        DecisionIsPlanned(s, u, rename.key, rename.value, p, i);
        ShownIsHad(u, OperationKey(u.projects[p].key, rename.value, Renamed(s.mapping, operations[i].name)));
      }
    } else if NarrowedThere(s, t, rename) {
      var x := Narrowings(s, u, u.projects, rename.key, rename.value)[0];
      var p, i := PlannedIsDecided(s, u, rename.key, rename.value, x);
      assert Decision(t.tightenings, t.projects[p].key, rename.key, operations[i]).Some?;
      LandedIsNotListed(s, u, rename, x);
    }
  }

  lemma ShownIsHad(t: Tenant, k: OperationKey)
    requires ProjectPolicy(t, k).Some?
    ensures k.connector in t.connectors && Has(t.connectors[k.connector].operations, k.operation)
  {
    KnownIsHad(t.connectors[k.connector].operations, k.operation);
  }

  lemma LandedIsNotListed(s: Setup, u: Tenant, rename: Entry<string>, x: Tightening)
    requires Sane(s, u) && OldName(s, rename.value) == Some(rename.key) && rename.key in u.connectors
    requires rename.value in u.connectors && Settled(s, u, OfConnector(rename.value))
    requires Has(u.connectors[rename.value].operations, x.operation)
    ensures x !in Narrowings(s, u, u.projects, rename.key, rename.value)
  {
    hide OldName, Narrowings, Narrowed, OperationsAgree, DecisionsAgree;
    if x in Narrowings(s, u, u.projects, rename.key, rename.value) {
      ListedIsMissing(s, u, rename, x);
      PlannedTighteningIsRight(s, u, rename.key, rename.value, x);
      assert Get(u.tightenings, TightenKey(rename.value, x)) == Some(x.policy);
      KnownIsHad(u.connectors[rename.value].operations, x.operation);
    }
  }

  // ------------------------------------------------------------------ operations that become one and do not agree

  /** When operations that become one ask different things of it, the copy differs from one of them whatever it carries,
      and every run finds the copy to complete again. */
  lemma CollidingOperationsNeverSettle(m: Mapping, newName: string, source: seq<Operation>, copied: seq<Operation>)
    requires !OperationsAgree(m, source, copied)
    ensures Differences(m, newName, source, copied) != []
  {
    var i, j :| 0 <= i < j < |source| && Renamed(m, source[i].name) == Renamed(m, source[j].name)
                && Has(copied, Renamed(m, source[i].name))
                && !(Compatible(source[i].policy, source[j].policy) && Compatible(source[i].groups, source[j].groups));
    KnownIsHad(copied, Renamed(m, source[i].name));
    if Difference(m, newName, source[i], copied) != [] {
      DifferenceIsListed(m, newName, source, i, copied);
    } else {
      DifferenceIsListed(m, newName, source, j, copied);
    }
  }

  lemma {:induction false} DifferenceIsListed(m: Mapping, newName: string, source: seq<Operation>, i: nat,
                                              copied: seq<Operation>)
    requires i < |source| && Difference(m, newName, source[i], copied) != []
    ensures Differences(m, newName, source, copied) != []
  {
    hide Difference;
    if i < |source| - 1 { DifferenceIsListed(m, newName, source[..|source| - 1], i, copied); }
  }

  /** So it is when a project decided differently on them: its listing of the copy can match only one. */
  lemma CollidingDecisionsNeverSettle(s: Setup, t: Tenant, oldName: string, newName: string)
    requires oldName in t.connectors
    requires !DecisionsAgree(s.mapping, t.projects, t.tightenings, oldName, t.connectors[oldName].operations)
    ensures Narrowings(s, t, t.projects, oldName, newName) != []
  {
    hide Narrowings, Decision, ProjectPolicy;
    var source := t.connectors[oldName].operations;
    var p, i, j :| 0 <= p < |t.projects| && 0 <= i < j < |source|
                   && Renamed(s.mapping, source[i].name) == Renamed(s.mapping, source[j].name)
                   && !Compatible(Decision(t.tightenings, t.projects[p].key, oldName, source[i]),
                                  Decision(t.tightenings, t.projects[p].key, oldName, source[j]));
    DecisionIsPlanned(s, t, oldName, newName, p, i);
    DecisionIsPlanned(s, t, oldName, newName, p, j);
  }

  /** A plan that is empty leaves no copy to complete. */
  lemma NothingPlanned(s: Setup, u: Tenant, i: nat)
    requires Plan(s, u) == [] && i < |s.mapping.connectors|
    ensures PlanConnector(s, u, s.mapping.connectors[i]) == []
  {
    var steps := PlanConnector(s, u, s.mapping.connectors[i]);
    if steps != [] {
      assert steps[0] in steps;
      InPlan(s, u, steps[0]);
    }
  }

  /** A planned copy is of the renamed connector, and writes to no connector that is itself renamed. */
  lemma PlannedCopyIs(s: Setup, t: Tenant, i: nat, j: nat, step: Step)
    requires ValidSetup(s) && i < |s.mapping.connectors| && j < |s.mapping.connectors|
    requires step.Copy? && step in PlanConnector(s, t, s.mapping.connectors[j])
    requires s.mapping.connectors[i].key in t.connectors
    ensures step.newName != s.mapping.connectors[i].key
    ensures step.newName == s.mapping.connectors[i].value ==> step.source == t.connectors[s.mapping.connectors[i].key]
  {
    hide Narrowings, Differences;
    RenameAt(s, i);
    RenameAt(s, j);
  }

  /** What a run leaves of one copy, whether or not operations agree. */
  lemma RunCopies(s: Setup, t: Tenant, i: nat)
    requires ValidSetup(s) && WellFormed(t) && i < |s.mapping.connectors| && s.mapping.connectors[i].key in t.connectors
    ensures var rename, u := s.mapping.connectors[i], Completed(s, t);
            var source := t.connectors[rename.key];
            && Untouched(t, u, OfConnector(rename.key)) && u.projects == t.projects
            && SameNames(CopiedNames(s, t, source, rename.value), CopiedNames(s, u, source, rename.value))
  {
    hide Plan, PlanConnector, ValidSetup, WellFormed, Ready, CopiedNames, Untouched;
    var rename, steps := s.mapping.connectors[i], Plan(s, t);
    PlanDistinct(s, t);
    forall step | step in steps
      ensures Ready(s, t, step) && StepOwner(step) != OfConnector(rename.key)
      ensures StepOwner(step) == OfConnector(rename.value) ==> step.Copy? && step.source == t.connectors[rename.key]
    {
      PlanIsReady(s, t, step);
      if step.Copy? {
        var j := PlannedCopy(s, t, step);
        PlannedCopyIs(s, t, i, j, step);
      }
    }
    StepsCopy(s, t, steps, rename, t.connectors[rename.key]);
  }

  /** If the second look finds nothing on a copy, the operations that became one agree. */
  lemma SettledCopyAgrees(s: Setup, t: Tenant, u: Tenant, rename: Entry<string>, source: Connector)
    requires Get(t.connectors, rename.key) == Some(source) && u.projects == t.projects
    requires Untouched(t, u, OfConnector(rename.key)) && PlanConnector(s, u, rename) == []
    requires SameNames(CopiedNames(s, t, source, rename.value), CopiedNames(s, u, source, rename.value))
    ensures Fills(s, t, rename)
    ensures OperationsAgree(s.mapping, source.operations, CopiedNames(s, t, source, rename.value))
    ensures DecisionsAgree(s.mapping, t.projects, t.tightenings, rename.key, source.operations)
  {
    hide Narrowings, Differences, OperationsAgree, DecisionsAgree;
    assert Get(u.connectors, rename.key) == Some(source);
    var copied := u.connectors[rename.value].operations;
    assert CopiedNames(s, u, source, rename.value) == copied;
    if !OperationsAgree(s.mapping, source.operations, copied) {
      CollidingOperationsNeverSettle(s.mapping, rename.value, source.operations, copied);
    }
    AgreementReadsNames(s.mapping, source.operations, copied, CopiedNames(s, t, source, rename.value));
    if !DecisionsAgree(s.mapping, u.projects, u.tightenings, rename.key, source.operations) {
      CollidingDecisionsNeverSettle(s, u, rename.key, rename.value);
    }
    SameDecisionsAgree(s.mapping, t, u, rename.key, source.operations);
  }

  lemma SameDecisionsAgree(m: Mapping, t: Tenant, u: Tenant, oldName: string, source: seq<Operation>)
    requires u.projects == t.projects && Untouched(t, u, OfConnector(oldName))
    requires DecisionsAgree(m, u.projects, u.tightenings, oldName, source)
    ensures DecisionsAgree(m, t.projects, t.tightenings, oldName, source)
  {
    assert forall project, x :: Decision(u.tightenings, project, oldName, x) ==
                                Decision(t.tightenings, project, oldName, x);
  }

  lemma SecondLookFindsAgreement(s: Setup, t: Tenant)
    requires ValidSetup(s) && WellFormed(t) && Plan(s, Completed(s, t)) == []
    ensures AllFill(s, t) && Agreeing(s, t)
  {
    hide Fills, PlanConnector, OperationsAgree, DecisionsAgree, Plan, Completed, Untouched, CopiedNames, WellFormed;
    var m, u := s.mapping.connectors, Completed(s, t);
    forall i | 0 <= i < |m| && m[i].key in t.connectors
      ensures var source := t.connectors[m[i].key];
              && Fills(s, t, m[i])
              && OperationsAgree(s.mapping, source.operations, CopiedNames(s, t, source, m[i].value))
              && DecisionsAgree(s.mapping, t.projects, t.tightenings, m[i].key, source.operations)
    {
      NothingPlanned(s, u, i);
      RunCopies(s, t, i);
      SettledCopyAgrees(s, t, u, m[i], t.connectors[m[i].key]);
    }
    forall i | 0 <= i < |m| ensures Fills(s, t, m[i]) { AbsentFills(s, t, m[i]); }
    forall name | SourceOf(s, t.connectors, name).Some? ensures AgreeingCopy(s, t, name) {
      var i :| 0 <= i < |m| && Flip(m)[i] == Entry(name, OldName(s, name).value);
      assert m[i].key == OldName(s, name).value && m[i].value == name;
      CopiedAre(s, t, t.connectors[m[i].key], name);
    }
  }

  lemma AbsentFills(s: Setup, t: Tenant, rename: Entry<string>)
    ensures rename.key !in t.connectors ==> Fills(s, t, rename)
  {}

  lemma CopiedAre(s: Setup, t: Tenant, source: Connector, name: string)
    ensures CopiedNames(s, t, source, name) == Filled(s, source, Get(t.connectors, name)).operations
  {}

  /** A second run after one that completed finds nothing to do, exactly when discovery found operations for every MCP
      copy and operations that became one agree. */
  lemma SecondRunFindsNothing(s: Setup, t: Tenant)
    requires ValidSetup(s) && WellFormed(t) && Completes(s, t)
    ensures Plan(s, Completed(s, t)) == [] <==> AllFill(s, t) && Agreeing(s, t)
  {
    hide Fills, NarrowedLands, NarrowedThere, ValidSetup, Completes, Completed, Plan;
    CompletesExactlyWhen(s, t);
    if Plan(s, Completed(s, t)) == [] { SecondLookFindsAgreement(s, t); }
    if Agreeing(s, t) && AllFill(s, t) {
      forall i | 0 <= i < |s.mapping.connectors| ensures Lands(s, t, s.mapping.connectors[i]) {
        LandedIsThere(s, t, s.mapping.connectors[i]);
      }
      SecondLookFindsNothing(s, t);
    }
  }
}
