// The migration only adds, over any sequence of runs, whatever the mapping and the tenant.
module MigrationAdditions {
  import opened Wrappers
  import opened Tenants
  import opened MigrationPlans
  import opened MigrationGoals
  import opened MigrationCoverage

  // ------------------------------------------------------------------ what is kept

  /** Nothing of `t` is gone from `u`: no project or slug changes; skills and documents stay; a connector that is not a
      copy is the same, a copy keeps its body and its operations' names; published versions are never rewritten, and a
      workflow with open items gains none unless it is allowed. */
  ghost predicate Extends(s: Setup, t: Tenant, u: Tenant) {
    && t.projects == u.projects && t.open == u.open
    && KeepsObjects(t, u)
    && KeepsConnectors(s, t.connectors, u.connectors)
    && KeepsTightenings(s, t.tightenings, u.tightenings)
    && KeepsVersions(s, t.open, t.workflows, u.workflows)
  }

  ghost predicate KeepsObjects(t: Tenant, u: Tenant) {
    && (forall k :: k in t.skills ==> k in u.skills && u.skills[k] == t.skills[k])
    && (forall k :: k in t.agents ==> k in u.agents && KeepsAgent(t.agents[k], u.agents[k]))
    && (forall k :: k in t.routing ==> k in u.routing && KeepsRules(t.routing[k], u.routing[k]))
    && (forall k :: k in t.names ==> k in u.names)
  }

  /** The same rules, with as many labels each. */
  predicate KeepsRules(a: seq<Rule>, b: seq<Rule>) {
    |b| == |a| && forall i :: 0 <= i < |a| ==> b[i].rest == a[i].rest && |b[i].labelsAny| == |a[i].labelsAny|
  }

  ghost predicate KeepsTightenings(s: Setup, a: map<OperationKey, string>, b: map<OperationKey, string>) {
    forall k :: k in a ==> k in b && (OldName(s, k.connector).Some? || b[k] == a[k])
  }

  predicate KeepsAgent(a: Agent, b: Agent) {
    b == a || (a.lifecycle == "active" && b == a.(lifecycle := "deprecated"))
  }

  ghost predicate KeepsConnectors(s: Setup, a: map<string, Connector>, b: map<string, Connector>) {
    forall k :: k in a ==> k in b && KeepsConnector(s, k, a[k], b[k])
  }

  predicate KeepsConnector(s: Setup, name: string, a: Connector, b: Connector) {
    && b.body == a.body
    && (OldName(s, name).None? ==> b == a)
    && (a.operations != [] ==> SameNames(a.operations, b.operations))
  }

  ghost predicate KeepsVersions(s: Setup, open: set<WorkflowKey>, a: map<WorkflowKey, seq<Document>>,
                                b: map<WorkflowKey, seq<Document>>)
  {
    forall k :: k in a ==> k in b && a[k] <= b[k] && (k in open && !s.allowOpen ==> b[k] == a[k])
  }

  lemma ExtendsTransitive(s: Setup, t: Tenant, u: Tenant, v: Tenant)
    requires Extends(s, t, u) && Extends(s, u, v)
    ensures Extends(s, t, v)
  {
    KeepsConnectorsTransitive(s, t.connectors, u.connectors, v.connectors);
    KeepsVersionsTransitive(s, t.open, t.workflows, u.workflows, v.workflows);
  }

  lemma KeepsConnectorsTransitive(s: Setup, a: map<string, Connector>, b: map<string, Connector>,
                                  c: map<string, Connector>)
    requires KeepsConnectors(s, a, b) && KeepsConnectors(s, b, c)
    ensures KeepsConnectors(s, a, c)
  {}

  lemma KeepsVersionsTransitive(s: Setup, open: set<WorkflowKey>, a: map<WorkflowKey, seq<Document>>,
                                b: map<WorkflowKey, seq<Document>>, c: map<WorkflowKey, seq<Document>>)
    requires KeepsVersions(s, open, a, b) && KeepsVersions(s, open, b, c)
    ensures KeepsVersions(s, open, a, c)
  {
    forall k | k in a ensures k in c && a[k] <= c[k] && (k in open && !s.allowOpen ==> c[k] == a[k]) {
      assert a[k] <= b[k] <= c[k];
    }
  }

  lemma ExtendsItself(s: Setup, t: Tenant)
    ensures Extends(s, t, t)
  {}

  // ------------------------------------------------------------------ writes that add, if they are taken

  /** What is known of a call: a connector it writes is a copy, a document it publishes is not of a workflow that is
      left alone, an agent it deprecates is active or deprecated, and routing is rewritten rule by rule. */
  predicate Modest(s: Setup, t: Tenant, c: Call) {
    match c
    case Discover(name) =>
      OldName(s, name).Some? && (name in t.connectors ==> t.connectors[name].operations == [])
    case PatchOperation(name, _, _, _) => OldName(s, name).Some?
    case Tighten(key, _) => OldName(s, key.connector).Some?
    case PublishWorkflow(w, _) => w in t.open ==> s.allowOpen
    case PutRouting(project, rules) => project in t.routing ==> KeepsRules(t.routing[project], rules)
    case Deprecate(slug) => slug in t.agents ==> t.agents[slug].lifecycle in {"active", "deprecated"}
    case _ => true
  }

  /** A call that the API takes adds: what it creates was not there. */
  lemma ModestAdds(s: Setup, t: Tenant, c: Call)
    requires Modest(s, t, c) && Accepted(s.server, t, c)
    ensures Extends(s, t, Exec(s.server, t, c))
  {
    ConnectorsAdd(s, t, c);
    ObjectsAdd(s, t, c);
    VersionsAdd(s, t, c);
    TighteningsAdd(s, t, c);
  }

  lemma ObjectsAdd(s: Setup, t: Tenant, c: Call)
    requires Modest(s, t, c) && Accepted(s.server, t, c)
    ensures KeepsObjects(t, Exec(s.server, t, c))
  {
    hide OldName, Takes, Has, Find;
  }

  lemma VersionsAdd(s: Setup, t: Tenant, c: Call)
    requires Modest(s, t, c)
    ensures KeepsVersions(s, t.open, t.workflows, Exec(s.server, t, c).workflows)
  {
    hide OldName;
  }

  lemma TighteningsAdd(s: Setup, t: Tenant, c: Call)
    requires Modest(s, t, c)
    ensures KeepsTightenings(s, t.tightenings, Exec(s.server, t, c).tightenings)
  {
    hide OldName;
  }

  lemma ConnectorsAdd(s: Setup, t: Tenant, c: Call)
    requires Modest(s, t, c) && Accepted(s.server, t, c)
    ensures KeepsConnectors(s, t.connectors, Exec(s.server, t, c).connectors)
  {
    hide OldName, Takes, Has, Find;
  }

  /** Each call is modest where it is made, up to the first that is refused. */
  predicate AllModest(s: Setup, t: Tenant, calls: seq<Call>)
    decreases |calls|
  {
    calls == [] || (Modest(s, t, calls[0])
                    && (Accepted(s.server, t, calls[0]) ==> AllModest(s, Exec(s.server, t, calls[0]), calls[1..])))
  }

  lemma {:induction false} AllModestConcat(s: Setup, t: Tenant, a: seq<Call>, b: seq<Call>)
    requires AllModest(s, t, a) && (AllAccepted(s.server, t, a) ==> AllModest(s, ExecAll(s.server, t, a), b))
    ensures AllModest(s, t, a + b)
    decreases |a|
  {
    hide Modest, Accepted, Exec;
    if a == [] {
      assert a + b == b;
    } else {
      assert (a + b)[0] == a[0] && (a + b)[1..] == a[1..] + b;
      if Accepted(s.server, t, a[0]) { AllModestConcat(s, Exec(s.server, t, a[0]), a[1..], b); }
    }
  }

  lemma {:induction false} AllModestAdd(s: Setup, t: Tenant, calls: seq<Call>)
    requires AllModest(s, t, calls) && AllAccepted(s.server, t, calls)
    ensures Extends(s, t, ExecAll(s.server, t, calls))
    decreases |calls|
  {
    hide Modest, Accepted, Exec, Extends;
    ExtendsItself(s, t);
    if calls != [] {
      ModestAdds(s, t, calls[0]);
      AllModestAdd(s, Exec(s.server, t, calls[0]), calls[1..]);
      ExtendsTransitive(s, t, Exec(s.server, t, calls[0]), ExecAll(s.server, t, calls));
    }
  }

  lemma {:induction false} AllModestPrefix(s: Setup, t: Tenant, calls: seq<Call>, k: nat)
    requires AllModest(s, t, calls) && k <= |calls|
    ensures AllModest(s, t, calls[..k])
    decreases |calls|
  {
    hide Modest, Accepted, Exec;
    if k > 0 {
      if Accepted(s.server, t, calls[0]) { AllModestPrefix(s, Exec(s.server, t, calls[0]), calls[1..], k - 1); }
      assert calls[..k][1..] == calls[1..][..k - 1];
    }
  }

  lemma ModestOne(s: Setup, t: Tenant, c: Call)
    requires Modest(s, t, c)
    ensures AllModest(s, t, [c])
  {
    assert [c][1..] == [];
    hide Modest, Accepted, Exec;
  }

  /** Calls that are modest on any tenant. */
  lemma {:induction false} AlwaysModest(s: Setup, t: Tenant, calls: seq<Call>)
    requires forall c, u :: c in calls ==> Modest(s, u, c)
    ensures AllModest(s, t, calls)
    decreases |calls|
  {
    hide Modest, Accepted, Exec;
    if calls != [] {
      assert calls[0] in calls;
      AlwaysModest(s, Exec(s.server, t, calls[0]), calls[1..]);
    }
  }

  // ------------------------------------------------------------------ steps

  /** What is known of a planned step when it is planned, and later. */
  predicate ModestStep(s: Setup, t: Tenant, step: Step) {
    match step
    case Single(call) =>
      && (call.CreateSkill? || call.CreateAgent? || call.PublishWorkflow? || call.RenameProject? || call.Deprecate?)
      && Modest(s, t, call) && (call.Deprecate? ==> call.slug in t.agents)
    case Relabel(_) => true
    case Copy(_, _, newName, _, _) => OldName(s, newName).Some?
  }

  lemma ModestyStays(s: Setup, t: Tenant, u: Tenant, step: Step)
    requires ModestStep(s, t, step) && Extends(s, t, u)
    ensures ModestStep(s, u, step)
  {
    hide KeepsConnectors, KeepsTightenings, KeepsVersions, OldName;
  }

  lemma {:induction false} DifferencesAreModest(s: Setup, newName: string, source: seq<Operation>,
                                                operations: seq<Operation>)
    requires OldName(s, newName).Some?
    ensures forall c, t :: c in Differences(s.mapping, newName, source, operations) ==> Modest(s, t, c)
  {
    if source != [] { DifferencesAreModest(s, newName, source[..|source| - 1], operations); }
  }

  lemma CopyingIsModest(s: Setup, t: Tenant, source: Connector, newName: string, found: bool)
    requires OldName(s, newName).Some?
    ensures AllModest(s, t, Copying(s, t, source, newName, found))
  {
    var creation := Creation(source, newName, found);
    var created := ExecAll(s.server, t, creation);
    var discovery := Discovery(source, newName, created);
    AlwaysModest(s, t, creation);
    AlwaysModest(s, created, []);
    if discovery != [] { ModestOne(s, created, Discover(newName)); }
    AllModestConcat(s, t, creation, discovery);
    var filled := ExecAll(s.server, t, creation + discovery);
    if newName in filled.connectors {
      DifferencesAreModest(s, newName, source.operations, filled.connectors[newName].operations);
    }
    hide AllModest, Modest, ExecAll, AllAccepted;
    AlwaysModest(s, filled, Patches(s.mapping, source, newName, filled));
    AllModestConcat(s, t, creation + discovery, Patches(s.mapping, source, newName, filled));
  }

  lemma StepIsModest(s: Setup, t: Tenant, step: Step)
    requires ModestStep(s, t, step)
    ensures AllModest(s, t, Calls(s, t, step))
  {
    match step
    case Single(call) => ModestOne(s, t, call);
    case Relabel(project) =>
      if project in t.routing {
        ModestOne(s, t, PutRouting(project, RelabelRules(s.mapping.routingLabels, t.routing[project])));
      }
    case Copy(_, source, newName, found, tightenings) =>
      CopyingIsModest(s, t, source, newName, found);
      var copied := ExecAll(s.server, t, Copying(s, t, source, newName, found));
      assert forall c, u :: c in TightenAll(newName, tightenings) ==> Modest(s, u, c);
      hide AllModest, Modest, ExecAll, AllAccepted, Copying, TightenAll;
      AlwaysModest(s, copied, TightenAll(newName, tightenings));
      AllModestConcat(s, t, Copying(s, t, source, newName, found), TightenAll(newName, tightenings));
  }

  lemma {:induction false} StepsAreModest(s: Setup, t: Tenant, steps: seq<Step>)
    requires forall step :: step in steps ==> ModestStep(s, t, step)
    ensures AllModest(s, t, Trace(s, t, steps))
    decreases |steps|
  {
    hide AllModest, ModestStep, Calls, AllAccepted, Extends;
    if steps != [] {
      var calls, rest := Calls(s, t, steps[0]), steps[1..];
      var u := ExecAll(s.server, t, calls);
      assert steps[0] in steps;
      StepIsModest(s, t, steps[0]);
      if AllAccepted(s.server, t, calls) {
        AllModestAdd(s, t, calls);
        forall step | step in rest ensures ModestStep(s, u, step) {
          assert step in steps;
          ModestyStays(s, t, u, step);
        }
        StepsAreModest(s, u, rest);
      }
      AllModestConcat(s, t, calls, Trace(s, u, rest));
    } else {
      AlwaysModest(s, t, []);
    }
  }

  // ------------------------------------------------------------------ runs

  lemma ProjectIsModest(s: Setup, t: Tenant, project: Entry<Project>, step: Step)
    requires step in PlanProject(s, t, project)
    ensures ModestStep(s, t, step)
  {
    hide Republished;
    InProjectWorkflows(s, t, project, project.value.workflows, step);
  }

  /** What is planned is modest, whatever the mapping and the tenant. */
  lemma PlanIsModest(s: Setup, t: Tenant, step: Step)
    requires step in Plan(s, t)
    ensures ModestStep(s, t, step)
  {
    hide PlanProject, Narrowings, Differences, Plan, Find;
    InPlan(s, t, step);
    var m := s.mapping.connectors;
    if i :| 0 <= i < |t.projects| && step in PlanProject(s, t, t.projects[i]) {
      ProjectIsModest(s, t, t.projects[i], step);
    } else if i :| 0 <= i < |m| && step in PlanConnector(s, t, m[i]) {
      assert Flip(m)[i].key == m[i].value;
    }
  }

  /** The migration only adds, over any sequence of runs, completed or not, whatever the mapping and the tenant. */
  lemma {:induction false} RunsOnlyAdd(s: Setup, t: Tenant, stops: seq<nat>)
    ensures Extends(s, t, Attempts(s, t, stops))
    decreases |stops|
  {
    hide Trace, Plan, AllModest, AllAccepted, ModestStep, Extends, ExecAll;
    ExtendsItself(s, t);
    if stops != [] {
      var trace := Trace(s, t, Plan(s, t));
      var n := Passed(s.server, t, trace, stops[0]);
      forall step | step in Plan(s, t) ensures ModestStep(s, t, step) { PlanIsModest(s, t, step); }
      StepsAreModest(s, t, Plan(s, t));
      AllModestPrefix(s, t, trace, n);
      PassedAreAccepted(s.server, t, trace, stops[0]);
      AllModestAdd(s, t, trace[..n]);
      RunsOnlyAdd(s, Interrupted(s, t, stops[0]), stops[1..]);
      ExtendsTransitive(s, t, Interrupted(s, t, stops[0]), Attempts(s, t, stops));
    }
  }
}
