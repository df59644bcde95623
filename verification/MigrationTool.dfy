// The tool itself: planners that fill a report and the run that works through it, stopping at the first refused call.
module MigrationTool {
  import opened Wrappers
  import opened Tenants
  import opened MigrationPlans

  // ------------------------------------------------------------------ the API and the report

  /** The calls that go through: up to the first that is refused, or as long as the connection lasts. */
  function Cut(server: Server, t: Tenant, calls: seq<Call>, k: nat): seq<Call> {
    calls[..Passed(server, t, calls, k)]
  }

  /** The organisation's API: it refuses what it cannot do, and takes `accepts` more writes before the connection
      drops. */
  class Api {
    const server: Server
    var tenant: Tenant
    var accepts: nat

    constructor (server: Server, tenant: Tenant, accepts: nat)
      ensures this.server == server && this.tenant == tenant && this.accepts == accepts
    {
      this.server, this.tenant, this.accepts := server, tenant, accepts;
    }

    method Write(c: Call) returns (ok: bool)
      modifies this
      ensures ok == (old(accepts) > 0 && Accepted(server, old(tenant), c))
      ensures tenant == if ok then Exec(server, old(tenant), c) else old(tenant)
      ensures accepts == if ok then old(accepts) - 1 else old(accepts)
    {
      ok := accepts > 0 && Accepted(server, tenant, c);
      if ok {
        tenant := Exec(server, tenant, c);
        accepts := accepts - 1;
      }
    }

    /** Writes in order, up to the first refusal. */
    method WriteAll(calls: seq<Call>) returns (ok: bool)
      modifies this
      ensures var cut := Cut(server, old(tenant), calls, old(accepts));
              && ok == (|cut| == |calls|)
              && tenant == ExecAll(server, old(tenant), cut)
              && accepts == old(accepts) - |cut|
    {
      ok := true;
      var i := 0;
      assert calls[0..] == calls;
      while i < |calls| && ok
        invariant 0 <= i <= |calls| && i <= old(accepts)
        invariant accepts == old(accepts) - i
        invariant tenant == ExecAll(server, old(tenant), calls[..i])
        invariant Passed(server, old(tenant), calls, old(accepts)) == i + Passed(server, tenant, calls[i..], accepts)
        invariant !ok ==> i < |calls| && Passed(server, tenant, calls[i..], accepts) == 0
        decreases |calls| - i, ok
      {
        assert calls[i..][1..] == calls[i + 1..];
        ok := Write(calls[i]);
        if ok {
          assert calls[..i + 1] == calls[..i] + [calls[i]];
          ExecConcat(server, old(tenant), calls[..i], [calls[i]]);
          i := i + 1;
        }
      }
    }
  }

  class Report {
    var steps: seq<Step>

    constructor ()
      ensures steps == []
    {
      steps := [];
    }
  }

  // ------------------------------------------------------------------ planners

  lemma CollectNext<T(!new)>(items: seq<T>, steps: T -> seq<Step>, i: nat)
    requires i < |items|
    ensures Collect(items[..i + 1], steps) == Collect(items[..i], steps) + steps(items[i])
  {
    assert items[..i + 1][..i] == items[..i];
  }

  method PlanSkills(s: Setup, t: Tenant, report: Report)
    modifies report
    ensures report.steps == old(report.steps) + Collect(s.template.skills, SkillSteps(t))
  {
    var skills := s.template.skills;
    for i := 0 to |skills|
      invariant report.steps == old(report.steps) + Collect(skills[..i], SkillSteps(t))
    {
      CollectNext(skills, SkillSteps(t), i);
      if skills[i].key !in t.skills {
        report.steps := report.steps + [Single(CreateSkill(skills[i].key, skills[i].value))];
      }
    }
    assert skills[..|skills|] == skills;
  }

  method PlanAgents(s: Setup, t: Tenant, report: Report) returns (slugs: seq<string>)
    modifies report
    ensures report.steps == old(report.steps) + Collect(s.template.agents, AgentSteps(t))
    ensures forall slug :: slug in slugs <==> Find(s.template.agents, slug).Some?
  {
    var agents := s.template.agents;
    slugs := [];
    for i := 0 to |agents|
      invariant report.steps == old(report.steps) + Collect(agents[..i], AgentSteps(t))
      invariant forall slug :: slug in slugs <==> exists j :: 0 <= j < i && agents[j].key == slug
    {
      CollectNext(agents, AgentSteps(t), i);
      slugs := slugs + [agents[i].key];
      if agents[i].key !in t.agents {
        report.steps := report.steps + [Single(CreateAgent(agents[i].key, agents[i].value))];
      }
    }
    assert agents[..|agents|] == agents;
  }

  /** The operations by name, the last of each. */
  method ByName(operations: seq<Operation>) returns (known: map<string, Operation>)
    ensures forall name :: Known(operations, name) == if name in known then Some(known[name]) else None
  {
    known := map[];
    for i := 0 to |operations|
      invariant forall name :: Known(operations[..i], name) == if name in known then Some(known[name]) else None
    {
      assert operations[..i + 1][..i] == operations[..i];
      known := known[operations[i].name := operations[i]];
    }
    assert operations[..|operations|] == operations;
  }

  lemma DifferencesNext(m: Mapping, newName: string, operations: seq<Operation>, copied: seq<Operation>, i: nat)
    requires i < |operations|
    ensures Differences(m, newName, operations[..i + 1], copied) ==
              Differences(m, newName, operations[..i], copied) + Difference(m, newName, operations[i], copied)
  {
    assert operations[..i + 1][..i] == operations[..i];
  }

  /** `_policy_differences`, against the operations of the copy, looked up by name. */
  method PolicyDifferences(m: Mapping, newName: string, operations: seq<Operation>, copied: seq<Operation>)
    returns (changes: seq<Call>)
    ensures changes == Differences(m, newName, operations, copied)
  {
    var known := ByName(copied);
    changes := [];
    for i := 0 to |operations|
      invariant changes == Differences(m, newName, operations[..i], copied)
    {
      DifferencesNext(m, newName, operations, copied, i);
      var change := OneDifference(m, newName, operations[i], copied, known);
      changes := changes + change;
    }
    assert operations[..|operations|] == operations;
  }

  /** The patch of one operation: the policy and the groups it sets and the copy does not carry. */
  method OneDifference(m: Mapping, newName: string, operation: Operation, ghost copied: seq<Operation>,
                       known: map<string, Operation>) returns (change: seq<Call>)
    requires forall name :: Known(copied, name) == if name in known then Some(known[name]) else None
    ensures change == Difference(m, newName, operation, copied)
  {
    change := [];
    var wanted := Renamed(m, operation.name);
    if wanted in known {
      var target := known[wanted];
      var policy, groups := None, None;
      if operation.policy.Some? && operation.policy != target.policy { policy := operation.policy; }
      if operation.groups.Some? && operation.groups != target.groups { groups := operation.groups; }
      if policy.Some? || groups.Some? { change := [PatchOperation(newName, target.name, policy, groups)]; }
    }
  }

  /** `_tightenings`: every project's decisions on the old connector that the new one does not show. */
  method Tightenings(s: Setup, t: Tenant, oldName: string, newName: string) returns (out: seq<Tightening>)
    requires oldName in t.connectors
    ensures out == Narrowings(s, t, t.projects, oldName, newName)
  {
    out := [];
    for i := 0 to |t.projects|
      invariant out == Narrowings(s, t, t.projects[..i], oldName, newName)
    {
      assert t.projects[..i + 1][..i] == t.projects[..i];
      var more := ProjectTightenings(s, t, t.projects[i].key, oldName, newName, t.connectors[oldName].operations);
      out := out + more;
    }
    assert t.projects[..|t.projects|] == t.projects;
  }

  method ProjectTightenings(s: Setup, t: Tenant, project: string, oldName: string, newName: string,
                            operations: seq<Operation>) returns (out: seq<Tightening>)
    ensures out == NarrowingsOf(s, t, project, oldName, newName, operations)
  {
    out := [];
    for i := 0 to |operations|
      invariant out == NarrowingsOf(s, t, project, oldName, newName, operations[..i])
    {
      assert operations[..i + 1][..i] == operations[..i];
      var narrowed := ProjectPolicy(t, OperationKey(project, oldName, operations[i].name));
      if narrowed.Some? && narrowed.value != "" {
        var operation := Renamed(s.mapping, operations[i].name);
        if ProjectPolicy(t, OperationKey(project, newName, operation)) != narrowed {
          out := out + [Tightening(project, operation, narrowed.value)];
        }
      }
    }
    assert operations[..|operations|] == operations;
  }

  method PlanConnectors(s: Setup, t: Tenant, report: Report)
    modifies report
    ensures report.steps == old(report.steps) + Collect(s.mapping.connectors, ConnectorSteps(s, t))
  {
    var renames := s.mapping.connectors;
    for i := 0 to |renames|
      invariant report.steps == old(report.steps) + Collect(renames[..i], ConnectorSteps(s, t))
    {
      CollectNext(renames, ConnectorSteps(s, t), i);
      var oldName, newName := renames[i].key, renames[i].value;
      if oldName in t.connectors {
        var source, found := t.connectors[oldName], newName in t.connectors;
        var tightenings := Tightenings(s, t, oldName, newName);
        var copied := if found then t.connectors[newName].operations else [];
        var changes := PolicyDifferences(s.mapping, newName, source.operations, copied);
        var undiscovered := found && source.body.ty == MCP && copied == [];
        if !found || undiscovered || changes != [] || tightenings != [] {
          report.steps := report.steps + [Copy(oldName, source, newName, found, tightenings)];
        }
      }
    }
    assert renames[..|renames|] == renames;
  }

  /** A workflow document under edit. */
  class Edited {
    var document: Document

    constructor (document: Document)
      ensures this.document == document
    {
      this.document := document;
    }

    /** `_translate_labels`, state by state. */
    method TranslateLabels(labels: map<string, string>) returns (changed: bool)
      modifies this
      ensures document == Translate(old(document), labels)
      ensures changed == Translatable(old(document), labels)
    {
      changed := false;
      ghost var was := document.states;
      for i := 0 to |document.states|
        invariant document.rest == old(document.rest) && |document.states| == |was|
        invariant forall j :: 0 <= j < i ==>
                    document.states[j] == Entry(was[j].key, TranslateState(was[j].value, labels))
        invariant forall j :: i <= j < |was| ==> document.states[j] == was[j]
        invariant changed <==> exists j :: 0 <= j < i && TranslatableState(was[j].value, labels)
      {
        var state := document.states[i].value;
        if state.Fields? && state.display.Some? && state.display.value in labels {
          var translated := state.(display := Some(labels[state.display.value]));
          document := document.(states := document.states[i := Entry(document.states[i].key, translated)]);
          changed := true;
        }
      }
      assert document.states == Translate(old(document), labels).states;
    }
  }

  /** The text one workflow is re-published with, if any. */
  method NextDocument(m: Mapping, slug: string, name: string, current: Document) returns (next: Option<Document>)
    ensures next == Republished(m, slug, name, current)
  {
    next := None;
    if name in m.workflows && HasState(current, m.marker) {
      next := Some(m.workflows[name]);
    } else if LabelKey(slug, name) in m.labels {
      var edited := new Edited(current);
      var changed := edited.TranslateLabels(m.labels[LabelKey(slug, name)]);
      if changed { next := Some(edited.document); }
    }
  }

  /** The loop over one project's workflows, then its routing. */
  method PlanOneProject(s: Setup, t: Tenant, project: Entry<Project>, report: Report)
    modifies report
    ensures report.steps == old(report.steps) + PlanProject(s, t, project)
  {
    hide Republished, Relabels;
    var names := project.value.workflows;
    for i := 0 to |names|
      invariant report.steps == old(report.steps) + PlanProjectWorkflows(s, t, project, names[..i])
    {
      assert names[..i + 1][..i] == names[..i];
      var workflow := WorkflowKey(project.key, names[i]);
      if workflow in t.workflows && t.workflows[workflow] != [] {
        var next := NextDocument(s.mapping, project.value.slug, names[i], Current(t, workflow));
        if next.Some? && !(workflow in t.open && !s.allowOpen) {
          report.steps := report.steps + [Single(PublishWorkflow(workflow, next.value))];
        }
      }
    }
    assert names[..|names|] == names;
    if project.key in t.routing && Relabels(s.mapping.routingLabels, t.routing[project.key]) {
      report.steps := report.steps + [Relabel(project.key)];
    }
  }

  method PlanWorkflows(s: Setup, t: Tenant, report: Report)
    modifies report
    ensures report.steps == old(report.steps) + Collect(t.projects, ProjectSteps(s, t))
  {
    hide PlanProject;
    for i := 0 to |t.projects|
      invariant report.steps == old(report.steps) + Collect(t.projects[..i], ProjectSteps(s, t))
    {
      CollectNext(t.projects, ProjectSteps(s, t), i);
      PlanOneProject(s, t, t.projects[i], report);
    }
    assert t.projects[..|t.projects|] == t.projects;
  }

  method PlanProjects(s: Setup, t: Tenant, report: Report)
    modifies report
    ensures report.steps == old(report.steps) + Collect(t.projects, NameSteps(s, t))
  {
    for i := 0 to |t.projects|
      invariant report.steps == old(report.steps) + Collect(t.projects[..i], NameSteps(s, t))
    {
      CollectNext(t.projects, NameSteps(s, t), i);
      var id, slug := t.projects[i].key, t.projects[i].value.slug;
      if slug in s.mapping.projects && !(id in t.names && t.names[id] == s.mapping.projects[slug]) {
        report.steps := report.steps + [Single(RenameProject(id, s.mapping.projects[slug]))];
      }
    }
    assert t.projects[..|t.projects|] == t.projects;
  }

  method PlanDeprecations(s: Setup, t: Tenant, slugs: seq<string>, report: Report)
    requires forall slug :: slug in slugs <==> Find(s.template.agents, slug).Some?
    modifies report
    ensures report.steps == old(report.steps) + Collect(s.mapping.agents, DeprecationSteps(s, t))
  {
    hide Find;
    var renames := s.mapping.agents;
    for i := 0 to |renames|
      invariant report.steps == old(report.steps) + Collect(renames[..i], DeprecationSteps(s, t))
    {
      CollectNext(renames, DeprecationSteps(s, t), i);
      var slug := renames[i].key;
      if slug in t.agents && t.agents[slug].lifecycle == "active" && renames[i].value in slugs {
        report.steps := report.steps + [Single(Deprecate(slug))];
      }
    }
    assert renames[..|renames|] == renames;
  }

  method MakePlan(s: Setup, t: Tenant) returns (report: Report)
    ensures fresh(report) && report.steps == Plan(s, t)
  {
    report := new Report();
    PlanSkills(s, t, report);
    assert report.steps == Collect(s.template.skills, SkillSteps(t));
    var slugs := PlanAgents(s, t, report);
    PlanConnectors(s, t, report);
    PlanWorkflows(s, t, report);
    PlanProjects(s, t, report);
    PlanDeprecations(s, t, slugs, report);
  }

  // ------------------------------------------------------------------ the run

  lemma CutConcat(server: Server, t: Tenant, a: seq<Call>, b: seq<Call>, k: nat)
    ensures var cut := Cut(server, t, a, k);
            if |cut| < |a| then Cut(server, t, a + b, k) == cut
            else
              var u := ExecAll(server, t, a);
              && cut == a && |a| <= k
              && |Cut(server, t, a + b, k)| == |a| + |Cut(server, u, b, k - |a|)|
              && ExecAll(server, t, Cut(server, t, a + b, k)) == ExecAll(server, u, Cut(server, u, b, k - |a|))
  {
    PassedConcat(server, t, a, b, k);
    var n := Passed(server, t, a, k);
    if n == |a| {
      var rest := Cut(server, ExecAll(server, t, a), b, k - |a|);
      assert Cut(server, t, a + b, k) == a + rest;
      ExecConcat(server, t, a, rest);
    } else {
      assert (a + b)[..n] == a[..n];
    }
  }

  /** What running some calls does to the API. */
  twostate predicate Ran(api: Api, calls: seq<Call>, ok: bool)
    reads api
  {
    var cut := Cut(api.server, old(api.tenant), calls, old(api.accepts));
    && ok == (|cut| == |calls|)
    && api.tenant == ExecAll(api.server, old(api.tenant), cut)
    && api.accepts == old(api.accepts) - |cut|
  }

  /** Create the copy if it was missing, discover it if it is empty. */
  method Fill(s: Setup, api: Api, source: Connector, newName: string, found: bool) returns (ok: bool)
    requires s.server == api.server
    modifies api
    ensures Ran(api, Filling(s, old(api.tenant), source, newName, found), ok)
  {
    ghost var t := api.tenant;
    ghost var creation := Creation(source, newName, found);
    CutConcat(s.server, t, creation, Discovery(source, newName, ExecAll(s.server, t, creation)), api.accepts);
    ok := true;
    if !found {
      ok := api.WriteAll([CreateConnector(newName, source.body)]);
      if !ok { return; }
    }
    if newName in api.tenant.connectors && source.body.ty == MCP && api.tenant.connectors[newName].operations == [] {
      ok := api.WriteAll([Discover(newName)]);
    }
  }

  method Patch(m: Mapping, api: Api, source: Connector, newName: string) returns (ok: bool)
    modifies api
    ensures Ran(api, Patches(m, source, newName, old(api.tenant)), ok)
  {
    ok := true;
    if newName in api.tenant.connectors {
      var changes := PolicyDifferences(m, newName, source.operations, api.tenant.connectors[newName].operations);
      ok := api.WriteAll(changes);
    }
  }

  /** Then patch what differs from the source. */
  method CopyPolicies(s: Setup, api: Api, source: Connector, newName: string, found: bool) returns (ok: bool)
    requires s.server == api.server
    modifies api
    ensures Ran(api, Copying(s, old(api.tenant), source, newName, found), ok)
  {
    hide Filling, Patches;
    ghost var filling := Filling(s, api.tenant, source, newName, found);
    ghost var patches := Patches(s.mapping, source, newName, ExecAll(s.server, api.tenant, filling));
    CutConcat(s.server, api.tenant, filling, patches, api.accepts);
    ok := Fill(s, api, source, newName, found);
    if ok { ok := Patch(s.mapping, api, source, newName); }
  }

  /** The copy of one connector: create, discover, patch, then tighten. */
  method RunCopy(s: Setup, api: Api, step: Step) returns (ok: bool)
    requires step.Copy? && s.server == api.server
    modifies api
    ensures Ran(api, Calls(s, old(api.tenant), step), ok)
  {
    hide Copying, TightenAll, Passed;
    ghost var copying := Copying(s, api.tenant, step.source, step.newName, step.found);
    CutConcat(s.server, api.tenant, copying, TightenAll(step.newName, step.tightenings), api.accepts);
    ok := CopyPolicies(s, api, step.source, step.newName, step.found);
    if ok { ok := api.WriteAll(TightenAll(step.newName, step.tightenings)); }
  }

  method RunStep(s: Setup, api: Api, step: Step) returns (ok: bool)
    requires s.server == api.server
    modifies api
    ensures Ran(api, Calls(s, old(api.tenant), step), ok)
  {
    match step
    case Single(call) => ok := api.WriteAll([call]);
    case Relabel(project) =>
      ok := true;
      if project in api.tenant.routing {
        var rules := api.tenant.routing[project];
        ok := api.WriteAll([PutRouting(project, RelabelRules(s.mapping.routingLabels, rules))]);
      }
    case Copy(_, _, _, _, _) => ok := RunCopy(s, api, step);
  }

  /** The first of these steps, when the connection lasts for `k` writes. */
  lemma FirstStep(s: Setup, t: Tenant, steps: seq<Step>, k: nat)
    requires steps != []
    ensures var calls := Calls(s, t, steps[0]);
            var cut, whole := Cut(s.server, t, calls, k), Cut(s.server, t, Trace(s, t, steps), k);
            var u := ExecAll(s.server, t, cut);
            if |cut| == |calls| then
              var rest := Trace(s, u, steps[1..]);
              && |calls| <= k
              && ExecAll(s.server, t, whole) == ExecAll(s.server, u, Cut(s.server, u, rest, k - |calls|))
              && (|whole| == |Trace(s, t, steps)| <==> |Cut(s.server, u, rest, k - |calls|)| == |rest|)
            else ExecAll(s.server, t, whole) == u && |whole| < |Trace(s, t, steps)|
  {
    hide Calls;
    var calls := Calls(s, t, steps[0]);
    CutConcat(s.server, t, calls, Trace(s, ExecAll(s.server, t, calls), steps[1..]), k);
  }

  /** `apply`: the steps in order, to the first refusal. `done` counts the steps that finished. */
  method Apply(s: Setup, api: Api, steps: seq<Step>) returns (done: nat)
    requires s.server == api.server
    modifies api
    ensures var trace := Trace(s, old(api.tenant), steps);
            var cut := Cut(s.server, old(api.tenant), trace, old(api.accepts));
            && api.tenant == ExecAll(s.server, old(api.tenant), cut)
            && done <= |steps| && (done == |steps| <==> |cut| == |trace|)
  {
    hide Calls, Passed;
    ghost var t, k := api.tenant, api.accepts;
    ghost var cut := Cut(s.server, t, Trace(s, t, steps), k);
    ghost var last, whole := ExecAll(s.server, t, cut), |cut| == |Trace(s, t, steps)|;
    assert steps[0..] == steps;
    done := 0;
    var ok := true;
    while done < |steps| && ok
      invariant done <= |steps|
      invariant ok ==> last == Rest(s, api, steps[done..]) && (whole <==> RestPasses(s, api, steps[done..]))
      invariant !ok ==> done < |steps| && !whole && api.tenant == last
      decreases |steps| - done, ok
    {
      FirstStep(s, api.tenant, steps[done..], api.accepts);
      assert steps[done..][1..] == steps[done + 1..];
      ok := RunStep(s, api, steps[done]);
      if ok { done := done + 1; }
    }
  }

  /** What running these steps would leave. */
  ghost function Rest(s: Setup, api: Api, steps: seq<Step>): Tenant
    reads api
  {
    ExecAll(s.server, api.tenant, Cut(s.server, api.tenant, Trace(s, api.tenant, steps), api.accepts))
  }

  ghost predicate RestPasses(s: Setup, api: Api, steps: seq<Step>)
    reads api
  {
    var trace := Trace(s, api.tenant, steps);
    |Cut(s.server, api.tenant, trace, api.accepts)| == |trace|
  }

  /** One run of the tool leaves what the run leaves that stops at its first refusal, and says whether it finished. */
  method Migrate(s: Setup, api: Api) returns (finished: bool)
    requires s.server == api.server
    modifies api
    ensures api.tenant == Interrupted(s, old(api.tenant), old(api.accepts))
    ensures finished <==>
              Completes(s, old(api.tenant)) && |Trace(s, old(api.tenant), Plan(s, old(api.tenant)))| <= old(api.accepts)
  {
    var report := MakePlan(s, api.tenant);
    ghost var trace := Trace(s, api.tenant, Plan(s, api.tenant));
    PassedAll(s.server, api.tenant, trace, api.accepts);
    var done := Apply(s, api, report.steps);
    finished := done == |report.steps|;
  }
}
