// What the migration leaves, object by object, told from the mapping, the template and the tenant it began with.
module MigrationOutcomes {
  import opened Wrappers
  import opened Tenants
  import opened MigrationPlans
  import opened MigrationGoals
  import opened MigrationRuns
  import opened MigrationCoverage
  import opened MigrationVersions
  import opened Migrations

  // ------------------------------------------------------------------ workflows

  /** The state shows a label that is to be translated. */
  predicate Shows(state: State, labels: map<string, string>) {
    match state
    case Fields(Some(display), _) => display in labels
    case _ => false
  }

  /** The document with those labels, and nothing else, replaced. */
  ghost predicate TranslationOf(d: Document, current: Document, labels: map<string, string>) {
    && d.rest == current.rest && |d.states| == |current.states|
    && forall i :: 0 <= i < |d.states| ==>
         && d.states[i].key == current.states[i].key
         && d.states[i].value ==
              match current.states[i].value
              case Fields(Some(display), rest) =>
                if display in labels then Fields(Some(labels[display]), rest) else current.states[i].value
              case _ => current.states[i].value
  }

  lemma TranslatedStates(current: Document, labels: map<string, string>)
    ensures TranslationOf(Translate(current, labels), current, labels)
    ensures Translatable(current, labels) <==>
              exists i :: 0 <= i < |current.states| && Shows(current.states[i].value, labels)
  {
    forall i | 0 <= i < |current.states|
      ensures TranslatableState(current.states[i].value, labels) <==> Shows(current.states[i].value, labels)
    {}
    if i :| 0 <= i < |current.states| && Shows(current.states[i].value, labels) {
      assert TranslatableState(current.states[i].value, labels);
    }
  }

  /** The template's workflow replaces one that has the marker state; otherwise hand-made labels are translated. */
  ghost predicate Follows(m: Mapping, slug: string, name: string, current: Document, added: seq<Document>) {
    var key := slug + "/" + name;
    if name in m.workflows && exists i :: 0 <= i < |current.states| && current.states[i].key == m.marker then
      added == [m.workflows[name]]
    else if key in m.labels
            && exists i :: 0 <= i < |current.states| && Shows(current.states[i].value, m.labels[key]) then
      |added| == 1 && TranslationOf(added[0], current, m.labels[key])
    else
      added == []
  }

  lemma RepublishedFollows(m: Mapping, slug: string, name: string, current: Document)
    ensures Follows(m, slug, name, current,
                    match Republished(m, slug, name, current) case None => [] case Some(d) => [d])
  {
    if slug + "/" + name in m.labels { TranslatedStates(current, m.labels[slug + "/" + name]); }
    hide Translate, Translatable, TranslationOf;
  }

  /** What a listed workflow is due, after its versions. */
  lemma DueFollows(s: Setup, t: Tenant, p: nat, name: string)
    requires DistinctKeys(t.projects) && p < |t.projects| && name in t.projects[p].value.workflows
    requires var w := WorkflowKey(t.projects[p].key, name); w in t.workflows && t.workflows[w] != []
    ensures var w := WorkflowKey(t.projects[p].key, name);
            var versions := t.workflows[w];
            var all := GoalVersions(s, t.projects, t.open, w, versions);
            && versions <= all
            && if w in t.open && !s.allowOpen then all[|versions|..] == []
               else Follows(s.mapping, t.projects[p].value.slug, name, versions[|versions| - 1], all[|versions|..])
  {
    var w := WorkflowKey(t.projects[p].key, name);
    var versions, slug := t.workflows[w], t.projects[p].value.slug;
    FindAt(t.projects, p);
    RepublishedFollows(s.mapping, slug, name, versions[|versions| - 1]);
    hide Republished, Follows;
    var next := Republished(s.mapping, slug, name, versions[|versions| - 1]);
    assert next.Some? ==> (versions + [next.value])[|versions|..] == [next.value];
    assert versions[|versions|..] == [];
  }

  /** After runs of which the last completes: a listed workflow has, beyond its versions, what its current document is
      due and no more; one with open items has nothing more, unless that is allowed. */
  lemma WorkflowOutcome(s: Setup, t: Tenant, stops: seq<nat>, k: nat, p: nat, name: string)
    requires ValidSetup(s) && WellFormed(t) && Finishes(s, t, stops, k)
    requires p < |t.projects| && name in t.projects[p].value.workflows
    requires var w := WorkflowKey(t.projects[p].key, name); w in t.workflows && t.workflows[w] != []
    ensures var w, last := WorkflowKey(t.projects[p].key, name), Finished(s, t, stops, k);
            var versions := t.workflows[w];
            && w in last.workflows && versions <= last.workflows[w]
            && var added := last.workflows[w][|versions|..];
               if w in t.open && !s.allowOpen then added == []
               else Follows(s.mapping, t.projects[p].value.slug, name, versions[|versions| - 1], added)
  {
    hide Finished, Finishes, Follows, ValidSetup, GoalVersions;
    OneVersionOverAllRuns(s, t, stops, k, WorkflowKey(t.projects[p].key, name));
    DueFollows(s, t, p, name);
  }

  /** A workflow that no listed project has keeps its versions. */
  lemma OtherWorkflowOutcome(s: Setup, t: Tenant, stops: seq<nat>, k: nat, w: WorkflowKey)
    requires ValidSetup(s) && WellFormed(t) && Finishes(s, t, stops, k) && w in t.workflows
    requires forall p :: 0 <= p < |t.projects| && t.projects[p].key == w.project ==>
               w.name !in t.projects[p].value.workflows
    ensures var last := Finished(s, t, stops, k); w in last.workflows && last.workflows[w] == t.workflows[w]
  {
    OneVersionOverAllRuns(s, t, stops, k, w);
    hide Finished, Finishes, ValidSetup;
  }

  // ------------------------------------------------------------------ routing, names, skills, agents

  /** Each label of each rule, renamed where the mapping says so; the rest of every rule as it was. */
  ghost predicate Rerouted(rules: seq<Rule>, before: seq<Rule>, labels: map<string, string>) {
    && |rules| == |before|
    && forall i :: 0 <= i < |rules| ==>
         && rules[i].rest == before[i].rest && |rules[i].labelsAny| == |before[i].labelsAny|
         && forall j :: 0 <= j < |rules[i].labelsAny| ==>
              rules[i].labelsAny[j] ==
              if before[i].labelsAny[j] in labels then labels[before[i].labelsAny[j]] else before[i].labelsAny[j]
  }

  lemma RelabelReroutes(rules: seq<Rule>, labels: map<string, string>)
    ensures Rerouted(RelabelRules(labels, rules), rules, labels)
  {}

  lemma RoutingOutcome(s: Setup, t: Tenant, stops: seq<nat>, k: nat, project: string)
    requires ValidSetup(s) && WellFormed(t) && Finishes(s, t, stops, k) && project in t.routing
    ensures var last := Finished(s, t, stops, k);
            && project in last.routing
            && if exists p :: 0 <= p < |t.projects| && t.projects[p].key == project then
                 Rerouted(last.routing[project], t.routing[project], s.mapping.routingLabels)
               else last.routing[project] == t.routing[project]
  {
    hide Finished, Finishes, ValidSetup, RelabelRules;
    ObjectsFinish(s, t, stops, k);
    var last := Finished(s, t, stops, k);
    assert Settled(s, last, OfRouting(project));
    assert GoalRouting(s, t.projects, t.routing, project).Some?;
    RelabelReroutes(t.routing[project], s.mapping.routingLabels);
  }

  /** A project with a wanted display name has it; any other keeps its own. */
  lemma NameOutcome(s: Setup, t: Tenant, stops: seq<nat>, k: nat, p: nat)
    requires ValidSetup(s) && WellFormed(t) && Finishes(s, t, stops, k) && p < |t.projects|
    ensures var last, project := Finished(s, t, stops, k), t.projects[p];
            if project.value.slug in s.mapping.projects then
              project.key in last.names && last.names[project.key] == s.mapping.projects[project.value.slug]
            else Get(last.names, project.key) == Get(t.names, project.key)
  {
    hide Finished, Finishes, ValidSetup;
    ObjectsFinish(s, t, stops, k);
    FindAt(t.projects, p);
    var last := Finished(s, t, stops, k);
    assert Settled(s, last, OfName(t.projects[p].key));
  }

  /** Skills that were there stay, and each of the template's is there. */
  lemma SkillOutcome(s: Setup, t: Tenant, stops: seq<nat>, k: nat, name: string)
    requires ValidSetup(s) && WellFormed(t) && Finishes(s, t, stops, k)
    ensures var last := Finished(s, t, stops, k);
            && (name in t.skills ==> name in last.skills && last.skills[name] == t.skills[name])
            && (name !in t.skills ==>
                  forall i :: 0 <= i < |s.template.skills| && s.template.skills[i].key == name ==>
                    name in last.skills && last.skills[name] == s.template.skills[i].value)
            && (name in last.skills ==>
                  name in t.skills || exists i :: 0 <= i < |s.template.skills| && s.template.skills[i].key == name)
  {
    ObjectsFinish(s, t, stops, k);
    hide Finished, Finishes;
    var last := Finished(s, t, stops, k);
    assert Settled(s, last, OfSkill(name)) && GoalSkill(s, last.skills, name) == GoalSkill(s, t.skills, name);
    forall i | 0 <= i < |s.template.skills| && s.template.skills[i].key == name
      ensures Find(s.template.skills, name) == Some(s.template.skills[i].value)
    {
      FindAt(s.template.skills, i);
    }
    hide ValidSetup;
  }

  /** An agent that was active and is replaced by one of the template's is deprecated; any other that was there
      stays. */
  lemma AgentOutcome(s: Setup, t: Tenant, stops: seq<nat>, k: nat, slug: string)
    requires ValidSetup(s) && WellFormed(t) && Finishes(s, t, stops, k) && slug in t.agents
    ensures var last := Finished(s, t, stops, k);
            && slug in last.agents && last.agents[slug].document == t.agents[slug].document
            && last.agents[slug].lifecycle ==
                 if t.agents[slug].lifecycle == "active" && IsReplaced(s, slug) then "deprecated"
                 else t.agents[slug].lifecycle
  {
    ReplacedIs(s, slug);
    hide Finished, Finishes, ValidSetup, Replaced, IsReplaced;
    ObjectsFinish(s, t, stops, k);
    var last := Finished(s, t, stops, k);
    assert Settled(s, last, OfAgent(slug)) && GoalAgent(s, last.agents, slug) == GoalAgent(s, t.agents, slug);
  }

  /** The mapping replaces this agent by one that the template has. */
  predicate IsReplaced(s: Setup, slug: string) {
    exists i, j :: && 0 <= i < |s.mapping.agents| && 0 <= j < |s.template.agents|
                   && s.mapping.agents[i].key == slug && s.mapping.agents[i].value == s.template.agents[j].key
  }

  lemma ReplacedIs(s: Setup, slug: string)
    requires ValidSetup(s)
    ensures Replaced(s, slug) <==> IsReplaced(s, slug)
  {
    var m, a := s.mapping.agents, s.template.agents;
    if Replaced(s, slug) {
      var i :| 0 <= i < |m| && m[i] == Entry(slug, Find(m, slug).value);
      var j :| 0 <= j < |a| && a[j].key == Find(m, slug).value;
      assert m[i].key == slug && m[i].value == a[j].key;
    }
    if i, j :| 0 <= i < |m| && 0 <= j < |a| && m[i].key == slug && m[i].value == a[j].key {
      FindAt(m, i);
      assert Find(a, a[j].key).Some?;
    }
  }

  /** Each agent of the template is there. */
  lemma TemplateAgentOutcome(s: Setup, t: Tenant, stops: seq<nat>, k: nat, i: nat)
    requires ValidSetup(s) && WellFormed(t) && Finishes(s, t, stops, k) && i < |s.template.agents|
    ensures var last, agent := Finished(s, t, stops, k), s.template.agents[i];
            && agent.key in last.agents
            && (agent.key !in t.agents ==> last.agents[agent.key] == Agent(agent.value, "active"))
  {
    FindAt(s.template.agents, i);
    hide Finished, Finishes, ValidSetup, Replaced;
    ObjectsFinish(s, t, stops, k);
    var last, slug := Finished(s, t, stops, k), s.template.agents[i].key;
    assert Settled(s, last, OfAgent(slug)) && GoalAgent(s, last.agents, slug) == GoalAgent(s, t.agents, slug);
  }

  // ------------------------------------------------------------------ connectors

  /** The name of an operation on the copy. */
  function NewOperation(m: Mapping, name: string): string {
    if name in m.operations then m.operations[name] else name
  }

  /** What a copy has before anything is carried over: what was there, or what a new connector of that body declares, or
      what discovery lists for an MCP connector that has nothing. */
  function StartOf(s: Setup, t: Tenant, oldName: string, newName: string): Connector
    requires oldName in t.connectors
  {
    var source := t.connectors[oldName];
    var c := if newName in t.connectors then t.connectors[newName]
             else Connector(source.body, s.server.declared(source.body));
    if source.body.ty == "mcp" && c.operations == [] then Connector(c.body, s.server.listed(c.body)) else c
  }

  /** The copy's operation takes over what any operation that becomes it sets, and keeps its own where none does. */
  ghost predicate TakesOver(m: Mapping, source: seq<Operation>, before: Operation, after: Operation) {
    && after.name == before.name
    && (forall i :: 0 <= i < |source| && NewOperation(m, source[i].name) == after.name && source[i].policy.Some? ==>
          after.policy == source[i].policy)
    && (forall i :: 0 <= i < |source| && NewOperation(m, source[i].name) == after.name && source[i].groups.Some? ==>
          after.groups == source[i].groups)
    && ((forall i :: 0 <= i < |source| && NewOperation(m, source[i].name) == after.name ==> source[i].policy.None?) ==>
          after.policy == before.policy)
    && ((forall i :: 0 <= i < |source| && NewOperation(m, source[i].name) == after.name ==> source[i].groups.None?) ==>
          after.groups == before.groups)
  }

  lemma MergeTakesOver(m: Mapping, source: seq<Operation>, operations: seq<Operation>, j: nat)
    requires OperationsAgree(m, source, operations) && j < |operations|
    ensures TakesOver(m, source, operations[j], MergeAll(m, source, operations)[j])
  {
    var name := operations[j].name;
    forall i | 0 <= i < |source| && NewOperation(m, source[i].name) == name
      ensures source[i].policy.Some? ==> CarriedPolicy(m, source, name) == source[i].policy
      ensures source[i].groups.Some? ==> CarriedGroups(m, source, name) == source[i].groups
    {
      assert Renamed(m, source[i].name) == name && Has(operations, name);
      CarriedPolicyAt(m, source, operations, i);
      CarriedGroupsAt(m, source, operations, i);
    }
    hide OperationsAgree;
  }

  lemma FinishedIsSettled(s: Setup, t: Tenant, stops: seq<nat>, k: nat)
    requires ValidSetup(s) && Sane(s, t) && Finishes(s, t, stops, k)
    ensures var last := Finished(s, t, stops, k);
            SameGoal(s, t, last) && forall o :: Settled(s, last, o)
  {
    hide ValidSetup, Sane, Completes, Settled;
    CompletedRun(s, Attempts(s, t, stops), k);
    SameCompletion(s, t, stops);
    CompletedIsSettled(s, t);
  }

  /** Each connector and each tightening is what it should become. */
  lemma ConnectorsFinish(s: Setup, t: Tenant, stops: seq<nat>, k: nat, name: string)
    requires ValidSetup(s) && Sane(s, t) && Finishes(s, t, stops, k)
    ensures var last := Finished(s, t, stops, k); Get(last.connectors, name) == GoalConnector(s, t.connectors, name)
  {
    hide Finished, Finishes, ValidSetup, Sane, GoalConnector, GoalTightening;
    FinishedIsSettled(s, t, stops, k);
    assert Settled(s, Finished(s, t, stops, k), OfConnector(name));
  }

  lemma TighteningsFinish(s: Setup, t: Tenant, stops: seq<nat>, k: nat, key: OperationKey)
    requires ValidSetup(s) && Sane(s, t) && Finishes(s, t, stops, k)
    ensures var last := Finished(s, t, stops, k);
            Get(last.tightenings, key) == GoalTightening(s, t.projects, t.connectors, t.tightenings, key)
  {
    hide Finished, Finishes, ValidSetup, Sane, GoalConnector, GoalTightening;
    FinishedIsSettled(s, t, stops, k);
    assert Settled(s, Finished(s, t, stops, k), OfConnector(key.connector));
  }

  /** After runs of which the last completes, each renamed connector that the tenant has is there under its new name,
      with the operations it was to have, each carrying what the old one's operations set. */
  lemma ConnectorOutcome(s: Setup, t: Tenant, stops: seq<nat>, k: nat, i: nat)
    requires ValidSetup(s) && Sane(s, t) && Finishes(s, t, stops, k)
    requires i < |s.mapping.connectors| && s.mapping.connectors[i].key in t.connectors
    ensures var rename, last := s.mapping.connectors[i], Finished(s, t, stops, k);
            var start := StartOf(s, t, rename.key, rename.value);
            && rename.value in last.connectors
            && var copy := last.connectors[rename.value];
               && copy.body == start.body && |copy.operations| == |start.operations|
               && forall j :: 0 <= j < |copy.operations| ==>
                    TakesOver(s.mapping, t.connectors[rename.key].operations, start.operations[j], copy.operations[j])
  {
    var rename := s.mapping.connectors[i];
    RenameAt(s, i);
    ConnectorsFinish(s, t, stops, k, rename.value);
    assert AgreeingCopy(s, t, rename.value);
    hide Finished, Finishes, ValidSetup, OperationsAgree, DecisionsAgree, WellFormed, Agreeing, TakesOver;
    var source, start := t.connectors[rename.key], StartOf(s, t, rename.key, rename.value);
    assert Filled(s, source, Get(t.connectors, rename.value)) == start;
    hide Filled, StartOf;
    forall j | 0 <= j < |start.operations|
      ensures TakesOver(s.mapping, source.operations, start.operations[j],
                        MergeAll(s.mapping, source.operations, start.operations)[j])
    {
      MergeTakesOver(s.mapping, source.operations, start.operations, j);
    }
  }

  /** Each decision of a listed project on an operation of a renamed connector is made on the copy's. */
  lemma DecisionOutcome(s: Setup, t: Tenant, stops: seq<nat>, k: nat, i: nat, p: nat, j: nat)
    requires ValidSetup(s) && Sane(s, t) && Finishes(s, t, stops, k)
    requires i < |s.mapping.connectors| && s.mapping.connectors[i].key in t.connectors && p < |t.projects|
    requires j < |t.connectors[s.mapping.connectors[i].key].operations|
    ensures var rename, project, last := s.mapping.connectors[i], t.projects[p].key, Finished(s, t, stops, k);
            var operation := t.connectors[rename.key].operations[j].name;
            var decided := OperationKey(project, rename.key, operation);
            decided in t.tightenings && t.tightenings[decided] != "" ==>
              Get(last.tightenings, OperationKey(project, rename.value, NewOperation(s.mapping, operation))) ==
              Some(t.tightenings[decided])
  {
    var rename, operations := s.mapping.connectors[i], t.connectors[s.mapping.connectors[i].key].operations;
    var renamed := NewOperation(s.mapping, operations[j].name);
    assert Renamed(s.mapping, operations[j].name) == renamed;
    RenameAt(s, i);
    FindAt(t.projects, p);
    TighteningsFinish(s, t, stops, k, OperationKey(t.projects[p].key, rename.value, renamed));
    assert AgreeingCopy(s, t, rename.value);
    hide Finished, Finishes, ValidSetup, OperationsAgree, DecisionsAgree, WellFormed, Agreeing, Decided, Filled;
    hide Renamed, NewOperation, OldName;
    DecidedAt(s.mapping, t.projects, t.tightenings, p, rename.key, operations, j);
  }

  /** A connector that is not a copy is left alone, and so is what is narrowed on it. */
  lemma OtherConnectorOutcome(s: Setup, t: Tenant, stops: seq<nat>, k: nat, name: string)
    requires ValidSetup(s) && Sane(s, t) && Finishes(s, t, stops, k)
    requires forall i :: 0 <= i < |s.mapping.connectors| ==> s.mapping.connectors[i].value != name
    ensures var last := Finished(s, t, stops, k);
            && Get(last.connectors, name) == Get(t.connectors, name)
            && forall key: OperationKey :: key.connector == name ==>
                 Get(last.tightenings, key) == Get(t.tightenings, key)
  {
    assert OldName(s, name).None? by {
      assert forall i :: 0 <= i < |s.mapping.connectors| ==> Flip(s.mapping.connectors)[i].key != name;
    }
    hide Finished, Finishes, ValidSetup, Sane, OldName;
    ConnectorsFinish(s, t, stops, k, name);
    forall key: OperationKey | key.connector == name
      ensures Get(Finished(s, t, stops, k).tightenings, key) == Get(t.tightenings, key)
    {
      TighteningsFinish(s, t, stops, k, key);
    }
  }
}
