// The plan and its steps: `plan`, `_plan_*` and `apply` in tools/rename_tenant_names.py.
module MigrationPlans {
  import opened Wrappers
  import opened Tenants

  /** The mapping file: each rename is an entry from the old name to the new one; `workflows` gives the template's
      document; `labels` is keyed by `<project slug>/<workflow>`. */
  datatype Mapping = Mapping(
    connectors: seq<Entry<string>>,
    operations: map<string, string>,
    agents: seq<Entry<string>>,
    workflows: map<string, Document>,
    marker: string,
    routingLabels: map<string, string>,
    projects: map<string, string>,
    labels: map<string, map<string, string>>)

  /** The template's skills and agents, by name and slug. */
  datatype Template = Template(skills: seq<Entry<string>>, agents: seq<Entry<string>>)

  datatype Setup = Setup(mapping: Mapping, template: Template, server: Server, allowOpen: bool)

  datatype Tightening = Tightening(project: string, operation: string, policy: string)

  /** What one step will do: a call known when planned, or one worked out from the tenant when it runs. */
  datatype Step =
    | Single(call: Call)
    | Relabel(project: string)
    | Copy(oldName: string, source: Connector, newName: string, found: bool, tightenings: seq<Tightening>)

  // ------------------------------------------------------------------ connectors

  function Renamed(m: Mapping, operation: string): string {
    if operation in m.operations then m.operations[operation] else operation
  }

  /** The last operation of that name, as a dictionary built in order keeps it. */
  function Known(operations: seq<Operation>, name: string): (found: Option<Operation>)
    ensures found.None? <==> forall i :: 0 <= i < |operations| ==> operations[i].name != name
    ensures found.Some? ==> found.value in operations && found.value.name == name
  {
    if operations == [] then None
    else if operations[|operations| - 1].name == name then Some(operations[|operations| - 1])
    else Known(operations[..|operations| - 1], name)
  }

  /** The patch, if any, that carries one operation's policy and groups to the copy. */
  function Difference(m: Mapping, newName: string, operation: Operation, copied: seq<Operation>): seq<Call> {
    match Known(copied, Renamed(m, operation.name))
    case None => []
    case Some(target) =>
      var policy := if operation.policy != target.policy then operation.policy else None;
      var groups := if operation.groups != target.groups then operation.groups else None;
      if policy.None? && groups.None? then [] else [PatchOperation(newName, target.name, policy, groups)]
  }

  function Differences(m: Mapping, newName: string, operations: seq<Operation>, copied: seq<Operation>): seq<Call> {
    if operations == [] then []
    else Differences(m, newName, operations[..|operations| - 1], copied)
         + Difference(m, newName, operations[|operations| - 1], copied)
  }

  /** What a project's listing shows for an operation: nothing when the connector does not have it. */
  function ProjectPolicy(t: Tenant, key: OperationKey): Option<string> {
    if key.connector in t.connectors && Known(t.connectors[key.connector].operations, key.operation).Some?
       && key in t.tightenings
    then Some(t.tightenings[key]) else None
  }

  /** One project's decision on one operation of the old connector, when the copy does not show it yet. */
  function Narrowing(s: Setup, t: Tenant, project: string, oldName: string, newName: string, operation: Operation)
    : seq<Tightening>
  {
    match ProjectPolicy(t, OperationKey(project, oldName, operation.name))
    case None => []
    case Some(policy) =>
      var renamed := Renamed(s.mapping, operation.name);
      if policy == "" || ProjectPolicy(t, OperationKey(project, newName, renamed)) == Some(policy) then []
      else [Tightening(project, renamed, policy)]
  }

  function NarrowingsOf(s: Setup, t: Tenant, project: string, oldName: string, newName: string,
                        operations: seq<Operation>)
    : seq<Tightening>
  {
    if operations == [] then []
    else NarrowingsOf(s, t, project, oldName, newName, operations[..|operations| - 1])
         + Narrowing(s, t, project, oldName, newName, operations[|operations| - 1])
  }

  /** `_tightenings`. */
  function Narrowings(s: Setup, t: Tenant, projects: seq<Entry<Project>>, oldName: string,
                      newName: string): seq<Tightening>
    requires oldName in t.connectors
  {
    if projects == [] then []
    else Narrowings(s, t, projects[..|projects| - 1], oldName, newName)
         + NarrowingsOf(s, t, projects[|projects| - 1].key, oldName, newName, t.connectors[oldName].operations)
  }

  const MCP := "mcp"

  function PlanConnector(s: Setup, t: Tenant, rename: Entry<string>): seq<Step> {
    if rename.key !in t.connectors then []
    else
      var source, found := t.connectors[rename.key], rename.value in t.connectors;
      var copied := if found then t.connectors[rename.value].operations else [];
      var narrowings := Narrowings(s, t, t.projects, rename.key, rename.value);
      if found && !(source.body.ty == MCP && copied == []) && narrowings == []
         && Differences(s.mapping, rename.value, source.operations, copied) == []
      then []
      else [Copy(rename.key, source, rename.value, found, narrowings)]
  }

  // ------------------------------------------------------------------ workflows and routing

  predicate HasState(d: Document, id: string) {
    exists i :: 0 <= i < |d.states| && d.states[i].key == id
  }

  predicate TranslatableState(state: State, labels: map<string, string>) {
    state.Fields? && state.display.Some? && state.display.value in labels
  }

  function TranslateState(state: State, labels: map<string, string>): State {
    if TranslatableState(state, labels) then state.(display := Some(labels[state.display.value])) else state
  }

  function Translate(d: Document, labels: map<string, string>): Document {
    d.(states := seq(|d.states|, i requires 0 <= i < |d.states| =>
         Entry(d.states[i].key, TranslateState(d.states[i].value, labels))))
  }

  predicate Translatable(d: Document, labels: map<string, string>) {
    exists i :: 0 <= i < |d.states| && TranslatableState(d.states[i].value, labels)
  }

  function LabelKey(slug: string, name: string): string {
    slug + "/" + name
  }

  /** The document to publish next, given the current one. */
  function Republished(m: Mapping, slug: string, name: string, current: Document): Option<Document> {
    if name in m.workflows && HasState(current, m.marker) then Some(m.workflows[name])
    else if LabelKey(slug, name) in m.labels && Translatable(current, m.labels[LabelKey(slug, name)])
    then Some(Translate(current, m.labels[LabelKey(slug, name)]))
    else None
  }

  function Current(t: Tenant, workflow: WorkflowKey): Document
    requires workflow in t.workflows && t.workflows[workflow] != []
  {
    t.workflows[workflow][|t.workflows[workflow]| - 1]
  }

  function PlanWorkflow(s: Setup, t: Tenant, project: Entry<Project>, name: string): seq<Step> {
    var workflow := WorkflowKey(project.key, name);
    if workflow !in t.workflows || t.workflows[workflow] == [] then []
    else match Republished(s.mapping, project.value.slug, name, Current(t, workflow))
      case None => []
      case Some(document) =>
        if workflow in t.open && !s.allowOpen then [] else [Single(PublishWorkflow(workflow, document))]
  }

  function PlanProjectWorkflows(s: Setup, t: Tenant, project: Entry<Project>, names: seq<string>): seq<Step> {
    if names == [] then []
    else PlanProjectWorkflows(s, t, project, names[..|names| - 1]) + PlanWorkflow(s, t, project, names[|names| - 1])
  }

  function RelabelRule(labels: map<string, string>, r: Rule): Rule {
    r.(labelsAny := seq(|r.labelsAny|, i requires 0 <= i < |r.labelsAny| =>
         if r.labelsAny[i] in labels then labels[r.labelsAny[i]] else r.labelsAny[i]))
  }

  function RelabelRules(labels: map<string, string>, rules: seq<Rule>): seq<Rule> {
    seq(|rules|, i requires 0 <= i < |rules| => RelabelRule(labels, rules[i]))
  }

  predicate Relabels(labels: map<string, string>, rules: seq<Rule>) {
    exists i, j :: 0 <= i < |rules| && 0 <= j < |rules[i].labelsAny| && rules[i].labelsAny[j] in labels
  }

  function PlanRouting(s: Setup, t: Tenant, project: Entry<Project>): seq<Step> {
    if project.key in t.routing && Relabels(s.mapping.routingLabels, t.routing[project.key])
    then [Relabel(project.key)] else []
  }

  function PlanProject(s: Setup, t: Tenant, project: Entry<Project>): seq<Step> {
    PlanProjectWorkflows(s, t, project, project.value.workflows) + PlanRouting(s, t, project)
  }

  // ------------------------------------------------------------------ the rest of the plan

  function PlanSkill(t: Tenant, skill: Entry<string>): seq<Step> {
    if skill.key in t.skills then [] else [Single(CreateSkill(skill.key, skill.value))]
  }

  function PlanAgent(t: Tenant, agent: Entry<string>): seq<Step> {
    if agent.key in t.agents then [] else [Single(CreateAgent(agent.key, agent.value))]
  }

  function PlanName(s: Setup, t: Tenant, project: Entry<Project>): seq<Step> {
    var slug := project.value.slug;
    if slug !in s.mapping.projects || (project.key in t.names && t.names[project.key] == s.mapping.projects[slug])
    then []
    else [Single(RenameProject(project.key, s.mapping.projects[slug]))]
  }

  function PlanDeprecation(s: Setup, t: Tenant, rename: Entry<string>): seq<Step> {
    if rename.key !in t.agents || t.agents[rename.key].lifecycle != "active"
       || Find(s.template.agents, rename.value).None? then []
    else [Single(Deprecate(rename.key))]
  }

  /** The steps one loop over `items` appends. */
  function Collect<T(!new)>(items: seq<T>, steps: T -> seq<Step>): seq<Step> {
    if items == [] then []
    else Collect(items[..|items| - 1], steps) + steps(items[|items| - 1])
  }

  lemma {:induction false} InCollect<T(!new)>(items: seq<T>, steps: T -> seq<Step>, step: Step)
    ensures step in Collect(items, steps) <==> exists i :: 0 <= i < |items| && step in steps(items[i])
  {
    if items != [] {
      InCollect(items[..|items| - 1], steps, step);
      assert forall i :: 0 <= i < |items| - 1 ==> items[i] == items[..|items| - 1][i];
      if i :| 0 <= i < |items| && step in steps(items[i]) {
        if i < |items| - 1 { assert step in steps(items[..|items| - 1][i]); }
      }
    }
  }

  function SkillSteps(t: Tenant): Entry<string> -> seq<Step> { skill => PlanSkill(t, skill) }

  function AgentSteps(t: Tenant): Entry<string> -> seq<Step> { agent => PlanAgent(t, agent) }

  function ConnectorSteps(s: Setup, t: Tenant): Entry<string> -> seq<Step> { rename => PlanConnector(s, t, rename) }

  function ProjectSteps(s: Setup, t: Tenant): Entry<Project> -> seq<Step> { project => PlanProject(s, t, project) }

  function NameSteps(s: Setup, t: Tenant): Entry<Project> -> seq<Step> { project => PlanName(s, t, project) }

  function DeprecationSteps(s: Setup, t: Tenant): Entry<string> -> seq<Step> { rename => PlanDeprecation(s, t, rename) }

  function Plan(s: Setup, t: Tenant): seq<Step> {
    Collect(s.template.skills, SkillSteps(t))
    + Collect(s.template.agents, AgentSteps(t))
    + Collect(s.mapping.connectors, ConnectorSteps(s, t))
    + Collect(t.projects, ProjectSteps(s, t))
    + Collect(t.projects, NameSteps(s, t))
    + Collect(s.mapping.agents, DeprecationSteps(s, t))
  }

  // ------------------------------------------------------------------ running steps

  function TightenAll(newName: string, tightenings: seq<Tightening>): seq<Call> {
    seq(|tightenings|, i requires 0 <= i < |tightenings| =>
      Tighten(OperationKey(tightenings[i].project, newName, tightenings[i].operation), tightenings[i].policy))
  }

  /** A copy first makes sure there is one ... */
  function Creation(source: Connector, newName: string, found: bool): seq<Call> {
    if found then [] else [CreateConnector(newName, source.body)]
  }

  /** ... discovers it if it is an MCP connector without operations ... */
  function Discovery(source: Connector, newName: string, t: Tenant): seq<Call> {
    if newName in t.connectors && source.body.ty == MCP && t.connectors[newName].operations == []
    then [Discover(newName)] else []
  }

  /** ... and patches what differs from the source. */
  function Patches(m: Mapping, source: Connector, newName: string, t: Tenant): seq<Call> {
    if newName in t.connectors then Differences(m, newName, source.operations, t.connectors[newName].operations) else []
  }

  /** The writes a step performs, in order, on the tenant it finds when it runs. */
  function Calls(s: Setup, t: Tenant, step: Step): seq<Call> {
    match step
    case Single(call) => [call]
    case Relabel(project) =>
      if project in t.routing
      then [PutRouting(project, RelabelRules(s.mapping.routingLabels, t.routing[project]))] else []
    case Copy(_, source, newName, found, tightenings) =>
      Copying(s, t, source, newName, found) + TightenAll(newName, tightenings)
  }

  function Filling(s: Setup, t: Tenant, source: Connector, newName: string, found: bool): seq<Call> {
    var creation := Creation(source, newName, found);
    creation + Discovery(source, newName, ExecAll(s.server, t, creation))
  }

  /** The writes of a copy before its tightenings. */
  function Copying(s: Setup, t: Tenant, source: Connector, newName: string, found: bool): seq<Call> {
    var filling := Filling(s, t, source, newName, found);
    filling + Patches(s.mapping, source, newName, ExecAll(s.server, t, filling))
  }

  /** Every write of a run of these steps, were it not interrupted. */
  function Trace(s: Setup, t: Tenant, steps: seq<Step>): seq<Call>
    decreases |steps|
  {
    if steps == [] then []
    else Calls(s, t, steps[0]) + Trace(s, ExecAll(s.server, t, Calls(s, t, steps[0])), steps[1..])
  }

  /** Plan and apply, up to the first refusal, on a connection that lasts for `k` writes. */
  function Interrupted(s: Setup, t: Tenant, k: nat): Tenant {
    var trace := Trace(s, t, Plan(s, t));
    ExecAll(s.server, t, trace[..Passed(s.server, t, trace, k)])
  }

  /** A run to the end refuses none of its writes: it completes if the connection lasts. */
  predicate Completes(s: Setup, t: Tenant) {
    AllAccepted(s.server, t, Trace(s, t, Plan(s, t)))
  }

  /** What a run leaves when it completes. */
  function Completed(s: Setup, t: Tenant): Tenant {
    ExecAll(s.server, t, Trace(s, t, Plan(s, t)))
  }

  /** A run that completes is one that nothing cuts short. */
  lemma CompletedRun(s: Setup, t: Tenant, k: nat)
    requires Completes(s, t) && |Trace(s, t, Plan(s, t))| <= k
    ensures Interrupted(s, t, k) == Completed(s, t)
  {
    var trace := Trace(s, t, Plan(s, t));
    PassedAll(s.server, t, trace, k);
    assert trace[..|trace|] == trace;
  }

  /** Runs on connections that last for so many writes each, one after the other; each stops at its first refusal. */
  function Attempts(s: Setup, t: Tenant, stops: seq<nat>): Tenant
    decreases |stops|
  {
    if stops == [] then t else Attempts(s, Interrupted(s, t, stops[0]), stops[1..])
  }
}
