// What a tenant should become, resource by resource, and why every write of a run moves towards it.
module MigrationGoals {
  import opened Wrappers
  import opened Tenants
  import opened MigrationPlans

  // ------------------------------------------------------------------ what is asked of the inputs

  predicate DistinctNames(operations: seq<Operation>) {
    forall i, j :: 0 <= i < j < |operations| ==> operations[i].name != operations[j].name
  }

  function Flip(entries: seq<Entry<string>>): seq<Entry<string>> {
    seq(|entries|, i requires 0 <= i < |entries| => Entry(entries[i].value, entries[i].key))
  }

  /** Renames are injective and no new name is an old one; the template is free of the marker state and of labels to
      translate; a server never lists two operations of one name. */
  ghost predicate ValidSetup(s: Setup) {
    var m := s.mapping;
    && DistinctKeys(s.template.skills) && DistinctKeys(s.template.agents)
    && DistinctKeys(m.connectors) && DistinctKeys(Flip(m.connectors)) && DistinctKeys(m.agents)
    && (forall i, j :: 0 <= i < |m.connectors| && 0 <= j < |m.connectors| ==>
          m.connectors[i].value != m.connectors[j].key)
    && (forall i :: 0 <= i < |m.agents| ==> Find(s.template.agents, m.agents[i].key).None?)
    && (forall l :: l in m.routingLabels ==> m.routingLabels[l] !in m.routingLabels)
    && (forall k, l :: k in m.labels && l in m.labels[k] ==> m.labels[k][l] !in m.labels[k])
    && (forall name :: name in m.workflows ==> !HasState(m.workflows[name], m.marker))
    && (forall name, slug :: name in m.workflows && LabelKey(slug, name) in m.labels ==>
          !Translatable(m.workflows[name], m.labels[LabelKey(slug, name)]))
    && (forall body :: DistinctNames(s.server.declared(body)) && DistinctNames(s.server.listed(body)))
  }

  /** What the API guarantees of any tenant: ids are distinct, and so are the names within a connector or a project. */
  ghost predicate WellFormed(t: Tenant) {
    && SaneProjects(t.projects)
    && forall n :: n in t.connectors ==> DistinctNames(t.connectors[n].operations)
  }

  /** And operations that become one on a copy agree. */
  ghost predicate Sane(s: Setup, t: Tenant) {
    WellFormed(t) && Agreeing(s, t)
  }

  ghost predicate SaneProjects(projects: seq<Entry<Project>>) {
    && DistinctKeys(projects)
    && forall i, j, k :: 0 <= i < |projects| && 0 <= j < k < |projects[i].value.workflows| ==>
         projects[i].value.workflows[j] != projects[i].value.workflows[k]
  }

  // ------------------------------------------------------------------ operations that become one

  /** Not both set and different. */
  predicate Compatible<T(==)>(a: Option<T>, b: Option<T>) {
    a.None? || b.None? || a == b
  }

  /** Two of a connector's operations that its copy has under one name ask the same of it. */
  predicate OperationsAgree(m: Mapping, source: seq<Operation>, copied: seq<Operation>) {
    forall i, j :: 0 <= i < j < |source| && Renamed(m, source[i].name) == Renamed(m, source[j].name)
                   && Has(copied, Renamed(m, source[i].name)) ==>
      Compatible(source[i].policy, source[j].policy) && Compatible(source[i].groups, source[j].groups)
  }

  /** What a project decided on one operation of a connector: an empty decision is none. */
  function Decision(tightenings: map<OperationKey, string>, project: string, connector: string, operation: Operation)
    : Option<string>
  {
    var policy := Get(tightenings, OperationKey(project, connector, operation.name));
    if policy == Some("") then None else policy
  }

  /** No project decided differently on two operations that become one. */
  predicate DecisionsAgree(m: Mapping, projects: seq<Entry<Project>>, tightenings: map<OperationKey, string>,
                           connector: string, source: seq<Operation>)
  {
    forall p, i, j :: 0 <= p < |projects| && 0 <= i < j < |source|
                      && Renamed(m, source[i].name) == Renamed(m, source[j].name) ==>
      Compatible(Decision(tightenings, projects[p].key, connector, source[i]),
                 Decision(tightenings, projects[p].key, connector, source[j]))
  }

  ghost predicate AgreeingCopy(s: Setup, t: Tenant, name: string)
    requires SourceOf(s, t.connectors, name).Some?
  {
    var source := SourceOf(s, t.connectors, name).value;
    && OperationsAgree(s.mapping, source.operations, Filled(s, source, Get(t.connectors, name)).operations)
    && DecisionsAgree(s.mapping, t.projects, t.tightenings, OldName(s, name).value, source.operations)
  }

  /** Wherever two operations of a connector become one on its copy, their policies, their groups and every project's
      decisions agree. */
  ghost predicate Agreeing(s: Setup, t: Tenant) {
    forall name :: SourceOf(s, t.connectors, name).Some? ==> AgreeingCopy(s, t, name)
  }

  // ------------------------------------------------------------------ the goal

  function Get<K, V>(m: map<K, V>, k: K): Option<V> {
    if k in m then Some(m[k]) else None
  }

  function GoalSkill(s: Setup, skills: map<string, string>, name: string): Option<string> {
    if name in skills then Some(skills[name]) else Find(s.template.skills, name)
  }

  predicate Replaced(s: Setup, slug: string) {
    var replacement := Find(s.mapping.agents, slug);
    replacement.Some? && Find(s.template.agents, replacement.value).Some?
  }

  function GoalAgent(s: Setup, agents: map<string, Agent>, slug: string): Option<Agent> {
    if slug in agents then
      var agent := agents[slug];
      Some(if agent.lifecycle == "active" && Replaced(s, slug) then agent.(lifecycle := "deprecated") else agent)
    else match Find(s.template.agents, slug)
      case Some(document) => Some(Agent(document, "active"))
      case None => None
  }

  /** The old name a new one copies. */
  function OldName(s: Setup, name: string): Option<string> {
    Find(Flip(s.mapping.connectors), name)
  }

  /** The connector a new name copies, when the tenant has it. */
  function SourceOf(s: Setup, connectors: map<string, Connector>, name: string): Option<Connector> {
    match OldName(s, name)
    case None => None
    case Some(oldName) => Get(connectors, oldName)
  }

  /** The policy that the copy's operation `name` takes over: the last one set among those that become it. */
  function CarriedPolicy(m: Mapping, operations: seq<Operation>, name: string): (policy: Option<string>)
    ensures policy.None? ==>
              forall i :: 0 <= i < |operations| && Renamed(m, operations[i].name) == name ==> operations[i].policy.None?
    ensures policy.Some? ==>
              exists i :: 0 <= i < |operations| && Renamed(m, operations[i].name) == name
                          && operations[i].policy == policy
  {
    if operations == [] then None
    else
      var x := operations[|operations| - 1];
      if Renamed(m, x.name) == name && x.policy.Some? then x.policy
      else CarriedPolicy(m, operations[..|operations| - 1], name)
  }

  /** And the groups. */
  function CarriedGroups(m: Mapping, operations: seq<Operation>, name: string): (groups: Option<seq<string>>)
    ensures groups.None? ==>
              forall i :: 0 <= i < |operations| && Renamed(m, operations[i].name) == name ==> operations[i].groups.None?
    ensures groups.Some? ==>
              exists i :: 0 <= i < |operations| && Renamed(m, operations[i].name) == name
                          && operations[i].groups == groups
  {
    if operations == [] then None
    else
      var x := operations[|operations| - 1];
      if Renamed(m, x.name) == name && x.groups.Some? then x.groups
      else CarriedGroups(m, operations[..|operations| - 1], name)
  }

  function Merge(o: Operation, policy: Option<string>, groups: Option<seq<string>>): Operation {
    Operation(o.name, if policy.Some? then policy else o.policy, if groups.Some? then groups else o.groups)
  }

  function MergeAll(m: Mapping, source: seq<Operation>, operations: seq<Operation>): seq<Operation> {
    seq(|operations|, i requires 0 <= i < |operations| =>
      Merge(operations[i], CarriedPolicy(m, source, operations[i].name), CarriedGroups(m, source, operations[i].name)))
  }

  lemma CarriedPolicyAt(m: Mapping, source: seq<Operation>, copied: seq<Operation>, i: nat)
    requires OperationsAgree(m, source, copied) && i < |source| && Has(copied, Renamed(m, source[i].name))
    ensures source[i].policy.Some? ==> CarriedPolicy(m, source, Renamed(m, source[i].name)) == source[i].policy
  {
    var name := Renamed(m, source[i].name);
    var policy := CarriedPolicy(m, source, name);
    if source[i].policy.Some? {
      var j :| 0 <= j < |source| && Renamed(m, source[j].name) == name && source[j].policy == policy;
      assert i < j ==> Compatible(source[i].policy, source[j].policy);
      assert j < i ==> Compatible(source[j].policy, source[i].policy);
    }
  }

  lemma CarriedGroupsAt(m: Mapping, source: seq<Operation>, copied: seq<Operation>, i: nat)
    requires OperationsAgree(m, source, copied) && i < |source| && Has(copied, Renamed(m, source[i].name))
    ensures source[i].groups.Some? ==> CarriedGroups(m, source, Renamed(m, source[i].name)) == source[i].groups
  {
    var name := Renamed(m, source[i].name);
    var groups := CarriedGroups(m, source, name);
    if source[i].groups.Some? {
      var j :| 0 <= j < |source| && Renamed(m, source[j].name) == name && source[j].groups == groups;
      assert i < j ==> Compatible(source[i].groups, source[j].groups);
      assert j < i ==> Compatible(source[j].groups, source[i].groups);
    }
  }

  predicate SameNames(a: seq<Operation>, b: seq<Operation>) {
    |b| == |a| && forall i :: 0 <= i < |a| ==> b[i].name == a[i].name
  }

  lemma SameNamesHave(a: seq<Operation>, b: seq<Operation>)
    requires SameNames(a, b)
    ensures forall name :: Has(a, name) <==> Has(b, name)
  {}

  lemma MergeKeepsNames(m: Mapping, source: seq<Operation>, operations: seq<Operation>)
    ensures SameNames(operations, MergeAll(m, source, operations))
  {}

  /** The copy before its policies: the one there, or a new one; discovered if it is an empty MCP copy. */
  function Filled(s: Setup, source: Connector, base: Option<Connector>): Connector {
    var c := if base.Some? then base.value else Connector(source.body, s.server.declared(source.body));
    if source.body.ty == MCP && c.operations == [] then c.(operations := s.server.listed(c.body)) else c
  }

  function CopyOf(s: Setup, source: Connector, base: Option<Connector>): Connector {
    var c := Filled(s, source, base);
    c.(operations := MergeAll(s.mapping, source.operations, c.operations))
  }

  function GoalConnector(s: Setup, connectors: map<string, Connector>, name: string): Option<Connector> {
    match SourceOf(s, connectors, name)
    case Some(source) => Some(CopyOf(s, source, Get(connectors, name)))
    case None => Get(connectors, name)
  }

  /** The last decision among the operations that become `name`. */
  function Decided(m: Mapping, tightenings: map<OperationKey, string>, project: string, connector: string,
                   operations: seq<Operation>, name: string): (policy: Option<string>)
    ensures policy.None? ==>
              forall i :: 0 <= i < |operations| && Renamed(m, operations[i].name) == name ==>
                Decision(tightenings, project, connector, operations[i]).None?
    ensures policy.Some? ==>
              exists i :: 0 <= i < |operations| && Renamed(m, operations[i].name) == name
                          && Decision(tightenings, project, connector, operations[i]) == policy
  {
    if operations == [] then None
    else
      var x := operations[|operations| - 1];
      if Renamed(m, x.name) == name && Decision(tightenings, project, connector, x).Some?
      then Decision(tightenings, project, connector, x)
      else Decided(m, tightenings, project, connector, operations[..|operations| - 1], name)
  }

  lemma DecidedAt(m: Mapping, projects: seq<Entry<Project>>, tightenings: map<OperationKey, string>, p: nat,
                  connector: string, source: seq<Operation>, i: nat)
    requires DecisionsAgree(m, projects, tightenings, connector, source) && p < |projects| && i < |source|
    ensures var decision := Decision(tightenings, projects[p].key, connector, source[i]);
            decision.Some? ==>
              Decided(m, tightenings, projects[p].key, connector, source, Renamed(m, source[i].name)) == decision
  {
    var name, project := Renamed(m, source[i].name), projects[p].key;
    if Decision(tightenings, project, connector, source[i]).Some? {
      var policy := Decided(m, tightenings, project, connector, source, name);
      var j :| 0 <= j < |source| && Renamed(m, source[j].name) == name
               && Decision(tightenings, project, connector, source[j]) == policy;
    }
  }

  lemma {:induction false} DecidedReads(m: Mapping, a: map<OperationKey, string>, b: map<OperationKey, string>,
                                        project: string, connector: string, operations: seq<Operation>, name: string)
    requires forall k: OperationKey :: k.connector == connector ==> Get(a, k) == Get(b, k)
    ensures Decided(m, a, project, connector, operations, name) == Decided(m, b, project, connector, operations, name)
  {
    if operations != [] { DecidedReads(m, a, b, project, connector, operations[..|operations| - 1], name); }
  }

  /** What a project decided on the operations this key copies. */
  function Narrowed(s: Setup, projects: seq<Entry<Project>>, connectors: map<string, Connector>,
                    tightenings: map<OperationKey, string>, key: OperationKey): Option<string>
  {
    match SourceOf(s, connectors, key.connector)
    case None => None
    case Some(source) =>
      if Find(projects, key.project).None? then None
      else
        Decided(s.mapping, tightenings, key.project, OldName(s, key.connector).value, source.operations, key.operation)
  }

  /** What is tightened on connectors that are not copied does not matter. */
  lemma NarrowedReads(s: Setup, projects: seq<Entry<Project>>, connectors: map<string, Connector>,
                      a: map<OperationKey, string>, b: map<OperationKey, string>, key: OperationKey)
    requires forall k: OperationKey, other :: OldName(s, other) == Some(k.connector) ==> Get(a, k) == Get(b, k)
    ensures Narrowed(s, projects, connectors, a, key) == Narrowed(s, projects, connectors, b, key)
  {
    var source := SourceOf(s, connectors, key.connector);
    if source.Some? {
      DecidedReads(s.mapping, a, b, key.project, OldName(s, key.connector).value, source.value.operations,
                   key.operation);
    }
  }

  function GoalTightening(s: Setup, projects: seq<Entry<Project>>, connectors: map<string, Connector>,
                          tightenings: map<OperationKey, string>, key: OperationKey): Option<string>
  {
    var narrowed := Narrowed(s, projects, connectors, tightenings, key);
    if narrowed.Some? then narrowed else Get(tightenings, key)
  }

  /** The document that follows these versions, if the workflow is due one. */
  function Due(s: Setup, projects: seq<Entry<Project>>, open: set<WorkflowKey>, workflow: WorkflowKey,
               versions: seq<Document>): Option<Document>
  {
    var project := Find(projects, workflow.project);
    if project.None? || workflow.name !in project.value.workflows || versions == []
       || (workflow in open && !s.allowOpen)
    then None
    else Republished(s.mapping, project.value.slug, workflow.name, versions[|versions| - 1])
  }

  function GoalVersions(s: Setup, projects: seq<Entry<Project>>, open: set<WorkflowKey>, workflow: WorkflowKey,
                        versions: seq<Document>): seq<Document>
  {
    match Due(s, projects, open, workflow, versions)
    case None => versions
    case Some(document) => versions + [document]
  }

  function GoalWorkflow(s: Setup, projects: seq<Entry<Project>>, open: set<WorkflowKey>,
                        workflows: map<WorkflowKey, seq<Document>>, workflow: WorkflowKey): Option<seq<Document>>
  {
    if workflow in workflows then Some(GoalVersions(s, projects, open, workflow, workflows[workflow])) else None
  }

  function GoalRouting(s: Setup, projects: seq<Entry<Project>>, routing: map<string, seq<Rule>>, project: string)
    : Option<seq<Rule>>
  {
    if project !in routing then None
    else Some(if Find(projects, project).Some? then RelabelRules(s.mapping.routingLabels, routing[project])
              else routing[project])
  }

  function Wanted(s: Setup, projects: seq<Entry<Project>>, project: string): Option<string> {
    match Find(projects, project)
    case None => None
    case Some(p) => Get(s.mapping.projects, p.slug)
  }

  function GoalName(s: Setup, projects: seq<Entry<Project>>, names: map<string, string>,
                    project: string): Option<string>
  {
    if Wanted(s, projects, project).Some? then Wanted(s, projects, project) else Get(names, project)
  }

  /** The two tenants should become the same. */
  ghost predicate SameGoal(s: Setup, t: Tenant, u: Tenant) {
    && t.projects == u.projects && t.open == u.open
    && (forall k :: GoalSkill(s, t.skills, k) == GoalSkill(s, u.skills, k))
    && (forall k :: GoalAgent(s, t.agents, k) == GoalAgent(s, u.agents, k))
    && SameConnectorGoal(s, t, u)
    && (forall k :: GoalWorkflow(s, t.projects, t.open, t.workflows, k) ==
                    GoalWorkflow(s, u.projects, u.open, u.workflows, k))
    && (forall k :: GoalRouting(s, t.projects, t.routing, k) == GoalRouting(s, u.projects, u.routing, k))
    && (forall k :: GoalName(s, t.projects, t.names, k) == GoalName(s, u.projects, u.names, k))
  }

  ghost predicate SameConnectorGoal(s: Setup, t: Tenant, u: Tenant) {
    && (forall k :: Narrowed(s, t.projects, t.connectors, t.tightenings, k) ==
                    Narrowed(s, u.projects, u.connectors, u.tightenings, k))
    && (forall k :: GoalConnector(s, t.connectors, k) == GoalConnector(s, u.connectors, k))
    && (forall k :: GoalTightening(s, t.projects, t.connectors, t.tightenings, k) ==
                    GoalTightening(s, u.projects, u.connectors, u.tightenings, k))
  }

  // ------------------------------------------------------------------ writes towards the goal

  /** A write a run may perform on this tenant. */
  ghost predicate Toward(s: Setup, t: Tenant, c: Call) {
    match c
    case CreateSkill(name, files) => name !in t.skills && Find(s.template.skills, name) == Some(files)
    case CreateAgent(slug, document) => slug !in t.agents && Find(s.template.agents, slug) == Some(document)
    case CreateConnector(name, body) =>
      var source := SourceOf(s, t.connectors, name);
      name !in t.connectors && source.Some? && source.value.body == body
    case Discover(name) =>
      var source := SourceOf(s, t.connectors, name);
      name in t.connectors && t.connectors[name].operations == [] && source.Some? && source.value.body.ty == MCP
    case PatchOperation(name, operation, policy, groups) =>
      var source := SourceOf(s, t.connectors, name);
      && name in t.connectors && source.Some?
      && !(source.value.body.ty == MCP && t.connectors[name].operations == [])
      && Carries(s.mapping, source.value.operations, operation, policy, groups)
    case Tighten(key, policy) =>
      && Narrowed(s, t.projects, t.connectors, t.tightenings, key) == Some(policy)
      && Copied(s, t, key.connector)
    case PublishWorkflow(workflow, document) =>
      workflow in t.workflows && Due(s, t.projects, t.open, workflow, t.workflows[workflow]) == Some(document)
    case PutRouting(project, rules) =>
      && project in t.routing && Find(t.projects, project).Some?
      && rules == RelabelRules(s.mapping.routingLabels, t.routing[project])
    case RenameProject(project, wanted) => Wanted(s, t.projects, project) == Some(wanted)
    case Deprecate(slug) => slug in t.agents && t.agents[slug].lifecycle == "active" && Replaced(s, slug)
  }

  /** The copy is there, with what it takes over. */
  predicate Copied(s: Setup, t: Tenant, name: string) {
    Get(t.connectors, name) == GoalConnector(s, t.connectors, name)
  }

  /** A patch that only carries over what the source says of the operation. */
  predicate Carries(m: Mapping, source: seq<Operation>, operation: string, policy: Option<string>,
                    groups: Option<seq<string>>)
  {
    && (policy.Some? ==> policy == CarriedPolicy(m, source, operation))
    && (groups.Some? ==> groups == CarriedGroups(m, source, operation))
  }

  /** No old name is a new one. */
  lemma OldNamesStay(s: Setup, name: string)
    requires ValidSetup(s) && OldName(s, name).Some?
    ensures forall other :: OldName(s, other) != Some(name)
    ensures Find(s.mapping.connectors, name).None?
  {
    var m := s.mapping.connectors;
    var i :| 0 <= i < |m| && Flip(m)[i] == Entry(name, OldName(s, name).value);
    assert m[i].value == name;
    assert forall j :: 0 <= j < |m| ==> Flip(m)[j].value == m[j].key != name;
    hide ValidSetup, Flip;
  }

  /** Every write of a run leaves the goal where it was. */
  lemma {:induction false} TowardKeepsGoal(s: Setup, t: Tenant, c: Call)
    requires ValidSetup(s) && Sane(s, t) && Toward(s, t, c)
    ensures Sane(s, Exec(s.server, t, c)) && SameGoal(s, t, Exec(s.server, t, c))
  {
    hide Agreeing, SaneProjects, Narrowed;
    if c.CreateConnector? || c.Discover? || c.PatchOperation? {
      ConnectorCallKeepsGoal(s, t, c);
    } else if c.Tighten? {
      TightenKeepsGoal(s, t, c.key, c.narrowed);
    } else {
      ObjectCallKeepsGoal(s, t, c);
    }
  }

  lemma ObjectCallKeepsGoal(s: Setup, t: Tenant, c: Call)
    requires ValidSetup(s) && Sane(s, t) && Toward(s, t, c)
    requires !(c.CreateConnector? || c.Discover? || c.PatchOperation? || c.Tighten?)
    ensures Sane(s, Exec(s.server, t, c)) && SameGoal(s, t, Exec(s.server, t, c))
  {
    hide Agreeing, SaneProjects, Narrowed, GoalConnector, GoalTightening, Due;
    AgreeingReads(s, t, Exec(s.server, t, c));
    if c.PublishWorkflow? {
      PublishKeepsGoal(s, t, c.workflow, c.next);
    } else if c.CreateAgent? || c.Deprecate? {
      AgentCallKeepsGoal(s, t, c);
    } else {
      PlainCallKeepsGoal(s, t, c);
    }
  }

  lemma AgreeingReads(s: Setup, t: Tenant, u: Tenant)
    requires Agreeing(s, t) && u.projects == t.projects && u.connectors == t.connectors
    requires u.tightenings == t.tightenings
    ensures Agreeing(s, u)
  {
    forall name | SourceOf(s, u.connectors, name).Some? ensures AgreeingCopy(s, u, name) {
      assert AgreeingCopy(s, t, name);
    }
  }

  lemma ConnectorCallKeepsGoal(s: Setup, t: Tenant, c: Call)
    requires ValidSetup(s) && Sane(s, t) && Toward(s, t, c) && (c.CreateConnector? || c.Discover? || c.PatchOperation?)
    ensures var u := Exec(s.server, t, c);
            Sane(s, u) && SameConnectorGoal(s, t, u) && u == t.(connectors := u.connectors)
  {
    hide Agreeing, SameConnectorGoal;
    match c
    case CreateConnector(name, body) =>
      ConnectorKeepsGoal(s, t, name, Connector(body, s.server.declared(body)));
    case Discover(name) =>
      ConnectorKeepsGoal(s, t, name, t.connectors[name].(operations := s.server.listed(t.connectors[name].body)));
    case PatchOperation(name, operation, policy, groups) =>
      var c := t.connectors[name];
      PatchKeepsMerge(s.mapping, SourceOf(s, t.connectors, name).value.operations, c.operations, operation, policy,
                      groups);
      ConnectorKeepsGoal(s, t, name, c.(operations := PatchAll(c.operations, operation, policy, groups)));
  }

  lemma AgentCallKeepsGoal(s: Setup, t: Tenant, c: Call)
    requires ValidSetup(s) && Toward(s, t, c) && (c.CreateAgent? || c.Deprecate?)
    ensures forall k :: GoalAgent(s, t.agents, k) == GoalAgent(s, Exec(s.server, t, c).agents, k)
  {
    if c.CreateAgent? { CreatedAgentsStay(s, c.slug); }
  }

  lemma PlainCallKeepsGoal(s: Setup, t: Tenant, c: Call)
    requires ValidSetup(s) && Toward(s, t, c) && (c.CreateSkill? || c.PutRouting? || c.RenameProject?)
    ensures SameGoal(s, t, Exec(s.server, t, c))
  {
    PlainObjectsKeepGoal(s, t, c);
    hide GoalSkill, GoalRouting, GoalName, GoalAgent, GoalWorkflow, GoalConnector, GoalTightening, Narrowed, ValidSetup;
  }

  lemma PlainObjectsKeepGoal(s: Setup, t: Tenant, c: Call)
    requires ValidSetup(s) && Toward(s, t, c) && (c.CreateSkill? || c.PutRouting? || c.RenameProject?)
    ensures var u := Exec(s.server, t, c);
            && (forall k :: GoalSkill(s, t.skills, k) == GoalSkill(s, u.skills, k))
            && (forall k :: GoalRouting(s, t.projects, t.routing, k) == GoalRouting(s, u.projects, u.routing, k))
            && (forall k :: GoalName(s, t.projects, t.names, k) == GoalName(s, u.projects, u.names, k))
  {
    if c.PutRouting? { RelabelTwice(s, t.routing[c.project]); }
    hide RelabelRules, ValidSetup, Find, Due, Narrowed, Replaced;
  }

  /** A template's agent is not one to deprecate. */
  lemma CreatedAgentsStay(s: Setup, slug: string)
    requires ValidSetup(s) && Find(s.template.agents, slug).Some?
    ensures Find(s.mapping.agents, slug).None? && !Replaced(s, slug)
  {
    assert forall i :: 0 <= i < |s.mapping.agents| ==> s.mapping.agents[i].key != slug;
  }

  lemma ConnectorKeepsGoal(s: Setup, t: Tenant, name: string, c: Connector)
    requires ValidSetup(s) && Sane(s, t) && SourceOf(s, t.connectors, name).Some? && DistinctNames(c.operations)
    requires var source := SourceOf(s, t.connectors, name).value;
             CopyOf(s, source, Some(c)) == CopyOf(s, source, Get(t.connectors, name))
    ensures var u := t.(connectors := t.connectors[name := c]); Sane(s, u) && SameConnectorGoal(s, t, u)
  {
    var after := t.connectors[name := c];
    OldNamesStay(s, name);
    forall k ensures SourceOf(s, after, k) == SourceOf(s, t.connectors, k) {}
    ConnectorKeepsAgreement(s, t, name, c);
    hide Agreeing, CopyOf, DistinctNames, Decided, OldName;
    forall k ensures GoalConnector(s, after, k) == GoalConnector(s, t.connectors, k) {}
    forall k
      ensures Narrowed(s, t.projects, after, t.tightenings, k) ==
                Narrowed(s, t.projects, t.connectors, t.tightenings, k)
    {}
  }

  lemma ConnectorKeepsAgreement(s: Setup, t: Tenant, name: string, c: Connector)
    requires Agreeing(s, t) && SourceOf(s, t.connectors, name).Some?
    requires var source := SourceOf(s, t.connectors, name).value;
             CopyOf(s, source, Some(c)) == CopyOf(s, source, Get(t.connectors, name))
    requires forall k :: SourceOf(s, t.connectors[name := c], k) == SourceOf(s, t.connectors, k)
    ensures Agreeing(s, t.(connectors := t.connectors[name := c]))
  {
    hide DecisionsAgree, OperationsAgree, Filled;
    var u := t.(connectors := t.connectors[name := c]);
    var source := SourceOf(s, t.connectors, name).value;
    SameCopies(s, source, Some(c), Get(t.connectors, name));
    forall k | SourceOf(s, u.connectors, k).Some? ensures AgreeingCopy(s, u, k) {
      assert AgreeingCopy(s, t, k);
      if k == name {
        AgreementReadsNames(s.mapping, source.operations, Filled(s, source, Get(t.connectors, name)).operations,
                            Filled(s, source, Some(c)).operations);
      } else {
        assert Get(u.connectors, k) == Get(t.connectors, k);
      }
    }
  }

  lemma SameCopies(s: Setup, source: Connector, a: Option<Connector>, b: Option<Connector>)
    requires CopyOf(s, source, a) == CopyOf(s, source, b)
    ensures SameNames(Filled(s, source, a).operations, Filled(s, source, b).operations)
    ensures SameNames(Filled(s, source, b).operations, Filled(s, source, a).operations)
  {
    hide Filled;
    MergeKeepsNames(s.mapping, source.operations, Filled(s, source, a).operations);
    MergeKeepsNames(s.mapping, source.operations, Filled(s, source, b).operations);
  }

  lemma AgreementReadsNames(m: Mapping, source: seq<Operation>, a: seq<Operation>, b: seq<Operation>)
    requires OperationsAgree(m, source, a) && SameNames(a, b)
    ensures OperationsAgree(m, source, b)
  {
    SameNamesHave(a, b);
  }

  lemma PatchKeepsMerge(m: Mapping, source: seq<Operation>, operations: seq<Operation>, name: string,
                        policy: Option<string>, groups: Option<seq<string>>)
    requires Carries(m, source, name, policy, groups)
    ensures MergeAll(m, source, PatchAll(operations, name, policy, groups)) == MergeAll(m, source, operations)
    ensures DistinctNames(operations) ==> DistinctNames(PatchAll(operations, name, policy, groups))
  {}

  lemma TightenKeepsGoal(s: Setup, t: Tenant, key: OperationKey, policy: string)
    requires ValidSetup(s) && Sane(s, t) && Narrowed(s, t.projects, t.connectors, t.tightenings, key) == Some(policy)
    ensures var u := t.(tightenings := t.tightenings[key := policy]); Sane(s, u) && SameConnectorGoal(s, t, u)
  {
    OldNamesStay(s, key.connector);
    TightenKeepsAgreement(s, t, key, policy);
    hide Narrowed, OldName, Agreeing;
    forall k
      ensures Narrowed(s, t.projects, t.connectors, t.tightenings[key := policy], k) ==
              Narrowed(s, t.projects, t.connectors, t.tightenings, k)
    {
      NarrowedReads(s, t.projects, t.connectors, t.tightenings[key := policy], t.tightenings, k);
    }
  }

  lemma TightenKeepsAgreement(s: Setup, t: Tenant, key: OperationKey, policy: string)
    requires Agreeing(s, t) && forall other :: OldName(s, other) != Some(key.connector)
    ensures Agreeing(s, t.(tightenings := t.tightenings[key := policy]))
  {
    hide OperationsAgree, Filled, OldName;
    var u := t.(tightenings := t.tightenings[key := policy]);
    forall k | SourceOf(s, u.connectors, k).Some? ensures AgreeingCopy(s, u, k) {
      assert AgreeingCopy(s, t, k);
      var source := SourceOf(s, t.connectors, k).value;
      assert forall project, x :: Decision(u.tightenings, project, OldName(s, k).value, x) ==
                                  Decision(t.tightenings, project, OldName(s, k).value, x);
    }
  }

  /** A published document is due nothing more. */
  lemma RepublishedOnce(s: Setup, slug: string, name: string, current: Document)
    requires ValidSetup(s) && Republished(s.mapping, slug, name, current).Some?
    ensures Republished(s.mapping, slug, name, Republished(s.mapping, slug, name, current).value).None?
  {
    var m := s.mapping;
    if !(name in m.workflows && HasState(current, m.marker)) {
      var labels := m.labels[LabelKey(slug, name)];
      var next := Translate(current, labels);
      assert forall i :: 0 <= i < |next.states| ==> next.states[i].key == current.states[i].key;
      assert !Translatable(next, labels);
      assert HasState(next, m.marker) ==> HasState(current, m.marker);
    }
  }

  lemma PublishKeepsGoal(s: Setup, t: Tenant, workflow: WorkflowKey, document: Document)
    requires ValidSetup(s) && workflow in t.workflows
    requires Due(s, t.projects, t.open, workflow, t.workflows[workflow]) == Some(document)
    ensures var after := t.workflows[workflow := t.workflows[workflow] + [document]];
            forall k :: GoalWorkflow(s, t.projects, t.open, t.workflows, k) ==
                        GoalWorkflow(s, t.projects, t.open, after, k)
  {
    var versions := t.workflows[workflow];
    RepublishedOnce(s, Find(t.projects, workflow.project).value.slug, workflow.name, versions[|versions| - 1]);
    assert Due(s, t.projects, t.open, workflow, versions + [document]).None?;
  }

  lemma RelabelTwice(s: Setup, rules: seq<Rule>)
    requires ValidSetup(s)
    ensures var labels := s.mapping.routingLabels;
            RelabelRules(labels, RelabelRules(labels, rules)) == RelabelRules(labels, rules)
  {
    var labels := s.mapping.routingLabels;
    forall i | 0 <= i < |rules|
      ensures RelabelRule(labels, RelabelRule(labels, rules[i])).labelsAny == RelabelRule(labels, rules[i]).labelsAny
    {}
  }
}
