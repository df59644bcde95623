// The tenant `tools/rename_tenant_names.py` works on: its resources, and what each API call does to them.
module Tenants {
  import opened Wrappers

  // ------------------------------------------------------------------ association lists, as dictionaries keep them

  datatype Entry<+T> = Entry(key: string, value: T)

  predicate DistinctKeys<T>(entries: seq<Entry<T>>) {
    forall i, j :: 0 <= i < j < |entries| ==> entries[i].key != entries[j].key
  }

  function Find<T>(entries: seq<Entry<T>>, key: string): (found: Option<T>)
    ensures found.None? <==> forall i :: 0 <= i < |entries| ==> entries[i].key != key
    ensures found.Some? ==> exists i :: 0 <= i < |entries| && entries[i] == Entry(key, found.value)
  {
    if entries == [] then None
    else if entries[0].key == key then Some(entries[0].value)
    else Find(entries[1..], key)
  }

  lemma FindAt<T>(entries: seq<Entry<T>>, i: nat)
    requires DistinctKeys(entries) && i < |entries|
    ensures Find(entries, entries[i].key) == Some(entries[i].value)
  {}

  // ------------------------------------------------------------------ resources

  datatype Operation = Operation(name: string, policy: Option<string>, groups: Option<seq<string>>)

  /** What a copy carries over verbatim; config and secret references are opaque. */
  datatype Body = Body(ty: string, kind: string, config: string, secretRefs: string)

  datatype Connector = Connector(body: Body, operations: seq<Operation>)

  datatype Agent = Agent(document: string, lifecycle: string)

  /** A state of a workflow document: a mapping with its `display`, or anything else. */
  datatype State = Fields(display: Option<string>, rest: string) | Other(value: string)

  datatype Document = Document(states: seq<Entry<State>>, rest: string)

  /** A routing rule; no labels stands for an absent `when` or `labels_any` too. */
  datatype Rule = Rule(labelsAny: seq<string>, rest: string)

  datatype Project = Project(slug: string, workflows: seq<string>)

  datatype WorkflowKey = WorkflowKey(project: string, name: string)

  datatype OperationKey = OperationKey(project: string, connector: string, operation: string)

  /** `projects` in listing order, by id; `workflows` holds every published version, the last one current;
      `open` the workflows with open work items; `tightenings` what projects narrowed. */
  datatype Tenant = Tenant(
    projects: seq<Entry<Project>>,
    open: set<WorkflowKey>,
    skills: map<string, string>,
    agents: map<string, Agent>,
    connectors: map<string, Connector>,
    tightenings: map<OperationKey, string>,
    workflows: map<WorkflowKey, seq<Document>>,
    routing: map<string, seq<Rule>>,
    names: map<string, string>)

  // ------------------------------------------------------------------ calls

  datatype Call =
    | CreateSkill(name: string, files: string)
    | CreateAgent(slug: string, document: string)
    | CreateConnector(name: string, body: Body)
    | Discover(name: string)
    | PatchOperation(name: string, operation: string, policy: Option<string>, groups: Option<seq<string>>)
    | Tighten(key: OperationKey, narrowed: string)
    | PublishWorkflow(workflow: WorkflowKey, next: Document)
    | PutRouting(project: string, rules: seq<Rule>)
    | RenameProject(project: string, wanted: string)
    | Deprecate(slug: string)

  /** The operations a new connector of this body has, those its server lists, and how strict a policy is. */
  datatype Server = Server(declared: Body -> seq<Operation>, listed: Body -> seq<Operation>, rank: string -> int)

  function PatchAll(operations: seq<Operation>, name: string, policy: Option<string>, groups: Option<seq<string>>)
    : (patched: seq<Operation>)
  {
    seq(|operations|, i requires 0 <= i < |operations| => PatchOne(operations[i], name, policy, groups))
  }

  function PatchOne(o: Operation, name: string, policy: Option<string>, groups: Option<seq<string>>): Operation {
    if o.name != name then o
    else Operation(o.name, if policy.Some? then policy else o.policy, if groups.Some? then groups else o.groups)
  }

  predicate Has(operations: seq<Operation>, name: string) {
    exists i :: 0 <= i < |operations| && operations[i].name == name
  }

  /** The operation is there, and the organisation's policy for it is no stricter than what a project narrows it to. */
  predicate Takes(server: Server, operations: seq<Operation>, name: string, narrowed: string) {
    exists i :: 0 <= i < |operations| && operations[i].name == name
                && (operations[i].policy.Some? ==> server.rank(operations[i].policy.value) <= server.rank(narrowed))
  }

  /** The calls the API takes: it answers 409 to a resource that is there already, 404 to one that is missing, an
      operation included, and 422 to a project that would widen an operation. */
  predicate Accepted(server: Server, t: Tenant, c: Call) {
    match c
    case CreateSkill(name, _) => name !in t.skills
    case CreateAgent(slug, _) => slug !in t.agents
    case CreateConnector(name, _) => name !in t.connectors
    case Discover(name) => name in t.connectors
    case PatchOperation(name, operation, _, _) => name in t.connectors && Has(t.connectors[name].operations, operation)
    case Tighten(key, narrowed) =>
      && Find(t.projects, key.project).Some?
      && key.connector in t.connectors && Takes(server, t.connectors[key.connector].operations, key.operation, narrowed)
    case PublishWorkflow(workflow, _) => workflow in t.workflows
    case PutRouting(project, _) => project in t.routing
    case RenameProject(project, _) => Find(t.projects, project).Some?
    case Deprecate(slug) => slug in t.agents
  }

  /** What a call does when it is taken. */
  function Exec(server: Server, t: Tenant, c: Call): Tenant {
    match c
    case CreateSkill(name, files) => t.(skills := t.skills[name := files])
    case CreateAgent(slug, document) => t.(agents := t.agents[slug := Agent(document, "active")])
    case CreateConnector(name, body) =>
      t.(connectors := t.connectors[name := Connector(body, server.declared(body))])
    case Discover(name) =>
      if name !in t.connectors then t
      else t.(connectors := t.connectors[name := t.connectors[name].(
             operations := server.listed(t.connectors[name].body))])
    case PatchOperation(name, operation, policy, groups) =>
      if name !in t.connectors then t
      else t.(connectors := t.connectors[name := t.connectors[name].(
             operations := PatchAll(t.connectors[name].operations, operation, policy, groups))])
    case Tighten(key, policy) => t.(tightenings := t.tightenings[key := policy])
    case PublishWorkflow(workflow, document) =>
      if workflow !in t.workflows then t
      else t.(workflows := t.workflows[workflow := t.workflows[workflow] + [document]])
    case PutRouting(project, rules) => t.(routing := t.routing[project := rules])
    case RenameProject(project, wanted) => t.(names := t.names[project := wanted])
    case Deprecate(slug) =>
      if slug !in t.agents then t else t.(agents := t.agents[slug := t.agents[slug].(lifecycle := "deprecated")])
  }

  function ExecAll(server: Server, t: Tenant, calls: seq<Call>): Tenant
    decreases |calls|
  {
    if calls == [] then t else ExecAll(server, Exec(server, t, calls[0]), calls[1..])
  }

  lemma {:induction false} ExecConcat(server: Server, t: Tenant, a: seq<Call>, b: seq<Call>)
    ensures ExecAll(server, t, a + b) == ExecAll(server, ExecAll(server, t, a), b)
    decreases |a|
  {
    if a == [] {
      assert a + b == b;
    } else {
      assert (a + b)[1..] == a[1..] + b;
      ExecConcat(server, Exec(server, t, a[0]), a[1..], b);
    }
  }

  // ------------------------------------------------------------------ refusals

  /** How many of these calls go through before the first that is refused, when the connection lasts for `k`. */
  function Passed(server: Server, t: Tenant, calls: seq<Call>, k: nat): (n: nat)
    ensures n <= k && n <= |calls|
    decreases |calls|
  {
    if calls == [] || k == 0 || !Accepted(server, t, calls[0]) then 0
    else 1 + Passed(server, Exec(server, t, calls[0]), calls[1..], k - 1)
  }

  /** No call is refused, each on the tenant the ones before it left. */
  predicate AllAccepted(server: Server, t: Tenant, calls: seq<Call>)
    decreases |calls|
  {
    calls == [] || (Accepted(server, t, calls[0]) && AllAccepted(server, Exec(server, t, calls[0]), calls[1..]))
  }

  lemma {:induction false} PassedAll(server: Server, t: Tenant, calls: seq<Call>, k: nat)
    ensures Passed(server, t, calls, k) == |calls| <==> |calls| <= k && AllAccepted(server, t, calls)
    decreases |calls|
  {
    if calls != [] && k > 0 && Accepted(server, t, calls[0]) {
      PassedAll(server, Exec(server, t, calls[0]), calls[1..], k - 1);
    }
  }

  lemma {:induction false} PassedAreAccepted(server: Server, t: Tenant, calls: seq<Call>, k: nat)
    ensures AllAccepted(server, t, calls[..Passed(server, t, calls, k)])
    decreases |calls|
  {
    hide Accepted, Exec;
    var n := Passed(server, t, calls, k);
    if n > 0 {
      PassedAreAccepted(server, Exec(server, t, calls[0]), calls[1..], k - 1);
      assert calls[..n][1..] == calls[1..][..n - 1];
    }
  }

  lemma {:induction false} PassedConcat(server: Server, t: Tenant, a: seq<Call>, b: seq<Call>, k: nat)
    ensures var n := Passed(server, t, a, k);
            Passed(server, t, a + b, k) ==
              if n < |a| then n else |a| + Passed(server, ExecAll(server, t, a), b, k - |a|)
    decreases |a|
  {
    hide Accepted, Exec;
    if a == [] {
      assert a + b == b;
    } else {
      assert (a + b)[0] == a[0] && (a + b)[1..] == a[1..] + b;
      if k > 0 && Accepted(server, t, a[0]) { PassedConcat(server, Exec(server, t, a[0]), a[1..], b, k - 1); }
    }
  }

  lemma {:induction false} AcceptedConcat(server: Server, t: Tenant, a: seq<Call>, b: seq<Call>)
    ensures AllAccepted(server, t, a + b) <==>
              AllAccepted(server, t, a) && AllAccepted(server, ExecAll(server, t, a), b)
    decreases |a|
  {
    hide Accepted, Exec;
    if a == [] {
      assert a + b == b;
    } else {
      assert (a + b)[0] == a[0] && (a + b)[1..] == a[1..] + b;
      AcceptedConcat(server, Exec(server, t, a[0]), a[1..], b);
    }
  }
}
