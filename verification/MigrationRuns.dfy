// Runs of the migration: a step's writes, a whole run, an interrupted run, and what a second run finds.
module MigrationRuns {
  import opened Wrappers
  import opened Tenants
  import opened MigrationPlans
  import opened MigrationGoals

  // ------------------------------------------------------------------ sequences of writes

  ghost predicate AllToward(s: Setup, t: Tenant, calls: seq<Call>)
    decreases |calls|
  {
    calls == [] || (Toward(s, t, calls[0]) && AllToward(s, Exec(s.server, t, calls[0]), calls[1..]))
  }

  lemma {:induction false} AllTowardConcat(s: Setup, t: Tenant, a: seq<Call>, b: seq<Call>)
    requires AllToward(s, t, a) && AllToward(s, ExecAll(s.server, t, a), b)
    ensures AllToward(s, t, a + b)
    decreases |a|
  {
    if a == [] {
      assert a + b == b;
    } else {
      assert (a + b)[0] == a[0] && (a + b)[1..] == a[1..] + b;
      AllTowardConcat(s, Exec(s.server, t, a[0]), a[1..], b);
    }
  }

  lemma TwoParts(s: Setup, t: Tenant, a: seq<Call>, b: seq<Call>)
    requires AllToward(s, t, a) && AllToward(s, ExecAll(s.server, t, a), b)
    ensures AllToward(s, t, a + b) && ExecAll(s.server, t, a + b) == ExecAll(s.server, ExecAll(s.server, t, a), b)
  {
    AllTowardConcat(s, t, a, b);
    ExecConcat(s.server, t, a, b);
  }

  lemma {:induction false} AllTowardPrefix(s: Setup, t: Tenant, calls: seq<Call>, k: nat)
    requires AllToward(s, t, calls) && k <= |calls|
    ensures AllToward(s, t, calls[..k])
    decreases |calls|
  {
    if k > 0 {
      AllTowardPrefix(s, Exec(s.server, t, calls[0]), calls[1..], k - 1);
      assert calls[..k][1..] == calls[1..][..k - 1];
    }
  }

  lemma {:induction false} AllTowardKeepsGoal(s: Setup, t: Tenant, calls: seq<Call>)
    requires ValidSetup(s) && Sane(s, t) && AllToward(s, t, calls)
    ensures Sane(s, ExecAll(s.server, t, calls)) && SameGoal(s, t, ExecAll(s.server, t, calls))
    decreases |calls|
  {
    if calls != [] {
      TowardKeepsGoal(s, t, calls[0]);
      AllTowardKeepsGoal(s, Exec(s.server, t, calls[0]), calls[1..]);
      SameGoalTransitive(s, t, Exec(s.server, t, calls[0]), ExecAll(s.server, t, calls));
    }
  }

  lemma SameGoalTransitive(s: Setup, t: Tenant, u: Tenant, v: Tenant)
    requires SameGoal(s, t, u) && SameGoal(s, u, v)
    ensures SameGoal(s, t, v)
  {}

  // ------------------------------------------------------------------ who owns what

  /** The resource, or group of resources, that one step brings to its goal. */
  datatype Owner =
    | OfSkill(name: string)
    | OfAgent(slug: string)
    | OfConnector(name: string)
    | OfWorkflow(workflow: WorkflowKey)
    | OfRouting(project: string)
    | OfName(project: string)

  function OwnerOf(c: Call): Owner {
    match c
    case CreateSkill(name, _) => OfSkill(name)
    case CreateAgent(slug, _) => OfAgent(slug)
    case CreateConnector(name, _) => OfConnector(name)
    case Discover(name) => OfConnector(name)
    case PatchOperation(name, _, _, _) => OfConnector(name)
    case Tighten(key, _) => OfConnector(key.connector)
    case PublishWorkflow(workflow, _) => OfWorkflow(workflow)
    case PutRouting(project, _) => OfRouting(project)
    case RenameProject(project, _) => OfName(project)
    case Deprecate(slug) => OfAgent(slug)
  }

  function StepOwner(step: Step): Owner {
    match step
    case Single(call) => OwnerOf(call)
    case Relabel(project) => OfRouting(project)
    case Copy(_, _, newName, _, _) => OfConnector(newName)
  }

  /** The owner's resources are what they should become. */
  ghost predicate Settled(s: Setup, t: Tenant, o: Owner) {
    match o
    case OfSkill(name) => Get(t.skills, name) == GoalSkill(s, t.skills, name)
    case OfAgent(slug) => Get(t.agents, slug) == GoalAgent(s, t.agents, slug)
    case OfConnector(name) =>
      && Get(t.connectors, name) == GoalConnector(s, t.connectors, name)
      && forall k: OperationKey :: k.connector == name ==>
           Get(t.tightenings, k) == GoalTightening(s, t.projects, t.connectors, t.tightenings, k)
    case OfWorkflow(w) => Get(t.workflows, w) == GoalWorkflow(s, t.projects, t.open, t.workflows, w)
    case OfRouting(project) => Get(t.routing, project) == GoalRouting(s, t.projects, t.routing, project)
    case OfName(project) => Get(t.names, project) == GoalName(s, t.projects, t.names, project)
  }

  /** The owner's resources are the same in both. */
  ghost predicate Untouched(t: Tenant, u: Tenant, o: Owner) {
    match o
    case OfSkill(name) => Get(t.skills, name) == Get(u.skills, name)
    case OfAgent(slug) => Get(t.agents, slug) == Get(u.agents, slug)
    case OfConnector(name) =>
      && Get(t.connectors, name) == Get(u.connectors, name)
      && forall k: OperationKey :: k.connector == name ==> Get(t.tightenings, k) == Get(u.tightenings, k)
    case OfWorkflow(w) => Get(t.workflows, w) == Get(u.workflows, w)
    case OfRouting(project) => Get(t.routing, project) == Get(u.routing, project)
    case OfName(project) => Get(t.names, project) == Get(u.names, project)
  }

  /** A write touches its owner's resources only. */
  lemma ExecTouchesOwner(s: Setup, t: Tenant, c: Call, o: Owner)
    requires OwnerOf(c) != o
    ensures Untouched(t, Exec(s.server, t, c), o)
  {}

  lemma UntouchedStaysSettled(s: Setup, t: Tenant, u: Tenant, o: Owner)
    requires SameGoal(s, t, u) && Untouched(t, u, o) && Settled(s, t, o)
    ensures Settled(s, u, o)
  {}

  /** A settled resource does not notice the writes of other steps. */
  lemma SettledStays(s: Setup, t: Tenant, c: Call, o: Owner)
    requires ValidSetup(s) && Sane(s, t) && Toward(s, t, c) && OwnerOf(c) != o && Settled(s, t, o)
    ensures Settled(s, Exec(s.server, t, c), o)
  {
    TowardKeepsGoal(s, t, c);
    ExecTouchesOwner(s, t, c, o);
    UntouchedStaysSettled(s, t, Exec(s.server, t, c), o);
  }

  /** Tenants that are all they should become, and should become the same, are equal. */
  lemma SettledTenantsAgree(s: Setup, t: Tenant, u: Tenant)
    requires SameGoal(s, t, u)
    requires forall o :: Settled(s, t, o) && Settled(s, u, o)
    ensures t == u
  {
    forall k
      ensures Get(t.skills, k) == Get(u.skills, k)
    {
      assert Settled(s, t, OfSkill(k)) && Settled(s, u, OfSkill(k));
    }
    SameMap(t.skills, u.skills);
    forall k
      ensures Get(t.agents, k) == Get(u.agents, k)
    {
      assert Settled(s, t, OfAgent(k)) && Settled(s, u, OfAgent(k));
    }
    SameMap(t.agents, u.agents);
    forall k ensures Get(t.connectors, k) == Get(u.connectors, k) {
      assert Settled(s, t, OfConnector(k)) && Settled(s, u, OfConnector(k));
    }
    SameMap(t.connectors, u.connectors);
    forall k ensures Get(t.tightenings, k) == Get(u.tightenings, k) {
      assert Settled(s, t, OfConnector(k.connector)) && Settled(s, u, OfConnector(k.connector));
    }
    SameMap(t.tightenings, u.tightenings);
    forall k ensures Get(t.workflows, k) == Get(u.workflows, k) {
      assert Settled(s, t, OfWorkflow(k)) && Settled(s, u, OfWorkflow(k));
    }
    SameMap(t.workflows, u.workflows);
    forall k
      ensures Get(t.routing, k) == Get(u.routing, k)
    {
      assert Settled(s, t, OfRouting(k)) && Settled(s, u, OfRouting(k));
    }
    SameMap(t.routing, u.routing);
    forall k ensures Get(t.names, k) == Get(u.names, k) { assert Settled(s, t, OfName(k)) && Settled(s, u, OfName(k)); }
    SameMap(t.names, u.names);
  }

  lemma SameMap<K(!new), V>(a: map<K, V>, b: map<K, V>)
    requires forall k :: Get(a, k) == Get(b, k)
    ensures a == b
  {
    assert forall k :: k in a <==> Get(a, k).Some?;
    assert forall k :: k in b <==> Get(b, k).Some?;
    forall k | k in a ensures a[k] == b[k] { assert Get(a, k) == Get(b, k); }
  }

  // ------------------------------------------------------------------ a step on the tenant it finds

  function TightenKey(newName: string, x: Tightening): OperationKey {
    OperationKey(x.project, newName, x.operation)
  }

  /** The tenant is still as the step expects: its writes will go towards the goal and reach it. */
  ghost predicate Fits(s: Setup, t: Tenant, step: Step) {
    match step
    case Single(call) => !OwnerOf(call).OfConnector? && !call.PutRouting? && Toward(s, t, call)
    case Relabel(project) => project in t.routing && Find(t.projects, project).Some?
    case Copy(oldName, source, newName, found, tightenings) =>
      && OldName(s, newName) == Some(oldName) && Get(t.connectors, oldName) == Some(source)
      && (found <==> newName in t.connectors)
      && FitsTightenings(s, t, newName, tightenings)
  }

  /** The listed tightenings are right, and what is not listed is there already. */
  ghost predicate FitsTightenings(s: Setup, t: Tenant, newName: string, tightenings: seq<Tightening>) {
    && (forall x :: x in tightenings ==>
          Narrowed(s, t.projects, t.connectors, t.tightenings, TightenKey(newName, x)) == Some(x.policy))
    && (forall k: OperationKey :: k.connector == newName ==>
          var narrowed := Narrowed(s, t.projects, t.connectors, t.tightenings, k);
          narrowed.Some? ==>
            Get(t.tightenings, k) == narrowed || Tightening(k.project, k.operation, narrowed.value) in tightenings)
  }

  lemma UntouchedSingleFits(s: Setup, t: Tenant, u: Tenant, step: Step)
    requires t.projects == u.projects && t.open == u.open
    requires !step.Copy? && Fits(s, t, step) && Untouched(t, u, StepOwner(step))
    ensures Fits(s, u, step)
  {
    if step.Single? && step.call.PublishWorkflow? {
      assert Get(u.workflows, step.call.workflow) == Get(t.workflows, step.call.workflow);
    } else if step.Single? && step.call.Deprecate? {
      assert Get(u.agents, step.call.slug) == Get(t.agents, step.call.slug);
    }
  }

  lemma UntouchedCopyFits(s: Setup, t: Tenant, u: Tenant, step: Step)
    requires SameConnectorGoal(s, t, u) && step.Copy? && Fits(s, t, step)
    requires Untouched(t, u, StepOwner(step)) && Get(t.connectors, step.oldName) == Get(u.connectors, step.oldName)
    ensures Fits(s, u, step)
  {}

  lemma FitsStays(s: Setup, t: Tenant, c: Call, step: Step)
    requires ValidSetup(s) && Sane(s, t) && Toward(s, t, c) && OwnerOf(c) != StepOwner(step) && Fits(s, t, step)
    ensures Fits(s, Exec(s.server, t, c), step)
  {
    TowardKeepsGoal(s, t, c);
    ExecTouchesOwner(s, t, c, StepOwner(step));
    if step.Copy? {
      if OwnerOf(c).OfConnector? {
        OldNamesStay(s, OwnerOf(c).name);
      }
      ExecTouchesOwner(s, t, c, OfConnector(step.oldName));
      UntouchedCopyFits(s, t, Exec(s.server, t, c), step);
    } else {
      UntouchedSingleFits(s, t, Exec(s.server, t, c), step);
    }
  }

  lemma {:induction false} FitsStaysThrough(s: Setup, t: Tenant, calls: seq<Call>, step: Step)
    requires ValidSetup(s) && Sane(s, t) && AllToward(s, t, calls) && Fits(s, t, step)
    requires forall c :: c in calls ==> OwnerOf(c) != StepOwner(step)
    ensures Fits(s, ExecAll(s.server, t, calls), step)
    decreases |calls|
  {
    if calls != [] {
      FitsStays(s, t, calls[0], step);
      TowardKeepsGoal(s, t, calls[0]);
      FitsStaysThrough(s, Exec(s.server, t, calls[0]), calls[1..], step);
    }
  }

  lemma {:induction false} SettledStaysThrough(s: Setup, t: Tenant, calls: seq<Call>, o: Owner)
    requires ValidSetup(s) && Sane(s, t) && AllToward(s, t, calls) && Settled(s, t, o)
    requires forall c :: c in calls ==> OwnerOf(c) != o
    ensures Settled(s, ExecAll(s.server, t, calls), o)
    decreases |calls|
  {
    if calls != [] {
      SettledStays(s, t, calls[0], o);
      TowardKeepsGoal(s, t, calls[0]);
      SettledStaysThrough(s, Exec(s.server, t, calls[0]), calls[1..], o);
    }
  }

  // ------------------------------------------------------------------ one step settles its owner

  /** What running a step must give. */
  ghost predicate Settles(s: Setup, t: Tenant, step: Step) {
    var calls := Calls(s, t, step);
    && AllToward(s, t, calls)
    && (forall c :: c in calls ==> OwnerOf(c) == StepOwner(step))
    && Settled(s, ExecAll(s.server, t, calls), StepOwner(step))
  }

  lemma OneCall(s: Setup, t: Tenant, c: Call)
    ensures ExecAll(s.server, t, [c]) == Exec(s.server, t, c)
    ensures AllToward(s, t, [c]) <==> Toward(s, t, c)
  {
    assert [c][1..] == [] && ExecAll(s.server, Exec(s.server, t, c), []) == Exec(s.server, t, c);
  }

  lemma SingleSettles(s: Setup, t: Tenant, step: Step)
    requires ValidSetup(s) && !step.Copy? && Fits(s, t, step)
    ensures Settles(s, t, step)
  {
    var call := if step.Single? then step.call
                else PutRouting(step.project, RelabelRules(s.mapping.routingLabels, t.routing[step.project]));
    assert Calls(s, t, step) == [call];
    OneCall(s, t, call);
    CallSettles(s, t, call);
  }

  lemma CallSettles(s: Setup, t: Tenant, c: Call)
    requires ValidSetup(s) && Toward(s, t, c) && !OwnerOf(c).OfConnector?
    ensures Settled(s, Exec(s.server, t, c), OwnerOf(c))
  {
    match c
    case CreateSkill(_, _) =>
    case CreateAgent(slug, _) => CreatedAgentsStay(s, slug);
    case PublishWorkflow(w, document) =>
      var versions := t.workflows[w];
      RepublishedOnce(s, Find(t.projects, w.project).value.slug, w.name, versions[|versions| - 1]);
    case PutRouting(project, rules) => RelabelTwice(s, t.routing[project]);
    case RenameProject(_, _) =>
    case Deprecate(_) =>
  }

  // A copy: create, discover, patch, tighten.

  /** Patching for one more source operation merges it in. */
  lemma PatchMerges(m: Mapping, newName: string, source: seq<Operation>, operations: seq<Operation>)
    requires source != [] && OperationsAgree(m, source, operations) && DistinctNames(operations)
    ensures var before, x := source[..|source| - 1], source[|source| - 1];
            var difference := Difference(m, newName, x, operations);
            MergeAll(m, source, operations) ==
            if difference == [] then MergeAll(m, before, operations)
            else PatchAll(MergeAll(m, before, operations), difference[0].operation, difference[0].policy,
                          difference[0].groups)
  {
    var before, x := source[..|source| - 1], source[|source| - 1];
    var difference, merged := Difference(m, newName, x, operations), MergeAll(m, before, operations);
    hide OperationsAgree, DistinctNames, CarriedPolicy, CarriedGroups, Difference, Merge, PatchOne;
    forall i | 0 <= i < |operations|
      ensures MergeAll(m, source, operations)[i] ==
              if difference == [] then merged[i]
              else PatchOne(merged[i], difference[0].operation, difference[0].policy, difference[0].groups)
    {
      OneMerges(m, newName, source, operations, i);
    }
    if difference == [] {
      assert MergeAll(m, source, operations) == merged;
    } else {
      assert MergeAll(m, source, operations) ==
             PatchAll(merged, difference[0].operation, difference[0].policy, difference[0].groups);
    }
  }

  /** One operation of the copy, as the last source operation patches it. */
  predicate MergesOne(m: Mapping, newName: string, source: seq<Operation>, operations: seq<Operation>, i: nat)
    requires source != [] && i < |operations|
  {
    var difference := Difference(m, newName, source[|source| - 1], operations);
    var merged := MergeAll(m, source[..|source| - 1], operations)[i];
    MergeAll(m, source, operations)[i] ==
      if difference == [] then merged
      else PatchOne(merged, difference[0].operation, difference[0].policy, difference[0].groups)
  }

  lemma OneMerges(m: Mapping, newName: string, source: seq<Operation>, operations: seq<Operation>, i: nat)
    requires source != [] && OperationsAgree(m, source, operations) && DistinctNames(operations) && i < |operations|
    ensures MergesOne(m, newName, source, operations, i)
  {
    hide OperationsAgree, DistinctNames, CarriedPolicy, CarriedGroups, Known, Renamed, Difference, Merge, PatchOne;
    var before, x, o := source[..|source| - 1], source[|source| - 1], operations[i];
    CarriedNext(m, source, o.name);
    if o.name == Renamed(m, x.name) {
      KnownAt(operations, i);
      AgreesWithLast(m, source, operations, i);
      OnePatched(m, newName, x, operations, o, CarriedPolicy(m, before, o.name), CarriedGroups(m, before, o.name));
    } else {
      DifferenceNames(m, newName, x, operations);
      OtherUnpatched(m, newName, x, operations, o, CarriedPolicy(m, before, o.name), CarriedGroups(m, before, o.name));
    }
  }

  lemma OtherUnpatched(m: Mapping, newName: string, x: Operation, operations: seq<Operation>, o: Operation,
                       policy: Option<string>, groups: Option<seq<string>>)
    requires o.name != Renamed(m, x.name)
    ensures forall c :: c in Difference(m, newName, x, operations) ==>
              PatchOne(Merge(o, policy, groups), c.operation, c.policy, c.groups) == Merge(o, policy, groups)
  {
    hide Renamed;
  }

  /** Patching what already has the policy and groups of earlier operations, when those agree with this one. */
  lemma OnePatched(m: Mapping, newName: string, x: Operation, operations: seq<Operation>, o: Operation,
                   policy: Option<string>, groups: Option<seq<string>>)
    requires Known(operations, Renamed(m, x.name)) == Some(o)
    requires Compatible(policy, x.policy) && Compatible(groups, x.groups)
    ensures var difference := Difference(m, newName, x, operations);
            Merge(o, if x.policy.Some? then x.policy else policy, if x.groups.Some? then x.groups else groups) ==
            if difference == [] then Merge(o, policy, groups)
            else PatchOne(Merge(o, policy, groups), difference[0].operation, difference[0].policy, difference[0].groups)
  {
    hide Known, Renamed;
  }

  /** A difference is a patch of the operation's new name. */
  lemma DifferenceNames(m: Mapping, newName: string, operation: Operation, copied: seq<Operation>)
    ensures forall c :: c in Difference(m, newName, operation, copied) ==>
              c.PatchOperation? && c.operation == Renamed(m, operation.name)
  {
    hide Renamed;
  }

  lemma CarriedNext(m: Mapping, source: seq<Operation>, name: string)
    requires source != []
    ensures var before, x := source[..|source| - 1], source[|source| - 1];
            && CarriedPolicy(m, source, name) ==
               (if Renamed(m, x.name) == name && x.policy.Some? then x.policy else CarriedPolicy(m, before, name))
            && CarriedGroups(m, source, name) ==
               (if Renamed(m, x.name) == name && x.groups.Some? then x.groups else CarriedGroups(m, before, name))
  {}

  lemma KnownAt(operations: seq<Operation>, i: nat)
    requires DistinctNames(operations) && i < |operations|
    ensures Known(operations, operations[i].name) == Some(operations[i])
  {
    var known := Known(operations, operations[i].name).value;
    var j :| 0 <= j < |operations| && operations[j] == known;
  }

  lemma AgreesWithLast(m: Mapping, source: seq<Operation>, operations: seq<Operation>, i: nat)
    requires source != [] && OperationsAgree(m, source, operations) && i < |operations|
    requires operations[i].name == Renamed(m, source[|source| - 1].name)
    ensures var before, x := source[..|source| - 1], source[|source| - 1];
            && Compatible(CarriedPolicy(m, before, operations[i].name), x.policy)
            && Compatible(CarriedGroups(m, before, operations[i].name), x.groups)
  {
    var before, x, name := source[..|source| - 1], source[|source| - 1], operations[i].name;
    assert Has(operations, name);
    var policy, groups := CarriedPolicy(m, before, name), CarriedGroups(m, before, name);
    if policy.Some? {
      var j :| 0 <= j < |before| && Renamed(m, before[j].name) == name && before[j].policy == policy;
      assert Renamed(m, source[j].name) == Renamed(m, source[|source| - 1].name);
    }
    if groups.Some? {
      var j :| 0 <= j < |before| && Renamed(m, before[j].name) == name && before[j].groups == groups;
      assert Renamed(m, source[j].name) == Renamed(m, source[|source| - 1].name);
    }
  }

  /** The operations after some patches of one connector. */
  function Patched(operations: seq<Operation>, calls: seq<Call>): seq<Operation>
    decreases |calls|
  {
    if calls == [] then operations
    else var front, last := calls[..|calls| - 1], calls[|calls| - 1];
      if last.PatchOperation? then PatchAll(Patched(operations, front), last.operation, last.policy, last.groups)
      else Patched(operations, front)
  }

  lemma PatchedFromFront(operations: seq<Operation>, c: Call, calls: seq<Call>)
    requires c.PatchOperation?
    ensures Patched(PatchAll(operations, c.operation, c.policy, c.groups), calls) == Patched(operations, [c] + calls)
    decreases |calls|
  {
    if calls == [] {
      assert [c] + calls == [c] && [c][..0] == [] && Patched(operations, []) == operations;
    } else {
      PatchedFromFront(operations, c, calls[..|calls| - 1]);
      assert ([c] + calls)[..|calls|] == [c] + calls[..|calls| - 1];
    }
  }

  lemma PatchedSnoc(operations: seq<Operation>, front: seq<Call>, difference: seq<Call>)
    requires |difference| <= 1 && (difference != [] ==> difference[0].PatchOperation?)
    ensures Patched(operations, front + difference) ==
            if difference == [] then Patched(operations, front)
            else PatchAll(Patched(operations, front), difference[0].operation, difference[0].policy,
                          difference[0].groups)
  {
    if difference == [] {
      assert front + difference == front;
    } else {
      assert (front + difference)[..|front|] == front;
    }
  }

  /** Patching for every difference merges the source in. */
  lemma {:induction false} DifferencesMerge(m: Mapping, newName: string, source: seq<Operation>,
                                            operations: seq<Operation>)
    requires OperationsAgree(m, source, operations) && DistinctNames(operations)
    ensures Patched(operations, Differences(m, newName, source, operations)) == MergeAll(m, source, operations)
  {
    if source == [] {
      assert MergeAll(m, [], operations) == operations;
    } else {
      var before := source[..|source| - 1];
      FrontAgrees(m, source, operations);
      hide OperationsAgree, DistinctNames, MergeAll, Patched;
      DifferencesMerge(m, newName, before, operations);
      PatchMerges(m, newName, source, operations);
      PatchedSnoc(operations, Differences(m, newName, before, operations),
                  Difference(m, newName, source[|source| - 1], operations));
    }
  }

  lemma FrontAgrees(m: Mapping, source: seq<Operation>, operations: seq<Operation>)
    requires source != [] && OperationsAgree(m, source, operations)
    ensures OperationsAgree(m, source[..|source| - 1], operations)
  {}

  /** A patch of `newName` that carries over what its source says. */
  predicate CarryingPatch(m: Mapping, newName: string, source: seq<Operation>, c: Call) {
    c.PatchOperation? && c.name == newName && Carries(m, source, c.operation, c.policy, c.groups)
  }

  lemma {:induction false} DifferencesCarry(m: Mapping, newName: string, all: seq<Operation>, n: nat,
                                            operations: seq<Operation>)
    requires OperationsAgree(m, all, operations) && n <= |all|
    ensures forall c :: c in Differences(m, newName, all[..n], operations) ==> CarryingPatch(m, newName, all, c)
    ensures Differences(m, newName, all[..n], operations) != [] ==> operations != []
  {
    hide OperationsAgree, CarriedPolicy, CarriedGroups;
    if n > 0 {
      DifferencesCarry(m, newName, all, n - 1, operations);
      assert all[..n][..n - 1] == all[..n - 1];
      if Has(operations, Renamed(m, all[n - 1].name)) {
        CarriedPolicyAt(m, all, operations, n - 1);
        CarriedGroupsAt(m, all, operations, n - 1);
      }
    }
  }

  lemma CopyKeepsSource(s: Setup, t: Tenant, name: string, c: Connector)
    requires OldName(s, name) != Some(name)
    ensures SourceOf(s, t.connectors[name := c], name) == SourceOf(s, t.connectors, name)
  {}

  lemma {:induction false} PatchesRun(s: Setup, t: Tenant, newName: string, source: Connector, calls: seq<Call>)
    requires SourceOf(s, t.connectors, newName) == Some(source) && OldName(s, newName) != Some(newName)
    requires newName in t.connectors && (calls != [] ==> t.connectors[newName].operations != [])
    requires forall c :: c in calls ==> CarryingPatch(s.mapping, newName, source.operations, c)
    ensures AllToward(s, t, calls)
    ensures ExecAll(s.server, t, calls) ==
            t.(connectors := t.connectors[newName := t.connectors[newName].(
                 operations := Patched(t.connectors[newName].operations, calls))])
    decreases |calls|
  {
    hide OldName, Carries;
    if calls != [] {
      var c, u := calls[0], Exec(s.server, t, calls[0]);
      assert CarryingPatch(s.mapping, newName, source.operations, c);
      assert u.connectors[newName].operations != [];
      hide SourceOf, Patched;
      CopyKeepsSource(s, t, newName, u.connectors[newName]);
      assert SourceOf(s, u.connectors, newName) == Some(source);
      PatchesRun(s, u, newName, source, calls[1..]);
      PatchedFromFront(t.connectors[newName].operations, c, calls[1..]);
      assert [c] + calls[1..] == calls;
      var before, after := t.connectors[newName], u.connectors[newName];
      assert u.connectors[newName := after.(operations := Patched(after.operations, calls[1..]))] ==
             t.connectors[newName := before.(operations := Patched(before.operations, calls))];
    } else {
      assert t.connectors[newName := t.connectors[newName]] == t.connectors;
    }
  }

  /** A tightening of `newName`, copied by now, that repeats what the project decided. */
  ghost predicate RightTightening(s: Setup, t: Tenant, newName: string, c: Call) {
    && c.Tighten? && c.key.connector == newName
    && Copied(s, t, newName)
    && Narrowed(s, t.projects, t.connectors, t.tightenings, c.key) == Some(c.narrowed)
  }

  /** What projects decided does not depend on the copies, nor on what is tightened there. */
  lemma NarrowedIgnoresCopies(s: Setup, t: Tenant, name: string, c: Connector)
    requires forall other :: OldName(s, other) != Some(name)
    ensures forall k :: Narrowed(s, t.projects, t.connectors[name := c], t.tightenings, k) ==
                        Narrowed(s, t.projects, t.connectors, t.tightenings, k)
    ensures forall other :: SourceOf(s, t.connectors[name := c], other) == SourceOf(s, t.connectors, other)
  {
    forall other ensures SourceOf(s, t.connectors[name := c], other) == SourceOf(s, t.connectors, other) {}
  }

  lemma NarrowedIgnoresTightening(s: Setup, t: Tenant, key: OperationKey, policy: string)
    requires forall other :: OldName(s, other) != Some(key.connector)
    ensures forall k :: Narrowed(s, t.projects, t.connectors, t.tightenings[key := policy], k) ==
                        Narrowed(s, t.projects, t.connectors, t.tightenings, k)
  {
    hide OldName, Narrowed;
    forall k
      ensures Narrowed(s, t.projects, t.connectors, t.tightenings[key := policy], k) ==
              Narrowed(s, t.projects, t.connectors, t.tightenings, k)
    {
      NarrowedReads(s, t.projects, t.connectors, t.tightenings[key := policy], t.tightenings, k);
    }
  }

  /** Right tightenings of one connector, performed on `t`, give `u`. */
  ghost predicate Tightened(s: Setup, t: Tenant, newName: string, calls: seq<Call>, u: Tenant) {
    && u == t.(tightenings := u.tightenings)
    && (forall c :: c in calls && c.Tighten? ==> Get(u.tightenings, c.key) == Some(c.narrowed))
    && (forall k :: Get(u.tightenings, k) != Get(t.tightenings, k) ==>
          && k.connector == newName && Get(u.tightenings, k).Some?
          && Get(u.tightenings, k) == Narrowed(s, t.projects, t.connectors, t.tightenings, k))
  }

  lemma {:induction false} TightensRun(s: Setup, t: Tenant, newName: string, calls: seq<Call>)
    requires forall other :: OldName(s, other) != Some(newName)
    requires forall c :: c in calls ==> RightTightening(s, t, newName, c)
    ensures AllToward(s, t, calls) && Tightened(s, t, newName, calls, ExecAll(s.server, t, calls))
    decreases |calls|
  {
    hide Narrowed, OldName;
    if calls != [] {
      var c, rest := calls[0], calls[1..];
      assert RightTightening(s, t, newName, c);
      var u := Exec(s.server, t, c);
      forall x | x in rest ensures RightTightening(s, u, newName, x) { StillRight(s, t, newName, c, x); }
      TightensRun(s, u, newName, rest);
      TightenedFirst(s, t, newName, c, rest, ExecAll(s.server, u, rest));
      assert calls == [c] + rest;
    }
  }

  lemma StillRight(s: Setup, t: Tenant, newName: string, c: Call, x: Call)
    requires forall other :: OldName(s, other) != Some(newName)
    requires RightTightening(s, t, newName, c) && RightTightening(s, t, newName, x)
    ensures RightTightening(s, Exec(s.server, t, c), newName, x)
  {
    hide Narrowed, OldName, GoalConnector;
    NarrowedIgnoresTightening(s, t, c.key, c.narrowed);
  }

  lemma TightenedFirst(s: Setup, t: Tenant, newName: string, c: Call, rest: seq<Call>, u: Tenant)
    requires forall other :: OldName(s, other) != Some(newName)
    requires RightTightening(s, t, newName, c) && Tightened(s, Exec(s.server, t, c), newName, rest, u)
    ensures Tightened(s, t, newName, [c] + rest, u)
  {
    hide Narrowed, OldName, GoalConnector;
    NarrowedIgnoresTightening(s, t, c.key, c.narrowed);
    assert Get(Exec(s.server, t, c).tightenings, c.key) == Some(c.narrowed);
    assert forall x :: x in [c] + rest ==> x == c || x in rest;
  }

  /** The copy's tenant after each part: created, discovered, patched. */
  function With(t: Tenant, name: string, c: Connector): Tenant {
    t.(connectors := t.connectors[name := c])
  }

  /** All these writes are of one connector. */
  predicate Owned(calls: seq<Call>, name: string) {
    forall c :: c in calls ==> OwnerOf(c) == OfConnector(name)
  }

  /** What a copy starts from. */
  function Begun(s: Setup, source: Connector, base: Option<Connector>): Connector {
    if base.Some? then base.value else Connector(source.body, s.server.declared(source.body))
  }

  lemma CopyCreates(s: Setup, t: Tenant, name: string, source: Connector)
    requires SourceOf(s, t.connectors, name) == Some(source)
    ensures var creation := Creation(source, name, name in t.connectors);
            && AllToward(s, t, creation) && Owned(creation, name)
            && ExecAll(s.server, t, creation) == With(t, name, Begun(s, source, Get(t.connectors, name)))
  {
    OneCall(s, t, CreateConnector(name, source.body));
    assert name in t.connectors ==> t.connectors == t.connectors[name := t.connectors[name]];
  }

  lemma CopyDiscovers(s: Setup, t: Tenant, name: string, source: Connector)
    requires SourceOf(s, t.connectors, name) == Some(source) && name in t.connectors
    ensures var discovery := Discovery(source, name, t);
            && AllToward(s, t, discovery) && Owned(discovery, name)
            && ExecAll(s.server, t, discovery) == With(t, name, Filled(s, source, Some(t.connectors[name])))
  {
    OneCall(s, t, Discover(name));
    assert t.connectors == t.connectors[name := t.connectors[name]];
  }

  lemma SourceStays(s: Setup, t: Tenant, name: string, c: Connector)
    requires OldName(s, name) != Some(name)
    ensures SourceOf(s, With(t, name, c).connectors, name) == SourceOf(s, t.connectors, name)
  {}

  lemma CopyFills(s: Setup, t: Tenant, name: string, source: Connector)
    requires SourceOf(s, t.connectors, name) == Some(source) && OldName(s, name) != Some(name)
    ensures var filling := Filling(s, t, source, name, name in t.connectors);
            && AllToward(s, t, filling) && Owned(filling, name)
            && ExecAll(s.server, t, filling) == With(t, name, Filled(s, source, Get(t.connectors, name)))
  {
    hide AllToward, ExecAll, Creation, Discovery, SourceOf, OldName, OwnerOf;
    var begun := Begun(s, source, Get(t.connectors, name));
    var created := With(t, name, begun);
    CopyCreates(s, t, name, source);
    SourceStays(s, t, name, begun);
    CopyDiscovers(s, created, name, source);
    TwoParts(s, t, Creation(source, name, name in t.connectors), Discovery(source, name, created));
    assert created.connectors[name := Filled(s, source, Some(begun))] ==
           t.connectors[name := Filled(s, source, Some(begun))];
  }

  lemma CopyPatches(s: Setup, t: Tenant, name: string, source: Connector)
    requires SourceOf(s, t.connectors, name) == Some(source) && OldName(s, name) != Some(name) && name in t.connectors
    requires OperationsAgree(s.mapping, source.operations, t.connectors[name].operations)
    requires DistinctNames(t.connectors[name].operations)
    ensures var c, patches := t.connectors[name], Patches(s.mapping, source, name, t);
            && AllToward(s, t, patches) && Owned(patches, name)
            && ExecAll(s.server, t, patches) ==
               With(t, name, c.(operations := MergeAll(s.mapping, source.operations, c.operations)))
  {
    hide OperationsAgree, DistinctNames, MergeAll, Differences, SourceOf, OldName, AllToward, ExecAll, Patched;
    var operations := t.connectors[name].operations;
    assert source.operations[..|source.operations|] == source.operations;
    DifferencesCarry(s.mapping, name, source.operations, |source.operations|, operations);
    DifferencesMerge(s.mapping, name, source.operations, operations);
    PatchesRun(s, t, name, source, Patches(s.mapping, source, name, t));
  }

  lemma PlannedTighteningsAreRight(s: Setup, t: Tenant, newName: string, tightenings: seq<Tightening>)
    requires FitsTightenings(s, t, newName, tightenings) && Copied(s, t, newName)
    ensures forall c :: c in TightenAll(newName, tightenings) ==> RightTightening(s, t, newName, c)
  {
    var calls := TightenAll(newName, tightenings);
    forall c | c in calls ensures RightTightening(s, t, newName, c) {
      var i :| 0 <= i < |calls| && calls[i] == c;
      assert tightenings[i] in tightenings;
    }
  }

  /** Once the planned tightenings are made, the copy's are what projects decided. */
  lemma PlannedTighteningsLand(s: Setup, t: Tenant, newName: string, tightenings: seq<Tightening>, u: Tenant,
                               k: OperationKey)
    requires FitsTightenings(s, t, newName, tightenings) && k.connector == newName
    requires Tightened(s, t, newName, TightenAll(newName, tightenings), u)
    ensures var narrowed := Narrowed(s, t.projects, t.connectors, t.tightenings, k);
            Get(u.tightenings, k) == if narrowed.Some? then narrowed else Get(t.tightenings, k)
  {
    var narrowed := Narrowed(s, t.projects, t.connectors, t.tightenings, k);
    if narrowed.Some? && Get(t.tightenings, k) != narrowed {
      var x := Tightening(k.project, k.operation, narrowed.value);
      var i :| 0 <= i < |tightenings| && tightenings[i] == x;
      assert TightenAll(newName, tightenings)[i] == Tighten(k, narrowed.value);
      assert Tighten(k, narrowed.value) in TightenAll(newName, tightenings);
    }
  }

  lemma CopyTwice(s: Setup, source: Connector, base: Option<Connector>)
    ensures CopyOf(s, source, Some(CopyOf(s, source, base))) == CopyOf(s, source, base)
  {
    var c := CopyOf(s, source, base);
    MergeKeepsNames(s.mapping, source.operations, Filled(s, source, base).operations);
    assert MergeAll(s.mapping, source.operations, c.operations) == c.operations;
  }

  lemma CopyCopies(s: Setup, t: Tenant, name: string, source: Connector)
    requires ValidSetup(s) && Sane(s, t) && SourceOf(s, t.connectors, name) == Some(source)
    ensures var calls := Copying(s, t, source, name, name in t.connectors);
            && AllToward(s, t, calls) && Owned(calls, name)
            && ExecAll(s.server, t, calls) == With(t, name, CopyOf(s, source, Get(t.connectors, name)))
  {
    OldNamesStay(s, name);
    assert AgreeingCopy(s, t, name);
    assert DistinctNames(Filled(s, source, Get(t.connectors, name)).operations);
    FilledCopies(s, t, name, source);
  }

  lemma FilledCopies(s: Setup, t: Tenant, name: string, source: Connector)
    requires forall other :: OldName(s, other) != Some(name)
    requires SourceOf(s, t.connectors, name) == Some(source)
    requires OperationsAgree(s.mapping, source.operations, Filled(s, source, Get(t.connectors, name)).operations)
    requires DistinctNames(Filled(s, source, Get(t.connectors, name)).operations)
    ensures var calls := Copying(s, t, source, name, name in t.connectors);
            && AllToward(s, t, calls) && Owned(calls, name)
            && ExecAll(s.server, t, calls) == With(t, name, CopyOf(s, source, Get(t.connectors, name)))
  {
    hide Filling, Patches, Filled, MergeAll, AllToward, ExecAll, OldName, OperationsAgree, DistinctNames;
    CopyFills(s, t, name, source);
    var filled := With(t, name, Filled(s, source, Get(t.connectors, name)));
    assert SourceOf(s, filled.connectors, name) == Some(source);
    CopyPatches(s, filled, name, source);
    TwoParts(s, t, Filling(s, t, source, name, name in t.connectors), Patches(s.mapping, source, name, filled));
  }

  lemma CopyRuns(s: Setup, t: Tenant, step: Step, v: Tenant)
    requires step.Copy? && (forall other :: OldName(s, other) != Some(step.newName))
    requires var calls := Copying(s, t, step.source, step.newName, step.found);
             AllToward(s, t, calls) && Owned(calls, step.newName) && ExecAll(s.server, t, calls) == v
    requires FitsTightenings(s, v, step.newName, step.tightenings) && Copied(s, v, step.newName)
    ensures AllToward(s, t, Calls(s, t, step)) && Owned(Calls(s, t, step), step.newName)
    ensures Tightened(s, v, step.newName, TightenAll(step.newName, step.tightenings),
                      ExecAll(s.server, t, Calls(s, t, step)))
  {
    var name, calls := step.newName, Copying(s, t, step.source, step.newName, step.found);
    PlannedTighteningsRun(s, v, name, step.tightenings);
    TwoParts(s, t, calls, TightenAll(name, step.tightenings));
    assert Calls(s, t, step) == calls + TightenAll(name, step.tightenings);
  }

  lemma StillFitting(s: Setup, t: Tenant, name: string, c: Connector, tightenings: seq<Tightening>)
    requires forall other :: OldName(s, other) != Some(name)
    requires FitsTightenings(s, t, name, tightenings)
    ensures FitsTightenings(s, With(t, name, c), name, tightenings)
  {
    NarrowedIgnoresCopies(s, t, name, c);
  }

  lemma PlannedTighteningsRun(s: Setup, v: Tenant, name: string, tightenings: seq<Tightening>)
    requires (forall other :: OldName(s, other) != Some(name)) && FitsTightenings(s, v, name, tightenings)
    requires Copied(s, v, name)
    ensures var calls := TightenAll(name, tightenings);
            AllToward(s, v, calls) && Owned(calls, name) && Tightened(s, v, name, calls, ExecAll(s.server, v, calls))
  {
    hide FitsTightenings, TightenAll, Tightened, AllToward, ExecAll, Narrowed, OldName, Copied;
    PlannedTighteningsAreRight(s, v, name, tightenings);
    TightensRun(s, v, name, TightenAll(name, tightenings));
    assert forall c :: c in TightenAll(name, tightenings) ==> RightTightening(s, v, name, c);
  }

  lemma CopySettles(s: Setup, t: Tenant, step: Step)
    requires ValidSetup(s) && Sane(s, t) && step.Copy? && Fits(s, t, step)
    ensures Settles(s, t, step)
  {
    var name, source := step.newName, step.source;
    OldNamesStay(s, name);
    CopyCopies(s, t, name, source);
    var v := With(t, name, CopyOf(s, source, Get(t.connectors, name)));
    StillFitting(s, t, name, v.connectors[name], step.tightenings);
    CopyIsCopied(s, t, name, source);
    CopyRuns(s, t, step, v);
    CopiedIsSettled(s, t, step.newName, step.source, step.tightenings, ExecAll(s.server, t, Calls(s, t, step)));
  }

  lemma CopyIsCopied(s: Setup, t: Tenant, name: string, source: Connector)
    requires SourceOf(s, t.connectors, name) == Some(source) && OldName(s, name) != Some(name)
    ensures Copied(s, With(t, name, CopyOf(s, source, Get(t.connectors, name))), name)
  {
    hide CopyOf, OldName;
    CopyTwice(s, source, Get(t.connectors, name));
    SourceStays(s, t, name, CopyOf(s, source, Get(t.connectors, name)));
  }

  lemma CopiedIsSettled(s: Setup, t: Tenant, name: string, source: Connector, tightenings: seq<Tightening>, u: Tenant)
    requires SourceOf(s, t.connectors, name) == Some(source) && forall other :: OldName(s, other) != Some(name)
    requires var v := With(t, name, CopyOf(s, source, Get(t.connectors, name)));
             FitsTightenings(s, v, name, tightenings) && Tightened(s, v, name, TightenAll(name, tightenings), u)
    ensures Settled(s, u, OfConnector(name))
  {
    var copy := CopyOf(s, source, Get(t.connectors, name));
    var v := With(t, name, copy);
    CopyTwice(s, source, Get(t.connectors, name));
    NarrowedIgnoresCopies(s, t, name, copy);
    forall k: OperationKey | k.connector == name
      ensures Get(u.tightenings, k) == GoalTightening(s, u.projects, u.connectors, u.tightenings, k)
    {
      PlannedTighteningsLand(s, v, name, tightenings, u, k);
      NarrowedReadsSources(s, v, u, name, k);
    }
  }

  /** `Narrowed` reads no tightening of a copy. */
  lemma NarrowedReadsSources(s: Setup, v: Tenant, u: Tenant, name: string, k: OperationKey)
    requires forall other :: OldName(s, other) != Some(name)
    requires u == v.(tightenings := u.tightenings)
    requires forall k: OperationKey :: Get(u.tightenings, k) != Get(v.tightenings, k) ==> k.connector == name
    ensures Narrowed(s, u.projects, u.connectors, u.tightenings, k) ==
              Narrowed(s, v.projects, v.connectors, v.tightenings, k)
  {
    hide OldName, Narrowed;
    NarrowedReads(s, v.projects, v.connectors, u.tightenings, v.tightenings, k);
  }

  lemma StepSettles(s: Setup, t: Tenant, step: Step)
    requires ValidSetup(s) && Sane(s, t) && Fits(s, t, step)
    ensures Settles(s, t, step)
  {
    if step.Copy? { CopySettles(s, t, step); } else { SingleSettles(s, t, step); }
  }

  // ------------------------------------------------------------------ a whole run

  predicate DistinctOwners(steps: seq<Step>) {
    forall i, j :: 0 <= i < j < |steps| ==> StepOwner(steps[i]) != StepOwner(steps[j])
  }

  /** Steps that fit, each with an owner of its own: the run goes towards the goal, settles every owner and keeps
      what was settled. */
  lemma {:induction false} StepsSettle(s: Setup, t: Tenant, steps: seq<Step>)
    requires ValidSetup(s) && Sane(s, t) && DistinctOwners(steps) && forall step :: step in steps ==> Fits(s, t, step)
    ensures AllToward(s, t, Trace(s, t, steps))
    ensures forall o :: Settled(s, t, o) || (exists step :: step in steps && StepOwner(step) == o) ==>
              Settled(s, ExecAll(s.server, t, Trace(s, t, steps)), o)
    decreases |steps|
  {
    if steps != [] {
      hide ValidSetup, Sane, Calls, Fits, Settled, AllToward, StepOwner;
      var step, rest := steps[0], steps[1..];
      var calls := Calls(s, t, step);
      var u := ExecAll(s.server, t, calls);
      assert step in steps;
      StepSettles(s, t, step);
      AllTowardKeepsGoal(s, t, calls);
      forall x | x in rest ensures Fits(s, u, x) {
        var i :| 0 <= i < |rest| && rest[i] == x;
        assert steps[i + 1] == x && x in steps && StepOwner(steps[0]) != StepOwner(steps[i + 1]);
        FitsStaysThrough(s, t, calls, x);
      }
      assert DistinctOwners(rest);
      StepsSettle(s, u, rest);
      AllTowardConcat(s, t, calls, Trace(s, u, rest));
      ExecConcat(s.server, t, calls, Trace(s, u, rest));
      forall o | Settled(s, t, o) || exists x :: x in steps && StepOwner(x) == o
        ensures Settled(s, ExecAll(s.server, t, Trace(s, t, steps)), o)
      {
        if StepOwner(step) == o {
        } else if Settled(s, t, o) {
          SettledStaysThrough(s, t, calls, o);
        } else {
          var x :| x in steps && StepOwner(x) == o;
          assert x in rest;
        }
      }
    }
  }
}
