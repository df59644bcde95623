// Which runs complete: the writes the API refuses, and what a run leaves of each copy whether or not operations agree.
module MigrationRefusals {
  import opened Wrappers
  import opened Tenants
  import opened MigrationPlans
  import opened MigrationGoals
  import opened MigrationRuns
  import opened MigrationCoverage

  // ------------------------------------------------------------------ whose resources the writes touch

  /** What is known of a planned step, and stays known while other steps run. */
  predicate Ready(s: Setup, t: Tenant, step: Step) {
    match step
    case Single(call) => !OwnerOf(call).OfConnector? && Accepted(s.server, t, call)
    case Relabel(_) => true
    case Copy(_, _, newName, found, tightenings) =>
      (found <==> newName in t.connectors) && forall x :: x in tightenings ==> Find(t.projects, x.project).Some?
  }

  lemma ReadyStays(s: Setup, t: Tenant, u: Tenant, step: Step)
    requires Ready(s, t, step) && u.projects == t.projects && Untouched(t, u, StepOwner(step))
    ensures Ready(s, u, step)
  {
    if step.Copy? {
      assert Get(t.connectors, step.newName) == Get(u.connectors, step.newName);
    } else if step.Single? {
      SameAnswer(s, t, u, step.call);
    }
  }

  lemma SameAnswer(s: Setup, t: Tenant, u: Tenant, c: Call)
    requires u.projects == t.projects && Untouched(t, u, OwnerOf(c)) && !OwnerOf(c).OfConnector?
    ensures Accepted(s.server, t, c) <==> Accepted(s.server, u, c)
  {
    match c
    case CreateSkill(name, _) => assert Get(t.skills, name) == Get(u.skills, name);
    case CreateAgent(slug, _) => assert Get(t.agents, slug) == Get(u.agents, slug);
    case PublishWorkflow(w, _) => assert Get(t.workflows, w) == Get(u.workflows, w);
    case PutRouting(project, _) => assert Get(t.routing, project) == Get(u.routing, project);
    case RenameProject(_, _) =>
    case Deprecate(slug) => assert Get(t.agents, slug) == Get(u.agents, slug);
  }

  lemma ExecKeepsProjects(s: Setup, t: Tenant, c: Call)
    ensures Exec(s.server, t, c).projects == t.projects
  {}

  lemma {:induction false} CallsTouchOwners(s: Setup, t: Tenant, calls: seq<Call>, o: Owner)
    requires forall c :: c in calls ==> OwnerOf(c) != o
    ensures Untouched(t, ExecAll(s.server, t, calls), o) && ExecAll(s.server, t, calls).projects == t.projects
    decreases |calls|
  {
    if calls != [] {
      var u := Exec(s.server, t, calls[0]);
      ExecTouchesOwner(s, t, calls[0], o);
      ExecKeepsProjects(s, t, calls[0]);
      hide Exec, OwnerOf, Untouched;
      CallsTouchOwners(s, u, calls[1..], o);
      UntouchedTransitive(t, u, ExecAll(s.server, t, calls), o);
    }
  }

  lemma UntouchedTransitive(t: Tenant, u: Tenant, v: Tenant, o: Owner)
    requires Untouched(t, u, o) && Untouched(u, v, o)
    ensures Untouched(t, v, o)
  {}

  /** A patch of this connector, of an operation it has. */
  predicate KnownPatch(newName: string, operations: seq<Operation>, c: Call) {
    c.PatchOperation? && c.name == newName && Has(operations, c.operation)
  }

  lemma {:induction false} DifferencesAreKnown(m: Mapping, newName: string, source: seq<Operation>,
                                               operations: seq<Operation>)
    ensures forall c :: c in Differences(m, newName, source, operations) ==> KnownPatch(newName, operations, c)
  {
    if source != [] { DifferencesAreKnown(m, newName, source[..|source| - 1], operations); }
  }

  lemma PatchesOwned(s: Setup, t: Tenant, source: Connector, name: string)
    ensures Owned(Patches(s.mapping, source, name, t), name)
  {
    if name in t.connectors {
      DifferencesAreKnown(s.mapping, name, source.operations, t.connectors[name].operations);
    }
  }

  /** A step writes to its owner's resources only. */
  lemma StepTouchesOwner(s: Setup, t: Tenant, step: Step, c: Call)
    requires Ready(s, t, step) && c in Calls(s, t, step)
    ensures OwnerOf(c) == StepOwner(step)
  {
    if step.Copy? {
      var filling := Filling(s, t, step.source, step.newName, step.found);
      PatchesOwned(s, ExecAll(s.server, t, filling), step.source, step.newName);
      hide ExecAll, Patches, Ready;
    }
  }

  // ------------------------------------------------------------------ one copy

  /** The copy's operations as `t` will have them: their names do not change any more. */
  function CopiedNames(s: Setup, t: Tenant, source: Connector, newName: string): seq<Operation> {
    Filled(s, source, Get(t.connectors, newName)).operations
  }

  /** With the policies and groups that the patches carry over. */
  function CopiedOperations(s: Setup, t: Tenant, source: Connector, newName: string): seq<Operation> {
    var operations := CopiedNames(s, t, source, newName);
    Patched(operations, Differences(s.mapping, newName, source.operations, operations))
  }

  /** Every listed tightening is one the copy takes. */
  predicate TightensLand(s: Setup, t: Tenant, step: Step) {
    step.Copy? ==>
      forall x :: x in step.tightenings ==>
        Takes(s.server, CopiedOperations(s, t, step.source, step.newName), x.operation, x.policy)
  }

  lemma TakenOne(s: Setup, t: Tenant, c: Call)
    ensures AllAccepted(s.server, t, [c]) <==> Accepted(s.server, t, c)
    ensures ExecAll(s.server, t, [c]) == Exec(s.server, t, c)
  {
    assert [c][1..] == [] && ExecAll(s.server, Exec(s.server, t, c), []) == Exec(s.server, t, c);
  }

  lemma CreationTaken(s: Setup, t: Tenant, source: Connector, name: string)
    ensures var creation := Creation(source, name, name in t.connectors);
            && AllAccepted(s.server, t, creation)
            && ExecAll(s.server, t, creation) == With(t, name, Begun(s, source, Get(t.connectors, name)))
  {
    TakenOne(s, t, CreateConnector(name, source.body));
    assert name in t.connectors ==> t.connectors == t.connectors[name := t.connectors[name]];
  }

  lemma DiscoveryTaken(s: Setup, t: Tenant, source: Connector, name: string)
    requires name in t.connectors
    ensures var discovery := Discovery(source, name, t);
            && AllAccepted(s.server, t, discovery)
            && ExecAll(s.server, t, discovery) == With(t, name, Filled(s, source, Some(t.connectors[name])))
  {
    TakenOne(s, t, Discover(name));
    assert t.connectors == t.connectors[name := t.connectors[name]];
  }

  lemma FillingTaken(s: Setup, t: Tenant, source: Connector, name: string)
    ensures var filling := Filling(s, t, source, name, name in t.connectors);
            && AllAccepted(s.server, t, filling)
            && ExecAll(s.server, t, filling) == With(t, name, Filled(s, source, Get(t.connectors, name)))
  {
    hide AllAccepted, ExecAll, Creation, Discovery;
    var begun := Begun(s, source, Get(t.connectors, name));
    var created := With(t, name, begun);
    CreationTaken(s, t, source, name);
    DiscoveryTaken(s, created, source, name);
    AcceptedConcat(s.server, t, Creation(source, name, name in t.connectors), Discovery(source, name, created));
    ExecConcat(s.server, t, Creation(source, name, name in t.connectors), Discovery(source, name, created));
    assert created.connectors[name := Filled(s, source, Some(begun))] ==
           t.connectors[name := Filled(s, source, Some(begun))];
  }

  lemma {:induction false} PatchesTaken(s: Setup, t: Tenant, name: string, calls: seq<Call>)
    requires name in t.connectors
    requires forall c :: c in calls ==> KnownPatch(name, t.connectors[name].operations, c)
    ensures var c := t.connectors[name];
            && AllAccepted(s.server, t, calls)
            && ExecAll(s.server, t, calls) == With(t, name, c.(operations := Patched(c.operations, calls)))
            && SameNames(c.operations, Patched(c.operations, calls))
    decreases |calls|
  {
    var before := t.connectors[name];
    if calls != [] {
      var c, u := calls[0], Exec(s.server, t, calls[0]);
      assert KnownPatch(name, before.operations, c);
      var patched := PatchAll(before.operations, c.operation, c.policy, c.groups);
      assert u == With(t, name, before.(operations := patched)) && SameNames(before.operations, patched);
      SameNamesHave(before.operations, patched);
      forall x | x in calls[1..] ensures KnownPatch(name, patched, x) {
        assert KnownPatch(name, before.operations, x);
      }
      hide PatchAll, Exec, Patched, Accepted;
      PatchesTaken(s, u, name, calls[1..]);
      PatchedFromFront(before.operations, c, calls[1..]);
      assert [c] + calls[1..] == calls;
      assert u.connectors[name := before.(operations := Patched(patched, calls[1..]))] ==
             t.connectors[name := before.(operations := Patched(patched, calls[1..]))];
      KnownPatchIsTaken(s, t, name, c);
    } else {
      assert t.connectors == t.connectors[name := t.connectors[name]];
    }
  }

  lemma KnownPatchIsTaken(s: Setup, t: Tenant, name: string, c: Call)
    requires name in t.connectors && KnownPatch(name, t.connectors[name].operations, c)
    ensures Accepted(s.server, t, c)
  {}

  lemma {:induction false} TightensTaken(s: Setup, t: Tenant, name: string, tightenings: seq<Tightening>)
    requires name in t.connectors && forall x :: x in tightenings ==> Find(t.projects, x.project).Some?
    ensures var calls := TightenAll(name, tightenings);
            && ExecAll(s.server, t, calls).connectors == t.connectors
            && (AllAccepted(s.server, t, calls) <==>
                forall x :: x in tightenings ==> Takes(s.server, t.connectors[name].operations, x.operation, x.policy))
    decreases |tightenings|
  {
    var calls := TightenAll(name, tightenings);
    if tightenings != [] {
      var u, rest := Exec(s.server, t, calls[0]), tightenings[1..];
      TightensTaken(s, u, name, rest);
      assert calls[1..] == TightenAll(name, rest);
      assert forall x :: x in tightenings <==> x == tightenings[0] || x in rest;
      hide Takes, Find;
    }
  }

  /** The writes of a copy are taken, but for tightenings that the copy does not take. */
  lemma CopyTaken(s: Setup, t: Tenant, step: Step)
    requires step.Copy? && Ready(s, t, step)
    ensures AllAccepted(s.server, t, Calls(s, t, step)) <==> TightensLand(s, t, step)
    ensures var u := ExecAll(s.server, t, Calls(s, t, step));
            && step.newName in u.connectors
            && u.connectors[step.newName].body == Filled(s, step.source, Get(t.connectors, step.newName)).body
            && u.connectors[step.newName].operations == CopiedOperations(s, t, step.source, step.newName)
            && SameNames(CopiedNames(s, t, step.source, step.newName), u.connectors[step.newName].operations)
  {
    hide AllAccepted, ExecAll, Filling, Differences, TightenAll, Filled, Patched, SameNames, Takes;
    var name, source := step.newName, step.source;
    var filling := Filling(s, t, source, name, step.found);
    FillingTaken(s, t, source, name);
    var filled := With(t, name, Filled(s, source, Get(t.connectors, name)));
    var patches := Patches(s.mapping, source, name, filled);
    DifferencesAreKnown(s.mapping, name, source.operations, filled.connectors[name].operations);
    PatchesTaken(s, filled, name, patches);
    AcceptedConcat(s.server, t, filling, patches);
    ExecConcat(s.server, t, filling, patches);
    TightensTaken(s, ExecAll(s.server, filled, patches), name, step.tightenings);
    AcceptedConcat(s.server, t, filling + patches, TightenAll(name, step.tightenings));
    ExecConcat(s.server, t, filling + patches, TightenAll(name, step.tightenings));
  }

  lemma StepTaken(s: Setup, t: Tenant, step: Step)
    requires Ready(s, t, step)
    ensures AllAccepted(s.server, t, Calls(s, t, step)) <==> TightensLand(s, t, step)
  {
    match step
    case Single(call) => TakenOne(s, t, call);
    case Relabel(project) =>
      if project in t.routing {
        TakenOne(s, t, PutRouting(project, RelabelRules(s.mapping.routingLabels, t.routing[project])));
      }
    case Copy(_, _, _, _, _) => CopyTaken(s, t, step);
  }

  // ------------------------------------------------------------------ a whole run

  /** After one step the others are as ready as before, and their tightenings land where they did. */
  lemma OthersStay(s: Setup, t: Tenant, step: Step, other: Step)
    requires Ready(s, t, step) && Ready(s, t, other) && StepOwner(step) != StepOwner(other)
    ensures var u := ExecAll(s.server, t, Calls(s, t, step));
            Ready(s, u, other) && (TightensLand(s, u, other) <==> TightensLand(s, t, other))
  {
    var u := ExecAll(s.server, t, Calls(s, t, step));
    StepLeaves(s, t, step, StepOwner(other));
    ReadyStays(s, t, u, other);
  }

  lemma StepLeaves(s: Setup, t: Tenant, step: Step, o: Owner)
    requires Ready(s, t, step) && StepOwner(step) != o
    ensures var u := ExecAll(s.server, t, Calls(s, t, step)); Untouched(t, u, o) && u.projects == t.projects
  {
    forall c | c in Calls(s, t, step) ensures OwnerOf(c) != o { StepTouchesOwner(s, t, step, c); }
    CallsTouchOwners(s, t, Calls(s, t, step), o);
  }

  /** A run of steps leaves alone what none of them owns. */
  lemma {:induction false} StepsLeave(s: Setup, t: Tenant, steps: seq<Step>, o: Owner)
    requires DistinctOwners(steps) && forall step :: step in steps ==> Ready(s, t, step) && StepOwner(step) != o
    ensures var u := ExecAll(s.server, t, Trace(s, t, steps)); Untouched(t, u, o) && u.projects == t.projects
    decreases |steps|
  {
    if steps != [] {
      var step, rest := steps[0], steps[1..];
      var u := ExecAll(s.server, t, Calls(s, t, step));
      assert step in steps;
      StepLeaves(s, t, step, o);
      hide Ready, Calls, TightensLand, StepOwner, Untouched;
      RestIsReady(s, t, steps);
      StepsLeave(s, u, rest, o);
      ExecConcat(s.server, t, Calls(s, t, step), Trace(s, u, rest));
      UntouchedTransitive(t, u, ExecAll(s.server, u, Trace(s, u, rest)), o);
    } else {
      UntouchedItself(t, o);
    }
  }

  lemma UntouchedItself(t: Tenant, o: Owner)
    ensures Untouched(t, t, o)
  {}

  /** After the first of these steps the others are as ready as before. */
  lemma RestIsReady(s: Setup, t: Tenant, steps: seq<Step>)
    requires steps != [] && DistinctOwners(steps) && forall step :: step in steps ==> Ready(s, t, step)
    ensures DistinctOwners(steps[1..])
    ensures forall step :: step in steps[1..] ==>
              && step in steps && StepOwner(step) != StepOwner(steps[0])
              && Ready(s, ExecAll(s.server, t, Calls(s, t, steps[0])), step)
  {
    var rest := steps[1..];
    assert steps[0] in steps;
    hide Ready, Calls, StepOwner, TightensLand;
    forall other | other in rest
      ensures other in steps && StepOwner(other) != StepOwner(steps[0])
      ensures Ready(s, ExecAll(s.server, t, Calls(s, t, steps[0])), other)
    {
      var i :| 0 <= i < |rest| && rest[i] == other;
      assert steps[i + 1] == other && StepOwner(steps[0]) != StepOwner(steps[i + 1]);
      OthersStay(s, t, steps[0], other);
    }
  }

  lemma {:induction false} StepsTaken(s: Setup, t: Tenant, steps: seq<Step>)
    requires DistinctOwners(steps) && forall step :: step in steps ==> Ready(s, t, step)
    ensures AllAccepted(s.server, t, Trace(s, t, steps)) <==> forall step :: step in steps ==> TightensLand(s, t, step)
    decreases |steps|
  {
    if steps != [] {
      var step, rest := steps[0], steps[1..];
      var u := ExecAll(s.server, t, Calls(s, t, step));
      StepTaken(s, t, step);
      hide Ready, TightensLand, Calls, AllAccepted, StepOwner;
      assert step in steps;
      forall other | other in rest
        ensures Ready(s, u, other) && (TightensLand(s, u, other) <==> TightensLand(s, t, other))
      {
        var i :| 0 <= i < |rest| && rest[i] == other;
        assert steps[i + 1] == other && StepOwner(steps[0]) != StepOwner(steps[i + 1]);
        assert other in steps;
        OthersStay(s, t, step, other);
      }
      assert DistinctOwners(rest);
      StepsTaken(s, u, rest);
      AcceptedConcat(s.server, t, Calls(s, t, step), Trace(s, u, rest));
      assert forall x :: x in steps <==> x == step || x in rest;
    }
  }

  /** What is planned is ready. */
  lemma PlanIsReady(s: Setup, t: Tenant, step: Step)
    requires ValidSetup(s) && WellFormed(t) && step in Plan(s, t)
    ensures Ready(s, t, step)
  {
    if step.Copy? {
      var i := PlannedCopy(s, t, step);
      CopyIsReady(s, t, i, step);
    } else {
      OtherStepFits(s, t, step);
      if step.Single? { TowardIsTaken(s, t, step.call); }
    }
  }

  lemma TowardIsTaken(s: Setup, t: Tenant, c: Call)
    requires Toward(s, t, c) && !OwnerOf(c).OfConnector?
    ensures Accepted(s.server, t, c)
  {}

  lemma CopyIsReady(s: Setup, t: Tenant, i: nat, step: Step)
    requires WellFormed(t) && i < |s.mapping.connectors| && step in PlanConnector(s, t, s.mapping.connectors[i])
    ensures step.Copy? && Ready(s, t, step)
  {
    hide Narrowings, Differences;
    var rename := s.mapping.connectors[i];
    forall x | x in step.tightenings ensures Find(t.projects, x.project).Some? {
      var p, j := PlannedIsDecided(s, t, rename.key, rename.value, x);
      FindAt(t.projects, p);
    }
  }

  // ------------------------------------------------------------------ exactly when a run completes

  /** Every decision of a project shows on the copy already, or is one the copy takes: the operation is there under its
      new name, and the policy carried over to it is no stricter. */
  ghost predicate NarrowedLands(s: Setup, t: Tenant, rename: Entry<string>) {
    rename.key in t.connectors ==>
      var source := t.connectors[rename.key];
      forall p, i :: 0 <= p < |t.projects| && 0 <= i < |source.operations|
                     && Decision(t.tightenings, t.projects[p].key, rename.key, source.operations[i]).Some? ==>
        DecisionShows(s, t, rename, p, i) || DecisionTaken(s, t, rename, p, i)
  }

  predicate DecisionShows(s: Setup, t: Tenant, rename: Entry<string>, p: nat, i: nat)
    requires rename.key in t.connectors && p < |t.projects| && i < |t.connectors[rename.key].operations|
  {
    var operation := t.connectors[rename.key].operations[i];
    ProjectPolicy(t, OperationKey(t.projects[p].key, rename.value, Renamed(s.mapping, operation.name))) ==
    Decision(t.tightenings, t.projects[p].key, rename.key, operation)
  }

  predicate DecisionTaken(s: Setup, t: Tenant, rename: Entry<string>, p: nat, i: nat)
    requires rename.key in t.connectors && p < |t.projects| && i < |t.connectors[rename.key].operations|
    requires Decision(t.tightenings, t.projects[p].key, rename.key, t.connectors[rename.key].operations[i]).Some?
  {
    var source := t.connectors[rename.key];
    Takes(s.server, CopiedOperations(s, t, source, rename.value), Renamed(s.mapping, source.operations[i].name),
          Decision(t.tightenings, t.projects[p].key, rename.key, source.operations[i]).value)
  }

  ghost predicate NarrowedLand(s: Setup, t: Tenant) {
    forall i :: 0 <= i < |s.mapping.connectors| ==> NarrowedLands(s, t, s.mapping.connectors[i])
  }

  /** A run completes exactly when the copies take every decision they do not show yet: the tightening of an operation
      the copy does not have, or for which the organisation has become stricter, is refused, and the run stops there. */
  lemma CompletesExactlyWhen(s: Setup, t: Tenant)
    requires ValidSetup(s) && WellFormed(t)
    ensures Completes(s, t) <==> NarrowedLand(s, t)
  {
    var steps, m := Plan(s, t), s.mapping.connectors;
    PlanDistinct(s, t);
    forall step | step in steps ensures Ready(s, t, step) { PlanIsReady(s, t, step); }
    StepsTaken(s, t, steps);
    hide Plan, PlanConnector, TightensLand, NarrowedLands, ValidSetup, WellFormed, Ready;
    forall i | 0 <= i < |m|
      ensures (forall step :: step in PlanConnector(s, t, m[i]) ==> TightensLand(s, t, step)) <==>
        NarrowedLands(s, t, m[i])
    {
      CopyLands(s, t, m[i]);
    }
    if Completes(s, t) {
      forall i | 0 <= i < |m| ensures NarrowedLands(s, t, m[i]) {
        forall step | step in PlanConnector(s, t, m[i])
          ensures TightensLand(s, t, step)
        {
          CopyIsPlanned(s, t, i, step);
        }
      }
    }
    if NarrowedLand(s, t) {
      forall step | step in steps ensures TightensLand(s, t, step) { PlannedLands(s, t, step); }
    }
  }

  lemma CopyIsPlanned(s: Setup, t: Tenant, i: nat, step: Step)
    requires i < |s.mapping.connectors| && step in PlanConnector(s, t, s.mapping.connectors[i])
    ensures step in Plan(s, t)
  {
    InPlan(s, t, step);
  }

  lemma PlannedLands(s: Setup, t: Tenant, step: Step)
    requires NarrowedLand(s, t) && step in Plan(s, t)
    ensures TightensLand(s, t, step)
  {
    if step.Copy? {
      var i := PlannedCopy(s, t, step);
      CopyLands(s, t, s.mapping.connectors[i]);
    }
  }

  lemma CopyLands(s: Setup, t: Tenant, rename: Entry<string>)
    ensures (forall step :: step in PlanConnector(s, t, rename) ==> TightensLand(s, t, step)) <==>
      NarrowedLands(s, t, rename)
  {
    if rename.key in t.connectors {
      if NarrowedLands(s, t, rename) { PlannedCopyLands(s, t, rename); }
      if forall step :: step in PlanConnector(s, t, rename) ==> TightensLand(s, t, step) {
        DecisionsLand(s, t, rename);
      }
    }
  }

  lemma PlannedCopyLands(s: Setup, t: Tenant, rename: Entry<string>)
    requires rename.key in t.connectors && NarrowedLands(s, t, rename)
    ensures forall step :: step in PlanConnector(s, t, rename) ==> TightensLand(s, t, step)
  {
    hide Narrowings, Differences, Filled, Takes, Patched, ProjectPolicy;
    forall step, x | step in PlanConnector(s, t, rename) && x in step.tightenings
      ensures Takes(s.server, CopiedOperations(s, t, step.source, step.newName), x.operation, x.policy)
    {
      var p, i := PlannedIsDecided(s, t, rename.key, rename.value, x);
      ListedIsMissing(s, t, rename, x);
      assert !DecisionShows(s, t, rename, p, i);
      assert DecisionTaken(s, t, rename, p, i);
    }
  }

  /** What is listed does not show on the copy. */
  lemma ListedIsMissing(s: Setup, u: Tenant, rename: Entry<string>, x: Tightening)
    requires rename.key in u.connectors && x in Narrowings(s, u, u.projects, rename.key, rename.value)
    ensures ProjectPolicy(u, TightenKey(rename.value, x)) != Some(x.policy)
  {
    hide Narrowings, NarrowingsOf, Renamed;
    var operations := u.connectors[rename.key].operations;
    InNarrowings(s, u, u.projects, rename.key, rename.value, x);
    var p :| 0 <= p < |u.projects| && x in NarrowingsOf(s, u, u.projects[p].key, rename.key, rename.value, operations);
    InNarrowingsOf(s, u, u.projects[p].key, rename.key, rename.value, operations, x);
    var i :| 0 <= i < |operations| && x in Narrowing(s, u, u.projects[p].key, rename.key, rename.value, operations[i]);
  }

  lemma DecisionsLand(s: Setup, t: Tenant, rename: Entry<string>)
    requires rename.key in t.connectors
    requires forall step :: step in PlanConnector(s, t, rename) ==> TightensLand(s, t, step)
    ensures NarrowedLands(s, t, rename)
  {
    hide TightensLand, PlanConnector, DecisionShows, DecisionTaken, Decision;
    var source := t.connectors[rename.key];
    forall p, i | 0 <= p < |t.projects| && 0 <= i < |source.operations|
                  && Decision(t.tightenings, t.projects[p].key, rename.key, source.operations[i]).Some?
      ensures DecisionShows(s, t, rename, p, i) || DecisionTaken(s, t, rename, p, i)
    {
      DecisionLands(s, t, rename, p, i);
    }
  }

  lemma DecisionLands(s: Setup, t: Tenant, rename: Entry<string>, p: nat, i: nat)
    requires rename.key in t.connectors && p < |t.projects| && i < |t.connectors[rename.key].operations|
    requires Decision(t.tightenings, t.projects[p].key, rename.key, t.connectors[rename.key].operations[i]).Some?
    requires forall step :: step in PlanConnector(s, t, rename) ==> TightensLand(s, t, step)
    ensures DecisionShows(s, t, rename, p, i) || DecisionTaken(s, t, rename, p, i)
  {
    hide Narrowings, Differences, Renamed, Decision, ProjectPolicy, Takes, CopiedOperations;
    DecisionIsPlanned(s, t, rename.key, rename.value, p, i);
    if !DecisionShows(s, t, rename, p, i) {
      var steps := PlanConnector(s, t, rename);
      assert steps[0] in steps;
    }
  }

  // ------------------------------------------------------------------ what a run leaves of a copy

  /** Whatever else a run does, it leaves the source of a copy alone and gives the copy the operations it was to
      have. */
  lemma {:induction false} StepsCopy(s: Setup, t: Tenant, steps: seq<Step>, rename: Entry<string>, source: Connector)
    requires DistinctOwners(steps) && (forall step :: step in steps ==> Ready(s, t, step))
    requires forall step :: step in steps ==> StepOwner(step) != OfConnector(rename.key)
    requires forall step :: step in steps && StepOwner(step) == OfConnector(rename.value) ==>
               step.Copy? && step.source == source
    ensures var u := ExecAll(s.server, t, Trace(s, t, steps));
            && Untouched(t, u, OfConnector(rename.key)) && u.projects == t.projects
            && SameNames(CopiedNames(s, t, source, rename.value), CopiedNames(s, u, source, rename.value))
    decreases |steps|
  {
    if steps != [] {
      var step, rest := steps[0], steps[1..];
      var u := ExecAll(s.server, t, Calls(s, t, step));
      var v := ExecAll(s.server, u, Trace(s, u, rest));
      assert step in steps;
      StepLeaves(s, t, step, OfConnector(rename.key));
      StepCopies(s, t, step, rename, source);
      hide Ready, Calls, CopiedNames, TightensLand, StepOwner, Untouched;
      forall other | other in rest ensures Ready(s, u, other) && other in steps {
        var i :| 0 <= i < |rest| && rest[i] == other;
        assert steps[i + 1] == other && StepOwner(steps[0]) != StepOwner(steps[i + 1]);
        OthersStay(s, t, step, other);
      }
      assert DistinctOwners(rest);
      StepsCopy(s, u, rest, rename, source);
      ExecConcat(s.server, t, Calls(s, t, step), Trace(s, u, rest));
      UntouchedTransitive(t, u, v, OfConnector(rename.key));
    } else {
      hide Filled;
    }
  }

  /** A copy that has its operations needs no filling; one for which none are listed is not filled twice either. */
  lemma FilledTwice(s: Setup, t: Tenant, u: Tenant, source: Connector, name: string)
    requires name in u.connectors
    requires u.connectors[name].body == Filled(s, source, Get(t.connectors, name)).body
    requires SameNames(CopiedNames(s, t, source, name), u.connectors[name].operations)
    ensures SameNames(CopiedNames(s, t, source, name), CopiedNames(s, u, source, name))
  {}

  lemma StepCopies(s: Setup, t: Tenant, step: Step, rename: Entry<string>, source: Connector)
    requires Ready(s, t, step)
    requires StepOwner(step) == OfConnector(rename.value) ==> step.Copy? && step.source == source
    ensures var u := ExecAll(s.server, t, Calls(s, t, step));
            SameNames(CopiedNames(s, t, source, rename.value), CopiedNames(s, u, source, rename.value))
  {
    if StepOwner(step) == OfConnector(rename.value) {
      CopyTaken(s, t, step);
      FilledTwice(s, t, ExecAll(s.server, t, Calls(s, t, step)), source, rename.value);
    } else {
      StepLeaves(s, t, step, OfConnector(rename.value));
    }
  }
}
