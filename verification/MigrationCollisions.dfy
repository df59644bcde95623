// Exactly when interrupted runs resume: when the operations of a connector that become one on its copy agree.
module MigrationCollisions {
  import opened Wrappers
  import opened Tenants
  import opened MigrationPlans
  import opened MigrationGoals
  import opened MigrationRuns
  import opened MigrationCoverage
  import opened MigrationRefusals
  import opened MigrationVersions
  import opened Migrations

  // ------------------------------------------------------------------ patching changes something

  /** The last patch differs from what it was computed on, so patching never leaves the operations as they were. */
  lemma {:induction false} PatchedDiffers(m: Mapping, newName: string, source: seq<Operation>, copied: seq<Operation>)
    requires Differences(m, newName, source, copied) != []
    ensures Patched(copied, Differences(m, newName, source, copied)) != copied
  {
    var front, x := source[..|source| - 1], source[|source| - 1];
    var before, difference := Differences(m, newName, front, copied), Difference(m, newName, x, copied);
    if difference == [] {
      assert before + difference == before;
      PatchedDiffers(m, newName, front, copied);
    } else {
      hide Patched, Differences;
      PatchedSnoc(copied, before, difference);
      PatchedKeepsNames(copied, before);
      LastPatchDiffers(m, newName, x, copied, Patched(copied, before));
    }
  }

  lemma LastPatchDiffers(m: Mapping, newName: string, x: Operation, copied: seq<Operation>, before: seq<Operation>)
    requires Difference(m, newName, x, copied) != [] && SameNames(copied, before)
    ensures var c := Difference(m, newName, x, copied)[0]; PatchAll(before, c.operation, c.policy, c.groups) != copied
  {
    var target := Known(copied, Renamed(m, x.name)).value;
    var j :| 0 <= j < |copied| && copied[j] == target;
    var c := Difference(m, newName, x, copied)[0];
    assert PatchAll(before, c.operation, c.policy, c.groups)[j] == PatchOne(before[j], c.operation, c.policy, c.groups);
  }

  lemma {:induction false} LastTightening(s: Setup, t: Tenant, name: string, tightenings: seq<Tightening>)
    requires tightenings != []
    ensures var last := tightenings[|tightenings| - 1];
            Get(ExecAll(s.server, t, TightenAll(name, tightenings)).tightenings, TightenKey(name, last)) ==
            Some(last.policy)
    decreases |tightenings|
  {
    var calls := TightenAll(name, tightenings);
    assert calls[1..] == TightenAll(name, tightenings[1..]);
    if |tightenings| == 1 {
      assert calls == [calls[0]];
      TakenOne(s, t, calls[0]);
    } else {
      LastTightening(s, Exec(s.server, t, calls[0]), name, tightenings[1..]);
    }
  }

  /** What a run leaves of a copy it has a step for: the operations patched, and at least the last decision made. */
  ghost predicate Ends(s: Setup, t: Tenant, step: Step, u: Tenant)
    requires step.Copy?
  {
    && step.newName in u.connectors
    && u.connectors[step.newName].operations == CopiedOperations(s, t, step.source, step.newName)
    && (step.tightenings != [] ==>
          var last := step.tightenings[|step.tightenings| - 1];
          Get(u.tightenings, TightenKey(step.newName, last)) == Some(last.policy))
  }

  lemma CopyEnds(s: Setup, t: Tenant, step: Step)
    requires step.Copy? && Ready(s, t, step)
    ensures Ends(s, t, step, ExecAll(s.server, t, Calls(s, t, step)))
  {
    hide ExecAll, Copying, CopiedOperations, TightenAll, TightensLand, AllAccepted, SameNames, Filled, Ready;
    CopyTaken(s, t, step);
    var copying := Copying(s, t, step.source, step.newName, step.found);
    ExecConcat(s.server, t, copying, TightenAll(step.newName, step.tightenings));
    if step.tightenings != [] {
      LastTightening(s, ExecAll(s.server, t, copying), step.newName, step.tightenings);
    }
  }

  lemma EndsReads(s: Setup, t: Tenant, u: Tenant, step: Step, v: Tenant, w: Tenant)
    requires step.Copy? && Ends(s, t, step, v)
    requires Untouched(t, u, StepOwner(step)) && Untouched(v, w, StepOwner(step))
    ensures Ends(s, u, step, w)
  {
    hide Patched, Differences, Filled;
    assert Get(v.connectors, step.newName) == Get(w.connectors, step.newName);
  }

  lemma {:induction false} StepsEnd(s: Setup, t: Tenant, steps: seq<Step>, copy: Step)
    requires DistinctOwners(steps) && forall step :: step in steps ==> Ready(s, t, step)
    requires copy in steps && copy.Copy?
    ensures Ends(s, t, copy, ExecAll(s.server, t, Trace(s, t, steps)))
    decreases |steps|
  {
    var step, rest := steps[0], steps[1..];
    var u := ExecAll(s.server, t, Calls(s, t, step));
    var v := ExecAll(s.server, u, Trace(s, u, rest));
    assert step in steps;
    hide Ready, Calls, Ends, Untouched;
    RestIsReady(s, t, steps);
    ExecConcat(s.server, t, Calls(s, t, step), Trace(s, u, rest));
    if step == copy {
      CopyEnds(s, t, copy);
      StepsLeave(s, u, rest, StepOwner(copy));
      UntouchedItself(t, StepOwner(copy));
      EndsReads(s, t, t, copy, u, v);
    } else {
      assert copy in rest;
      StepLeaves(s, t, step, StepOwner(copy));
      StepsEnd(s, u, rest, copy);
      UntouchedSymmetric(t, u, StepOwner(copy));
      UntouchedItself(v, StepOwner(copy));
      EndsReads(s, u, t, copy, v, v);
    }
  }

  lemma UntouchedSymmetric(t: Tenant, u: Tenant, o: Owner)
    requires Untouched(t, u, o)
    ensures Untouched(u, t, o)
  {}

  /** A run ends each copy it plans. */
  lemma RunEnds(s: Setup, u: Tenant, i: nat)
    requires ValidSetup(s) && WellFormed(u) && i < |s.mapping.connectors|
    requires PlanConnector(s, u, s.mapping.connectors[i]) != []
    ensures var step := PlanConnector(s, u, s.mapping.connectors[i])[0]; step.Copy? && Ends(s, u, step, Completed(s, u))
  {
    hide ValidSetup, WellFormed, PlanConnector, Plan, Ready, Ends;
    var rename := s.mapping.connectors[i];
    var step := PlanConnector(s, u, rename)[0];
    assert step in PlanConnector(s, u, rename);
    CopyIsPlanned(s, u, i, step);
    CopyIsReady(s, u, i, step);
    PlanDistinct(s, u);
    forall x | x in Plan(s, u) ensures Ready(s, u, x) { PlanIsReady(s, u, x); }
    StepsEnd(s, u, Plan(s, u), step);
  }

  // ------------------------------------------------------------------ a copy that never settles

  /** When operations that became one ask different things of the copy, a run changes it. */
  lemma DisagreeingOperationsChange(s: Setup, u: Tenant, i: nat)
    requires ValidSetup(s) && WellFormed(u) && i < |s.mapping.connectors| && s.mapping.connectors[i].key in u.connectors
    requires var rename := s.mapping.connectors[i]; var source := u.connectors[rename.key];
             !OperationsAgree(s.mapping, source.operations, CopiedNames(s, u, source, rename.value))
    ensures Completed(s, u) != u
  {
    var rename := s.mapping.connectors[i];
    var source := u.connectors[rename.key];
    var copied := CopiedNames(s, u, source, rename.value);
    CollidingOperationsNeverSettle(s.mapping, rename.value, source.operations, copied);
    PatchedDiffers(s.mapping, rename.value, source.operations, copied);
    PatchedKeepsNames(copied, Differences(s.mapping, rename.value, source.operations, copied));
    assert copied != [] by { if copied == [] { NothingToDisagree(s.mapping, source.operations, copied); } }
    hide ValidSetup, WellFormed, OperationsAgree, Narrowings, Differences, Patched, Completed;
    assert PlanConnector(s, u, rename) != [];
    RunEnds(s, u, i);
  }

  lemma NothingToDisagree(m: Mapping, source: seq<Operation>, copied: seq<Operation>)
    requires copied == []
    ensures OperationsAgree(m, source, copied)
  {}

  /** When a project decided differently on them, a run changes what is narrowed on the copy. */
  lemma DisagreeingDecisionsChange(s: Setup, u: Tenant, i: nat)
    requires ValidSetup(s) && WellFormed(u) && i < |s.mapping.connectors| && s.mapping.connectors[i].key in u.connectors
    requires NarrowedThere(s, u, s.mapping.connectors[i])
    requires var rename := s.mapping.connectors[i];
             !DecisionsAgree(s.mapping, u.projects, u.tightenings, rename.key, u.connectors[rename.key].operations)
    ensures Completed(s, u) != u
  {
    var rename := s.mapping.connectors[i];
    var source := u.connectors[rename.key];
    var listed := Narrowings(s, u, u.projects, rename.key, rename.value);
    CollidingDecisionsNeverSettle(s, u, rename.key, rename.value);
    var last := listed[|listed| - 1];
    ListedIsMissing(s, u, rename, last);
    var p, j := PlannedIsDecided(s, u, rename.key, rename.value, last);
    assert Has(CopiedNames(s, u, source, rename.value), last.operation);
    hide ValidSetup, WellFormed, DecisionsAgree, Narrowings, Differences, Completed, ProjectPolicy, NarrowedThere;
    assert PlanConnector(s, u, rename) != [];
    RunEnds(s, u, i);
    if Completed(s, u) == u { MadeShows(s, u, source, TightenKey(rename.value, last), last.policy); }
  }

  lemma MadeShows(s: Setup, u: Tenant, source: Connector, k: OperationKey, policy: string)
    requires k.connector in u.connectors
    requires u.connectors[k.connector].operations == CopiedOperations(s, u, source, k.connector)
    requires Has(CopiedNames(s, u, source, k.connector), k.operation) && Get(u.tightenings, k) == Some(policy)
    ensures ProjectPolicy(u, k) == Some(policy)
  {
    var copied := CopiedNames(s, u, source, k.connector);
    PatchedKeepsNames(copied, Differences(s.mapping, k.connector, source.operations, copied));
    SameNamesHave(copied, u.connectors[k.connector].operations);
    KnownIsHad(u.connectors[k.connector].operations, k.operation);
  }

  /** A decision that was there when the first run completed is there for the next. */
  lemma StillThere(s: Setup, t: Tenant, u: Tenant, rename: Entry<string>, source: Connector)
    requires NarrowedThere(s, t, rename) && Get(t.connectors, rename.key) == Some(source)
    requires Untouched(t, u, OfConnector(rename.key)) && u.projects == t.projects
    requires SameNames(CopiedNames(s, t, source, rename.value), CopiedNames(s, u, source, rename.value))
    ensures NarrowedThere(s, u, rename)
  {
    hide CopiedNames;
    assert Get(u.connectors, rename.key) == Some(source);
    SameNamesHave(CopiedNames(s, t, source, rename.value), CopiedNames(s, u, source, rename.value));
    assert forall project, x :: Decision(u.tightenings, project, rename.key, x) ==
                                Decision(t.tightenings, project, rename.key, x);
  }

  /** When operations that become one disagree, a second run to the end does not leave what the first left. */
  lemma DisagreeingRunsChange(s: Setup, t: Tenant)
    requires ValidSetup(s) && WellFormed(t) && Completes(s, t) && !Agreeing(s, t)
    ensures Completed(s, Completed(s, t)) != Completed(s, t)
  {
    var name :| SourceOf(s, t.connectors, name).Some? && !AgreeingCopy(s, t, name);
    var m, u := s.mapping.connectors, Completed(s, t);
    var i :| 0 <= i < |m| && Flip(m)[i] == Entry(name, OldName(s, name).value);
    assert m[i].key == OldName(s, name).value && m[i].value == name;
    hide Completed, Completes, ValidSetup, WellFormed, OperationsAgree, DecisionsAgree, Flip;
    DisagreeingCopyChanges(s, t, i);
  }

  lemma DisagreeingCopyChanges(s: Setup, t: Tenant, i: nat)
    requires ValidSetup(s) && WellFormed(t) && Completes(s, t)
    requires i < |s.mapping.connectors| && s.mapping.connectors[i].key in t.connectors
    requires var rename := s.mapping.connectors[i]; var source := t.connectors[rename.key];
             !(OperationsAgree(s.mapping, source.operations, CopiedNames(s, t, source, rename.value))
               && DecisionsAgree(s.mapping, t.projects, t.tightenings, rename.key, source.operations))
    ensures Completed(s, Completed(s, t)) != Completed(s, t)
  {
    hide ValidSetup, WellFormed, OperationsAgree, DecisionsAgree, NarrowedLands, NarrowedThere, CopiedNames;
    hide Plan, ExecAll;
    var rename, u := s.mapping.connectors[i], Completed(s, t);
    var source := t.connectors[rename.key];
    RunCopies(s, t, i);
    CallsKeepWellFormed(s, t, Trace(s, t, Plan(s, t)));
    assert Get(u.connectors, rename.key) == Some(source);
    if !OperationsAgree(s.mapping, source.operations, CopiedNames(s, t, source, rename.value)) {
      NamesDisagree(s.mapping, source.operations, CopiedNames(s, u, source, rename.value),
                    CopiedNames(s, t, source, rename.value));
      DisagreeingOperationsChange(s, u, i);
    } else {
      CompletesExactlyWhen(s, t);
      LandedIsThere(s, t, rename);
      StillThere(s, t, u, rename, source);
      if DecisionsAgree(s.mapping, u.projects, u.tightenings, rename.key, source.operations) {
        SameDecisionsAgree(s.mapping, t, u, rename.key, source.operations);
      }
      DisagreeingDecisionsChange(s, u, i);
    }
  }

  lemma NamesDisagree(m: Mapping, source: seq<Operation>, a: seq<Operation>, b: seq<Operation>)
    requires SameNames(b, a) && !OperationsAgree(m, source, b)
    ensures !OperationsAgree(m, source, a)
  {
    SameNamesHave(b, a);
  }

  // ------------------------------------------------------------------ exactly when runs resume

  /** A run that reached the end of the first attempt, and then another. */
  lemma OneAttempt(s: Setup, t: Tenant)
    requires Completes(s, t)
    ensures Attempts(s, t, [|Trace(s, t, Plan(s, t))|]) == Completed(s, t)
  {
    var k := |Trace(s, t, Plan(s, t))|;
    CompletedRun(s, t, k);
    assert [k][1..] == [];
    hide Interrupted, Completed, Trace, Plan;
    assert Attempts(s, Interrupted(s, t, k), []) == Interrupted(s, t, k);
  }

  /** A re-run resumes. When operations that become one agree: after any number of runs, each stopped anywhere, a run
      completes exactly if the first would have completed on a lasting connection, and then leaves exactly the tenant of
      the uninterrupted run. And among tenants whose first run completes, that is so only when they agree. */
  lemma RerunResumes(s: Setup, t: Tenant)
    requires ValidSetup(s) && WellFormed(t) && NoOrphans(t)
    ensures Agreeing(s, t) ==>
              forall stops :: (Completes(s, Attempts(s, t, stops)) <==> Completes(s, t))
                              && Completed(s, Attempts(s, t, stops)) == Completed(s, t)
    ensures Completes(s, t) ==>
              ((forall stops :: Completed(s, Attempts(s, t, stops)) == Completed(s, t)) <==> Agreeing(s, t))
  {
    hide Completes, Completed, ValidSetup, WellFormed, NoOrphans, Agreeing, Plan, Trace;
    if Agreeing(s, t) {
      assert Sane(s, t);
      forall stops
        ensures (Completes(s, Attempts(s, t, stops)) <==> Completes(s, t))
        ensures Completed(s, Attempts(s, t, stops)) == Completed(s, t)
      {
        AgreeingRunsResume(s, t, stops);
      }
    } else if Completes(s, t) {
      OneAttempt(s, t);
      DisagreeingRunsChange(s, t);
      assert Completed(s, Attempts(s, t, [|Trace(s, t, Plan(s, t))|])) != Completed(s, t);
    }
  }

  // ------------------------------------------------------------------ one tenant whose runs never settle

  const BODY := Body("rest", "tickets", "", "")
  const ALLOWED := Operation("list", Some("allowed"), None)
  const FORBIDDEN := Operation("lister", Some("forbidden"), None)

  /** `lister` is renamed to `list`, which the connector has too. */
  function Colliding(): Setup {
    Setup(Mapping([Entry("outils", "tools")], map["lister" := "list"], [], map[], "", map[], map[], map[]),
          Template([], []), Server(_ => [], _ => [], _ => 0), false)
  }

  function CollidingTenant(): Tenant {
    Tenant([], {}, map[], map[],
           map["outils" := Connector(BODY, [ALLOWED, FORBIDDEN]), "tools" := Connector(BODY, [ALLOWED])],
           map[], map[], map[], map[])
  }

  lemma CollidingIsValid()
    ensures ValidSetup(Colliding()) && WellFormed(CollidingTenant()) && NoOrphans(CollidingTenant())
  {
    assert ALLOWED.name != FORBIDDEN.name by { assert |ALLOWED.name| != |FORBIDDEN.name|; }
    assert "outils" != "tools" by { assert |"outils"| != |"tools"|; }
  }

  lemma CollidingDisagrees()
    ensures !Agreeing(Colliding(), CollidingTenant()) && NarrowedLand(Colliding(), CollidingTenant())
  {
    var s, t := Colliding(), CollidingTenant();
    var m := s.mapping;
    assert |"outils"| == 6 && |"tools"| == 5 && |"list"| == 4 && |"lister"| == 6;
    assert Flip(m.connectors) == [Entry("tools", "outils")];
    assert OldName(s, "tools") == Some("outils");
    var source := t.connectors["outils"];
    assert SourceOf(s, t.connectors, "tools") == Some(source);
    assert Renamed(m, source.operations[0].name) == "list" == Renamed(m, source.operations[1].name);
    assert t.connectors["tools"].operations == [ALLOWED];
    assert source.body.ty != MCP by { assert |"rest"| != |MCP|; }
    var filled := Filled(s, source, Get(t.connectors, "tools"));
    assert filled.operations[0] == ALLOWED && Has(filled.operations, "list");
    assert "allowed" != "forbidden" by { assert |"allowed"| != |"forbidden"|; }
    assert !Compatible(source.operations[0].policy, source.operations[1].policy);
    assert !AgreeingCopy(s, t, "tools");
  }

  /** Its first run completes, and a second one leaves something else. */
  lemma CollidingTenantNeverSettles()
    ensures var s, t := Colliding(), CollidingTenant();
            Completes(s, t) && Completed(s, Completed(s, t)) != Completed(s, t)
  {
    hide Colliding, CollidingTenant, ValidSetup, WellFormed, NoOrphans, Agreeing, NarrowedLand, Completes, Completed;
    CollidingIsValid();
    CollidingDisagrees();
    CompletesExactlyWhen(Colliding(), CollidingTenant());
    DisagreeingRunsChange(Colliding(), CollidingTenant());
  }
}
