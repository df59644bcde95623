// The ratchet: a directory of baseline files that only goes down. `load_baselines`, `write_baselines` and `_ratchet`
// in tools/check_english.py.
module Ratchets {
  import opened Wrappers
  import opened Lines
  import opened Areas
  import opened Baselines

  /** The text of each `<area>.tsv`, by area. */
  type Files = map<string, string>

  type Loaded = map<string, map<string, int>>

  predicate Readable(files: Files) {
    forall area :: area in files ==> Parsed(files[area]).Some?
  }

  /** `load_baselines`: one unreadable count anywhere fails the whole load. */
  function Load(files: Files): Option<Loaded> {
    if !Readable(files) then None else Some(map area | area in files :: Parsed(files[area]).value)
  }

  /** The baselines of an area, none when it has no file. */
  function BaselinesOf(loaded: Loaded, area: string): map<string, int> {
    if area in loaded then loaded[area] else map[]
  }

  /** No area of `areas` has a count above the one on file. */
  predicate NothingRises(table: seq<Area>, loaded: Loaded, counts: map<string, nat>, areas: seq<string>) {
    forall i :: 0 <= i < |areas| ==> Compare(Part(table, counts, areas[i]), BaselinesOf(loaded, areas[i])).0 == []
  }

  /** Areas have one-line names and cover every path. */
  predicate ValidTable(table: seq<Area>) {
    CoversAll(table) && forall i :: 0 <= i < |table| ==> Unbroken(table[i].name)
  }

  predicate Accepted(table: seq<Area>, files: Files, counts: map<string, nat>, areas: seq<string>, init: bool) {
    && (forall i :: 0 <= i < |areas| ==> Named(table, areas[i]))
    && Load(files).Some?
    && (init || NothingRises(table, Load(files).value, counts, areas))
  }

  /** The directory with the files of these areas rewritten. */
  function Written(table: seq<Area>, files: Files, counts: map<string, nat>, areas: seq<string>): Files {
    map area | area in files.Keys + set i | 0 <= i < |areas| :: areas[i] ::
      if area in areas then Printed(area, Part(table, counts, area)) else files[area]
  }

  /** `write_baselines`: the directory after it, accepted or not. */
  function Updated(table: seq<Area>, files: Files, counts: map<string, nat>, areas: seq<string>, init: bool): Files {
    if Accepted(table, files, counts, areas, init) then Written(table, files, counts, areas) else files
  }

  class Directory {
    var files: Files

    constructor (files: Files)
      ensures this.files == files
    {
      this.files := files;
    }

    /** A refusal changes no file. */
    method WriteBaselines(table: seq<Area>, counts: map<string, nat>, areas: seq<string>, init: bool) returns (ok: bool)
      requires ValidTable(table)
      modifies this
      ensures ok == Accepted(table, old(files), counts, areas, init)
      ensures !ok ==> files == old(files)
      ensures ok ==> files == Written(table, old(files), counts, areas)
    {
      if exists i :: 0 <= i < |areas| && !Named(table, areas[i]) { return false; }
      var byArea := CountsByArea(table, counts);
      var current := Load(files);
      if current.None? { return false; }
      if !init {
        var rises := AnyRise(table, counts, byArea, current.value, areas);
        if rises { return false; }
      }
      WriteAreas(table, counts, byArea, areas);
      ok := true;
    }

    method WriteAreas(ghost table: seq<Area>, ghost counts: map<string, nat>, byArea: map<string, map<string, nat>>,
                      areas: seq<string>)
      requires forall i :: 0 <= i < |areas| ==> areas[i] in byArea && byArea[areas[i]] == Part(table, counts, areas[i])
      modifies this
      ensures files == Written(table, old(files), counts, areas)
    {
      for i := 0 to |areas|
        invariant files == Written(table, old(files), counts, areas[..i])
      {
        WrittenNext(table, old(files), counts, areas, i);
        files := files[areas[i] := Printed(areas[i], byArea[areas[i]])];
      }
      assert areas[..|areas|] == areas;
    }
  }

  method AnyRise(ghost table: seq<Area>, ghost counts: map<string, nat>, byArea: map<string, map<string, nat>>,
                 current: Loaded, areas: seq<string>) returns (rises: bool)
    requires forall i :: 0 <= i < |areas| ==> areas[i] in byArea && byArea[areas[i]] == Part(table, counts, areas[i])
    ensures rises <==> !NothingRises(table, current, counts, areas)
  {
    for i := 0 to |areas|
      invariant forall j :: 0 <= j < i ==>
                  Compare(Part(table, counts, areas[j]), BaselinesOf(current, areas[j])).0 == []
    {
      if Compare(byArea[areas[i]], BaselinesOf(current, areas[i])).0 != [] { return true; }
    }
    rises := false;
  }

  lemma WrittenNext(table: seq<Area>, files: Files, counts: map<string, nat>, areas: seq<string>, i: nat)
    requires i < |areas|
    ensures Written(table, files, counts, areas[..i + 1]) ==
              Written(table, files, counts, areas[..i])[areas[i] := Printed(areas[i], Part(table, counts, areas[i]))]
  {
    hide Printed, Part;
    assert areas[..i + 1] == areas[..i] + [areas[i]];
  }

  // ------------------------------------------------------------------ after an update

  /** An update that raises nothing only writes paths a row can hold: any other path has no baseline, so it rises. */
  lemma AcceptedPathsAreStorable(table: seq<Area>, files: Files, counts: map<string, nat>, areas: seq<string>, i: nat)
    requires Accepted(table, files, counts, areas, false) && i < |areas|
    ensures AllStorable(Part(table, counts, areas[i]))
  {
    var part, baselines := Part(table, counts, areas[i]), BaselinesOf(Load(files).value, areas[i]);
    CompareSays(part, baselines);
    if areas[i] in files { OnlyStorablePathsAreRead(files[areas[i]]); }
    forall path | path in part && part[path] > 0 ensures Storable(path) {
      assert At(baselines, path) >= At(part, path) > 0;
    }
  }

  lemma AreaAfterWrite(table: seq<Area>, files: Files, counts: map<string, nat>, areas: seq<string>, i: nat)
    requires ValidTable(table) && i < |areas| && Named(table, areas[i]) && AllStorable(Part(table, counts, areas[i]))
    ensures var written := Written(table, files, counts, areas);
            areas[i] in written && Parsed(written[areas[i]]) == Some(Positive(Part(table, counts, areas[i])))
  {
    StorableRoundTrip(areas[i], Part(table, counts, areas[i]));
  }

  lemma StaysReadable(table: seq<Area>, files: Files, counts: map<string, nat>, areas: seq<string>)
    requires ValidTable(table) && Readable(files)
    requires forall i :: 0 <= i < |areas| ==> Named(table, areas[i]) && AllStorable(Part(table, counts, areas[i]))
    ensures Readable(Written(table, files, counts, areas))
  {
    var written := Written(table, files, counts, areas);
    forall area | area in written ensures Parsed(written[area]).Some? {
      if area in areas {
        var i :| 0 <= i < |areas| && areas[i] == area;
        AreaAfterWrite(table, files, counts, areas, i);
      }
    }
  }

  /** What the directory says after a write: the positive counts of each written area, the rest as before. */
  lemma LoadAfterWrite(table: seq<Area>, files: Files, counts: map<string, nat>, areas: seq<string>, area: string)
    requires ValidTable(table) && Load(files).Some?
    requires forall i :: 0 <= i < |areas| ==> Named(table, areas[i]) && AllStorable(Part(table, counts, areas[i]))
    ensures var after := Load(Written(table, files, counts, areas));
            && after.Some?
            && BaselinesOf(after.value, area) ==
                 if area in areas then Positive(Part(table, counts, area)) else BaselinesOf(Load(files).value, area)
  {
    var written := Written(table, files, counts, areas);
    StaysReadable(table, files, counts, areas);
    BaselinesAt(written, area);
    BaselinesAt(files, area);
    if area in areas {
      var i :| 0 <= i < |areas| && areas[i] == area;
      AreaAfterWrite(table, files, counts, areas, i);
    } else {
      assert area in written <==> area in files;
      assert area in files ==> written[area] == files[area];
    }
  }

  lemma BaselinesAt(files: Files, area: string)
    requires Readable(files)
    ensures Load(files).Some?
    ensures BaselinesOf(Load(files).value, area) == if area in files then Parsed(files[area]).value else map[]
  {}

  lemma LoadAfterUpdate(table: seq<Area>, files: Files, counts: map<string, nat>, areas: seq<string>, area: string)
    requires ValidTable(table) && Accepted(table, files, counts, areas, false)
    ensures var after := Load(Updated(table, files, counts, areas, false));
            && after.Some?
            && BaselinesOf(after.value, area) ==
                 if area in areas then Positive(Part(table, counts, area)) else BaselinesOf(Load(files).value, area)
  {
    forall i | 0 <= i < |areas| ensures AllStorable(Part(table, counts, areas[i])) {
      AcceptedPathsAreStorable(table, files, counts, areas, i);
    }
    LoadAfterWrite(table, files, counts, areas, area);
  }

  /** A successful update leaves neither a rise nor a stale entry in the areas it wrote. */
  lemma SilentAfterUpdate(table: seq<Area>, files: Files, counts: map<string, nat>, areas: seq<string>, i: nat)
    requires ValidTable(table) && Accepted(table, files, counts, areas, false) && i < |areas|
    ensures var after := Load(Updated(table, files, counts, areas, false));
            after.Some? && Compare(Part(table, counts, areas[i]), BaselinesOf(after.value, areas[i])) == ([], [])
  {
    LoadAfterUpdate(table, files, counts, areas, areas[i]);
    var part := Part(table, counts, areas[i]);
    SilentMeansAgreement(part, Positive(part));
  }

  // ------------------------------------------------------------------ any number of updates

  /** One scan followed by `--update-baseline` of some areas, without `--init`. */
  datatype Attempt = Attempt(counts: map<string, nat>, areas: seq<string>)

  function UpdateAll(table: seq<Area>, files: Files, attempts: seq<Attempt>): Files
    decreases |attempts|
  {
    if attempts == [] then files
    else UpdateAll(table, Updated(table, files, attempts[0].counts, attempts[0].areas, false), attempts[1..])
  }

  /** The ceiling of a path's count: its baseline, and never less than 0. */
  function Ceiling(loaded: Loaded, area: string, path: string): nat {
    var baseline := At(BaselinesOf(loaded, area), path);
    if baseline < 0 then 0 else baseline
  }

  lemma UpdateLowers(table: seq<Area>, files: Files, a: Attempt, area: string, path: string)
    requires ValidTable(table) && Load(files).Some?
    ensures var after := Load(Updated(table, files, a.counts, a.areas, false));
            after.Some? && Ceiling(after.value, area, path) <= Ceiling(Load(files).value, area, path)
  {
    if Accepted(table, files, a.counts, a.areas, false) {
      LoadAfterUpdate(table, files, a.counts, a.areas, area);
      if area in a.areas {
        var i :| 0 <= i < |a.areas| && a.areas[i] == area;
        CompareSays(Part(table, a.counts, area), BaselinesOf(Load(files).value, area));
      }
    }
  }

  /** The ratchet: over any sequence of scans and updates, accepted or refused, no path's ceiling ever rises. A
      directory that does not load stays as it is. */
  lemma {:induction false} CeilingsNeverRise(table: seq<Area>, files: Files, attempts: seq<Attempt>, area: string,
                                             path: string)
    requires ValidTable(table)
    ensures var after := UpdateAll(table, files, attempts);
            if Load(files).None? then after == files
            else Load(after).Some? && Ceiling(Load(after).value, area, path) <= Ceiling(Load(files).value, area, path)
    decreases |attempts|
  {
    if attempts != [] {
      var next := Updated(table, files, attempts[0].counts, attempts[0].areas, false);
      if Load(files).Some? { UpdateLowers(table, files, attempts[0], area, path); }
      CeilingsNeverRise(table, next, attempts[1..], area, path);
    }
  }

  /** An update raises a baseline itself only from below zero, when its file is gone or clean. */
  lemma OnlyNegativesRise(table: seq<Area>, files: Files, a: Attempt, area: string, path: string)
    requires ValidTable(table) && Load(files).Some?
    ensures var before := BaselinesOf(Load(files).value, area);
            var after := Load(Updated(table, files, a.counts, a.areas, false));
            && after.Some?
            && (At(BaselinesOf(after.value, area), path) > At(before, path) <==>
                && Accepted(table, files, a.counts, a.areas, false) && area in a.areas
                && At(before, path) < 0)
  {
    var before := BaselinesOf(Load(files).value, area);
    if Accepted(table, files, a.counts, a.areas, false) {
      LoadAfterUpdate(table, files, a.counts, a.areas, area);
      if area in a.areas {
        var i :| 0 <= i < |a.areas| && a.areas[i] == area;
        CompareSays(Part(table, a.counts, area), before);
      }
    }
  }

  /** A file edited by hand to hold a negative count. */
  const EDITED := "p\t-1\n"

  lemma EditedReads()
    ensures Parsed(EDITED) == Some(map["p" := -1])
  {
    var row := "p\t-1";
    assert EDITED == row + "\n" + "";
    SplitFirst(row, "");
    assert row[..1] == "p" && row[2..] == "-1" && LastTab(row) == 1;
    assert Strip("-1") == "-1" && "-1"[1..] == "1" && ParseNat("1") == Some(1);
    assert ParseInt(row[2..]) == Some(-1);
    assert [row][..0] == [];
    assert ParseLines([row]) == Some(map["p" := -1]);
  }

  /** Then an update that finds nothing in `p` raises its baseline from -1 to 0. */
  lemma EditedFileRises(table: seq<Area>, area: string)
    requires ValidTable(table) && Named(table, area)
    ensures var files := map[area := EDITED];
            var after := Load(Updated(table, files, map[], [area], false));
            && Load(files).Some? && At(BaselinesOf(Load(files).value, area), "p") == -1
            && after.Some? && At(BaselinesOf(after.value, area), "p") == 0
  {
    EditedReads();
    var files := map[area := EDITED];
    hide Parsed;
    CompareSays(Part(table, map[], area), BaselinesOf(Load(files).value, area));
    LoadAfterUpdate(table, files, map[], [area], area);
  }

  // ------------------------------------------------------------------ the gate

  /** `--all`: whether the build passes. */
  predicate Passes(table: seq<Area>, files: Files, counts: map<string, nat>, areas: seq<string>, lenient: bool) {
    && Load(files).Some? && Load(files).value != map[]
    && NothingRises(table, Load(files).value, counts, areas)
    && (lenient || forall i :: 0 <= i < |areas| ==>
          Compare(Part(table, counts, areas[i]), BaselinesOf(Load(files).value, areas[i])).1 == [])
  }

  /** From one strict pass to any later pass, whatever was scanned and written in between, no file's count rises. */
  lemma CountsOnlyGoDown(table: seq<Area>, files: Files, first: map<string, nat>, attempts: seq<Attempt>,
                         later: map<string, nat>, areas: seq<string>, lenient: bool, path: string)
    requires ValidTable(table) && AreaOf(table, path) in areas
    requires Passes(table, files, first, areas, false)
    requires Passes(table, UpdateAll(table, files, attempts), later, areas, lenient)
    ensures At(later, path) <= At(first, path)
  {
    var area := AreaOf(table, path);
    var i :| 0 <= i < |areas| && areas[i] == area;
    CeilingsNeverRise(table, files, attempts, area, path);
    var after := UpdateAll(table, files, attempts);
    CompareSays(Part(table, first, area), BaselinesOf(Load(files).value, area));
    CompareSays(Part(table, later, area), BaselinesOf(Load(after).value, area));
    assert path in later ==>
      At(Part(table, later, area), path) == later[path] <= Ceiling(Load(after).value, area, path);
    assert At(Part(table, first, area), path) == At(first, path);
  }

  /** What the gate says, path by path: it passes exactly when there are files, all of them load, no file's count is
      above its baseline in the areas asked for and, unless it is lenient, no baseline there is above its file's
      count. */
  lemma PassesExactlyWhen(table: seq<Area>, files: Files, counts: map<string, nat>, areas: seq<string>, lenient: bool)
    ensures Passes(table, files, counts, areas, lenient) <==>
              && files != map[] && Readable(files)
              && (forall path :: path in counts && AreaOf(table, path) in areas ==>
                    counts[path] <= BaselineOf(files, AreaOf(table, path), path))
              && (lenient || forall area, path :: area in areas && OnFile(files, area, path) ==>
                    BaselineOf(files, area, path) <= if AreaOf(table, path) == area then At(counts, path) else 0)
  {
    if Readable(files) {
      var loaded := Load(files).value;
      assert loaded == map[] <==> files == map[] by {
        if area :| area in files { assert area in loaded; }
      }
      RisesTold(table, files, counts, areas);
      StalesTold(table, files, counts, areas);
    }
  }

  /** A baseline as its file says it; 0 when it does not. */
  function BaselineOf(files: Files, area: string, path: string): int
    requires Readable(files)
  {
    if area in files then At(Parsed(files[area]).value, path) else 0
  }

  predicate OnFile(files: Files, area: string, path: string)
    requires Readable(files)
  {
    area in files && path in Parsed(files[area]).value
  }

  lemma RisesTold(table: seq<Area>, files: Files, counts: map<string, nat>, areas: seq<string>)
    requires Readable(files)
    ensures NothingRises(table, Load(files).value, counts, areas) <==>
              forall path :: path in counts && AreaOf(table, path) in areas ==>
                counts[path] <= BaselineOf(files, AreaOf(table, path), path)
  {
    var loaded := Load(files).value;
    forall i | 0 <= i < |areas|
      ensures Compare(Part(table, counts, areas[i]), BaselinesOf(loaded, areas[i])).0 == [] <==>
                forall path :: path in counts && AreaOf(table, path) == areas[i] ==>
                  counts[path] <= BaselineOf(files, areas[i], path)
    {
      BaselinesAt(files, areas[i]);
      CompareSays(Part(table, counts, areas[i]), BaselinesOf(loaded, areas[i]));
      var part := Part(table, counts, areas[i]);
      assert forall path :: path in part ==> At(part, path) == counts[path];
      assert forall path :: path in part <==> path in counts && AreaOf(table, path) == areas[i];
    }
  }

  lemma PartAt(table: seq<Area>, counts: map<string, nat>, area: string, path: string)
    ensures At(Part(table, counts, area), path) == if AreaOf(table, path) == area then At(counts, path) else 0
  {}

  lemma StalesTold(table: seq<Area>, files: Files, counts: map<string, nat>, areas: seq<string>)
    requires Readable(files)
    ensures (forall i :: 0 <= i < |areas| ==>
               Compare(Part(table, counts, areas[i]), BaselinesOf(Load(files).value, areas[i])).1 == []) <==>
              forall area, path :: area in areas && OnFile(files, area, path) ==>
                BaselineOf(files, area, path) <= if AreaOf(table, path) == area then At(counts, path) else 0
  {
    hide Compare, AreaOf, Parsed;
    var loaded := Load(files).value;
    forall i | 0 <= i < |areas|
      ensures Compare(Part(table, counts, areas[i]), BaselinesOf(loaded, areas[i])).1 == [] <==>
                forall path :: OnFile(files, areas[i], path) ==>
                  BaselineOf(files, areas[i], path) <= if AreaOf(table, path) == areas[i] then At(counts, path) else 0
    {
      var baselines := BaselinesOf(loaded, areas[i]);
      BaselinesAt(files, areas[i]);
      CompareSays(Part(table, counts, areas[i]), baselines);
      forall path
        ensures path in baselines <==> OnFile(files, areas[i], path)
        ensures At(baselines, path) == BaselineOf(files, areas[i], path)
      {}
      forall path { PartAt(table, counts, areas[i], path); }
      hide Part, BaselinesOf, BaselineOf, At;
    }
    hide Part, BaselinesOf, BaselineOf, At;
  }
}
