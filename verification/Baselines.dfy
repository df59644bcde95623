// Baseline files: how they are printed and read, and what a comparison with them says.
module Baselines {
  import opened Wrappers
  import opened Lines
  import Orders

  // ------------------------------------------------------------------ paths in order

  /** The order in which paths are sorted: character by character. */
  predicate Before(a: string, b: string) {
    b != [] && (a == [] || a[0] < b[0] || (a[0] == b[0] && Before(a[1..], b[1..])))
  }

  lemma {:induction false} BeforeIsTotal(a: string, b: string)
    ensures a == b || Before(a, b) || Before(b, a)
    ensures !(Before(a, b) && Before(b, a)) && !Before(a, a)
  {
    if a != [] && b != [] && a[0] == b[0] {
      BeforeIsTotal(a[1..], b[1..]);
      assert a == [a[0]] + a[1..] && b == [b[0]] + b[1..];
    }
    if a != [] { BeforeIsTotal(a[1..], a[1..]); }
  }

  lemma {:induction false} BeforeIsTransitive(a: string, b: string, c: string)
    requires Before(a, b) && Before(b, c)
    ensures Before(a, c)
  {
    if a != [] && a[0] == b[0] == c[0] { BeforeIsTransitive(a[1..], b[1..], c[1..]); }
  }

  /** They differ first at `n`, where `a` has ended or has the lesser character. */
  predicate DifferAt(a: string, b: string, n: nat) {
    && n <= |a| && n < |b| && a[..n] == b[..n]
    && (n == |a| || a[n] < b[n])
  }

  lemma {:induction false} BeforeDiffers(a: string, b: string)
    ensures Before(a, b) <==> exists n: nat :: DifferAt(a, b, n)
  {
    if a != [] && b != [] && a[0] == b[0] {
      BeforeDiffers(a[1..], b[1..]);
      if n: nat :| DifferAt(a[1..], b[1..], n) {
        assert a[..n + 1] == [a[0]] + a[1..][..n] && b[..n + 1] == [b[0]] + b[1..][..n];
        assert DifferAt(a, b, n + 1);
      }
      if n: nat :| DifferAt(a, b, n) {
        assert n > 0;
        assert a[1..][..n - 1] == a[..n][1..] && b[1..][..n - 1] == b[..n][1..];
        assert DifferAt(a[1..], b[1..], n - 1);
      }
    } else {
      if Before(a, b) { assert DifferAt(a, b, 0); }
      if n: nat :| DifferAt(a, b, n) {
        assert n > 0 ==> a[..n][0] == b[..n][0];
      }
    }
  }

  lemma BeforeOrders(paths: set<string>)
    ensures Orders.Orders(Before, paths)
  {
    forall a, b ensures !Before(a, a) && (a == b || Before(a, b) || Before(b, a)) { BeforeIsTotal(a, b); }
    forall a, b, c | Before(a, b) && Before(b, c) ensures Before(a, c) { BeforeIsTransitive(a, b, c); }
  }

  /** `sorted` over distinct paths. */
  function Sorted(paths: set<string>): seq<string> {
    BeforeOrders(paths);
    Orders.Sorted(Before, paths)
  }

  lemma SortedPaths(paths: set<string>)
    ensures forall path :: path in Sorted(paths) <==> path in paths
    ensures forall i, j :: 0 <= i < j < |Sorted(paths)| ==> Before(Sorted(paths)[i], Sorted(paths)[j])
  {
    BeforeOrders(paths);
    Orders.SortedHoldsAll(Before, paths);
    Orders.SortedIsInOrder(Before, paths);
  }

  // ------------------------------------------------------------------ one file

  function Header(area: string): string {
    "# " + area + ": French findings per file (ADR 0098). " + "Counts only go down: "
    + "tools/check_english.py --update-baseline"
  }

  function Row(path: string, count: nat): string {
    path + "\t" + Decimal(count)
  }

  function Rows(counts: map<string, nat>, paths: seq<string>): seq<string> {
    if paths == [] then []
    else
      var last := paths[|paths| - 1];
      Rows(counts, paths[..|paths| - 1])
      + if last in counts && counts[last] != 0 then [Row(last, counts[last])] else []
  }

  /** The file of an area: its header and the positive counts in order. */
  function Printed(area: string, counts: map<string, nat>): string {
    Terminated([Header(area)] + Rows(counts, Sorted(counts.Keys)))
  }

  predicate Ignored(line: string) {
    line == "" || line[0] == '#'
  }

  function ParseLines(lines: seq<string>): Option<map<string, int>> {
    if lines == [] then Some(map[])
    else
      var last := lines[|lines| - 1];
      match ParseLines(lines[..|lines| - 1])
      case None => None
      case Some(counts) =>
        if Ignored(last) then Some(counts)
        else
          var tab := LastTab(last);
          match ParseInt(last[tab + 1..])
          case None => None
          case Some(count) => Some(counts[if tab < 0 then "" else last[..tab] := count])
  }

  /** What a baseline file says; `None` when a count is not a number. */
  function Parsed(text: string): Option<map<string, int>> {
    ParseLines(SplitLines(text))
  }

  function Positive(counts: map<string, nat>): map<string, int> {
    map path | path in counts && counts[path] > 0 :: counts[path]
  }

  /** A path a row can hold: on one line, and not taken for a comment. */
  predicate Storable(path: string) {
    Unbroken(path) && (path == "" || path[0] != '#')
  }

  predicate AllStorable(counts: map<string, nat>) {
    forall path :: path in counts && counts[path] > 0 ==> Storable(path)
  }

  lemma DecimalHasNoTab(n: nat)
    ensures forall i :: 0 <= i < |Decimal(n)| ==> Decimal(n)[i] != '\t' && !IsBreak(Decimal(n)[i])
  {
    assert forall c :: IsDigit(c) ==> c != '\t' && !IsBreak(c);
  }

  lemma RowReads(path: string, count: nat)
    requires Storable(path)
    ensures var row := Row(path, count);
            && Unbroken(row) && !Ignored(row) && LastTab(row) == |path|
            && row[..|path|] == path && row[|path| + 1..] == Decimal(count)
  {
    DecimalHasNoTab(count);
    var row := Row(path, count);
    assert row[|path|] == '\t' && row[..|path|] == path && row[|path| + 1..] == Decimal(count);
    assert forall i :: |path| < i < |row| ==> row[i] == Decimal(count)[i - |path| - 1];
  }

  function Stored(counts: map<string, nat>, paths: seq<string>): map<string, int> {
    map path | path in paths && path in counts && counts[path] > 0 :: counts[path]
  }

  lemma RowsNext(header: string, counts: map<string, nat>, front: seq<string>, last: string)
    requires last in counts && counts[last] != 0 && Storable(last)
    requires ParseLines([header] + Rows(counts, front)) == Some(Stored(counts, front))
    ensures ParseLines([header] + Rows(counts, front) + [Row(last, counts[last])]) ==
              Some(Stored(counts, front + [last]))
  {
    var row := Row(last, counts[last]);
    RowReads(last, counts[last]);
    ParseDecimal(counts[last]);
    var lines := [header] + Rows(counts, front) + [row];
    assert lines[..|lines| - 1] == [header] + Rows(counts, front) && lines[|lines| - 1] == row;
    assert Stored(counts, front + [last]) == Stored(counts, front)[last := counts[last]];
  }

  lemma {:induction false} RowsAreUnbroken(counts: map<string, nat>, paths: seq<string>)
    requires AllStorable(counts)
    ensures forall i :: 0 <= i < |Rows(counts, paths)| ==> Unbroken(Rows(counts, paths)[i])
  {
    if paths != [] {
      hide Row, Unbroken;
      var last := paths[|paths| - 1];
      RowsAreUnbroken(counts, paths[..|paths| - 1]);
      if last in counts && counts[last] != 0 { RowReads(last, counts[last]); }
    }
  }

  lemma StoredNext(counts: map<string, nat>, front: seq<string>, last: string)
    requires !(last in counts && counts[last] != 0)
    ensures Stored(counts, front + [last]) == Stored(counts, front)
  {}

  /** The rows of one path more. */
  lemma RowsAppend(header: string, counts: map<string, nat>, front: seq<string>, last: string)
    ensures [header] + Rows(counts, front + [last]) ==
              if last in counts && counts[last] != 0 then [header] + Rows(counts, front) + [Row(last, counts[last])]
              else [header] + Rows(counts, front)
  {
    assert (front + [last])[..|front|] == front;
  }

  lemma NoRowsRead(header: string, counts: map<string, nat>)
    requires Ignored(header)
    ensures ParseLines([header] + Rows(counts, [])) == Some(Stored(counts, []))
  {
    assert [header][..0] == [];
    assert [header] + Rows(counts, []) == [header];
  }

  lemma {:induction false} RowsRead(header: string, counts: map<string, nat>, paths: seq<string>)
    requires AllStorable(counts) && Ignored(header) && Unbroken(header)
    ensures ParseLines([header] + Rows(counts, paths)) == Some(Stored(counts, paths))
  {
    if paths == [] {
      NoRowsRead(header, counts);
    } else {
      var front, last := paths[..|paths| - 1], paths[|paths| - 1];
      RowsRead(header, counts, front);
      assert paths == front + [last];
      assert last in counts && counts[last] != 0 ==> Storable(last);
      hide *;
      RowsAppend(header, counts, front, last);
      if last in counts && counts[last] != 0 {
        RowsNext(header, counts, front, last);
      } else {
        StoredNext(counts, front, last);
      }
    }
  }

  lemma HeaderIsIgnored(area: string)
    requires Unbroken(area)
    ensures Unbroken(Header(area)) && Ignored(Header(area))
  {
    assert Unbroken(": French findings per file (ADR 0098). ");
    assert Unbroken("Counts only go down: ");
    assert Unbroken("tools/check_english.py --update-baseline");
  }

  lemma StorableRoundTrip(area: string, counts: map<string, nat>)
    requires Unbroken(area) && AllStorable(counts)
    ensures Parsed(Printed(area, counts)) == Some(Positive(counts))
  {
    var paths := Sorted(counts.Keys);
    HeaderIsIgnored(area);
    RowsRead(Header(area), counts, paths);
    RowsAreUnbroken(counts, paths);
    SplitTerminated([Header(area)] + Rows(counts, paths));
    SortedPaths(counts.Keys);
    assert Stored(counts, paths) == Positive(counts);
  }

  lemma {:induction false} ReadPathsAreStorable(lines: seq<string>)
    requires forall i :: 0 <= i < |lines| ==> Unbroken(lines[i])
    requires ParseLines(lines).Some?
    ensures forall path :: path in ParseLines(lines).value ==> Storable(path)
  {
    if lines != [] {
      ReadPathsAreStorable(lines[..|lines| - 1]);
      var last := lines[|lines| - 1];
      var tab := LastTab(last);
      if tab >= 0 { assert Unbroken(last[..tab]); }
    }
  }

  /** No file, however edited, gives a baseline to a path that a row cannot hold. */
  lemma OnlyStorablePathsAreRead(text: string)
    requires Parsed(text).Some?
    ensures forall path :: path in Parsed(text).value ==> Storable(path)
  {
    SplitUnbroken(text);
    ReadPathsAreStorable(SplitLines(text));
  }

  /** A baseline file reads back as the positive counts, exactly when rows can hold their paths. */
  lemma FilesRoundTrip(area: string, counts: map<string, nat>)
    requires Unbroken(area)
    ensures Parsed(Printed(area, counts)) == Some(Positive(counts)) <==> AllStorable(counts)
  {
    if AllStorable(counts) { StorableRoundTrip(area, counts); }
    if Parsed(Printed(area, counts)) == Some(Positive(counts)) {
      OnlyStorablePathsAreRead(Printed(area, counts));
      assert forall path :: path in counts && counts[path] > 0 ==> path in Positive(counts);
    }
  }

  predicate Increasing(paths: seq<string>) {
    forall i, j :: 0 <= i < j < |paths| ==> Before(paths[i], paths[j])
  }

  /** The lines below the header, one for each of these paths. */
  predicate RowsShow(rows: seq<string>, counts: map<string, nat>, paths: seq<string>) {
    && |rows| == |paths|
    && forall i :: 0 <= i < |rows| ==> paths[i] in counts && rows[i] == paths[i] + "\t" + Decimal(counts[paths[i]])
  }

  lemma {:induction false} RowsShown(counts: map<string, nat>, all: seq<string>) returns (paths: seq<string>)
    requires Increasing(all)
    ensures Increasing(paths) && RowsShow(Rows(counts, all), counts, paths)
    ensures forall path :: path in paths <==> path in all && path in counts && counts[path] > 0
  {
    if all == [] {
      paths := [];
    } else {
      var front, last := all[..|all| - 1], all[|all| - 1];
      paths := RowsShown(counts, front);
      assert forall path :: path in all <==> path in front || path == last;
      if last in counts && counts[last] != 0 {
        forall i | 0 <= i < |paths| ensures Before(paths[i], last) {
          assert paths[i] in front;
          var j :| 0 <= j < |front| && front[j] == paths[i];
          assert all[j] == paths[i];
        }
        paths := paths + [last];
      }
    }
  }

  /** A printed file has one row for each path with findings and no other, in path order: the path, a tab and its
      count. */
  lemma FileShows(area: string, counts: map<string, nat>) returns (paths: seq<string>, rows: seq<string>)
    ensures Printed(area, counts) == Terminated([Header(area)] + rows)
    ensures Increasing(paths) && RowsShow(rows, counts, paths)
    ensures forall path :: path in paths <==> path in counts && counts[path] > 0
  {
    SortedPaths(counts.Keys);
    paths := RowsShown(counts, Sorted(counts.Keys));
    rows := Rows(counts, Sorted(counts.Keys));
  }

  // ------------------------------------------------------------------ comparing

  datatype Change = Change(path: string, found: int, baseline: int)

  /** A count, or a baseline, of a path that may have none. */
  function At<T(==)>(counts: map<T, int>, path: T): int {
    if path in counts then counts[path] else 0
  }

  function Rises(counts: map<string, int>, baselines: map<string, int>, paths: seq<string>): seq<Change> {
    if paths == [] then []
    else
      var path := paths[|paths| - 1];
      Rises(counts, baselines, paths[..|paths| - 1])
      + if At(counts, path) > At(baselines, path) then [Change(path, At(counts, path), At(baselines, path))] else []
  }

  function Stales(counts: map<string, int>, baselines: map<string, int>, paths: seq<string>): seq<Change> {
    if paths == [] then []
    else
      var path := paths[|paths| - 1];
      Stales(counts, baselines, paths[..|paths| - 1])
      + if At(counts, path) < At(baselines, path) then [Change(path, At(counts, path), At(baselines, path))] else []
  }

  /** `compare`: rises over the counted paths, stale entries over those on file, each in path order. */
  function Compare(counts: map<string, int>, baselines: map<string, int>): (seq<Change>, seq<Change>) {
    (Rises(counts, baselines, Sorted(counts.Keys)), Stales(counts, baselines, Sorted(baselines.Keys)))
  }

  lemma {:induction false} InRises(counts: map<string, int>, baselines: map<string, int>, paths: seq<string>, c: Change)
    ensures c in Rises(counts, baselines, paths) <==>
              c.path in paths && c.found == At(counts, c.path) > At(baselines, c.path) == c.baseline
    ensures c in Stales(counts, baselines, paths) <==>
              c.path in paths && c.found == At(counts, c.path) < At(baselines, c.path) == c.baseline
  {
    if paths != [] {
      InRises(counts, baselines, paths[..|paths| - 1], c);
      assert paths == paths[..|paths| - 1] + [paths[|paths| - 1]];
    }
  }

  predicate ChangesIncrease(changes: seq<Change>) {
    forall i, j :: 0 <= i < j < |changes| ==> Before(changes[i].path, changes[j].path)
  }

  lemma {:induction false} RisesIncrease(counts: map<string, int>, baselines: map<string, int>, paths: seq<string>)
    requires Increasing(paths)
    ensures ChangesIncrease(Rises(counts, baselines, paths)) && ChangesIncrease(Stales(counts, baselines, paths))
  {
    if paths != [] {
      var front, last := paths[..|paths| - 1], paths[|paths| - 1];
      RisesIncrease(counts, baselines, front);
      forall c | c in Rises(counts, baselines, front) || c in Stales(counts, baselines, front)
        ensures Before(c.path, last)
      {
        InRises(counts, baselines, front, c);
        var j :| 0 <= j < |front| && front[j] == c.path;
        assert paths[j] == c.path;
      }
    }
  }

  /** Both halves of a comparison are in path order. */
  lemma CompareInOrder(counts: map<string, int>, baselines: map<string, int>)
    ensures ChangesIncrease(Compare(counts, baselines).0) && ChangesIncrease(Compare(counts, baselines).1)
  {
    SortedPaths(counts.Keys);
    SortedPaths(baselines.Keys);
    RisesIncrease(counts, baselines, Sorted(counts.Keys));
    RisesIncrease(counts, baselines, Sorted(baselines.Keys));
  }

  ghost predicate Agree(counts: map<string, int>, baselines: map<string, int>) {
    forall path :: path in counts || path in baselines ==> At(counts, path) == At(baselines, path)
  }

  /** A negative number on one side and nothing on the other is what a comparison cannot see. */
  predicate NoLoneNegative(counts: map<string, int>, baselines: map<string, int>) {
    && (forall path :: path in counts && path !in baselines ==> counts[path] >= 0)
    && (forall path :: path in baselines && path !in counts ==> baselines[path] >= 0)
  }

  /** What each half of a comparison says, whatever the numbers. */
  lemma CompareSays(counts: map<string, int>, baselines: map<string, int>)
    ensures Compare(counts, baselines).0 == [] <==>
              forall path :: path in counts ==> At(counts, path) <= At(baselines, path)
    ensures Compare(counts, baselines).1 == [] <==>
              forall path :: path in baselines ==> At(counts, path) >= At(baselines, path)
  {
    var (rises, stale) := Compare(counts, baselines);
    SortedPaths(counts.Keys);
    SortedPaths(baselines.Keys);
    forall c
      ensures c in rises <==> c.path in counts && c.found == At(counts, c.path) > At(baselines, c.path) == c.baseline
    {
      InRises(counts, baselines, Sorted(counts.Keys), c);
    }
    forall c
      ensures c in stale <==> c.path in baselines && c.found == At(counts, c.path) < At(baselines, c.path) == c.baseline
    {
      InRises(counts, baselines, Sorted(baselines.Keys), c);
    }
    if path :| path in counts && At(counts, path) > At(baselines, path) {
      assert Change(path, At(counts, path), At(baselines, path)) in rises;
    }
    if path :| path in baselines && At(counts, path) < At(baselines, path) {
      assert Change(path, At(counts, path), At(baselines, path)) in stale;
    }
    if rises != [] { assert rises[0] in rises; }
    if stale != [] { assert stale[0] in stale; }
  }

  /** A comparison is silent on both sides exactly when counts and baselines agree as functions that default to 0, up to
      lone negative numbers. */
  lemma SilentMeansAgreement(counts: map<string, int>, baselines: map<string, int>)
    ensures Agree(counts, baselines) <==> Compare(counts, baselines) == ([], []) && NoLoneNegative(counts, baselines)
  {
    CompareSays(counts, baselines);
  }
}
