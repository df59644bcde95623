// Which area a file belongs to: `area_of` and `counts_by_area` in tools/check_english.py.
module Areas {

  datatype Area = Area(name: string, prefixes: seq<string>)

  /** The longest match so far: its length and the area it belongs to. */
  datatype Best = Best(length: int, area: string)

  const NOTHING := Best(-1, "repo")

  function BestAmong(name: string, prefixes: seq<string>, path: string, best: Best): Best {
    if prefixes == [] then best
    else
      var soFar := BestAmong(name, prefixes[..|prefixes| - 1], path, best);
      var prefix := prefixes[|prefixes| - 1];
      if prefix <= path && |prefix| > soFar.length then Best(|prefix|, name) else soFar
  }

  function BestOf(table: seq<Area>, path: string): Best {
    if table == [] then NOTHING
    else
      var last := table[|table| - 1];
      BestAmong(last.name, last.prefixes, path, BestOf(table[..|table| - 1], path))
  }

  function AreaOf(table: seq<Area>, path: string): string {
    BestOf(table, path).area
  }

  method FindArea(table: seq<Area>, path: string) returns (area: string)
    ensures area == AreaOf(table, path)
  {
    var length := -1;
    area := "repo";
    for i := 0 to |table|
      invariant Best(length, area) == BestOf(table[..i], path)
    {
      assert table[..i + 1][..i] == table[..i];
      var prefixes := table[i].prefixes;
      for j := 0 to |prefixes|
        invariant Best(length, area) == BestAmong(table[i].name, prefixes[..j], path, BestOf(table[..i], path))
      {
        assert prefixes[..j + 1][..j] == prefixes[..j];
        if prefixes[j] <= path && |prefixes[j]| > length { length, area := |prefixes[j]|, table[i].name; }
      }
      assert prefixes[..|prefixes|] == prefixes;
    }
    assert table[..|table|] == table;
  }

  // ------------------------------------------------------------------ the longest prefix wins

  predicate Lists(table: seq<Area>, prefix: string, name: string) {
    exists i :: 0 <= i < |table| && table[i].name == name && prefix in table[i].prefixes
  }

  /** The area of some matching prefix that no matching prefix is longer than; `repo` when none matches. */
  ghost predicate HoldsLongest(table: seq<Area>, path: string, best: Best) {
    if best.length < 0 then best == NOTHING && forall prefix, name :: Lists(table, prefix, name) ==> !(prefix <= path)
    else
      && best.length <= |path| && Lists(table, path[..best.length], best.area)
      && forall prefix, name :: Lists(table, prefix, name) && prefix <= path ==> |prefix| <= best.length
  }

  lemma {:induction false} BestAmongExtends(name: string, prefixes: seq<string>, path: string, best: Best)
    requires best.length >= -1
    ensures var r := BestAmong(name, prefixes, path, best);
            && r.length >= best.length
            && (forall p :: p in prefixes && p <= path ==> |p| <= r.length)
            && (r == best || (0 <= r.length <= |path| && path[..r.length] in prefixes && r.area == name))
  {
    if prefixes != [] {
      BestAmongExtends(name, prefixes[..|prefixes| - 1], path, best);
      var last := prefixes[|prefixes| - 1];
      assert forall p :: p in prefixes ==> p in prefixes[..|prefixes| - 1] || p == last;
      assert last <= path ==> path[..|last|] == last;
    }
  }

  lemma {:induction false} BestIsLongest(table: seq<Area>, path: string)
    ensures HoldsLongest(table, path, BestOf(table, path))
  {
    if table != [] {
      var front, last := table[..|table| - 1], table[|table| - 1];
      var soFar, best := BestOf(front, path), BestOf(table, path);
      BestIsLongest(front, path);
      BestAmongExtends(last.name, last.prefixes, path, soFar);
      forall prefix, name | Lists(table, prefix, name)
        ensures Lists(front, prefix, name) || (name == last.name && prefix in last.prefixes)
      {
        var i :| 0 <= i < |table| && table[i].name == name && prefix in table[i].prefixes;
        if i < |front| { assert front[i] == table[i]; }
      }
      if best == soFar && best.length >= 0 {
        var i :| 0 <= i < |front| && front[i].name == best.area && path[..best.length] in front[i].prefixes;
        assert table[i] == front[i];
      }
    }
  }

  /** Some listed prefix matches. */
  predicate Matches(table: seq<Area>, path: string) {
    exists n: nat :: n <= |path| && ListsAny(table, path[..n])
  }

  predicate ListsAny(table: seq<Area>, prefix: string) {
    exists i :: 0 <= i < |table| && prefix in table[i].prefixes
  }

  /** A path belongs to `repo` when no prefix matches it, and otherwise to an area that lists a matching prefix of
      length `n`, where no matching prefix is longer. */
  lemma AreaIsLongest(table: seq<Area>, path: string) returns (n: nat)
    ensures n <= |path|
    ensures !Matches(table, path) ==> AreaOf(table, path) == "repo"
    ensures Matches(table, path) ==> Lists(table, path[..n], AreaOf(table, path))
    ensures forall m: nat :: n < m <= |path| ==> !ListsAny(table, path[..m])
  {
    BestIsLongest(table, path);
    var best := BestOf(table, path);
    forall m: nat | m <= |path| && ListsAny(table, path[..m]) ensures best.length >= m {
      var i :| 0 <= i < |table| && path[..m] in table[i].prefixes;
      assert Lists(table, path[..m], table[i].name);
      assert path[..m] <= path;
    }
    n := if best.length < 0 then 0 else best.length;
  }

  predicate DistinctPrefixes(table: seq<Area>) {
    forall i, j :: 0 <= i < |table| && 0 <= j < |table| && table[i].name != table[j].name ==>
      forall p :: p in table[i].prefixes ==> p !in table[j].prefixes
  }

  /** With distinct prefixes, the order of areas and of their prefixes does not matter. */
  lemma OrderDoesNotMatter(a: seq<Area>, b: seq<Area>, path: string)
    requires DistinctPrefixes(a) && forall prefix, name :: Lists(a, prefix, name) <==> Lists(b, prefix, name)
    ensures AreaOf(a, path) == AreaOf(b, path)
  {
    BestIsLongest(a, path);
    BestIsLongest(b, path);
    var x, y := BestOf(a, path), BestOf(b, path);
    if x.length >= 0 && y.length >= 0 {
      assert path[..x.length] <= path && path[..y.length] <= path;
      assert Lists(a, path[..y.length], y.area) && Lists(b, path[..x.length], x.area);
      assert x.length == y.length;
      var i :| 0 <= i < |a| && a[i].name == x.area && path[..x.length] in a[i].prefixes;
      var j :| 0 <= j < |a| && a[j].name == y.area && path[..x.length] in a[j].prefixes;
    }
  }

  /** What the order decides otherwise: the first of two areas with the same prefix keeps it. */
  lemma OrderMattersForSharedPrefixes()
    ensures AreaOf([Area("a", ["x"]), Area("b", ["x"])], "x") == "a"
    ensures AreaOf([Area("b", ["x"]), Area("a", ["x"])], "x") == "b"
  {
    var a, b := Area("a", ["x"]), Area("b", ["x"]);
    assert [a, b][..1] == [a] && [b, a][..1] == [b];
    assert [a][..0] == [] && [b][..0] == [] && ["x"][..0] == [];
    assert BestOf([a], "x") == Best(1, "a") && BestOf([b], "x") == Best(1, "b");
  }

  // ------------------------------------------------------------------ counts by area

  /** What belongs to one area. */
  function Part(table: seq<Area>, counts: map<string, nat>, area: string): map<string, nat> {
    map path | path in counts && AreaOf(table, path) == area :: counts[path]
  }

  predicate Named(table: seq<Area>, area: string) {
    exists i :: 0 <= i < |table| && table[i].name == area
  }

  /** The table covers every path: the empty prefix of `repo`. */
  predicate CoversAll(table: seq<Area>) {
    Lists(table, "", "repo")
  }

  lemma AreaIsNamed(table: seq<Area>, path: string)
    requires CoversAll(table)
    ensures Named(table, AreaOf(table, path))
  {
    BestIsLongest(table, path);
    assert "" <= path;
    var best := BestOf(table, path);
    if best.length >= 0 { assert Lists(table, path[..best.length], best.area); }
  }

  /** Every count lands in exactly one area's part, unchanged. */
  lemma PartsPartition(table: seq<Area>, counts: map<string, nat>, path: string)
    requires CoversAll(table) && path in counts
    ensures Named(table, AreaOf(table, path))
    ensures forall area :: path in Part(table, counts, area) <==> area == AreaOf(table, path)
    ensures Part(table, counts, AreaOf(table, path))[path] == counts[path]
  {
    AreaIsNamed(table, path);
  }

  lemma PartNext(table: seq<Area>, done: map<string, nat>, path: string, count: nat)
    requires path !in done
    ensures forall area :: Part(table, done[path := count], area) ==
              if AreaOf(table, path) == area then Part(table, done, area)[path := count] else Part(table, done, area)
  {}

  method EmptyAreas(table: seq<Area>) returns (byArea: map<string, map<string, nat>>)
    ensures forall area :: area in byArea <==> Named(table, area)
    ensures forall area :: area in byArea ==> byArea[area] == map[]
  {
    byArea := map[];
    for i := 0 to |table|
      invariant forall area :: area in byArea <==> Named(table[..i], area)
      invariant forall area :: area in byArea ==> byArea[area] == map[]
    {
      byArea := byArea[table[i].name := map[]];
      assert table[..i + 1] == table[..i] + [table[i]];
    }
    assert table[..|table|] == table;
  }

  /** What `byArea` holds of the counts done so far. */
  ghost predicate Splits(table: seq<Area>, done: map<string, nat>, byArea: map<string, map<string, nat>>) {
    && (forall area :: area in byArea <==> Named(table, area))
    && (forall area :: area in byArea ==> byArea[area] == Part(table, done, area))
  }

  method AddCount(table: seq<Area>, ghost done: map<string, nat>, byArea: map<string, map<string, nat>>, path: string,
                  count: nat)
    returns (next: map<string, map<string, nat>>)
    requires CoversAll(table) && path !in done && Splits(table, done, byArea)
    ensures Splits(table, done[path := count], next)
  {
    AreaIsNamed(table, path);
    var area := FindArea(table, path);
    PartNext(table, done, path, count);
    var inArea: map<string, nat> := byArea[area];
    next := byArea[area := inArea[path := count]];
  }

  method CountsByArea(table: seq<Area>, counts: map<string, nat>) returns (byArea: map<string, map<string, nat>>)
    requires CoversAll(table)
    ensures forall area :: area in byArea <==> Named(table, area)
    ensures forall area :: area in byArea ==> byArea[area] == Part(table, counts, area)
  {
    byArea := EmptyAreas(table);
    var left := counts.Keys;
    ghost var done: map<string, nat> := map[];
    while left != {}
      invariant left <= counts.Keys && done.Keys == counts.Keys - left
      invariant forall path :: path in done ==> done[path] == counts[path]
      invariant Splits(table, done, byArea)
      decreases |left|
    {
      var path :| path in left;
      byArea := AddCount(table, done, byArea, path, counts[path]);
      done := done[path := counts[path]];
      left := left - {path};
    }
    assert done == counts;
  }
}
