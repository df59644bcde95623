// The report of tools/report_round_trips.py: interpolated percentiles and one row per agent and backend.
module Reports {
  import opened Wrappers

  // ------------------------------------------------------------------ sorted values

  predicate Ascending(values: seq<real>) {
    forall i, j :: 0 <= i < j < |values| ==> values[i] <= values[j]
  }

  function Insert(x: real, values: seq<real>): (r: seq<real>)
    ensures |r| == |values| + 1
  {
    if values == [] then [x]
    else
      var last := values[|values| - 1];
      if last <= x then values + [x] else Insert(x, values[..|values| - 1]) + [last]
  }

  lemma {:induction false} InsertHolds(x: real, values: seq<real>)
    ensures multiset(Insert(x, values)) == multiset(values) + multiset{x}
  {
    if values != [] {
      InsertHolds(x, values[..|values| - 1]);
      assert values == values[..|values| - 1] + [values[|values| - 1]];
    }
  }

  lemma {:induction false} InsertAscends(x: real, values: seq<real>)
    requires Ascending(values)
    ensures Ascending(Insert(x, values))
    ensures forall i :: 0 <= i <= |values| ==> Insert(x, values)[i] == x || Insert(x, values)[i] in values
  {
    if values != [] { InsertAscends(x, values[..|values| - 1]); }
  }

  /** `sorted`. */
  function SortedValues(values: seq<real>): (r: seq<real>)
    ensures |r| == |values|
  {
    if values == [] then [] else Insert(values[|values| - 1], SortedValues(values[..|values| - 1]))
  }

  lemma {:induction false} SortedValuesHold(values: seq<real>)
    ensures Ascending(SortedValues(values)) && multiset(SortedValues(values)) == multiset(values)
  {
    if values != [] {
      var front, last := values[..|values| - 1], values[|values| - 1];
      SortedValuesHold(front);
      InsertHolds(last, SortedValues(front));
      InsertAscends(last, SortedValues(front));
      assert values == front + [last];
    }
  }

  lemma SameMembers(a: seq<real>, b: seq<real>)
    requires multiset(a) == multiset(b)
    ensures forall x :: x in a <==> x in b
  {
    forall x ensures x in a <==> x in b {
      assert x in a <==> x in multiset(a);
      assert x in b <==> x in multiset(b);
    }
  }

  lemma SameFronts(a: seq<real>, b: seq<real>)
    requires a != [] && b != [] && multiset(a) == multiset(b) && a[|a| - 1] == b[|b| - 1]
    ensures multiset(a[..|a| - 1]) == multiset(b[..|b| - 1])
  {
    WithoutLast(a);
    WithoutLast(b);
  }

  lemma WithoutLast(a: seq<real>)
    requires a != []
    ensures multiset(a[..|a| - 1]) == multiset(a) - multiset{a[|a| - 1]}
  {
    assert a == a[..|a| - 1] + [a[|a| - 1]];
  }

  lemma SameLast(a: seq<real>, b: seq<real>)
    requires Ascending(a) && Ascending(b) && multiset(a) == multiset(b) && |a| == |b| && a != []
    ensures a[|a| - 1] == b[|b| - 1]
  {
    SameMembers(a, b);
    assert a[|a| - 1] in a && b[|b| - 1] in b;
    var i :| 0 <= i < |b| && b[i] == a[|a| - 1];
    var j :| 0 <= j < |a| && a[j] == b[|b| - 1];
  }

  lemma {:induction false} AscendingIsUnique(a: seq<real>, b: seq<real>)
    requires Ascending(a) && Ascending(b) && multiset(a) == multiset(b) && |a| == |b|
    ensures a == b
    decreases |a|
  {
    if a != [] {
      SameLast(a, b);
      SameFronts(a, b);
      AscendingIsUnique(a[..|a| - 1], b[..|b| - 1]);
    }
  }

  // ------------------------------------------------------------------ percentiles

  function Ceiling(x: real): int {
    -((-x).Floor)
  }

  /** From `a` towards `b`. */
  function Mix(a: real, b: real, weight: real): real {
    a + (b - a) * weight
  }

  lemma ProductNotNegative(x: real, y: real)
    requires x >= 0.0 && y >= 0.0
    ensures x * y >= 0.0
  {}

  lemma ProductOfDifference(x: real, y: real, z: real)
    ensures x * (y - z) == x * y - x * z
  {}

  lemma MixBetween(a: real, b: real, weight: real)
    requires a <= b && 0.0 <= weight <= 1.0
    ensures a <= Mix(a, b, weight) <= b
  {
    ProductNotNegative(b - a, weight);
    ProductNotNegative(b - a, 1.0 - weight);
    ProductOfDifference(b - a, 1.0, weight);
  }

  lemma MixMonotone(a: real, b: real, x: real, y: real)
    requires a <= b && x <= y
    ensures Mix(a, b, x) <= Mix(a, b, y)
  {
    ProductNotNegative(b - a, y - x);
    ProductOfDifference(b - a, y, x);
  }

  lemma MixAtEnds(a: real, b: real)
    ensures Mix(a, b, 0.0) == a
  {}

  /** Where in the ranks 0 to `last` a fraction falls. */
  function Position(fraction: real, last: nat): (position: real)
    requires 0.0 <= fraction <= 1.0
    ensures 0.0 <= position <= last as real
    ensures fraction == 0.0 ==> position == 0.0
    ensures fraction == 1.0 ==> position == last as real
  {
    ProductNotNegative(last as real, fraction);
    ProductNotNegative(last as real, 1.0 - fraction);
    ProductOfDifference(last as real, 1.0, fraction);
    last as real * fraction
  }

  lemma PositionMonotone(f: real, g: real, last: nat)
    requires 0.0 <= f <= g <= 1.0
    ensures Position(f, last) <= Position(g, last)
  {
    ProductNotNegative(last as real, g - f);
    ProductOfDifference(last as real, g, f);
  }

  /** Linear interpolation between the closest ranks. */
  function Interpolate(ordered: seq<real>, position: real): real
    requires 0.0 <= position <= (|ordered| - 1) as real
  {
    var low, high := position.Floor, Ceiling(position);
    Mix(ordered[low], ordered[high], position - low as real)
  }

  function Percentile(values: seq<real>, fraction: real): Option<real>
    requires 0.0 <= fraction <= 1.0
  {
    if values == [] then None else Some(Interpolate(SortedValues(values), Position(fraction, |values| - 1)))
  }

  lemma InterpolateBetween(ordered: seq<real>, position: real)
    requires Ascending(ordered) && 0.0 <= position <= (|ordered| - 1) as real
    ensures ordered[position.Floor] <= Interpolate(ordered, position) <= ordered[Ceiling(position)]
  {
    var low, high := position.Floor, Ceiling(position);
    MixBetween(ordered[low], ordered[high], position - low as real);
  }

  /** Interpolation never falls as the position advances. */
  lemma InterpolateMonotone(ordered: seq<real>, p: real, q: real)
    requires Ascending(ordered) && 0.0 <= p <= q <= (|ordered| - 1) as real
    ensures Interpolate(ordered, p) <= Interpolate(ordered, q)
  {
    InterpolateBetween(ordered, p);
    InterpolateBetween(ordered, q);
    var low := p.Floor;
    if low < q.Floor {
      assert Ceiling(p) <= q.Floor;
    } else if p == low as real {
      MixAtEnds(ordered[low], ordered[Ceiling(p)]);
      assert Interpolate(ordered, p) == ordered[low];
    } else {
      assert Ceiling(p) == Ceiling(q);
      MixMonotone(ordered[low], ordered[Ceiling(p)], p - low as real, q - low as real);
    }
  }

  lemma EndsOfSorted(values: seq<real>, least: real, greatest: real)
    requires least in values && greatest in values && forall v :: v in values ==> least <= v <= greatest
    ensures SortedValues(values)[0] == least && SortedValues(values)[|values| - 1] == greatest
  {
    var ordered := SortedValues(values);
    SortedValuesHold(values);
    SameMembers(ordered, values);
    var i :| 0 <= i < |ordered| && ordered[i] == least;
    var j :| 0 <= j < |ordered| && ordered[j] == greatest;
    assert ordered[0] in ordered && ordered[|values| - 1] in ordered;
  }

  /** A percentile lies between the least and the greatest value, and equals them at the ends. */
  lemma PercentileInRange(values: seq<real>, fraction: real, least: real, greatest: real)
    requires 0.0 <= fraction <= 1.0
    requires least in values && greatest in values && forall v :: v in values ==> least <= v <= greatest
    ensures least <= Percentile(values, fraction).value <= greatest
    ensures Percentile(values, 0.0) == Some(least) && Percentile(values, 1.0) == Some(greatest)
  {
    var ordered, last := SortedValues(values), |values| - 1;
    SortedValuesHold(values);
    EndsOfSorted(values, least, greatest);
    hide SortedValues;
    InterpolateMonotone(ordered, 0.0, Position(fraction, last));
    InterpolateMonotone(ordered, Position(fraction, last), last as real);
    InterpolateBetween(ordered, 0.0);
    InterpolateBetween(ordered, last as real);
  }

  /** A greater fraction gives no smaller percentile: p50 never exceeds p90. */
  lemma PercentileMonotone(values: seq<real>, f: real, g: real)
    requires 0.0 <= f <= g <= 1.0 && values != []
    ensures Percentile(values, f).value <= Percentile(values, g).value
  {
    SortedValuesHold(values);
    PositionMonotone(f, g, |values| - 1);
    InterpolateMonotone(SortedValues(values), Position(f, |values| - 1), Position(g, |values| - 1));
  }

  /** A percentile depends only on which values there are. */
  lemma PercentileIgnoresOrder(a: seq<real>, b: seq<real>, fraction: real)
    requires 0.0 <= fraction <= 1.0 && multiset(a) == multiset(b)
    ensures Percentile(a, fraction) == Percentile(b, fraction)
  {
    assert |a| == |multiset(a)| == |multiset(b)| == |b|;
    SortedValuesHold(a);
    SortedValuesHold(b);
    AscendingIsUnique(SortedValues(a), SortedValues(b));
  }

  // ------------------------------------------------------------------ what the interpolation gives

  lemma FloorOf(k: int, x: real)
    requires k as real <= x < (k + 1) as real
    ensures x.Floor == k
  {}

  lemma Weighted(low: real, high: real, w: real)
    ensures low + (high - low) * w == (1.0 - w) * low + w * high
  {}

  /** At a rank, its value. */
  lemma InterpolateOn(ordered: seq<real>, k: nat)
    requires k < |ordered|
    ensures Interpolate(ordered, k as real) == ordered[k]
  {
    FloorOf(k, k as real);
    FloorOf(-(k as int), -(k as real));
  }

  lemma InterpolateInside(ordered: seq<real>, k: nat, w: real)
    requires k + 1 < |ordered| && 0.0 < w < 1.0
    ensures Interpolate(ordered, k as real + w) == ordered[k] + (ordered[k + 1] - ordered[k]) * w
  {
    var position := k as real + w;
    FloorOf(k, position);
    FloorOf(-(k as int + 1), -position);
    assert position - k as real == w;
  }

  lemma InterpolateAt(ordered: seq<real>, k: nat, w: real)
    requires k + 1 < |ordered| && 0.0 <= w <= 1.0
    ensures Interpolate(ordered, k as real + w) == (1.0 - w) * ordered[k] + w * ordered[k + 1]
  {
    hide Interpolate;
    if w == 0.0 {
      InterpolateOn(ordered, k);
      assert k as real + w == k as real;
    } else if w == 1.0 {
      InterpolateOn(ordered, k + 1);
      assert k as real + w == (k + 1) as real;
    } else {
      InterpolateInside(ordered, k, w);
      Weighted(ordered[k], ordered[k + 1], w);
    }
  }

  lemma SortedIs(values: seq<real>, ordered: seq<real>)
    requires Ascending(ordered) && multiset(ordered) == multiset(values)
    ensures |ordered| == |values| && SortedValues(values) == ordered
  {
    assert |ordered| == |multiset(ordered)| == |multiset(values)| == |values|;
    SortedValuesHold(values);
    AscendingIsUnique(ordered, SortedValues(values));
  }

  /** With the values in order, and the position given. */
  lemma PercentileAt(values: seq<real>, ordered: seq<real>, fraction: real, position: real)
    requires Ascending(ordered) && multiset(ordered) == multiset(values) && ordered != []
    requires 0.0 <= fraction <= 1.0 && fraction * (|ordered| - 1) as real == position
    ensures 0.0 <= position <= (|ordered| - 1) as real
    ensures Percentile(values, fraction) == Some(Interpolate(ordered, position))
  {
    SortedIs(values, ordered);
    hide Interpolate, SortedValues, Ascending;
    assert Position(fraction, |ordered| - 1) == position;
  }

  /** Between two neighbouring ranks a percentile is their weighted mean. */
  lemma PercentileInterpolates(values: seq<real>, ordered: seq<real>, fraction: real, k: nat, w: real)
    requires Ascending(ordered) && multiset(ordered) == multiset(values) && k + 1 < |ordered|
    requires 0.0 <= fraction <= 1.0 && 0.0 <= w <= 1.0 && fraction * (|ordered| - 1) as real == k as real + w
    ensures Percentile(values, fraction) == Some((1.0 - w) * ordered[k] + w * ordered[k + 1])
  {
    hide Percentile, Interpolate, Ascending;
    PercentileAt(values, ordered, fraction, k as real + w);
    InterpolateAt(ordered, k, w);
  }

  /** At a rank it is the value of that rank. */
  lemma PercentileAtRank(values: seq<real>, ordered: seq<real>, fraction: real, k: nat)
    requires Ascending(ordered) && multiset(ordered) == multiset(values) && k < |ordered|
    requires 0.0 <= fraction <= 1.0 && fraction * (|ordered| - 1) as real == k as real
    ensures Percentile(values, fraction) == Some(ordered[k])
  {
    hide Percentile, Interpolate, Ascending;
    PercentileAt(values, ordered, fraction, k as real);
    InterpolateOn(ordered, k);
  }

  lemma Mean(a: real, b: real, w: real)
    requires w == 0.5
    ensures (1.0 - w) * a + w * b == (a + b) / 2.0
  {
    assert (1.0 - w) * a == a / 2.0 && w * b == b / 2.0;
  }

  lemma PercentileOfPair(values: seq<real>, ordered: seq<real>, a: real, b: real, w: real)
    requires Ascending(ordered) && ordered == [a, b] && multiset(values) == multiset(ordered) && 0.0 <= w <= 1.0
    ensures Percentile(values, w).Some? && Percentile(values, w).value == (1.0 - w) * a + w * b
  {
    hide Percentile, Ascending;
    assert w * (|ordered| - 1) as real == 0 as real + w;
    PercentileInterpolates(values, ordered, w, 0, w);
    assert Percentile(values, w).value == (1.0 - w) * ordered[0] + w * ordered[1];
  }

  /** The median of two values is their mean. */
  lemma MedianOfTwo(values: seq<real>, a: real, b: real)
    requires a <= b && multiset(values) == multiset([a, b])
    ensures Percentile(values, 0.5).Some? && Percentile(values, 0.5).value == (a + b) / 2.0
  {
    var ordered := [a, b];
    assert Ascending(ordered);
    hide Percentile, Ascending;
    PercentileOfPair(values, ordered, a, b, 0.5);
    Mean(a, b, 0.5);
  }

  lemma NothingHasNoPercentile(fraction: real)
    requires 0.0 <= fraction <= 1.0
    ensures Percentile([], fraction) == None
  {}
}
