// `aggregate` in tools/report_round_trips.py: one row per agent and backend, the busiest first.
module Aggregates {
  import opened Wrappers
  import Baselines
  import Orders
  import opened Reports

  datatype Measure =
    | Requests | PlatformToolCalls | AgentToolCalls | Turns | TokensIn | TokensCached | TokensOut | Cost | WallTime

  const MEASURES :=
    [Requests, PlatformToolCalls, AgentToolCalls, Turns, TokensIn, TokensCached, TokensOut, Cost, WallTime]
  const MANY := 5.0

  datatype Key = Key(agent: string, backend: string)

  /** A measure that nobody took is absent, never zero. */
  datatype Sample = Sample(key: Key, succeeded: bool, measured: map<Measure, real>)

  datatype Spread = Spread(p50: Option<real>, p90: Option<real>)

  datatype Row = Row(key: Key, runs: nat, successRate: real, spreads: seq<Spread>, cost: real, manyCalls: Option<real>)

  // ------------------------------------------------------------------ one row

  /** What a measure or a test gives for each item that has it, in order. */
  function Pick<T(!new), U>(items: seq<T>, f: T -> Option<U>): seq<U> {
    if items == [] then []
    else
      var last := f(items[|items| - 1]);
      Pick(items[..|items| - 1], f) + if last.Some? then [last.value] else []
  }

  function Taken(m: Measure): Sample -> Option<real> {
    (s: Sample) => if m in s.measured then Some(s.measured[m]) else None
  }

  function Succeeded(): Sample -> Option<bool> { (s: Sample) => if s.succeeded then Some(true) else None }

  function Many(): real -> Option<real> { (n: real) => if n >= MANY then Some(n) else None }

  function Of(k: Key): Sample -> Option<Sample> { (s: Sample) => if s.key == k then Some(s) else None }

  function Sum(values: seq<real>): real {
    if values == [] then 0.0 else Sum(values[..|values| - 1]) + values[|values| - 1]
  }

  function SpreadOf(values: seq<real>): Spread {
    Spread(Percentile(values, 0.5), Percentile(values, 0.9))
  }

  function SpreadsOf(group: seq<Sample>): seq<Spread> {
    seq(|MEASURES|, i requires 0 <= i < |MEASURES| => SpreadOf(Pick(group, Taken(MEASURES[i]))))
  }

  function RowOf(round: real -> real, k: Key, group: seq<Sample>): Row
    requires group != []
  {
    var read := Pick(group, Taken(PlatformToolCalls));
    Row(k, |group|, round(|Pick(group, Succeeded())| as real / |group| as real), SpreadsOf(group),
        round(Sum(Pick(group, Taken(Cost)))),
        if read == [] then None else Some(round(|Pick(read, Many())| as real / |read| as real)))
  }

  // ------------------------------------------------------------------ all rows

  function Group(samples: seq<Sample>, k: Key): seq<Sample> { Pick(samples, Of(k)) }

  function Keys(samples: seq<Sample>): set<Key> { set i | 0 <= i < |samples| :: samples[i].key }

  /** The busiest first, then by agent and backend. */
  function Busier(samples: seq<Sample>): (Key, Key) -> bool {
    (a: Key, b: Key) =>
      |Group(samples, a)| > |Group(samples, b)|
      || (|Group(samples, a)| == |Group(samples, b)|
          && (Baselines.Before(a.agent, b.agent) || (a.agent == b.agent && Baselines.Before(a.backend, b.backend))))
  }

  lemma BusierOrders(samples: seq<Sample>)
    ensures Orders.Orders(Busier(samples), Keys(samples))
  {
    forall a, b ensures !Baselines.Before(a, a) && (a == b || Baselines.Before(a, b) || Baselines.Before(b, a)) {
      Baselines.BeforeIsTotal(a, b);
    }
    forall a, b, c | Baselines.Before(a, b) && Baselines.Before(b, c) ensures Baselines.Before(a, c) {
      Baselines.BeforeIsTransitive(a, b, c);
    }
  }

  lemma {:induction false} GroupsHoldSamples(samples: seq<Sample>, k: Key)
    ensures Group(samples, k) != [] <==> k in Keys(samples)
  {
    if samples != [] {
      GroupsHoldSamples(samples[..|samples| - 1], k);
      assert Keys(samples) == Keys(samples[..|samples| - 1]) + {samples[|samples| - 1].key};
    }
  }

  function RowsOf(round: real -> real, samples: seq<Sample>, keys: seq<Key>): seq<Row>
    requires forall i :: 0 <= i < |keys| ==> keys[i] in Keys(samples)
  {
    if keys == [] then []
    else
      var last := keys[|keys| - 1];
      GroupsHoldSamples(samples, last);
      RowsOf(round, samples, keys[..|keys| - 1]) + [RowOf(round, last, Group(samples, last))]
  }

  function OrderedKeys(samples: seq<Sample>): (keys: seq<Key>)
    ensures forall k :: k in keys <==> k in Keys(samples)
  {
    BusierOrders(samples);
    Orders.SortedHoldsAll(Busier(samples), Keys(samples));
    Orders.Sorted(Busier(samples), Keys(samples))
  }

  function Rows(round: real -> real, samples: seq<Sample>): seq<Row> {
    RowsOf(round, samples, OrderedKeys(samples))
  }

  lemma NoSamples()
    ensures Keys([]) == {} && forall k :: Group([], k) == []
  {}

  lemma KeysNext(samples: seq<Sample>, i: nat)
    requires i < |samples|
    ensures Keys(samples[..i + 1]) == Keys(samples[..i]) + {samples[i].key}
  {
    assert samples[..i + 1] == samples[..i] + [samples[i]];
  }

  method GroupSamples(samples: seq<Sample>) returns (groups: map<Key, seq<Sample>>)
    ensures forall k :: (if k in groups then groups[k] else []) == Group(samples, k)
    ensures forall k :: k in groups <==> k in Keys(samples)
  {
    hide Group, Keys;
    groups := map[];
    NoSamples();
    for i := 0 to |samples|
      invariant forall k :: (if k in groups then groups[k] else []) == Group(samples[..i], k)
      invariant forall k :: k in groups <==> k in Keys(samples[..i])
    {
      var k := samples[i].key;
      GroupNext(samples, i);
      KeysNext(samples, i);
      groups := groups[k := (if k in groups then groups[k] else []) + [samples[i]]];
    }
    assert samples[..|samples|] == samples;
  }

  lemma RowsNext(round: real -> real, samples: seq<Sample>, keys: seq<Key>, i: nat)
    requires i < |keys| && (forall j :: 0 <= j < |keys| ==> keys[j] in Keys(samples)) && Group(samples, keys[i]) != []
    ensures RowsOf(round, samples, keys[..i + 1]) ==
              RowsOf(round, samples, keys[..i]) + [RowOf(round, keys[i], Group(samples, keys[i]))]
  {
    assert keys[..i + 1][..i] == keys[..i];
  }

  method BuildRows(round: real -> real, ghost samples: seq<Sample>, groups: map<Key, seq<Sample>>, keys: seq<Key>)
    returns (rows: seq<Row>)
    requires forall i :: 0 <= i < |keys| ==> keys[i] in Keys(samples)
    requires forall k :: k in keys ==> k in groups && groups[k] == Group(samples, k) && groups[k] != []
    ensures rows == RowsOf(round, samples, keys)
  {
    rows := [];
    for i := 0 to |keys|
      invariant rows == RowsOf(round, samples, keys[..i])
    {
      assert keys[i] in keys;
      RowsNext(round, samples, keys, i);
      rows := rows + [RowOf(round, keys[i], groups[keys[i]])];
    }
    assert keys[..|keys|] == keys;
  }

  method Aggregate(round: real -> real, samples: seq<Sample>) returns (rows: seq<Row>)
    ensures rows == Rows(round, samples)
  {
    var groups := GroupSamples(samples);
    var keys := OrderedKeys(samples);
    forall k | k in keys ensures k in groups && groups[k] == Group(samples, k) && groups[k] != [] {
      GroupsHoldSamples(samples, k);
    }
    rows := BuildRows(round, samples, groups, keys);
  }

  lemma GroupNext(samples: seq<Sample>, i: nat)
    requires i < |samples|
    ensures forall k :: Group(samples[..i + 1], k) ==
              Group(samples[..i], k) + if samples[i].key == k then [samples[i]] else []
  {
    assert samples[..i + 1][..i] == samples[..i];
  }

  // ------------------------------------------------------------------ conservation

  function Runs(rows: seq<Row>): nat {
    if rows == [] then 0 else Runs(rows[..|rows| - 1]) + rows[|rows| - 1].runs
  }

  function Sizes(samples: seq<Sample>, keys: seq<Key>): nat {
    if keys == [] then 0 else Sizes(samples, keys[..|keys| - 1]) + |Group(samples, keys[|keys| - 1])|
  }

  lemma {:induction false} RunsAreSizes(round: real -> real, samples: seq<Sample>, keys: seq<Key>)
    requires forall i :: 0 <= i < |keys| ==> keys[i] in Keys(samples)
    ensures Runs(RowsOf(round, samples, keys)) == Sizes(samples, keys)
  {
    if keys != [] {
      var rows := RowsOf(round, samples, keys);
      RunsAreSizes(round, samples, keys[..|keys| - 1]);
      assert rows[..|rows| - 1] == RowsOf(round, samples, keys[..|keys| - 1]);
    }
  }

  predicate Distinct(keys: seq<Key>) {
    forall i, j :: 0 <= i < j < |keys| ==> keys[i] != keys[j]
  }

  /** One more sample adds one to the group of its key. */
  lemma {:induction false} SizesNext(samples: seq<Sample>, keys: seq<Key>)
    requires samples != [] && Distinct(keys)
    ensures Sizes(samples, keys) ==
              Sizes(samples[..|samples| - 1], keys) + if samples[|samples| - 1].key in keys then 1 else 0
  {
    if keys != [] {
      var front, k := keys[..|keys| - 1], keys[|keys| - 1];
      SizesNext(samples, front);
      GroupNext(samples, |samples| - 1);
      assert samples[..|samples|] == samples;
      assert samples[|samples| - 1].key in keys <==>
        samples[|samples| - 1].key in front || samples[|samples| - 1].key == k;
    }
  }

  lemma {:induction false} SizesCount(samples: seq<Sample>, keys: seq<Key>)
    requires Distinct(keys) && forall i :: 0 <= i < |samples| ==> samples[i].key in keys
    ensures Sizes(samples, keys) == |samples|
  {
    if samples == [] {
      NoSizes(keys);
    } else {
      SizesNext(samples, keys);
      SizesCount(samples[..|samples| - 1], keys);
    }
  }

  lemma {:induction false} NoSizes(keys: seq<Key>)
    ensures Sizes([], keys) == 0
  {
    if keys != [] { NoSizes(keys[..|keys| - 1]); }
  }

  /** The runs of the rows add up to the samples: each is in one row. */
  lemma RunsAddUp(round: real -> real, samples: seq<Sample>)
    ensures Runs(Rows(round, samples)) == |samples|
  {
    var keys := OrderedKeys(samples);
    BusierOrders(samples);
    Orders.SortedIsInOrder(Busier(samples), Keys(samples));
    RunsAreSizes(round, samples, keys);
    SizesCount(samples, keys);
  }

  // ------------------------------------------------------------------ what the rows say

  lemma {:induction false} RowAt(round: real -> real, samples: seq<Sample>, keys: seq<Key>, i: nat)
    requires (forall j :: 0 <= j < |keys| ==> keys[j] in Keys(samples)) && i < |keys|
    ensures |RowsOf(round, samples, keys)| == |keys| && Group(samples, keys[i]) != []
    ensures RowsOf(round, samples, keys)[i] == RowOf(round, keys[i], Group(samples, keys[i]))
  {
    GroupsHoldSamples(samples, keys[i]);
    if |keys| > 1 {
      var front := keys[..|keys| - 1];
      RowAt(round, samples, front, if i < |front| then i else 0);
    }
  }

  lemma RowsMatchKeys(round: real -> real, samples: seq<Sample>)
    ensures var keys, rows := OrderedKeys(samples), Rows(round, samples);
            && |rows| == |keys|
            && forall i :: 0 <= i < |keys| ==> rows[i].key == keys[i] && rows[i].runs == |Group(samples, keys[i])|
  {
    hide RowsOf, Group, Keys;
    var keys := OrderedKeys(samples);
    if keys == [] { NoRows(round, samples); }
    forall i | 0 <= i < |keys|
      ensures var rows := Rows(round, samples);
              |rows| == |keys| && rows[i].key == keys[i] && rows[i].runs == |Group(samples, keys[i])|
    {
      RowAt(round, samples, keys, i);
    }
  }

  lemma NoRows(round: real -> real, samples: seq<Sample>)
    ensures RowsOf(round, samples, []) == []
  {}

  predicate KeyBefore(a: Key, b: Key) {
    Baselines.Before(a.agent, b.agent) || (a.agent == b.agent && Baselines.Before(a.backend, b.backend))
  }

  lemma KeysInOrder(samples: seq<Sample>)
    ensures var keys := OrderedKeys(samples);
            forall i, j :: 0 <= i < j < |keys| ==>
              keys[i] != keys[j] && |Group(samples, keys[i])| >= |Group(samples, keys[j])|
              && (|Group(samples, keys[i])| == |Group(samples, keys[j])| ==> KeyBefore(keys[i], keys[j]))
  {
    var keys := OrderedKeys(samples);
    BusierOrders(samples);
    Orders.SortedIsInOrder(Busier(samples), Keys(samples));
    forall i, j | 0 <= i < j < |keys|
      ensures keys[i] != keys[j] && |Group(samples, keys[i])| >= |Group(samples, keys[j])|
      ensures |Group(samples, keys[i])| == |Group(samples, keys[j])| ==> KeyBefore(keys[i], keys[j])
    {
      InOrder(samples, keys[i], keys[j]);
    }
  }

  /** There is one row for each agent and backend that has samples, a busier one never comes after, and rows of as many
      runs are in the order of agent and backend. */
  lemma RowsAreBusiestFirst(round: real -> real, samples: seq<Sample>)
    ensures var rows := Rows(round, samples);
            && (forall k :: k in Keys(samples) <==> exists i :: 0 <= i < |rows| && rows[i].key == k)
            && (forall i, j :: 0 <= i < j < |rows| ==> rows[i].runs >= rows[j].runs && rows[i].key != rows[j].key)
            && (forall i, j :: 0 <= i < j < |rows| && rows[i].runs == rows[j].runs ==>
                  KeyBefore(rows[i].key, rows[j].key))
  {
    hide Rows, Group, Keys;
    RowsMatchKeys(round, samples);
    KeysInOrder(samples);
    var keys, rows := OrderedKeys(samples), Rows(round, samples);
    hide OrderedKeys;
    forall k ensures k in Keys(samples) <==> exists i :: 0 <= i < |rows| && rows[i].key == k {
      assert k in keys <==> k in Keys(samples);
      if k in keys {
        var i :| 0 <= i < |keys| && keys[i] == k;
        assert rows[i].key == k;
      }
    }
  }

  lemma InOrder(samples: seq<Sample>, a: Key, b: Key)
    requires Busier(samples)(a, b)
    ensures a != b && |Group(samples, a)| >= |Group(samples, b)|
    ensures |Group(samples, a)| == |Group(samples, b)| ==> KeyBefore(a, b)
  {
    Baselines.BeforeIsTotal(a.agent, b.agent);
    Baselines.BeforeIsTotal(a.backend, b.backend);
  }

  lemma {:induction false} PickIsNoLonger<T(!new), U>(items: seq<T>, f: T -> Option<U>)
    ensures |Pick(items, f)| <= |items|
  {
    if items != [] { PickIsNoLonger(items[..|items| - 1], f); }
  }

  /** Before rounding, the rate of success and the share of many calls lie between 0 and 1. */
  lemma RatesAreShares(k: Key, group: seq<Sample>)
    requires group != []
    ensures var row := RowOf((x: real) => x, k, group);
            0.0 <= row.successRate <= 1.0 && (row.manyCalls.Some? ==> 0.0 <= row.manyCalls.value <= 1.0)
  {
    var read := Pick(group, Taken(PlatformToolCalls));
    PickIsNoLonger(group, Succeeded());
    PickIsNoLonger(read, Many());
    ShareIsBetween(|Pick(group, Succeeded())|, |group|);
    if read != [] { ShareIsBetween(|Pick(read, Many())|, |read|); }
  }

  lemma ShareIsBetween(part: nat, whole: nat)
    requires part <= whole && whole > 0
    ensures 0.0 <= part as real / whole as real <= 1.0
  {}

  // ------------------------------------------------------------------ the order of the samples does not matter

  lemma {:induction false} PickConcat<T(!new), U>(a: seq<T>, b: seq<T>, f: T -> Option<U>)
    ensures Pick(a + b, f) == Pick(a, f) + Pick(b, f)
  {
    if b == [] {
      assert a + b == a;
    } else {
      PickConcat(a, b[..|b| - 1], f);
      assert (a + b)[..|a + b| - 1] == a + b[..|b| - 1];
    }
  }

  /** Taking one item out of the middle. */
  lemma WithoutOne<T>(items: seq<T>, i: nat)
    requires i < |items|
    ensures multiset(items[..i] + items[i + 1..]) == multiset(items) - multiset{items[i]}
  {
    Around(items, i);
  }

  lemma Around<T>(items: seq<T>, i: nat)
    requires i < |items|
    ensures items[..i] + [items[i]] + items[i + 1..] == items
  {}

  lemma PickAround<T(!new), U>(items: seq<T>, f: T -> Option<U>, i: nat)
    requires i < |items|
    ensures Pick(items, f) == Pick(items[..i], f) + Pick([items[i]], f) + Pick(items[i + 1..], f)
    ensures Pick(items[..i] + items[i + 1..], f) == Pick(items[..i], f) + Pick(items[i + 1..], f)
  {
    hide Pick;
    Around(items, i);
    PickConcat(items[..i] + [items[i]], items[i + 1..], f);
    PickConcat(items[..i], [items[i]], f);
    PickConcat(items[..i], items[i + 1..], f);
  }

  lemma PickOut<T(!new), U(!new)>(items: seq<T>, f: T -> Option<U>, i: nat)
    requires i < |items|
    ensures multiset(Pick(items, f)) == multiset(Pick(items[..i] + items[i + 1..], f)) + multiset(Pick([items[i]], f))
  {
    PickAround(items, f, i);
    MiddleOut(Pick(items[..i], f), Pick([items[i]], f), Pick(items[i + 1..], f));
  }

  lemma MiddleOut<T>(a: seq<T>, b: seq<T>, c: seq<T>)
    ensures multiset(a + b + c) == multiset(a + c) + multiset(b)
  {}

  /** What is picked depends only on which items there are. */
  lemma {:induction false} PickIgnoresOrder<T(!new), U(!new)>(a: seq<T>, b: seq<T>, f: T -> Option<U>)
    requires multiset(a) == multiset(b)
    ensures multiset(Pick(a, f)) == multiset(Pick(b, f))
    decreases |a|
  {
    if a == [] {
      assert b == [] by { assert |multiset(b)| == 0; }
    } else {
      var x := a[|a| - 1];
      assert x in multiset(b);
      var i :| 0 <= i < |b| && b[i] == x;
      WithoutOne(a, |a| - 1);
      WithoutOne(b, i);
      assert a[..|a| - 1] + a[|a|..] == a[..|a| - 1];
      PickIgnoresOrder(a[..|a| - 1], b[..i] + b[i + 1..], f);
      PickOut(a, f, |a| - 1);
      PickOut(b, f, i);
      assert a[|a| - 1] == b[i];
    }
  }

  lemma {:induction false} SumConcat(a: seq<real>, b: seq<real>)
    ensures Sum(a + b) == Sum(a) + Sum(b)
  {
    if b == [] {
      assert a + b == a;
    } else {
      SumConcat(a, b[..|b| - 1]);
      assert (a + b)[..|a + b| - 1] == a + b[..|b| - 1];
    }
  }

  lemma SumOut(values: seq<real>, i: nat)
    requires i < |values|
    ensures Sum(values) == Sum(values[..i] + values[i + 1..]) + values[i]
  {
    Around(values, i);
    SumConcat(values[..i] + [values[i]], values[i + 1..]);
    SumConcat(values[..i], [values[i]]);
    SumConcat(values[..i], values[i + 1..]);
    assert [values[i]][..0] == [];
  }

  /** Where the last of these values stands in another order of them. */
  lemma Standing(a: seq<real>, b: seq<real>) returns (i: nat)
    requires a != [] && multiset(a) == multiset(b)
    ensures i < |b| && b[i] == a[|a| - 1] && multiset(a[..|a| - 1]) == multiset(b[..i] + b[i + 1..])
  {
    var x := a[|a| - 1];
    assert x in multiset(b);
    i :| 0 <= i < |b| && b[i] == x;
    WithoutOne(a, |a| - 1);
    WithoutOne(b, i);
    assert a[..|a| - 1] + a[|a|..] == a[..|a| - 1];
  }

  lemma SumNext(a: seq<real>)
    requires a != []
    ensures Sum(a) == Sum(a[..|a| - 1]) + a[|a| - 1]
  {}

  lemma {:induction false} SumIgnoresOrder(a: seq<real>, b: seq<real>)
    requires multiset(a) == multiset(b)
    ensures Sum(a) == Sum(b)
    decreases |a|
  {
    if a == [] {
      assert b == [] by { assert |multiset(b)| == 0; }
    } else {
      var x := a[|a| - 1];
      var i := Standing(a, b);
      hide Sum;
      SumIgnoresOrder(a[..|a| - 1], b[..i] + b[i + 1..]);
      SumOut(b, i);
      SumNext(a);
    }
  }

  lemma SameSize<T>(a: seq<T>, b: seq<T>)
    requires multiset(a) == multiset(b)
    ensures |a| == |b|
  {
    assert |a| == |multiset(a)| == |multiset(b)| == |b|;
  }

  lemma SpreadsIgnoreOrder(a: seq<Sample>, b: seq<Sample>)
    requires multiset(a) == multiset(b)
    ensures SpreadsOf(a) == SpreadsOf(b)
  {
    forall i | 0 <= i < |MEASURES| ensures SpreadsOf(a)[i] == SpreadsOf(b)[i] {
      var x, y := Pick(a, Taken(MEASURES[i])), Pick(b, Taken(MEASURES[i]));
      PickIgnoresOrder(a, b, Taken(MEASURES[i]));
      PercentileIgnoresOrder(x, y, 0.5);
      PercentileIgnoresOrder(x, y, 0.9);
    }
  }

  lemma RowIgnoresOrder(round: real -> real, k: Key, a: seq<Sample>, b: seq<Sample>)
    requires multiset(a) == multiset(b) && a != [] && b != []
    ensures RowOf(round, k, a) == RowOf(round, k, b)
  {
    SameSize(a, b);
    PickIgnoresOrder(a, b, Succeeded());
    SameSize(Pick(a, Succeeded()), Pick(b, Succeeded()));
    SpreadsIgnoreOrder(a, b);
    PickIgnoresOrder(a, b, Taken(Cost));
    SumIgnoresOrder(Pick(a, Taken(Cost)), Pick(b, Taken(Cost)));
    var x, y := Pick(a, Taken(PlatformToolCalls)), Pick(b, Taken(PlatformToolCalls));
    PickIgnoresOrder(a, b, Taken(PlatformToolCalls));
    SameSize(x, y);
    PickIgnoresOrder(x, y, Many());
    SameSize(Pick(x, Many()), Pick(y, Many()));
  }

  lemma SameKeys(a: seq<Sample>, b: seq<Sample>)
    requires multiset(a) == multiset(b)
    ensures Keys(a) == Keys(b) && OrderedKeys(a) == OrderedKeys(b)
  {
    forall s ensures s in a <==> s in b {
      assert s in a <==> s in multiset(a);
      assert s in b <==> s in multiset(b);
    }
    forall k ensures k in Keys(a) <==> k in Keys(b) {
      if k in Keys(a) {
        var i :| 0 <= i < |a| && a[i].key == k;
        assert a[i] in b;
      }
      if k in Keys(b) {
        var i :| 0 <= i < |b| && b[i].key == k;
        assert b[i] in a;
      }
    }
    forall k ensures |Group(a, k)| == |Group(b, k)| {
      PickIgnoresOrder(a, b, Of(k));
      SameSize(Group(a, k), Group(b, k));
    }
    BusierOrders(a);
    BusierOrders(b);
    SameOrderSortsAlike(Busier(a), Busier(b), Keys(a));
  }

  lemma {:induction false} SameOrderSortsAlike<T(!new)>(f: (T, T) -> bool, g: (T, T) -> bool, items: set<T>)
    requires Orders.Orders(f, items) && Orders.Orders(g, items) && forall x, y :: f(x, y) == g(x, y)
    ensures Orders.Sorted(f, items) == Orders.Sorted(g, items)
    decreases |items|
  {
    if items != {} {
      var first := Orders.First(f, items);
      assert Orders.IsFirst(g, first, items);
      Orders.FirstIsUnique(g, items, first, Orders.First(g, items));
      SameOrderSortsAlike(f, g, items - {first});
    }
  }

  lemma {:induction false} RowsOfSameKeys(round: real -> real, a: seq<Sample>, b: seq<Sample>, keys: seq<Key>)
    requires multiset(a) == multiset(b) && Keys(a) == Keys(b)
    requires forall i :: 0 <= i < |keys| ==> keys[i] in Keys(a)
    ensures RowsOf(round, a, keys) == RowsOf(round, b, keys)
  {
    if keys != [] {
      var k := keys[|keys| - 1];
      RowsOfSameKeys(round, a, b, keys[..|keys| - 1]);
      GroupsHoldSamples(a, k);
      GroupsHoldSamples(b, k);
      PickIgnoresOrder(a, b, Of(k));
      RowIgnoresOrder(round, k, Group(a, k), Group(b, k));
    }
  }

  /** The report does not depend on the order of the samples. */
  lemma RowsIgnoreOrder(round: real -> real, a: seq<Sample>, b: seq<Sample>)
    requires multiset(a) == multiset(b)
    ensures Rows(round, a) == Rows(round, b)
  {
    SameKeys(a, b);
    RowsOfSameKeys(round, a, b, OrderedKeys(a));
  }

  /** In every row and for every measure, p50 is at most p90. */
  lemma SpreadsAreOrdered(group: seq<Sample>, i: nat)
    requires i < |MEASURES| && SpreadsOf(group)[i].p50.Some?
    ensures SpreadsOf(group)[i].p90.Some? && SpreadsOf(group)[i].p50.value <= SpreadsOf(group)[i].p90.value
  {
    PercentileMonotone(Pick(group, Taken(MEASURES[i])), 0.5, 0.9);
  }

  // ------------------------------------------------------------------ a row in terms of the samples

  /** The samples of this agent and backend. */
  function RunsOf(samples: seq<Sample>, k: Key): set<nat> {
    set i: nat | i < |samples| && samples[i].key == k
  }

  function SuccessesOf(samples: seq<Sample>, k: Key): set<nat> {
    set i: nat | i < |samples| && samples[i].key == k && samples[i].succeeded
  }

  /** Those that took this measure. */
  function MeasuredOf(samples: seq<Sample>, k: Key, m: Measure): set<nat> {
    set i: nat | i < |samples| && samples[i].key == k && m in samples[i].measured
  }

  /** Those with five calls of the platform's tools or more. */
  function BusyOf(samples: seq<Sample>, k: Key): set<nat> {
    set i: nat |
      && i < |samples| && samples[i].key == k && PlatformToolCalls in samples[i].measured
      && samples[i].measured[PlatformToolCalls] >= 5.0
  }

  /** What they measured, in order. */
  function ValuesOf(samples: seq<Sample>, k: Key, m: Measure): seq<real> {
    if samples == [] then []
    else
      var last := samples[|samples| - 1];
      ValuesOf(samples[..|samples| - 1], k, m)
      + if last.key == k && m in last.measured then [last.measured[m]] else []
  }

  function Share(part: set<nat>, whole: set<nat>): real
    requires whole != {}
  {
    |part| as real / |whole| as real
  }

  predicate RowTells(round: real -> real, samples: seq<Sample>, row: Row) {
    var k := row.key;
    && row.runs == |RunsOf(samples, k)|
    && RunsOf(samples, k) != {} && row.successRate == round(Share(SuccessesOf(samples, k), RunsOf(samples, k)))
    && row.cost == round(Sum(ValuesOf(samples, k, Cost)))
    && row.manyCalls == (if MeasuredOf(samples, k, PlatformToolCalls) == {} then None
                         else Some(round(Share(BusyOf(samples, k), MeasuredOf(samples, k, PlatformToolCalls)))))
  }

  predicate SpreadTells(samples: seq<Sample>, k: Key, m: Measure, s: Spread) {
    s.p50 == Percentile(ValuesOf(samples, k, m), 0.5) && s.p90 == Percentile(ValuesOf(samples, k, m), 0.9)
  }

  /** Which samples are picked: those of the key for which `f` gives something. */
  function Hits<U>(samples: seq<Sample>, k: Key, f: Sample -> Option<U>): set<nat> {
    set i: nat | i < |samples| && samples[i].key == k && f(samples[i]).Some?
  }

  lemma PickLast<T(!new), U>(items: seq<T>, last: seq<T>, f: T -> Option<U>)
    requires |last| <= 1
    ensures Pick(items + last, f) ==
              Pick(items, f) + if last != [] && f(last[0]).Some? then [f(last[0]).value] else []
  {
    PickConcat(items, last, f);
    assert last[..0] == [];
  }

  lemma {:induction false} PickedAreHits<U>(samples: seq<Sample>, k: Key, f: Sample -> Option<U>)
    ensures |Pick(Group(samples, k), f)| == |Hits(samples, k, f)|
  {
    if samples != [] {
      var n := |samples| - 1;
      var last := samples[n];
      PickedAreHits(samples[..n], k, f);
      GroupNext(samples, n);
      assert samples[..n + 1] == samples;
      PickLast(Group(samples[..n], k), if last.key == k then [last] else [], f);
      hide Pick, Group;
      assert Hits(samples, k, f) ==
        Hits(samples[..n], k, f) + if last.key == k && f(last).Some? then {n} else {};
    }
  }

  lemma {:induction false} PickedAreValues(samples: seq<Sample>, k: Key, m: Measure)
    ensures Pick(Group(samples, k), Taken(m)) == ValuesOf(samples, k, m)
  {
    if samples != [] {
      var n := |samples| - 1;
      var last := samples[n];
      PickedAreValues(samples[..n], k, m);
      GroupNext(samples, n);
      assert samples[..n + 1] == samples;
      PickLast(Group(samples[..n], k), if last.key == k then [last] else [], Taken(m));
    }
  }

  /** Both tests at once. */
  function TakenMany(): Sample -> Option<real> {
    (s: Sample) => if Taken(PlatformToolCalls)(s).Some? then Many()(Taken(PlatformToolCalls)(s).value) else None
  }

  lemma {:induction false} PickTwice(items: seq<Sample>)
    ensures Pick(Pick(items, Taken(PlatformToolCalls)), Many()) == Pick(items, TakenMany())
  {
    if items != [] {
      var front, last := items[..|items| - 1], items[|items| - 1];
      PickTwice(front);
      var taken := Taken(PlatformToolCalls)(last);
      PickLast(Pick(front, Taken(PlatformToolCalls)), if taken.Some? then [taken.value] else [], Many());
    }
  }

  lemma {:induction false} GroupIsRuns(samples: seq<Sample>, k: Key)
    ensures |Group(samples, k)| == |RunsOf(samples, k)|
  {
    if samples != [] {
      var n := |samples| - 1;
      GroupIsRuns(samples[..n], k);
      GroupNext(samples, n);
      assert samples[..n + 1] == samples;
      assert RunsOf(samples, k) == RunsOf(samples[..n], k) + if samples[n].key == k then {n} else {};
    }
  }

  lemma GroupCounts(samples: seq<Sample>, k: Key)
    ensures var group := Group(samples, k);
            var read := Pick(group, Taken(PlatformToolCalls));
            && |group| == |RunsOf(samples, k)|
            && |Pick(group, Succeeded())| == |SuccessesOf(samples, k)|
            && |read| == |MeasuredOf(samples, k, PlatformToolCalls)|
            && |Pick(read, Many())| == |BusyOf(samples, k)|
  {
    GroupIsRuns(samples, k);
    PickedAreHits(samples, k, Succeeded());
    assert Hits(samples, k, Succeeded()) == SuccessesOf(samples, k);
    PickedAreHits(samples, k, Taken(PlatformToolCalls));
    assert Hits(samples, k, Taken(PlatformToolCalls)) == MeasuredOf(samples, k, PlatformToolCalls);
    PickTwice(Group(samples, k));
    PickedAreHits(samples, k, TakenMany());
    assert Hits(samples, k, TakenMany()) == BusyOf(samples, k);
  }

  /** Each row counts the samples of its agent and backend: how many there are, the share that succeeded, what they cost
      together, the share with many calls among those that counted their calls. */
  lemma RowsTell(round: real -> real, samples: seq<Sample>, i: nat)
    requires i < |Rows(round, samples)|
    ensures RowTells(round, samples, Rows(round, samples)[i])
  {
    hide Group, Pick, RowsOf, Keys;
    RowsMatchKeys(round, samples);
    var keys := OrderedKeys(samples);
    var k := keys[i];
    RowAt(round, samples, keys, i);
    GroupCounts(samples, k);
    PickedAreValues(samples, k, Cost);
  }

  /** And for each measure it has the two percentiles of what they measured, in the order of the report. */
  lemma RowSpreadsTell(round: real -> real, samples: seq<Sample>, i: nat, j: nat)
    requires i < |Rows(round, samples)| && j < 9
    ensures var row := Rows(round, samples)[i];
            var m := [Requests, PlatformToolCalls, AgentToolCalls, Turns, TokensIn, TokensCached, TokensOut, Cost,
                      WallTime][j];
            |row.spreads| == 9 && SpreadTells(samples, row.key, m, row.spreads[j])
  {
    hide Group, Pick, RowsOf, Keys, Percentile;
    RowsMatchKeys(round, samples);
    RowAt(round, samples, OrderedKeys(samples), i);
    PickedAreValues(samples, OrderedKeys(samples)[i], MEASURES[j]);
  }
}
