// The spending cap of trials/graphify/scripts/claude_shim.py: each call reads the ledger, checks the cap, calls and
// appends its cost, and nothing locks the ledger in between.
module Budgets {

  function Sum(costs: seq<real>): real {
    if costs == [] then 0.0 else Sum(costs[..|costs| - 1]) + costs[|costs| - 1]
  }

  lemma SumNext(costs: seq<real>, cost: real)
    ensures Sum(costs + [cost]) == Sum(costs) + cost
  {
    assert (costs + [cost])[..|costs|] == costs;
  }

  // ------------------------------------------------------------------ one shim alone

  /** The ledger file: one cost per line. */
  class Ledger {
    var costs: seq<real>

    constructor (costs: seq<real>)
      ensures this.costs == costs
    {
      this.costs := costs;
    }

    method Spent() returns (spent: real)
      ensures spent == Sum(costs)
    {
      spent := 0.0;
      for i := 0 to |costs|
        invariant spent == Sum(costs[..i])
      {
        assert costs[..i + 1][..i] == costs[..i];
        spent := spent + costs[i];
      }
      assert costs[..|costs|] == costs;
    }

    /** The whole script when nothing runs beside it; `cost` is what the call will turn out to cost. */
    method Shim(cap: real, cost: real) returns (called: bool)
      modifies this
      ensures called == (Sum(old(costs)) < cap)
      ensures costs == if called then old(costs) + [cost] else old(costs)
    {
      var spent := Spent();
      called := spent < cap;
      if called { costs := costs + [cost]; }
    }
  }

  // ------------------------------------------------------------------ many shims at once

  /** A shim in flight: it read the ledger, or it passed the check and is calling. */
  datatype Phase = Checking(spent: real) | Calling

  datatype State = State(ledger: seq<real>, flight: map<nat, Phase>)

  /** `most` shims at most are in flight, and a call costs at most `perCall`. */
  datatype Limits = Limits(cap: real, perCall: real, most: nat)

  datatype Step =
    | ReadLedger(shim: nat)
    | Check(shim: nat)
    | Append(shim: nat, cost: real)

  predicate Enabled(l: Limits, s: State, step: Step) {
    match step
    case ReadLedger(i) => i !in s.flight && |s.flight| < l.most
    case Check(i) => i in s.flight && s.flight[i].Checking?
    case Append(i, cost) => i in s.flight && s.flight[i].Calling? && 0.0 <= cost <= l.perCall
  }

  function Do(l: Limits, s: State, step: Step): State
    requires Enabled(l, s, step)
  {
    match step
    case ReadLedger(i) => s.(flight := s.flight[i := Checking(Sum(s.ledger))])
    case Check(i) =>
      s.(flight := if s.flight[i].spent >= l.cap then s.flight - {i} else s.flight[i := Calling])
    case Append(i, cost) => State(s.ledger + [cost], s.flight - {i})
  }

  predicate IsRun(l: Limits, s: State, steps: seq<Step>)
    decreases |steps|
  {
    steps == [] || (Enabled(l, s, steps[0]) && IsRun(l, Do(l, s, steps[0]), steps[1..]))
  }

  function Reached(l: Limits, s: State, steps: seq<Step>): State
    requires IsRun(l, s, steps)
    decreases |steps|
  {
    if steps == [] then s else Reached(l, Do(l, s, steps[0]), steps[1..])
  }

  /** Those that will still append a cost. */
  function Spenders(l: Limits, s: State): set<nat> {
    set i | i in s.flight && Spends(l, s.flight[i])
  }

  predicate Spends(l: Limits, phase: Phase) {
    phase.Calling? || phase.spent < l.cap
  }

  /** The ledger with every cost still to come at its greatest. */
  function Potential(l: Limits, s: State): real {
    Sum(s.ledger) + Worst(l, |Spenders(l, s)|)
  }

  /** The most that `n` calls cost. */
  function Worst(l: Limits, n: nat): real {
    l.perCall * n as real
  }

  predicate Bounded(l: Limits, s: State) {
    |s.flight| <= l.most && Potential(l, s) < l.cap + Worst(l, l.most)
  }

  predicate Untouched(l: Limits, start: State, s: State) {
    s.ledger == start.ledger && Spenders(l, s) == {} && |s.flight| <= l.most
  }

  lemma {:induction false} WorstGrows(l: Limits, m: nat, n: nat)
    requires l.perCall >= 0.0 && m <= n
    ensures Worst(l, m) <= Worst(l, n) && Worst(l, 0) == 0.0 && Worst(l, m + 1) == Worst(l, m) + l.perCall
    decreases n
  {
    WorstNext(l, m);
    if m < n {
      WorstNext(l, n - 1);
      WorstGrows(l, m, n - 1);
    }
  }

  lemma WorstNext(l: Limits, m: nat)
    ensures Worst(l, m + 1) == Worst(l, m) + l.perCall
  {
    assert (m + 1) as real == m as real + 1.0;
  }

  lemma SpendersFit(l: Limits, s: State)
    ensures |Spenders(l, s)| <= |s.flight|
  {
    Subset(Spenders(l, s), s.flight.Keys);
    assert |s.flight.Keys| == |s.flight|;
  }

  lemma {:induction false} Subset(a: set<nat>, b: set<nat>)
    requires a <= b
    ensures |a| <= |b|
    decreases |a|
  {
    if a != {} {
      var x :| x in a;
      Subset(a - {x}, b - {x});
    }
  }

  lemma ReadSpenders(l: Limits, s: State, i: nat)
    requires Enabled(l, s, ReadLedger(i))
    ensures var t := Do(l, s, ReadLedger(i));
            && Spenders(l, t) == (if Sum(s.ledger) < l.cap then Spenders(l, s) + {i} else Spenders(l, s))
            && i !in Spenders(l, s) && |t.flight| == |s.flight| + 1
  {
    var t := Do(l, s, ReadLedger(i));
    assert t.flight.Keys == s.flight.Keys + {i};
    assert |t.flight.Keys| == |t.flight| && |s.flight.Keys| == |s.flight|;
    forall j ensures j in Spenders(l, t) <==> j in Spenders(l, s) || (j == i && Sum(s.ledger) < l.cap) {}
  }

  lemma ReadKeepsBound(l: Limits, start: State, s: State, i: nat)
    requires l.perCall >= 0.0 && Enabled(l, s, ReadLedger(i)) && (Bounded(l, s) || Untouched(l, start, s))
    ensures var t := Do(l, s, ReadLedger(i)); Bounded(l, t) || Untouched(l, start, t)
  {
    ReadSpenders(l, s, i);
    SpendersFit(l, s);
    if Sum(s.ledger) < l.cap { WorstGrows(l, |Spenders(l, s)| + 1, l.most); }
  }

  lemma CheckKeepsBound(l: Limits, start: State, s: State, i: nat)
    requires Enabled(l, s, Check(i)) && (Bounded(l, s) || Untouched(l, start, s))
    ensures var t := Do(l, s, Check(i)); Bounded(l, t) || Untouched(l, start, t)
  {
    var t := Do(l, s, Check(i));
    forall j ensures j in Spenders(l, t) <==> j in Spenders(l, s) {}
    assert Spenders(l, t) == Spenders(l, s);
    Subset(t.flight.Keys, s.flight.Keys);
    assert |t.flight.Keys| == |t.flight| && |s.flight.Keys| == |s.flight|;
  }

  lemma AppendSpenders(l: Limits, s: State, i: nat, cost: real)
    requires Enabled(l, s, Append(i, cost))
    ensures var t := Do(l, s, Append(i, cost));
            && Spenders(l, t) == Spenders(l, s) - {i} && i in Spenders(l, s)
            && |t.flight| == |s.flight| - 1 && Sum(t.ledger) == Sum(s.ledger) + cost
  {
    var t := Do(l, s, Append(i, cost));
    SumNext(s.ledger, cost);
    forall j ensures j in Spenders(l, t) <==> j in Spenders(l, s) && j != i {}
    assert t.flight.Keys == s.flight.Keys - {i};
    assert |t.flight.Keys| == |t.flight| && |s.flight.Keys| == |s.flight|;
  }

  lemma AppendKeepsBound(l: Limits, s: State, i: nat, cost: real)
    requires l.perCall >= 0.0 && Enabled(l, s, Append(i, cost)) && Bounded(l, s)
    ensures Bounded(l, Do(l, s, Append(i, cost)))
  {
    AppendSpenders(l, s, i, cost);
    var n := |Spenders(l, s)| - 1;
    assert |Spenders(l, Do(l, s, Append(i, cost)))| == n;
    WorstGrows(l, n, n);
  }

  lemma StepKeepsBound(l: Limits, start: State, s: State, step: Step)
    requires l.perCall >= 0.0 && Enabled(l, s, step) && (Bounded(l, s) || Untouched(l, start, s))
    ensures Bounded(l, Do(l, s, step)) || Untouched(l, start, Do(l, s, step))
  {
    match step
    case ReadLedger(i) => ReadKeepsBound(l, start, s, i);
    case Check(i) => CheckKeepsBound(l, start, s, i);
    case Append(i, cost) =>
      assert i in Spenders(l, s);
      AppendKeepsBound(l, s, i, cost);
  }

  lemma {:induction false} RunKeepsBound(l: Limits, start: State, s: State, steps: seq<Step>)
    requires l.perCall >= 0.0 && IsRun(l, s, steps) && (Bounded(l, s) || Untouched(l, start, s))
    ensures Bounded(l, Reached(l, s, steps)) || Untouched(l, start, Reached(l, s, steps))
    decreases |steps|
  {
    if steps != [] {
      StepKeepsBound(l, start, s, steps[0]);
      RunKeepsBound(l, start, Do(l, s, steps[0]), steps[1..]);
    }
  }

  /** In every interleaving, a ledger that anything was appended to stays below the cap plus one call for each shim that
      may be in flight. */
  lemma SpendIsCapped(l: Limits, ledger: seq<real>, steps: seq<Step>)
    requires l.perCall >= 0.0 && IsRun(l, State(ledger, map[]), steps)
    ensures var s := Reached(l, State(ledger, map[]), steps);
            s.ledger == ledger || Sum(s.ledger) < l.cap + Worst(l, l.most)
  {
    var start := State(ledger, map[]);
    assert Spenders(l, start) == {};
    RunKeepsBound(l, start, start, steps);
    var s := Reached(l, start, steps);
    WorstGrows(l, 0, |Spenders(l, s)|);
  }

  // ------------------------------------------------------------------ the bound is sharp

  lemma {:induction false} OneMore(l: Limits, s: State, steps: seq<Step>, last: Step)
    requires IsRun(l, s, steps) && Enabled(l, Reached(l, s, steps), last)
    ensures IsRun(l, s, steps + [last]) && Reached(l, s, steps + [last]) == Do(l, Reached(l, s, steps), last)
    decreases |steps|
  {
    if steps == [] {
      assert [] + [last] == [last] && [last][1..] == [];
    } else {
      assert (steps + [last])[1..] == steps[1..] + [last];
      OneMore(l, Do(l, s, steps[0]), steps[1..], last);
    }
  }

  /** `n` shims that read the same ledger. */
  function Readers(n: nat, spent: real): (flight: map<nat, Phase>)
    ensures |flight| == n && forall i: int :: i in flight <==> 0 <= i < n
    ensures forall i :: i in flight ==> flight[i] == Checking(spent)
  {
    if n == 0 then map[] else Readers(n - 1, spent)[n - 1 := Checking(spent)]
  }

  /** The first `k` of them passed the check. */
  function Passed(n: nat, k: nat, spent: real): (flight: map<nat, Phase>)
    requires k <= n
    ensures forall i: int :: i in flight <==> 0 <= i < n
    ensures forall i :: i in flight ==> flight[i] == if i < k then Calling else Checking(spent)
  {
    if k == 0 then Readers(n, spent) else Passed(n, k - 1, spent)[k - 1 := Calling]
  }

  /** All passed, and the first `k` are done. */
  function Left(n: nat, k: nat, spent: real): (flight: map<nat, Phase>)
    requires k <= n
    ensures forall i :: i in flight <==> k <= i < n
    ensures forall i :: i in flight ==> flight[i] == Calling
  {
    if k == 0 then Passed(n, n, spent) else Left(n, k - 1, spent) - {k - 1}
  }

  /** All read the ledger before any of them spends. */
  lemma {:induction false} AllRead(l: Limits, spent: real, n: nat) returns (steps: seq<Step>)
    requires n <= l.most
    ensures IsRun(l, State([spent], map[]), steps)
    ensures Reached(l, State([spent], map[]), steps) == State([spent], Readers(n, spent))
  {
    if n == 0 {
      steps := [];
    } else {
      steps := AllRead(l, spent, n - 1);
      OneMore(l, State([spent], map[]), steps, ReadLedger(n - 1));
      steps := steps + [ReadLedger(n - 1)];
      assert [spent][..0] == [] && Sum([spent]) == spent;
    }
  }

  lemma OnePasses(l: Limits, spent: real, n: nat, k: nat)
    requires 0 < k <= n <= l.most && spent < l.cap
    ensures var before := State([spent], Passed(n, k - 1, spent));
            Enabled(l, before, Check(k - 1)) && Do(l, before, Check(k - 1)) == State([spent], Passed(n, k, spent))
  {
    assert (k - 1) in Passed(n, k - 1, spent);
  }

  lemma {:induction false} AllPass(l: Limits, spent: real, n: nat, k: nat) returns (steps: seq<Step>)
    requires k <= n <= l.most && spent < l.cap
    ensures IsRun(l, State([spent], map[]), steps)
    ensures Reached(l, State([spent], map[]), steps) == State([spent], Passed(n, k, spent))
  {
    if k == 0 {
      steps := AllRead(l, spent, n);
    } else {
      hide IsRun, Reached, Enabled, Do, Passed;
      steps := AllPass(l, spent, n, k - 1);
      OnePasses(l, spent, n, k);
      OneMore(l, State([spent], map[]), steps, Check(k - 1));
      steps := steps + [Check(k - 1)];
    }
  }

  /** `k` of the `n` have appended the most a call may cost. */
  predicate Overspent(l: Limits, s: State, n: nat, k: nat, spent: real) {
    k <= n && s.flight == Left(n, k, spent) && |s.ledger| == k + 1 && Sum(s.ledger) == spent + Worst(l, k)
  }

  lemma NoneSpent(l: Limits, n: nat, spent: real)
    ensures Overspent(l, State([spent], Passed(n, n, spent)), n, 0, spent)
  {
    assert [spent][..0] == [] && Sum([spent]) == spent;
  }

  lemma OneSpends(l: Limits, s: State, n: nat, k: nat, spent: real)
    requires l.perCall >= 0.0 && k < n && Overspent(l, s, n, k, spent)
    ensures Enabled(l, s, Append(k, l.perCall)) && Overspent(l, Do(l, s, Append(k, l.perCall)), n, k + 1, spent)
  {
    SumNext(s.ledger, l.perCall);
    WorstNext(l, k);
  }

  lemma {:induction false} AllSpend(l: Limits, spent: real, n: nat, k: nat) returns (steps: seq<Step>)
    requires k <= n <= l.most && spent < l.cap && l.perCall >= 0.0
    ensures IsRun(l, State([spent], map[]), steps)
    ensures Overspent(l, Reached(l, State([spent], map[]), steps), n, k, spent)
  {
    hide Overspent, IsRun, Reached, Spends;
    if k == 0 {
      steps := AllPass(l, spent, n, n);
      NoneSpent(l, n, spent);
    } else {
      var before := AllSpend(l, spent, n, k - 1);
      steps := NextSpends(l, State([spent], map[]), before, spent, n, k - 1);
    }
  }

  lemma NextSpends(l: Limits, start: State, before: seq<Step>, spent: real, n: nat, k: nat) returns (steps: seq<Step>)
    requires l.perCall >= 0.0 && k < n && IsRun(l, start, before)
    requires Overspent(l, Reached(l, start, before), n, k, spent)
    ensures IsRun(l, start, steps) && Overspent(l, Reached(l, start, steps), n, k + 1, spent)
  {
    var s := Reached(l, start, before);
    OneSpends(l, s, n, k, spent);
    OneMore(l, start, before, Append(k, l.perCall));
    steps := before + [Append(k, l.perCall)];
    assert Reached(l, start, steps) == Do(l, s, Append(k, l.perCall));
  }

  /** The bound cannot be lowered: when as many shims as may be in flight read a ledger just below the cap, all of them
      spend. */
  lemma BoundIsSharp(l: Limits, gap: real)
    requires l.perCall >= 0.0 && l.most >= 1 && gap > 0.0
    ensures exists ledger, steps ::
              && IsRun(l, State(ledger, map[]), steps)
              && Reached(l, State(ledger, map[]), steps).ledger != ledger
              && Sum(Reached(l, State(ledger, map[]), steps).ledger) == l.cap + Worst(l, l.most) - gap
  {
    var steps := AllSpend(l, l.cap - gap, l.most, l.most);
    var ledger := [l.cap - gap];
    assert Reached(l, State(ledger, map[]), steps).ledger != ledger;
  }
}
