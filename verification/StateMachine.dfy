/**
  The transition guard that the three lifecycles share, runs through a transition table,
  and two results about every run of every table: an amortised bound on what a run can cost,
  and the pumping of a cycle that shows such a bound is attained.
 */
module StateMachine {
  import opened Prelude

  type Table<S> = map<S, set<S>>

  datatype IllegalTransition<+S> = IllegalTransition(entity: string, current: S, target: S)

  predicate Allows<S(==)>(table: Table<S>, current: S, target: S) {
    current in table && target in table[current]
  }

  /** A state with no entry in the table is treated as one that allows nothing. */
  function EnsureTransitionAllowed<S(==)>(current: S, target: S, table: Table<S>, entity: string)
    : (r: Result<(), IllegalTransition<S>>)
    ensures r.Ok? <==> Allows(table, current, target)
    ensures r.Err? ==> r.error == IllegalTransition(entity, current, target)
  {
    var allowed := if current in table then table[current] else {};
    if target !in allowed then Err(IllegalTransition(entity, current, target)) else Ok(())
  }

  /** The states an entity has been in, oldest first, when every change passed the guard. */
  ghost predicate IsRun<S>(table: Table<S>, run: seq<S>) {
    |run| > 0 && forall i, j :: 0 <= i && j == i + 1 < |run| ==> Allows(table, run[i], run[j])
  }

  ghost function Last<S>(run: seq<S>): S
    requires |run| > 0
  {
    run[|run| - 1]
  }

  /** The sum of `cost` over the transitions of a run. */
  ghost function TotalCost<S>(run: seq<S>, cost: (S, S) -> nat): nat {
    if |run| < 2 then 0
    else TotalCost(run[..|run| - 1], cost) + cost(run[|run| - 2], run[|run| - 1])
  }

  ghost function Transitions<S>(run: seq<S>): nat {
    TotalCost(run, (a, b) => 1)
  }

  ghost function CountEdge<S>(run: seq<S>, from: S, to: S): nat {
    TotalCost(run, (a, b) => if a == from && b == to then 1 else 0)
  }

  lemma {:induction false} TransitionsIsLength<S>(run: seq<S>)
    requires |run| > 0
    ensures Transitions(run) == |run| - 1
  {
    if |run| > 1 {
      TransitionsIsLength(run[..|run| - 1]);
    }
  }

  /**
    Amortised cost of any run. If every allowed transition pays for its cost out of the potential
    it releases, except that (from, to) may draw `credit` more, then the whole run costs at most the
    potential it started with plus `credit` for each time it took (from, to).
   */
  lemma {:induction false} AmortisedBound<S(!new)>(
      table: Table<S>, run: seq<S>, potential: S -> nat, cost: (S, S) -> nat, from: S, to: S, credit: nat)
    requires IsRun(table, run)
    requires forall a, b :: Allows(table, a, b) ==>
               cost(a, b) + potential(b) <= potential(a) + (if a == from && b == to then credit else 0)
    ensures TotalCost(run, cost) + potential(Last(run)) <= potential(run[0]) + credit * CountEdge(run, from, to)
  {
    if |run| > 1 {
      var shorter := run[..|run| - 1];
      AmortisedBound(table, shorter, potential, cost, from, to, credit);
      var a, b := run[|run| - 2], run[|run| - 1];
      assert Allows(table, a, b) && Last(shorter) == a;
      CountLastEdge(run, from, to, credit);
    }
  }

  lemma CountLastEdge<S>(run: seq<S>, from: S, to: S, credit: nat)
    requires |run| > 1
    ensures var a, b := run[|run| - 2], run[|run| - 1];
            credit * CountEdge(run, from, to)
            == credit * CountEdge(run[..|run| - 1], from, to) + (if a == from && b == to then credit else 0)
  {
    var hit := if run[|run| - 2] == from && run[|run| - 1] == to then 1 else 0;
    assert CountEdge(run, from, to) == CountEdge(run[..|run| - 1], from, to) + hit;
    assert credit * (CountEdge(run[..|run| - 1], from, to) + hit)
        == credit * CountEdge(run[..|run| - 1], from, to) + credit * hit;
  }

  lemma {:induction false} NoEdgeNoCount<S>(run: seq<S>, from: S, to: S)
    requires forall i, j :: 0 <= i && j == i + 1 < |run| ==> !(run[i] == from && run[j] == to)
    ensures CountEdge(run, from, to) == 0
  {
    if |run| > 1 {
      NoEdgeNoCount(run[..|run| - 1], from, to);
    }
  }

  ghost function Repeat<S>(cycle: seq<S>, k: nat): seq<S> {
    if k == 0 then [] else Repeat(cycle, k - 1) + cycle
  }

  /** Gluing two runs by an allowed transition gives a run, and its counts add up. */
  lemma {:induction false} Glue<S>(table: Table<S>, first: seq<S>, second: seq<S>, from: S, to: S)
    requires IsRun(table, first) && IsRun(table, second)
    requires Allows(table, Last(first), second[0])
    ensures IsRun(table, first + second)
    ensures CountEdge(first + second, from, to) == CountEdge(first, from, to) + CountEdge(second, from, to)
              + (if Last(first) == from && second[0] == to then 1 else 0)
  {
    var all := first + second;
    assert all[..|all| - 1] == first + second[..|second| - 1];
    if |second| == 1 {
      assert all[..|all| - 1] == first;
    } else {
      Glue(table, first, second[..|second| - 1], from, to);
      assert Allows(table, second[|second| - 2], second[|second| - 1]);
      assert all[|all| - 2] == second[|second| - 2];
    }
  }

  /** A run that reaches `from` can take (from, to) and come back to `from` any number of times. */
  lemma {:induction false} Pump<S>(table: Table<S>, lead: seq<S>, cycle: seq<S>, from: S, to: S, k: nat)
    requires IsRun(table, lead) && IsRun(table, cycle)
    requires Last(lead) == from && cycle[0] == to && Last(cycle) == from && Allows(table, from, to)
    requires CountEdge(lead, from, to) == 0 && CountEdge(cycle, from, to) == 0
    ensures IsRun(table, lead + Repeat(cycle, k))
    ensures Last(lead + Repeat(cycle, k)) == from
    ensures |lead + Repeat(cycle, k)| == |lead| + Multiple(k, |cycle|)
    ensures CountEdge(lead + Repeat(cycle, k), from, to) == k
  {
    if k == 0 {
      assert lead + Repeat(cycle, k) == lead;
    } else {
      Pump(table, lead, cycle, from, to, k - 1);
      var before := lead + Repeat(cycle, k - 1);
      Glue(table, before, cycle, from, to);
      assert lead + Repeat(cycle, k) == before + cycle;
    }
  }
}
