/** Datatypes shared by every module: optional values, results with an error, and instants. */
module Prelude {
  datatype Option<+T> = None | Some(value: T)

  datatype Result<+T, +E> = Ok(value: T) | Err(error: E)

  /** Instants and durations, in whole microseconds. */
  type Time = int

  /** One second, for the TTLs that the code gives in seconds. */
  const SECOND: Time := 1_000_000

  function Abs(x: int): nat {
    if x < 0 then -x else x
  }

  /** n * d, by repeated addition. */
  function Multiple(n: nat, d: Time): Time {
    if n == 0 then 0 else Multiple(n - 1, d) + d
  }

  lemma {:induction false} MultipleIsProduct(n: nat, d: Time)
    ensures Multiple(n, d) == n * d
  {
    if n > 0 {
      MultipleIsProduct(n - 1, d);
    }
  }

  lemma {:induction false} MultipleGrows(m: nat, n: nat, d: Time)
    requires m <= n && 0 <= d
    ensures Multiple(m, d) <= Multiple(n, d)
  {
    if m < n {
      MultipleGrows(m, n - 1, d);
    }
  }

  /** The multiples of `d` that fit into `x` are those up to the quotient. */
  lemma MultipleFitsIff(n: nat, d: Time, x: Time)
    requires 0 < d && 0 <= x
    ensures 0 <= x / d
    ensures Multiple(n, d) <= x <==> n <= x / d
  {
    var q := x / d;
    MultipleIsProduct(q, d);
    if n <= q {
      MultipleGrows(n, q, d);
    } else {
      MultipleGrows(q + 1, n, d);
    }
  }

  /** How many instants, each a gap after the one before, fit into an interval of this width, ends included. */
  function HowMany(width: Time, gap: Time): nat
    requires 0 < gap
    decreases width
  {
    if width < 0 then 0 else 1 + HowMany(width - gap, gap)
  }

  lemma {:induction false} HowManyIff(n: nat, width: Time, gap: Time)
    requires 0 < gap
    ensures n <= HowMany(width, gap) <==> n == 0 || Multiple(n - 1, gap) <= width
    decreases n
  {
    if n > 1 {
      HowManyIff(n - 1, width - gap, gap);
      MultipleGrows(0, n - 1, gap);
    }
  }

  lemma HowManyIsQuotient(width: Time, gap: Time)
    requires 0 < gap && 0 <= width
    ensures HowMany(width, gap) == 1 + width / gap
  {
    var n := HowMany(width, gap);
    HowManyIff(n, width, gap);
    HowManyIff(n + 1, width, gap);
    MultipleFitsIff(n - 1, gap, width);
    MultipleFitsIff(n, gap, width);
  }

  lemma {:induction false} MultipleOfSum(n: nat, d: Time, e: Time)
    ensures Multiple(n, d) + Multiple(n, e) == Multiple(n, d + e)
  {
    if n > 0 {
      MultipleOfSum(n - 1, d, e);
    }
  }

  // ----- finite sets of numbers

  /** The numbers below n. */
  ghost function Below(n: nat): set<nat> {
    if n == 0 then {} else Below(n - 1) + {n - 1}
  }

  lemma {:induction false} BelowIs(n: nat)
    ensures |Below(n)| == n
    ensures forall k: nat :: k in Below(n) <==> k < n
  {
    if n > 0 {
      BelowIs(n - 1);
    }
  }

  lemma {:induction false} GreatestOf(s: set<nat>) returns (greatest: nat)
    requires s != {}
    ensures greatest in s && forall i :: i in s ==> i <= greatest
  {
    var x :| x in s;
    assert s == {x} + (s - {x});
    if s == {x} {
      greatest := x;
    } else {
      var other := GreatestOf(s - {x});
      greatest := if x < other then other else x;
    }
  }

  ghost function Image(s: set<nat>, f: nat -> nat): set<nat> {
    set i | i in s :: f(i)
  }

  lemma {:induction false} ImageSize(s: set<nat>, f: nat -> nat)
    requires forall i, j :: i in s && j in s && f(i) == f(j) ==> i == j
    ensures |Image(s, f)| == |s|
  {
    if s == {} {
      assert Image(s, f) == {};
    } else {
      var i :| i in s;
      ImageSize(s - {i}, f);
      assert Image(s, f) == Image(s - {i}, f) + {f(i)};
    }
  }

  // ----- taking a step at n - 1, n - 2, ..., 0

  ghost function Iterated<A>(step: (A, nat) -> A, a: A, n: nat): A
    decreases n
  {
    if n == 0 then a else Iterated(step, step(a, n - 1), n - 1)
  }

  /** What each step keeps the same stays the same, and what each step extends by one place reaches place 0. */
  lemma {:induction false} IteratedKeeps<A(!new)>(
      step: (A, nat) -> A, same: (A, A) -> bool, holdsFrom: (A, nat) -> bool, a: A, n: nat)
    requires forall b :: same(b, b)
    requires forall b, c, d :: same(b, c) && same(c, d) ==> same(b, d)
    requires forall b, x, y :: y == x + 1 && holdsFrom(b, y) ==> same(b, step(b, x)) && holdsFrom(step(b, x), x)
    requires holdsFrom(a, n)
    ensures same(a, Iterated(step, a, n)) && holdsFrom(Iterated(step, a, n), 0)
    decreases n
  {
    if n > 0 {
      IteratedKeeps(step, same, holdsFrom, step(a, n - 1), n - 1);
    }
  }

  /** What holds of nothing, and of one item more whenever it holds, holds of any number of items. */
  lemma {:induction false} BuiltUp<A(!new)>(holds: seq<A> -> bool, item: nat -> A, n: nat) returns (s: seq<A>)
    requires holds([])
    requires forall t, u :: u == t + [item(|t|)] && holds(t) ==> holds(u)
    ensures |s| == n && holds(s) && forall k :: 0 <= k < n ==> s[k] == item(k)
  {
    if n == 0 {
      s := [];
    } else {
      s := BuiltUp(holds, item, n - 1);
      s := s + [item(n - 1)];
    }
  }
}
