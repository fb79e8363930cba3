/**
 * Repeating a step: the states a step function runs through, the first tick at which a state
 * comes back, and why, for a step that can be undone, that state is the one it started from.
 * The cycle search of `p24/src/main.rs` (module `MoonCycles`) stands on these facts.
 */
module Cycles {
  import opened Divisibility

  /** The state after `n` steps from `s`. */
  function Iterate<S>(step: S -> S, s: S, n: nat): S
  {
    if n == 0 then s else step(Iterate(step, s, n - 1))
  }

  /** Steps can be counted in two runs. */
  lemma {:induction false} IterateAdd<S>(step: S -> S, s: S, m: nat, n: nat)
    ensures Iterate(step, s, m + n) == Iterate(step, Iterate(step, s, m), n)
    decreases n
  {
    if n > 0 {
      IterateAdd(step, s, m, n - 1);
    }
  }

  /** Different states never step to the same state: a step can be undone. */
  ghost predicate Injective<S(!new)>(step: S -> S)
  {
    forall x, y :: step(x) == step(y) ==> x == y
  }

  /** After `c` steps the state is one seen at an earlier step. */
  ghost predicate Repeats<S>(step: S -> S, s: S, c: nat)
  {
    exists j :: 0 <= j < c && Iterate(step, s, j) == Iterate(step, s, c)
  }

  /** `c` is the first step at which a state comes back. */
  ghost predicate FirstRepeat<S>(step: S -> S, s: S, c: nat)
  {
    Repeats(step, s, c) && forall c' :: 0 <= c' < c ==> !Repeats(step, s, c')
  }

  /** No step up to `bound` brings back an earlier state. */
  ghost predicate NoRepeatWithin<S>(step: S -> S, s: S, bound: nat)
  {
    forall c :: 0 <= c <= bound ==> !Repeats(step, s, c)
  }

  /**
   * The map of a cycle search after `n` steps: it holds each state seen so far, with the step at
   * which it was seen.
   */
  ghost predicate Seen<S>(step: S -> S, s: S, states: map<S, nat>, n: nat)
  {
    && (forall x :: x in states ==> states[x] < n && Iterate(step, s, states[x]) == x)
    && (forall j :: 0 <= j < n ==> Iterate(step, s, j) in states && states[Iterate(step, s, j)] == j)
  }

  /** Before the first step nothing has been seen. */
  lemma SeenNothing<S>(step: S -> S, s: S)
    ensures Seen(step, s, map[], 0)
  {
  }

  /** A state not seen before is recorded with its step. */
  lemma SeenAdd<S>(step: S -> S, s: S, states: map<S, nat>, n: nat)
    requires Seen(step, s, states, n) && Iterate(step, s, n) !in states
    ensures Seen(step, s, states[Iterate(step, s, n) := n], n + 1)
  {
  }

  /** Among the states seen, no two are equal. */
  lemma SeenDistinct<S>(step: S -> S, s: S, states: map<S, nat>, n: nat)
    requires Seen(step, s, states, n)
    ensures forall c :: 0 <= c < n ==> !Repeats(step, s, c)
  {
    forall c, j | 0 <= j < c < n
      ensures Iterate(step, s, j) != Iterate(step, s, c)
    {
    }
  }

  /** A state found in the map is the first repeat. */
  lemma SeenFound<S>(step: S -> S, s: S, states: map<S, nat>, n: nat)
    requires Seen(step, s, states, n) && Iterate(step, s, n) in states
    ensures FirstRepeat(step, s, n)
  {
    SeenDistinct(step, s, states, n);
    var j := states[Iterate(step, s, n)];
    assert 0 <= j < n && Iterate(step, s, j) == Iterate(step, s, n);
  }

  /** A state not found in the map is not a repeat either. */
  lemma SeenNew<S>(step: S -> S, s: S, states: map<S, nat>, n: nat)
    requires Seen(step, s, states, n) && Iterate(step, s, n) !in states
    ensures NoRepeatWithin(step, s, n)
  {
    SeenDistinct(step, s, states, n);
    forall j | 0 <= j < n
      ensures Iterate(step, s, j) != Iterate(step, s, n)
    {
      assert Iterate(step, s, j) in states;
    }
  }

  /** There is only one first repeat. */
  lemma FirstRepeatUnique<S>(step: S -> S, s: S, c: nat, d: nat)
    requires FirstRepeat(step, s, c) && FirstRepeat(step, s, d)
    ensures c == d
  {
    assert !(c < d) && !(d < c);
  }

  /** Two equal states of a step that can be undone stay equal when both are taken back `j` steps. */
  lemma {:induction false} RepeatShift<S(!new)>(step: S -> S, s: S, j: nat, c: nat)
    requires Injective(step)
    requires j <= c && Iterate(step, s, j) == Iterate(step, s, c)
    ensures Iterate(step, s, c - j) == s
    decreases j
  {
    if j > 0 {
      assert step(Iterate(step, s, j - 1)) == step(Iterate(step, s, c - 1));
      RepeatShift(step, s, j - 1, c - 1);
    }
  }

  /**
   * When a step can be undone, the first state to come back is the starting state, so the first
   * repeat is a period of the run.
   */
  lemma FirstRepeatIsStart<S(!new)>(step: S -> S, s: S, c: nat)
    requires Injective(step) && FirstRepeat(step, s, c)
    ensures c >= 1 && Iterate(step, s, c) == s
  {
    var j :| 0 <= j < c && Iterate(step, s, j) == Iterate(step, s, c);
    RepeatShift(step, s, j, c);
    assert Repeats(step, s, c - j) by {
      assert Iterate(step, s, 0) == Iterate(step, s, c - j);
    }
    assert c - j >= c;
  }

  /** Any multiple of a period brings the run back to its start as well. */
  lemma {:induction false} PeriodMultiple<S>(step: S -> S, s: S, p: nat, k: nat)
    requires Iterate(step, s, p) == s
    ensures Iterate(step, s, k * p) == s
    decreases k
  {
    if k > 0 {
      PeriodMultiple(step, s, p, k - 1);
      assert k * p == p + (k - 1) * p;
      IterateAdd(step, s, p, (k - 1) * p);
    }
  }

  lemma ReturnsAfterMultiple<S>(step: S -> S, s: S, p: nat, n: nat)
    requires p > 0 && Iterate(step, s, p) == s && Divides(p, n)
    ensures Iterate(step, s, n) == s
  {
    var k :| n == p * k;
    MulMagnitude(p, k);
    PeriodMultiple(step, s, p, k);
    assert k * p == n;
  }

  lemma DividesTrans(a: int, b: int, c: int)
    requires Divides(a, b) && Divides(b, c)
    ensures Divides(a, c)
  {
    var k :| b == a * k;
    var l :| c == b * l;
    assert c == a * (k * l);
  }

  /** `(a * b) / gcd(a, b)`: a positive common multiple of two positive numbers. */
  function Lcm(a: nat, b: nat): (l: nat)
    requires a > 0 && b > 0
    ensures l > 0 && Divides(a, l) && Divides(b, l)
  {
    LcmMultiple(a, b);
    (a * b) / GcdOf(a, b)
  }

  lemma LcmMultiple(a: nat, b: nat)
    requires a > 0 && b > 0
    ensures (a * b) / GcdOf(a, b) > 0 && Divides(a, (a * b) / GcdOf(a, b)) && Divides(b, (a * b) / GcdOf(a, b))
  {
    GcdMeaning(a, b);
    var g := GcdOf(a, b);
    var ka :| a == g * ka;
    var kb :| b == g * kb;
    MulMagnitude(g, ka);
    MulMagnitude(g, kb);
    assert a * b == (ka * b) * g + 0;
    DivModUnique(a * b, g, ka * b, 0);
    assert ka * b == a * kb;
    MulMagnitude(b, ka);
  }
}
