/**
 * `p08/src/main.rs`: the password rules of `p07/src/main.rs` (module `PasswordRules`, whose
 * `digits` and `ascending_digits` the source file repeats), with a stricter neighbour rule: some
 * pair of equal neighbours must not be part of a longer group of equal digits.
 */
module PasswordGroups {
  import opened PasswordRules

  /**
   * Positions `i` and `i + 1` hold equal digits and the digits on either side, where there
   * are any, differ from them.
   */
  predicate ExactPairAt(d: seq<nat>, i: int)
  {
    0 <= i < |d| - 1 && d[i] == d[i + 1]
    && (i == 0 || d[i - 1] != d[i])
    && (i + 2 == |d| || d[i + 1] != d[i + 2])
  }

  predicate HasExactPair(d: seq<nat>)
  {
    exists i :: 0 <= i < |d| - 1 && ExactPairAt(d, i)
  }

  /**
   * `has_adjacent_identical_digits` of p08: the test at the left edge, the loop over the three
   * inner pairs, and the test at the right edge, ored together.
   */
  method HasAdjacentIdenticalDigits(digits: seq<nat>) returns (res: bool)
    requires |digits| == LENGTH
    ensures res <==> HasExactPair(digits)
  {
    res := false;
    res := res || (digits[0] == digits[1] && digits[1] != digits[2]);
    assert res <==> ExactPairAt(digits, 0);
    for i := 1 to 4
      invariant res <==> exists j :: 0 <= j < i && ExactPairAt(digits, j)
    {
      res := res || (digits[i - 1] != digits[i] && digits[i] == digits[i + 1] && digits[i + 1] != digits[i + 2]);
      assert ExactPairAt(digits, i) <==> digits[i - 1] != digits[i] && digits[i] == digits[i + 1] && digits[i + 1] != digits[i + 2];
    }
    res := res || (digits[3] != digits[4] && digits[4] == digits[5]);
    assert ExactPairAt(digits, 4) <==> digits[3] != digits[4] && digits[4] == digits[5];
    assert res <==> exists j :: 0 <= j < 5 && ExactPairAt(digits, j);
  }

  /** `valid` of p08: ascending digits with a group of exactly two equal digits. */
  predicate Valid(num: nat)
  {
    var d := Digits(num);
    Ascending(d) && HasExactPair(d)
  }

  /**
   * Positions `i` up to `j` (exclusive) hold one digit, and the group cannot be made longer
   * on either side.
   */
  predicate MaximalGroup(d: seq<nat>, i: int, j: int)
  {
    0 <= i < j <= |d| && (forall k :: i <= k < j ==> d[k] == d[i])
    && (i == 0 || d[i - 1] != d[i]) && (j == |d| || d[j] != d[i])
  }

  /** Positions `i` and `i + 1` form a maximal group of equal digits. */
  predicate GroupOfTwoAt(d: seq<nat>, i: int)
  {
    MaximalGroup(d, i, i + 2)
  }

  /** The stricter rule asks exactly for a maximal group of equal digits of length two. */
  lemma ExactPairIffGroupOfTwo(d: seq<nat>)
    ensures HasExactPair(d) <==> exists i :: GroupOfTwoAt(d, i)
  {
    if HasExactPair(d) {
      var i :| 0 <= i < |d| - 1 && ExactPairAt(d, i);
      assert forall k :: i <= k < i + 2 ==> d[k] == d[i] by {
        assert d[i + 1] == d[i];
      }
      assert GroupOfTwoAt(d, i);
    }
    if exists i :: GroupOfTwoAt(d, i) {
      var i :| GroupOfTwoAt(d, i);
      assert d[i + 1] == d[i];
      assert ExactPairAt(d, i);
    }
  }

  /** Digits whose groups of equal digits all have length one or at least three fail the rule. */
  lemma NoGroupOfTwoFails(d: seq<nat>)
    requires forall i, j :: MaximalGroup(d, i, j) ==> j - i != 2
    ensures !HasExactPair(d)
  {
    ExactPairIffGroupOfTwo(d);
  }

  /** A group of exactly two is in particular a pair of equal neighbours. */
  lemma ExactPairIsPair(d: seq<nat>)
    ensures HasExactPair(d) ==> HasAdjacentPair(d)
  {
    if HasExactPair(d) {
      var i :| 0 <= i < |d| - 1 && ExactPairAt(d, i);
      assert d[i] == d[i + 1];
    }
  }

  /** Every password of p08 is also a password of p07. */
  lemma ValidIsStricter(num: nat)
    ensures Valid(num) ==> PasswordRules.Valid(num)
  {
    ExactPairIsPair(Digits(num));
  }

  /** `run` of p08: the number of its passwords in `low..=high`. */
  function Run(low: nat, high: nat): (count: nat)
    ensures count == |Accepted((n: nat) => Valid(n), low, high)|
    ensures count <= PasswordRules.Run(low, high)
  {
    CountIsCardinality((n: nat) => Valid(n), low, high);
    forall n: nat {
      ValidIsStricter(n);
    }
    CountMonotone((n: nat) => Valid(n), (n: nat) => PasswordRules.Valid(n), low, high);
    CountValid((n: nat) => Valid(n), low, high)
  }
}
