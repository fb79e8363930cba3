/**
 * `p07/src/main.rs`: a password is a number whose six decimal digits never decrease from left
 * to right and contain two equal neighbours; `run` counts the passwords in a range.
 */
module PasswordRules {

  /** The number of digits a password has. */
  const LENGTH: nat := 6

  /** The value of `d` read as decimal digits, most significant first. */
  function DecimalOf(d: seq<nat>): nat
  {
    if d == [] then 0 else 10 * DecimalOf(d[..|d| - 1]) + d[|d| - 1]
  }

  /**
   * `digits`: the six lowest decimal digits of `num`, most significant first; for a number
   * below 1,000,000 they spell the number itself.
   */
  function Digits(num: nat): (d: seq<nat>)
    ensures |d| == LENGTH
    ensures forall i :: 0 <= i < LENGTH ==> d[i] <= 9
    ensures DecimalOf(d) == num % 1_000_000
  {
    var d := [num / 100_000 % 10, num / 10_000 % 10, num / 1_000 % 10, num / 100 % 10, num / 10 % 10, num % 10];
    DigitsSpell(num, d);
    d
  }

  /** Dropping one more decimal digit: a place's quotient is ten times the next one's plus a digit. */
  lemma PlaceShift(num: nat, place: nat)
    requires place in {1, 10, 100, 1_000, 10_000, 100_000}
    ensures num / place == 10 * (num / (10 * place)) + num / place % 10
  {
    if place == 1 {
    } else if place == 10 {
    } else if place == 100 {
    } else if place == 1_000 {
    } else if place == 10_000 {
    } else {
    }
  }

  /** Six digits as a number, place by place. */
  lemma SixPlaces(d: seq<nat>)
    requires |d| == LENGTH
    ensures DecimalOf(d) == 100_000 * d[0] + 10_000 * d[1] + 1_000 * d[2] + 100 * d[3] + 10 * d[4] + d[5]
  {
    assert DecimalOf(d[..1]) == d[0] by {
      assert d[..1][..0] == [];
    }
    assert DecimalOf(d[..2]) == 10 * d[0] + d[1] by {
      assert d[..2][..1] == d[..1];
    }
    assert DecimalOf(d[..3]) == 100 * d[0] + 10 * d[1] + d[2] by {
      assert d[..3][..2] == d[..2];
    }
    assert DecimalOf(d[..4]) == 1_000 * d[0] + 100 * d[1] + 10 * d[2] + d[3] by {
      assert d[..4][..3] == d[..3];
    }
    assert DecimalOf(d[..5]) == 10_000 * d[0] + 1_000 * d[1] + 100 * d[2] + 10 * d[3] + d[4] by {
      assert d[..5][..4] == d[..4];
    }
    assert d[..|d| - 1] == d[..5];
  }

  lemma DigitsSpell(num: nat, d: seq<nat>)
    requires d == [num / 100_000 % 10, num / 10_000 % 10, num / 1_000 % 10, num / 100 % 10, num / 10 % 10, num % 10]
    ensures DecimalOf(d) == num % 1_000_000
  {
    SixPlaces(d);
    PlaceShift(num, 1);
    PlaceShift(num, 10);
    PlaceShift(num, 100);
    PlaceShift(num, 1_000);
    PlaceShift(num, 10_000);
    PlaceShift(num, 100_000);
    assert num == 1_000_000 * (num / 1_000_000) + num % 1_000_000;
    assert num / 100_000 == 10 * (num / 1_000_000) + d[0];
    assert num / 10_000 == 100 * (num / 1_000_000) + 10 * d[0] + d[1];
    assert num / 1_000 == 1_000 * (num / 1_000_000) + 100 * d[0] + 10 * d[1] + d[2];
    assert num / 100 == 10_000 * (num / 1_000_000) + 1_000 * d[0] + 100 * d[1] + 10 * d[2] + d[3];
    assert num / 10 == 100_000 * (num / 1_000_000) + 10_000 * d[0] + 1_000 * d[1] + 100 * d[2] + 10 * d[3] + d[4];
  }

  /** The digits never decrease from left to right. */
  predicate Ascending(d: seq<nat>)
  {
    forall i :: 0 <= i < |d| - 1 ==> d[i] <= d[i + 1]
  }

  /** Some digit equals its right neighbour. */
  predicate HasAdjacentPair(d: seq<nat>)
  {
    exists i :: 0 <= i < |d| - 1 && d[i] == d[i + 1]
  }

  /** `ascending_digits`: the loop that ands together the five neighbour comparisons. */
  method AscendingDigits(digits: seq<nat>) returns (res: bool)
    requires |digits| == LENGTH
    ensures res <==> Ascending(digits)
  {
    res := true;
    for i := 0 to LENGTH - 1
      invariant res <==> forall j :: 0 <= j < i ==> digits[j] <= digits[j + 1]
    {
      res := res && digits[i] <= digits[i + 1];
    }
  }

  /** `has_adjacent_identical_digits`: the loop that ors together the five neighbour tests. */
  method HasAdjacentIdenticalDigits(digits: seq<nat>) returns (res: bool)
    requires |digits| == LENGTH
    ensures res <==> HasAdjacentPair(digits)
  {
    res := false;
    for i := 0 to LENGTH - 1
      invariant res <==> exists j :: 0 <= j < i && digits[j] == digits[j + 1]
    {
      res := res || digits[i] == digits[i + 1];
    }
  }

  /** `valid`: both checks on the digits of the number. */
  predicate Valid(num: nat)
  {
    var d := Digits(num);
    Ascending(d) && HasAdjacentPair(d)
  }

  /** No two positions of `d` hold the same digit. */
  predicate Distinct(d: seq<nat>)
  {
    forall i, j :: 0 <= i < j < |d| ==> d[i] != d[j]
  }

  lemma AscendingSpan(d: seq<nat>, i: nat, j: nat)
    requires Ascending(d) && i <= j < |d|
    ensures d[i] <= d[j]
    decreases j - i
  {
    if i < j {
      AscendingSpan(d, i + 1, j);
    }
  }

  /**
   * For digits that never decrease, an equal neighbour pair is the same as a repeated digit
   * anywhere: a password is a sorted digit string that is not all distinct.
   */
  lemma AdjacentPairIffRepeat(d: seq<nat>)
    requires Ascending(d)
    ensures HasAdjacentPair(d) <==> !Distinct(d)
  {
    if !Distinct(d) {
      var i, j :| 0 <= i < j < |d| && d[i] == d[j];
      AscendingSpan(d, i, i + 1);
      AscendingSpan(d, i + 1, j);
      assert d[i] == d[i + 1];
    }
  }

  /** `valid`, stated without neighbours: sorted digits with some digit repeated. */
  lemma ValidIffSortedWithRepeat(num: nat)
    ensures Valid(num) <==> Ascending(Digits(num)) && !Distinct(Digits(num))
  {
    if Ascending(Digits(num)) {
      AdjacentPairIffRepeat(Digits(num));
    }
  }

  /** The numbers of `low..=high` that `valid` accepts, counted from `low` up. */
  function CountValid(valid: nat -> bool, low: nat, high: nat): (count: nat)
    ensures low > high ==> count == 0
    ensures low <= high ==> count <= high - low + 1
    decreases high + 1 - low
  {
    if low > high then 0 else (if valid(low) then 1 else 0) + CountValid(valid, low + 1, high)
  }

  /** The set that `(low..=high).filter(valid)` enumerates. */
  function Accepted(valid: nat -> bool, low: nat, high: nat): set<nat>
  {
    set n: nat | low <= n <= high && valid(n)
  }

  /** The count is the size of the set of accepted numbers in the range. */
  lemma {:induction false} CountIsCardinality(valid: nat -> bool, low: nat, high: nat)
    ensures CountValid(valid, low, high) == |Accepted(valid, low, high)|
    decreases high + 1 - low
  {
    if low > high {
      assert Accepted(valid, low, high) == {};
    } else {
      CountIsCardinality(valid, low + 1, high);
      if valid(low) {
        assert Accepted(valid, low, high) == Accepted(valid, low + 1, high) + {low};
      } else {
        assert Accepted(valid, low, high) == Accepted(valid, low + 1, high);
      }
    }
  }

  /** A weaker test accepts at least as many numbers of the range. */
  lemma {:induction false} CountMonotone(strict: nat -> bool, weak: nat -> bool, low: nat, high: nat)
    requires forall n: nat :: strict(n) ==> weak(n)
    ensures CountValid(strict, low, high) <= CountValid(weak, low, high)
    decreases high + 1 - low
  {
    if low <= high {
      CountMonotone(strict, weak, low + 1, high);
    }
  }

  /** `run`: the number of passwords in `low..=high`. */
  function Run(low: nat, high: nat): (count: nat)
    ensures count == |Accepted((n: nat) => Valid(n), low, high)|
    ensures low <= high ==> count <= high - low + 1
  {
    CountIsCardinality((n: nat) => Valid(n), low, high);
    CountValid((n: nat) => Valid(n), low, high)
  }
}
