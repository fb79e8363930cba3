/**
 * `p01/src/main.rs`: the fuel a module of a given mass needs, a third of the mass rounded
 * down, less two, and never below zero (`checked_sub` falls back to 0 on a `usize`
 * underflow).
 */
module FuelCounter {

  /**
   * `fuel_from_mass`: the largest fuel `f` with `3 * (f + 2) <= mass`, or 0 when there is
   * none.
   */
  function FuelFromMass(mass: nat): (fuel: nat)
    ensures fuel == 0 <==> mass <= 8
    ensures fuel > 0 ==> 3 * (fuel + 2) <= mass < 3 * (fuel + 3)
    ensures fuel <= mass / 3
  {
    if mass / 3 >= 2 then mass / 3 - 2 else 0
  }

  /** A heavier module never needs less fuel. */
  lemma FuelIsMonotone(lighter: nat, heavier: nat)
    requires lighter <= heavier
    ensures FuelFromMass(lighter) <= FuelFromMass(heavier)
  {
    assert 3 * (lighter / 3) <= lighter <= heavier < 3 * (heavier / 3 + 1);
  }

  /** The four masses of the test module. */
  lemma FuelExamples()
    ensures FuelFromMass(12) == 2
    ensures FuelFromMass(14) == 2
    ensures FuelFromMass(1969) == 654
    ensures FuelFromMass(100756) == 33583
  {
  }
}
