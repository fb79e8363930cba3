/**
 * `p28/src/main.rs`: the largest amount of FUEL that one trillion ORE can make.  `run` doubles
 * the FUEL until it needs too much ORE, narrows the range with a binary search, and finishes with
 * a linear scan, checking its answer with two `assert!`s.
 *
 * Each call of `determine_required_ore` drains a fresh clone of the same table.  Clones of one
 * `HashMap` iterate in the same order, so every call sees the reactions in the same order; the
 * model drains one clone once and replays that order for every amount of FUEL.
 */
module FuelSearch {
  import opened Util
  import opened Chemicals
  import opened ReactionTables
  import opened Refinery

  /** The ORE in the cargo hold. */
  const LIMIT: nat := 1_000_000_000_000

  /** `fuel` FUEL can be made from the ORE in the hold. */
  ghost predicate Fits(order: seq<Reaction>, fuel: nat)
  {
    OreFor(order, fuel).Ok? && OreFor(order, fuel).value <= LIMIT
  }

  /** `fuel` is the most FUEL the hold's ORE makes: it fits and no larger amount does. */
  ghost predicate MostFuel(order: seq<Reaction>, fuel: nat)
  {
    Fits(order, fuel) && forall g :: g > fuel ==> !Fits(order, g)
  }

  /** Less FUEL, but at least one, fits whenever more does. */
  lemma FitsBelow(order: seq<Reaction>, f: nat, g: nat)
    requires 1 <= f <= g && Fits(order, g)
    ensures Fits(order, f)
  {
    OreMonotone(order, f, g);
  }

  /** Past an amount of at least one that does not fit, nothing fits. */
  lemma NoFitAbove(order: seq<Reaction>, f: nat)
    requires f >= 1 && !Fits(order, f)
    ensures forall g :: g >= f ==> !Fits(order, g)
  {
    forall g | g >= f
      ensures !Fits(order, g)
    {
      OreMonotone(order, f, g);
    }
  }

  /** `determine_required_ore`: the reduction of `fuel` FUEL along the table's order. */
  method DetermineRequiredOre(order: seq<Reaction>, fuel: nat) returns (r: Result<nat, ReactionError>)
    ensures r == OreFor(order, fuel)
  {
    var requirements: Needs := map[FUEL := fuel];
    for i := 0 to |order|
      invariant Reduce(map[FUEL := fuel], order) == Reduce(requirements, order[i..])
    {
      var step := ApplyReaction(requirements, order[i]);
      assert order[i..][1..] == order[i + 1..];
      if step.Err? {
        return Err(step.error);
      }
      requirements := step.value;
    }
    r := OreLeft(requirements);
  }

  /** `for reaction in table`: the order in which a table hands out its reactions. */
  method Drain(table: ReactionTable) returns (order: seq<Reaction>)
    requires table.Valid()
    modifies table
    ensures Drains(old(table.inner), order)
  {
    ghost var t0 := table.inner;
    order := [];
    while true
      invariant table.Valid() && HandedOut(t0, order, table.inner)
      decreases table.inner.Keys
    {
      ghost var before := table.inner;
      var next := table.Next();
      if next.None? {
        break;
      }
      HandedOutMore(t0, order, before, next.value);
      order := order + [next.value];
    }
    HandedOutAll(t0, order);
  }

  /**
   * The first loop of `run`: FUEL doubles, from one, while it fits.  `steps` bounds the number of
   * doublings.
   */
  method Double(order: seq<Reaction>, steps: nat) returns (r: Result<nat, ReactionError>)
    ensures r.Ok? ==> r.value >= 1 && OreFor(order, r.value).Ok? && !Fits(order, r.value)
    ensures r.Ok? ==> r.value == 1 || Fits(order, r.value / 2)
    ensures r.Err? ==> r.error == OutOfFuel || OreFor(order, 1).Err?
    ensures OreFor(order, 1).Err? ==> r.Err?
  {
    var fuel: nat := 1;
    var budget := steps;
    var ore :- DetermineRequiredOre(order, fuel);
    while ore <= LIMIT
      invariant fuel >= 1 && OreFor(order, fuel) == Ok(ore) && OreFor(order, 1).Ok?
      invariant fuel == 1 || Fits(order, fuel / 2)
      decreases budget
    {
      if budget == 0 {
        return Err(OutOfFuel);
      }
      budget := budget - 1;
      fuel := fuel * 2;
      OreMonotone(order, 1, fuel);
      var doubled := DetermineRequiredOre(order, fuel);
      ore := doubled.value;
    }
    return Ok(fuel);
  }

  /**
   * The binary search of `run`, between half of `fuel`, which fits, and `fuel`, which does not.
   * When `fuel` is one, the search starts from zero FUEL, which always fails.
   */
  method Bisect(order: seq<Reaction>, fuel: nat) returns (r: Result<nat, ReactionError>)
    requires fuel >= 1 && OreFor(order, fuel).Ok? && !Fits(order, fuel)
    requires fuel == 1 || Fits(order, fuel / 2)
    ensures r.Ok? ==> 1 <= r.value <= fuel && forall x :: 1 <= x < r.value ==> Fits(order, x)
    ensures r.Ok? <==> Fits(order, 1)
  {
    NoFuelFails(order);
    var low: nat := fuel / 2;
    var high: nat := fuel;
    if low >= 1 {
      forall x | 1 <= x <= low
        ensures Fits(order, x)
      {
        FitsBelow(order, x, low);
      }
    }
    while low < high
      invariant forall x :: 1 <= x < low ==> Fits(order, x)
      invariant low >= 1 ==> Fits(order, 1)
      invariant low == 0 ==> fuel == 1 && high == 1
      invariant low <= fuel && high <= fuel
      decreases high - low
    {
      var mid := (low + high) / 2;
      if mid >= 1 {
        OreMonotone(order, 1, fuel);
        OreMonotone(order, 1, mid);
      }
      var midOre :- DetermineRequiredOre(order, mid);
      if midOre <= LIMIT {
        forall x | 1 <= x < mid + 1
          ensures Fits(order, x)
        {
          FitsBelow(order, x, mid);
        }
        low := mid + 1;
      } else {
        high := mid - 1;
      }
    }
    return Ok(low);
  }

  /** The last loop of `run` and its two `assert!`s: step up from `low` to the first FUEL that does not fit. */
  method Scan(order: seq<Reaction>, start: nat, fuel: nat) returns (most: nat)
    requires 1 <= start <= fuel && Fits(order, 1) && !Fits(order, fuel)
    requires forall x :: 1 <= x < start ==> Fits(order, x)
    ensures MostFuel(order, most)
  {
    NoFitAbove(order, fuel);
    var low := start;
    OreMonotone(order, 1, low);
    var atLow := DetermineRequiredOre(order, low);
    var lowOre := atLow.value;
    while lowOre <= LIMIT
      invariant 1 <= low <= fuel && OreFor(order, low) == Ok(lowOre)
      invariant forall x :: 1 <= x < low ==> Fits(order, x)
      decreases fuel - low
    {
      assert Fits(order, low);
      low := low + 1;
      OreMonotone(order, 1, low);
      atLow := DetermineRequiredOre(order, low);
      lowOre := atLow.value;
    }
    assert low >= 2;
    assert Fits(order, low - 1);
    var below := DetermineRequiredOre(order, low - 1);
    assert below.value <= LIMIT;
    assert lowOre > LIMIT;
    NoFitAbove(order, low);
    return low - 1;
  }

  /**
   * The search of `run` along one order.  Whether it succeeds depends only on whether one FUEL
   * fits: when it does not, the source's binary search computes the ORE for zero FUEL, which
   * always fails, so the source reports an error rather than an answer of zero.
   */
  method Search(order: seq<Reaction>, steps: nat) returns (r: Result<nat, ReactionError>)
    ensures r.Ok? ==> MostFuel(order, r.value)
    ensures r.Err? ==> r.error == OutOfFuel || !Fits(order, 1)
    ensures !Fits(order, 1) ==> r.Err?
  {
    var fuel :- Double(order, steps);
    var low :- Bisect(order, fuel);
    var most := Scan(order, low, fuel);
    return Ok(most);
  }

  /** What `run` of `p28` answers along an order in which the table hands out its reactions. */
  ghost predicate Answers(order: seq<Reaction>, r: Result<nat, ReactionError>)
  {
    && (r.Ok? ==> MostFuel(order, r.value))
    && (r.Err? ==> r.error == OutOfFuel || !Fits(order, 1))
    && (!Fits(order, 1) ==> r.Err?)
  }

  /**
   * `run` of `p28`: parse the reactions, build the table, and search for the most FUEL one
   * trillion ORE makes.  `fuel` bounds each cycle check, `steps` the doubling.
   */
  method Run(input: string, fuel: nat, steps: nat) returns (r: Result<nat, ReactionError>)
    ensures Specs(input).Err? ==> r == Err(Specs(input).error)
    ensures Specs(input).Ok? && Built(Specs(input).value).Err? ==>
      r.Err? && (r.error == OutOfFuel || r == Err(Built(Specs(input).value).error))
    ensures Specs(input).Ok? && Built(Specs(input).value).Ok? ==>
      r == Err(OutOfFuel) || exists order :: Drains(Built(Specs(input).value).value, order) && Answers(order, r)
  {
    var specs :- Specs(input);
    var table :- FromIter(specs, fuel);
    var copy := table.Clone();
    var order := Drain(copy);
    r := Search(order, steps);
    assert Answers(order, r);
  }
}
