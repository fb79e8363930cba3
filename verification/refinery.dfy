/**
 * The ore reduction of `p27/src/main.rs` (`run`) and `p28/src/main.rs`
 * (`determine_required_ore`): starting from a need for some FUEL, the reactions are taken out of
 * the table consumers first, and each one whose result is still needed is run just often enough
 * to cover that need, adding its own requirements to what is needed.  What is left at the end
 * should be ORE alone.
 */
module Refinery {
  import opened Util
  import opened Chemicals
  import opened ReactionTables

  /** How much of each chemical is still needed: the `requirements` map of the source. */
  type Needs = map<string, nat>

  const FUEL := "FUEL"
  const ORE := "ORE"

  /** The amount of `name` still needed, none when it is not listed. */
  function Get(needs: Needs, name: string): nat
  {
    if name in needs then needs[name] else 0
  }

  /** `entry(name).or_insert(0)` followed by `+= amount`. */
  function Add(needs: Needs, name: string, amount: nat): (r: Needs)
    ensures r.Keys == needs.Keys + {name}
    ensures Get(r, name) == Get(needs, name) + amount
    ensures forall n :: n != name ==> Get(r, n) == Get(needs, n)
  {
    needs[name := Get(needs, name) + amount]
  }

  /** The requirements `items` of a reaction run `runs` times, added to `needs` one after another. */
  function AddAll(needs: Needs, items: seq<ItemSpec>, runs: nat): Needs
    decreases |items|
  {
    if items == [] then needs
    else
      var last := items[|items| - 1];
      Add(AddAll(needs, items[..|items| - 1], runs), last.name, last.amount * runs)
  }

  /** The total amount of `name` that `items` asks for. */
  function Count(items: seq<ItemSpec>, name: string): nat
    decreases |items|
  {
    if items == [] then 0
    else
      var last := items[|items| - 1];
      Count(items[..|items| - 1], name) + (if last.name == name then last.amount else 0)
  }

  /** Adding the requirements lists their names and raises each need by `runs` times its total. */
  lemma AddAllMeaning(needs: Needs, items: seq<ItemSpec>, runs: nat)
    ensures AddAll(needs, items, runs).Keys == needs.Keys + Names(items)
    ensures forall n :: Get(AddAll(needs, items, runs), n) == Get(needs, n) + runs * Count(items, n)
  {
    AddAllKeys(needs, items, runs);
    forall n
      ensures Get(AddAll(needs, items, runs), n) == Get(needs, n) + runs * Count(items, n)
    {
      AddAllAmount(needs, items, runs, n);
    }
  }

  lemma {:induction false} AddAllKeys(needs: Needs, items: seq<ItemSpec>, runs: nat)
    ensures AddAll(needs, items, runs).Keys == needs.Keys + Names(items)
    decreases |items|
  {
    if items != [] {
      var front, last := items[..|items| - 1], items[|items| - 1];
      AddAllKeys(needs, front, runs);
      assert items == front + [last];
      NamesAppend(front, [last]);
      assert Names([last]) == {last.name};
    }
  }

  lemma {:induction false} AddAllAmount(needs: Needs, items: seq<ItemSpec>, runs: nat, n: string)
    ensures Get(AddAll(needs, items, runs), n) == Get(needs, n) + runs * Count(items, n)
    decreases |items|
  {
    if items != [] {
      var front, last := items[..|items| - 1], items[|items| - 1];
      AddAllAmount(needs, front, runs, n);
      var prev := AddAll(needs, front, runs);
      assert AddAll(needs, items, runs) == Add(prev, last.name, last.amount * runs);
      var c := Count(front, n);
      if last.name == n {
        assert Count(items, n) == c + last.amount;
        Distribute(runs, c, last.amount);
      } else {
        assert Count(items, n) == c;
      }
    }
  }

  /** `((needed - 1) / amount) + 1`: how often a reaction yielding `amount` must run to cover `needed`. */
  function Runs(needed: nat, amount: nat): (m: nat)
    requires needed >= 1 && amount >= 1
    ensures m >= 1 && amount * m >= needed && amount * (m - 1) < needed
  {
    RunsCover(needed, amount);
    (needed - 1) / amount + 1
  }

  lemma RunsCover(needed: nat, amount: nat)
    requires needed >= 1 && amount >= 1
    ensures amount * ((needed - 1) / amount + 1) >= needed
    ensures amount * ((needed - 1) / amount) < needed
  {
    var q, rem := (needed - 1) / amount, (needed - 1) % amount;
    assert needed - 1 == amount * q + rem;
    assert amount * (q + 1) == amount * q + amount;
  }

  /** Fewer runs than `Runs` do not cover the need: it is the least number that does. */
  lemma RunsLeast(needed: nat, amount: nat, k: nat)
    requires needed >= 1 && amount >= 1 && amount * k >= needed
    ensures k >= Runs(needed, amount)
  {
    var m := Runs(needed, amount);
    if k < m {
      MulMonotone(amount, k, m - 1);
    }
  }

  lemma Distribute(r: nat, a: nat, b: nat)
    ensures r * (a + b) == r * a + b * r
  {
  }

  lemma MulMonotone(a: nat, x: nat, y: nat)
    requires x <= y
    ensures a * x <= a * y
  {
    assert a * y == a * x + a * (y - x);
  }

  /**
   * One pass of the loop over the table: when `rx`'s result is needed, that need is removed and
   * `rx`'s requirements are added as often as `rx` must run; a need of zero fails the
   * `assert_ne!`, and a reaction yielding nothing divides by zero.
   */
  function Refine(needs: Needs, rx: Reaction): Result<Needs, ReactionError>
  {
    var name := rx.result.name;
    if name !in needs then Ok(needs)
    else if needs[name] == 0 then Err(ZeroNeed(name))
    else if rx.result.amount == 0 then Err(ZeroYield(name))
    else Ok(AddAll(needs - {name}, rx.requirements, Runs(needs[name], rx.result.amount)))
  }

  /**
   * When the result is needed, the step runs the reaction the least number of times that covers
   * the need, and then needs exactly the requirements that many times over, in place of the result.
   */
  lemma RefineMeaning(needs: Needs, rx: Reaction)
    requires rx.result.name in needs && needs[rx.result.name] > 0 && rx.result.amount > 0
    ensures var m := Runs(needs[rx.result.name], rx.result.amount);
      && Refine(needs, rx).Ok?
      && rx.result.amount * m >= needs[rx.result.name]
      && (forall k: nat :: rx.result.amount * k >= needs[rx.result.name] ==> k >= m)
      && Refine(needs, rx).value.Keys == (needs.Keys - {rx.result.name}) + Names(rx.requirements)
      && (forall n :: Get(Refine(needs, rx).value, n) == Get(needs - {rx.result.name}, n) + m * Count(rx.requirements, n))
  {
    var m := Runs(needs[rx.result.name], rx.result.amount);
    AddAllMeaning(needs - {rx.result.name}, rx.requirements, m);
    forall k: nat | rx.result.amount * k >= needs[rx.result.name]
      ensures k >= m
    {
      RunsLeast(needs[rx.result.name], rx.result.amount, k);
    }
  }

  /** The whole loop: the steps for the reactions of `order`, first to last, stopping at a failure. */
  function Reduce(needs: Needs, order: seq<Reaction>): Result<Needs, ReactionError>
    decreases |order|
  {
    if order == [] then Ok(needs)
    else
      var next :- Refine(needs, order[0]);
      Reduce(next, order[1..])
  }

  /** The end of `run`: exactly one chemical must be left (`assert_eq!`), and it must be ORE. */
  function OreLeft(needs: Needs): (r: Result<nat, ReactionError>)
    ensures r.Ok? <==> needs.Keys == {ORE}
    ensures r.Ok? ==> r.value == needs[ORE]
  {
    if |needs| != 1 then Err(NotReduced(|needs|))
    else if ORE !in needs then Err(NoOre)
    else
      OnlyKey(needs, ORE);
      Ok(needs[ORE])
  }

  lemma OnlyKey(needs: Needs, k: string)
    requires |needs| == 1 && k in needs
    ensures needs.Keys == {k}
  {
    var others := needs.Keys - {k};
    assert needs.Keys == others + {k};
    assert |others| == 0;
  }

  /** The ORE needed for `fuel` units of FUEL when the reactions are handed out in `order`. */
  function OreFor(order: seq<Reaction>, fuel: nat): Result<nat, ReactionError>
  {
    var needs :- Reduce(map[FUEL := fuel], order);
    OreLeft(needs)
  }

  /** Reducing along one order and then another is reducing along both. */
  lemma {:induction false} ReduceAppend(needs: Needs, a: seq<Reaction>, b: seq<Reaction>)
    ensures Reduce(needs, a + b) == (if Reduce(needs, a).Err? then Reduce(needs, a) else Reduce(Reduce(needs, a).value, b))
    decreases |a|
  {
    if a != [] {
      assert (a + b)[0] == a[0] && (a + b)[1..] == a[1..] + b;
      if Refine(needs, a[0]).Ok? {
        ReduceAppend(Refine(needs, a[0]).value, a[1..], b);
      }
    } else {
      assert a + b == b;
    }
  }

  // ------------------------------------------------------------------------------------
  // What the reduction leaves

  /** A chemical that is not needed and that no remaining reaction requires is never needed again. */
  lemma {:induction false} StaysAbsent(needs: Needs, order: seq<Reaction>, x: string)
    requires x !in needs && Reduce(needs, order).Ok?
    requires forall j :: 0 <= j < |order| ==> x !in Names(order[j].requirements)
    ensures x !in Reduce(needs, order).value
    decreases |order|
  {
    if order != [] {
      var rx := order[0];
      if rx.result.name in needs {
        AddAllMeaning(needs - {rx.result.name}, rx.requirements, Runs(needs[rx.result.name], rx.result.amount));
      }
      forall j | 0 <= j < |order[1..]|
        ensures x !in Names(order[1..][j].requirements)
      {
        assert order[1..][j] == order[j + 1];
      }
      StaysAbsent(Refine(needs, rx).value, order[1..], x);
    }
  }

  /**
   * Reducing along an order in which the table hands out its reactions leaves only chemicals no
   * reaction produces: every produced chemical has been replaced by what it is made from.
   */
  lemma {:induction false} ReduceLeavesRaw(t: Table, order: seq<Reaction>, needs: Needs)
    requires Drains(t, order) && Reduce(needs, order).Ok?
    ensures forall k :: k in t ==> k !in Reduce(needs, order).value
    decreases |order|
  {
    if order != [] {
      var rx := order[0];
      var x := rx.result.name;
      var rest := t - {x};
      var next := Refine(needs, rx).value;
      ReduceLeavesRaw(rest, order[1..], next);
      DrainsOnce(t, order);
      forall j | 0 <= j < |order|
        ensures x !in Names(order[j].requirements)
      {
        assert order[j] in t.Values by {
          assert t[order[j].result.name] == order[j];
        }
      }
      assert x !in next by {
        if x in needs {
          AddAllMeaning(needs - {x}, rx.requirements, Runs(needs[x], rx.result.amount));
        }
      }
      forall j | 0 <= j < |order[1..]|
        ensures x !in Names(order[1..][j].requirements)
      {
        assert order[1..][j] == order[j + 1];
      }
      StaysAbsent(next, order[1..], x);
    }
  }

  /** With no FUEL asked for, the reduction never gets anywhere: it stops with an error. */
  lemma {:induction false} NoFuelFails(order: seq<Reaction>)
    ensures OreFor(order, 0).Err?
  {
    NoFuelStuck(order);
  }

  lemma {:induction false} NoFuelStuck(order: seq<Reaction>)
    ensures Reduce(map[FUEL := 0], order).Err? || Reduce(map[FUEL := 0], order) == Ok(map[FUEL := 0])
    decreases |order|
  {
    if order != [] {
      NoFuelStuck(order[1..]);
    }
  }

  // ------------------------------------------------------------------------------------
  // More FUEL needs more ORE

  /**
   * `low` needs the same chemicals as `high`, no more of each, and none of a chemical exactly
   * when `high` needs none of it.
   */
  ghost predicate Below(low: Needs, high: Needs)
  {
    low.Keys == high.Keys && forall n :: n in low ==> low[n] <= high[n] && (low[n] == 0 <==> high[n] == 0)
  }

  lemma RunsMonotone(n1: nat, n2: nat, amount: nat)
    requires 1 <= n1 <= n2 && amount >= 1
    ensures Runs(n1, amount) <= Runs(n2, amount)
  {
    var m1, m2 := Runs(n1, amount), Runs(n2, amount);
    if m1 > m2 {
      MulMonotone(amount, m2, m1 - 1);
    }
  }

  lemma {:induction false} AddAllBelow(low: Needs, high: Needs, items: seq<ItemSpec>, r1: nat, r2: nat)
    requires Below(low, high) && 1 <= r1 <= r2
    ensures Below(AddAll(low, items, r1), AddAll(high, items, r2))
    decreases |items|
  {
    if items != [] {
      var last := items[|items| - 1];
      AddAllBelow(low, high, items[..|items| - 1], r1, r2);
      MulMonotone(last.amount, r1, r2);
      assert last.amount * r1 == 0 <==> last.amount == 0;
      assert last.amount * r2 == 0 <==> last.amount == 0;
    }
  }

  /** Needing more, but of the same chemicals, never changes whether a step fails, and needs more after it. */
  lemma RefineBelow(low: Needs, high: Needs, rx: Reaction)
    requires Below(low, high)
    ensures Refine(low, rx).Ok? <==> Refine(high, rx).Ok?
    ensures Refine(low, rx).Err? ==> Refine(low, rx) == Refine(high, rx)
    ensures Refine(low, rx).Ok? ==> Below(Refine(low, rx).value, Refine(high, rx).value)
  {
    var name := rx.result.name;
    if name in low && low[name] > 0 && rx.result.amount > 0 {
      assert Below(low - {name}, high - {name});
      RunsMonotone(low[name], high[name], rx.result.amount);
      AddAllBelow(low - {name}, high - {name}, rx.requirements,
                  Runs(low[name], rx.result.amount), Runs(high[name], rx.result.amount));
    }
  }

  lemma {:induction false} ReduceBelow(low: Needs, high: Needs, order: seq<Reaction>)
    requires Below(low, high)
    ensures Reduce(low, order).Ok? <==> Reduce(high, order).Ok?
    ensures Reduce(low, order).Err? ==> Reduce(low, order) == Reduce(high, order)
    ensures Reduce(low, order).Ok? ==> Below(Reduce(low, order).value, Reduce(high, order).value)
    decreases |order|
  {
    if order != [] {
      RefineBelow(low, high, order[0]);
      if Refine(low, order[0]).Ok? {
        ReduceBelow(Refine(low, order[0]).value, Refine(high, order[0]).value, order[1..]);
      }
    }
  }

  /**
   * For at least one unit of FUEL, more FUEL never changes whether the reduction fails (nor how),
   * and never needs less ORE.
   */
  lemma OreMonotone(order: seq<Reaction>, f: nat, g: nat)
    requires 1 <= f <= g
    ensures OreFor(order, f).Ok? <==> OreFor(order, g).Ok?
    ensures OreFor(order, f).Err? ==> OreFor(order, f) == OreFor(order, g)
    ensures OreFor(order, f).Ok? ==> OreFor(order, f).value <= OreFor(order, g).value
  {
    assert Below(map[FUEL := f], map[FUEL := g]);
    ReduceBelow(map[FUEL := f], map[FUEL := g], order);
    var low, high := Reduce(map[FUEL := f], order), Reduce(map[FUEL := g], order);
    if low.Ok? {
      assert low.value.Keys == high.value.Keys;
      if low.value.Keys == {ORE} {
        assert OreLeft(low.value).Ok? && OreLeft(high.value).Ok?;
      } else {
        assert OreLeft(low.value).Err? && OreLeft(high.value).Err?;
        assert |low.value| == |low.value.Keys| == |high.value.Keys| == |high.value|;
      }
    }
  }

  // ------------------------------------------------------------------------------------
  // The loop of `run`

  /** The inner `for requirement in reaction.requirements` loop. */
  method AddRequirements(needs: Needs, items: seq<ItemSpec>, runs: nat) returns (r: Needs)
    ensures r == AddAll(needs, items, runs)
  {
    r := needs;
    for i := 0 to |items|
      invariant r == AddAll(needs, items[..i], runs)
    {
      assert items[..i + 1][..i] == items[..i];
      var entry := if items[i].name in r then r[items[i].name] else 0;
      r := r[items[i].name := entry + items[i].amount * runs];
    }
    assert items[..|items|] == items;
  }

  /** The body of the loop over the table, for one reaction. */
  method ApplyReaction(requirements: Needs, reaction: Reaction) returns (r: Result<Needs, ReactionError>)
    ensures r == Refine(requirements, reaction)
  {
    var name := reaction.result.name;
    if name !in requirements {
      return Ok(requirements);
    }
    var neededAmount := requirements[name];
    var rest := requirements - {name};
    if neededAmount == 0 {
      return Err(ZeroNeed(name));
    }
    if reaction.result.amount == 0 {
      return Err(ZeroYield(name));
    }
    var multiplicator := (neededAmount - 1) / reaction.result.amount + 1;
    var updated := AddRequirements(rest, reaction.requirements, multiplicator);
    return Ok(updated);
  }

  /** The parsed reactions of an input: its non-empty lines, each a reaction. */
  function Specs(input: string): Result<seq<Reaction>, ReactionError>
  {
    ParseAll(ParseReaction, NonEmptyLines(input))
  }

  /** `r` is what reducing `fuel` FUEL gives along some order in which `t` hands out its reactions. */
  ghost predicate Explains(t: Table, fuel: nat, r: Result<nat, ReactionError>)
  {
    exists order :: Drains(t, order) && OreFor(order, fuel) == r
  }

  /** Every table without a cycle can hand out all its reactions. */
  lemma {:induction false} DrainExists(t: Table) returns (order: seq<Reaction>)
    requires Named(t) && Acyclic(t)
    ensures Drains(t, order)
    decreases t.Keys
  {
    if t == map[] {
      order := [];
    } else {
      var k := FindSource(t);
      RemoveAcyclic(t, k);
      assert (t - {k}).Keys < t.Keys;
      var rest := DrainExists(t - {k});
      order := [t[k]] + rest;
      assert order[1..] == rest;
    }
  }

  lemma FindSource(t: Table) returns (k: string)
    requires Named(t) && Acyclic(t) && t != map[]
    ensures k in t && !Required(t, k)
  {
    if forall name :: name in t ==> Required(t, name) {
      SourceExists(t);
      assert false;
    }
    k :| k in t && !Required(t, k);
  }

  /** What has been handed out, followed by a way to hand out the rest, hands out everything. */
  lemma {:induction false} HandedOutThenDrains(t0: Table, done: seq<Reaction>, t: Table, rest: seq<Reaction>)
    requires HandedOut(t0, done, t) && Drains(t, rest)
    ensures Drains(t0, done + rest)
    decreases |done|
  {
    if done != [] {
      HandedOutThenDrains(t0 - {done[0].result.name}, done[1..], t, rest);
      assert (done + rest)[1..] == done[1..] + rest;
    } else {
      assert done + rest == rest;
    }
  }

  /** A failure part-way through is the failure along any completion of the order. */
  lemma FailureExplained(t0: Table, done: seq<Reaction>, t: Table, fuel: nat, e: ReactionError)
    requires Named(t) && Acyclic(t) && HandedOut(t0, done, t)
    requires Reduce(map[FUEL := fuel], done) == Err(e)
    ensures Explains(t0, fuel, Err(e))
  {
    var rest := DrainExists(t);
    HandedOutThenDrains(t0, done, t, rest);
    ReduceAppend(map[FUEL := fuel], done, rest);
  }

  /**
   * The loop of `run` of `p27`: reduce one FUEL to ORE while the table hands its reactions out,
   * then read off the ORE.
   */
  method Consume(table: ReactionTable) returns (r: Result<nat, ReactionError>)
    requires table.Valid()
    modifies table
    ensures Explains(old(table.inner), 1, r)
  {
    ghost var t0 := table.inner;
    ghost var done: seq<Reaction> := [];
    var requirements: Needs := map[FUEL := 1];
    while true
      invariant table.Valid() && HandedOut(t0, done, table.inner)
      invariant Reduce(map[FUEL := 1], done) == Ok(requirements)
      decreases table.inner.Keys
    {
      ghost var before := table.inner;
      var next := table.Next();
      if next.None? {
        break;
      }
      var reaction := next.value;
      HandedOutMore(t0, done, before, reaction);
      ReduceAppend(map[FUEL := 1], done, [reaction]);
      done := done + [reaction];
      var step := ApplyReaction(requirements, reaction);
      if step.Err? {
        FailureExplained(t0, done, table.inner, 1, step.error);
        return Err(step.error);
      }
      requirements := step.value;
    }
    HandedOutAll(t0, done);
    r := OreLeft(requirements);
  }

  /**
   * `run` of `p27`: parse the reactions, build the table and consume it.  `fuel` bounds each
   * cycle check of the table.
   */
  method Run(input: string, fuel: nat) returns (r: Result<nat, ReactionError>)
    ensures Specs(input).Err? ==> r == Err(Specs(input).error)
    ensures Specs(input).Ok? && Built(Specs(input).value).Err? ==>
      r.Err? && (r.error == OutOfFuel || r == Err(Built(Specs(input).value).error))
    ensures Specs(input).Ok? && Built(Specs(input).value).Ok? ==>
      r == Err(OutOfFuel) || Explains(Built(Specs(input).value).value, 1, r)
  {
    var specs :- Specs(input);
    var table :- FromIter(specs, fuel);
    r := Consume(table);
  }
}
