/**
 * The full example of the tests of `p27/src/main.rs`: seven reactions whose one FUEL needs
 * 165 ORE, worked through reaction by reaction.
 */
module RefineryExample {
  import opened Util
  import opened Chemicals
  import opened ReactionTables
  import opened Refinery

  /** The seven reactions of the example, one per line of its input. */
  const RxA := Reaction(ItemSpec("A", 2), [ItemSpec("ORE", 9)])
  const RxB := Reaction(ItemSpec("B", 3), [ItemSpec("ORE", 8)])
  const RxC := Reaction(ItemSpec("C", 5), [ItemSpec("ORE", 7)])
  const RxAB := Reaction(ItemSpec("AB", 1), [ItemSpec("A", 3), ItemSpec("B", 4)])
  const RxBC := Reaction(ItemSpec("BC", 1), [ItemSpec("B", 5), ItemSpec("C", 7)])
  const RxCA := Reaction(ItemSpec("CA", 1), [ItemSpec("C", 4), ItemSpec("A", 1)])
  const RxFuel := Reaction(ItemSpec("FUEL", 1), [ItemSpec("AB", 2), ItemSpec("BC", 3), ItemSpec("CA", 4)])

  lemma AddAllOne(m: Needs, a: ItemSpec, k: nat)
    ensures AddAll(m, [a], k) == Add(m, a.name, a.amount * k)
  {
    assert [a][..0] == [];
  }

  lemma AddAllTwo(m: Needs, a: ItemSpec, b: ItemSpec, k: nat)
    ensures AddAll(m, [a, b], k) == Add(Add(m, a.name, a.amount * k), b.name, b.amount * k)
  {
    assert [a, b][..1] == [a];
    AddAllOne(m, a, k);
  }

  lemma AddAllThree(m: Needs, a: ItemSpec, b: ItemSpec, c: ItemSpec, k: nat)
    ensures AddAll(m, [a, b, c], k) == Add(Add(Add(m, a.name, a.amount * k), b.name, b.amount * k), c.name, c.amount * k)
  {
    assert [a, b, c][..2] == [a, b];
    AddAllTwo(m, a, b, k);
  }

  lemma StepVia(needs: Needs, rx: Reaction, runs: nat, rest: Needs, after: Needs)
    requires rx.result.name in needs && needs[rx.result.name] > 0 && rx.result.amount > 0
    requires Runs(needs[rx.result.name], rx.result.amount) == runs
    requires needs - {rx.result.name} == rest && AddAll(rest, rx.requirements, runs) == after
    ensures Refine(needs, rx) == Ok(after)
  {
  }

  lemma ReduceStep(needs: Needs, rx: Reaction, tail: seq<Reaction>, next: Needs)
    requires Refine(needs, rx) == Ok(next)
    ensures Reduce(needs, [rx] + tail) == Reduce(next, tail)
  {
    assert ([rx] + tail)[0] == rx && ([rx] + tail)[1..] == tail;
  }

  lemma Step1(needs: Needs, rx: Reaction)
    requires needs == map["FUEL" := 1] && rx == RxFuel
    ensures Refine(needs, rx) == Ok(map["AB" := 2, "BC" := 3, "CA" := 4])
  {
    var rest: Needs := map[];
    assert needs - {"FUEL"} == rest;
    AddAllThree(rest, ItemSpec("AB", 2), ItemSpec("BC", 3), ItemSpec("CA", 4), 1);
    var m1 := Add(rest, "AB", 2);
    assert m1 == map["AB" := 2];
    var m2 := Add(m1, "BC", 3);
    assert m2 == map["AB" := 2, "BC" := 3];
    var m3 := Add(m2, "CA", 4);
    assert m3 == map["AB" := 2, "BC" := 3, "CA" := 4];
    StepVia(needs, rx, 1, rest, m3);
  }

  lemma Step2(needs: Needs, rx: Reaction)
    requires needs == map["AB" := 2, "BC" := 3, "CA" := 4] && rx == RxAB
    ensures Refine(needs, rx) == Ok(map["BC" := 3, "CA" := 4, "A" := 6, "B" := 8])
  {
    var rest: Needs := map["BC" := 3, "CA" := 4];
    assert needs - {"AB"} == rest;
    AddAllTwo(rest, ItemSpec("A", 3), ItemSpec("B", 4), 2);
    var m1 := Add(rest, "A", 6);
    assert m1 == map["BC" := 3, "CA" := 4, "A" := 6];
    var m2 := Add(m1, "B", 8);
    assert m2 == map["BC" := 3, "CA" := 4, "A" := 6, "B" := 8];
    StepVia(needs, rx, 2, rest, m2);
  }

  lemma Step3(needs: Needs, rx: Reaction)
    requires needs == map["BC" := 3, "CA" := 4, "A" := 6, "B" := 8] && rx == RxBC
    ensures Refine(needs, rx) == Ok(map["CA" := 4, "A" := 6, "B" := 23, "C" := 21])
  {
    var rest: Needs := map["CA" := 4, "A" := 6, "B" := 8];
    assert needs - {"BC"} == rest;
    AddAllTwo(rest, ItemSpec("B", 5), ItemSpec("C", 7), 3);
    var m1 := Add(rest, "B", 15);
    assert m1 == map["CA" := 4, "A" := 6, "B" := 23];
    var m2 := Add(m1, "C", 21);
    assert m2 == map["CA" := 4, "A" := 6, "B" := 23, "C" := 21];
    StepVia(needs, rx, 3, rest, m2);
  }

  lemma Step4(needs: Needs, rx: Reaction)
    requires needs == map["CA" := 4, "A" := 6, "B" := 23, "C" := 21] && rx == RxCA
    ensures Refine(needs, rx) == Ok(map["A" := 10, "B" := 23, "C" := 37])
  {
    var rest: Needs := map["A" := 6, "B" := 23, "C" := 21];
    assert needs - {"CA"} == rest;
    AddAllTwo(rest, ItemSpec("C", 4), ItemSpec("A", 1), 4);
    var m1 := Add(rest, "C", 16);
    assert m1 == map["A" := 6, "B" := 23, "C" := 37];
    var m2 := Add(m1, "A", 4);
    assert m2 == map["A" := 10, "B" := 23, "C" := 37];
    StepVia(needs, rx, 4, rest, m2);
  }

  lemma Step5(needs: Needs, rx: Reaction)
    requires needs == map["A" := 10, "B" := 23, "C" := 37] && rx == RxA
    ensures Refine(needs, rx) == Ok(map["B" := 23, "C" := 37, "ORE" := 45])
  {
    var rest: Needs := map["B" := 23, "C" := 37];
    assert needs - {"A"} == rest;
    AddAllOne(rest, ItemSpec("ORE", 9), 5);
    var m1 := Add(rest, "ORE", 45);
    assert m1 == map["B" := 23, "C" := 37, "ORE" := 45];
    StepVia(needs, rx, 5, rest, m1);
  }

  lemma Step6(needs: Needs, rx: Reaction)
    requires needs == map["B" := 23, "C" := 37, "ORE" := 45] && rx == RxB
    ensures Refine(needs, rx) == Ok(map["C" := 37, "ORE" := 109])
  {
    var rest: Needs := map["C" := 37, "ORE" := 45];
    assert needs - {"B"} == rest;
    AddAllOne(rest, ItemSpec("ORE", 8), 8);
    var m1 := Add(rest, "ORE", 64);
    assert m1 == map["C" := 37, "ORE" := 109];
    StepVia(needs, rx, 8, rest, m1);
  }

  lemma Step7(needs: Needs, rx: Reaction)
    requires needs == map["C" := 37, "ORE" := 109] && rx == RxC
    ensures Refine(needs, rx) == Ok(map["ORE" := 165])
  {
    var rest: Needs := map["ORE" := 109];
    assert needs - {"C"} == rest;
    AddAllOne(rest, ItemSpec("ORE", 7), 8);
    var m1 := Add(rest, "ORE", 56);
    assert m1 == map["ORE" := 165];
    StepVia(needs, rx, 8, rest, m1);
  }

  lemma Tail7(needs: Needs)
    requires needs == map["C" := 37, "ORE" := 109]
    ensures Reduce(needs, [RxC]) == Ok(map["ORE" := 165])
  {
    Step7(needs, RxC);
    ReduceStep(needs, RxC, [], map["ORE" := 165]);
    assert [RxC] + [] == [RxC];
  }

  lemma Tail6(needs: Needs)
    requires needs == map["B" := 23, "C" := 37, "ORE" := 45]
    ensures Reduce(needs, [RxB, RxC]) == Ok(map["ORE" := 165])
  {
    Step6(needs, RxB);
    ReduceStep(needs, RxB, [RxC], map["C" := 37, "ORE" := 109]);
    assert [RxB] + [RxC] == [RxB, RxC];
    Tail7(map["C" := 37, "ORE" := 109]);
  }

  lemma Tail5(needs: Needs)
    requires needs == map["A" := 10, "B" := 23, "C" := 37]
    ensures Reduce(needs, [RxA, RxB, RxC]) == Ok(map["ORE" := 165])
  {
    Step5(needs, RxA);
    ReduceStep(needs, RxA, [RxB, RxC], map["B" := 23, "C" := 37, "ORE" := 45]);
    assert [RxA] + [RxB, RxC] == [RxA, RxB, RxC];
    Tail6(map["B" := 23, "C" := 37, "ORE" := 45]);
  }

  lemma Tail4(needs: Needs)
    requires needs == map["CA" := 4, "A" := 6, "B" := 23, "C" := 21]
    ensures Reduce(needs, [RxCA, RxA, RxB, RxC]) == Ok(map["ORE" := 165])
  {
    Step4(needs, RxCA);
    ReduceStep(needs, RxCA, [RxA, RxB, RxC], map["A" := 10, "B" := 23, "C" := 37]);
    assert [RxCA] + [RxA, RxB, RxC] == [RxCA, RxA, RxB, RxC];
    Tail5(map["A" := 10, "B" := 23, "C" := 37]);
  }

  lemma Tail3(needs: Needs)
    requires needs == map["BC" := 3, "CA" := 4, "A" := 6, "B" := 8]
    ensures Reduce(needs, [RxBC, RxCA, RxA, RxB, RxC]) == Ok(map["ORE" := 165])
  {
    Step3(needs, RxBC);
    ReduceStep(needs, RxBC, [RxCA, RxA, RxB, RxC], map["CA" := 4, "A" := 6, "B" := 23, "C" := 21]);
    assert [RxBC] + [RxCA, RxA, RxB, RxC] == [RxBC, RxCA, RxA, RxB, RxC];
    Tail4(map["CA" := 4, "A" := 6, "B" := 23, "C" := 21]);
  }

  lemma Tail2(needs: Needs)
    requires needs == map["AB" := 2, "BC" := 3, "CA" := 4]
    ensures Reduce(needs, [RxAB, RxBC, RxCA, RxA, RxB, RxC]) == Ok(map["ORE" := 165])
  {
    Step2(needs, RxAB);
    ReduceStep(needs, RxAB, [RxBC, RxCA, RxA, RxB, RxC], map["BC" := 3, "CA" := 4, "A" := 6, "B" := 8]);
    assert [RxAB] + [RxBC, RxCA, RxA, RxB, RxC] == [RxAB, RxBC, RxCA, RxA, RxB, RxC];
    Tail3(map["BC" := 3, "CA" := 4, "A" := 6, "B" := 8]);
  }

  lemma Tail1(needs: Needs)
    requires needs == map["FUEL" := 1]
    ensures Reduce(needs, [RxFuel, RxAB, RxBC, RxCA, RxA, RxB, RxC]) == Ok(map["ORE" := 165])
  {
    Step1(needs, RxFuel);
    ReduceStep(needs, RxFuel, [RxAB, RxBC, RxCA, RxA, RxB, RxC], map["AB" := 2, "BC" := 3, "CA" := 4]);
    assert [RxFuel] + [RxAB, RxBC, RxCA, RxA, RxB, RxC] == [RxFuel, RxAB, RxBC, RxCA, RxA, RxB, RxC];
    Tail2(map["AB" := 2, "BC" := 3, "CA" := 4]);
  }

  /** One order in which `next` can hand the reactions out: every consumer before what it consumes. */
  const Order165 := [RxFuel, RxAB, RxBC, RxCA, RxA, RxB, RxC]

  /** The table that `from_iter` builds from the seven reactions; `BuiltExample` proves it so. */
  const T0: Table := map["A" := RxA, "B" := RxB, "C" := RxC, "AB" := RxAB, "BC" := RxBC, "CA" := RxCA, "FUEL" := RxFuel]

  lemma NamesOfAll()
    ensures Names(RxFuel.requirements) == {"AB", "BC", "CA"}
    ensures Names(RxAB.requirements) == {"A", "B"}
    ensures Names(RxBC.requirements) == {"B", "C"}
    ensures Names(RxCA.requirements) == {"C", "A"}
    ensures Names(RxA.requirements) == {"ORE"}
    ensures Names(RxB.requirements) == {"ORE"}
    ensures Names(RxC.requirements) == {"ORE"}
  {
    assert RxFuel.requirements[0].name == "AB" && RxFuel.requirements[1].name == "BC" && RxFuel.requirements[2].name == "CA";
    assert RxAB.requirements[0].name == "A" && RxAB.requirements[1].name == "B";
    assert RxBC.requirements[0].name == "B" && RxBC.requirements[1].name == "C";
    assert RxCA.requirements[0].name == "C" && RxCA.requirements[1].name == "A";
    assert RxA.requirements[0].name == "ORE";
    assert RxB.requirements[0].name == "ORE";
    assert RxC.requirements[0].name == "ORE";
  }

  /** A line whose result is new and consumed by nothing in the table yet goes in. */
  lemma BuiltNext(front: seq<Reaction>, t: Table, rx: Reaction)
    requires Built(front) == Ok(t) && rx.result.name !in t
    requires forall a :: a in t ==> rx.result.name !in Names(t[a].requirements)
    requires rx.result.name !in Names(rx.requirements)
    ensures Built(front + [rx]) == Ok(t[rx.result.name := rx])
  {
    UnusedResult(t, rx);
    BuiltAppend(front, t, rx);
  }

  lemma Built1()
    ensures Built([RxA]) == Ok(map["A" := RxA])
  {
    NamesOfAll();
    BuiltNext([], map[], RxA);
  }

  lemma Built2()
    ensures Built([RxA, RxB]) == Ok(map["A" := RxA, "B" := RxB])
  {
    NamesOfAll();
    Built1();
    var t := map["A" := RxA];
    assert forall a :: a in t ==> "B" !in Names(t[a].requirements);
    BuiltNext([RxA], t, RxB);
    assert [RxA] + [RxB] == [RxA, RxB];
  }

  lemma Built3()
    ensures Built([RxA, RxB, RxC]) == Ok(map["A" := RxA, "B" := RxB, "C" := RxC])
  {
    NamesOfAll();
    Built2();
    var t := map["A" := RxA, "B" := RxB];
    assert forall a :: a in t ==> "C" !in Names(t[a].requirements);
    BuiltNext([RxA, RxB], t, RxC);
    assert [RxA, RxB] + [RxC] == [RxA, RxB, RxC];
  }

  lemma Built4()
    ensures Built([RxA, RxB, RxC, RxAB]) == Ok(map["A" := RxA, "B" := RxB, "C" := RxC, "AB" := RxAB])
  {
    NamesOfAll();
    Built3();
    var t := map["A" := RxA, "B" := RxB, "C" := RxC];
    assert forall a :: a in t ==> "AB" !in Names(t[a].requirements);
    BuiltNext([RxA, RxB, RxC], t, RxAB);
    assert [RxA, RxB, RxC] + [RxAB] == [RxA, RxB, RxC, RxAB];
  }

  lemma Built5()
    ensures Built([RxA, RxB, RxC, RxAB, RxBC]) == Ok(map["A" := RxA, "B" := RxB, "C" := RxC, "AB" := RxAB, "BC" := RxBC])
  {
    NamesOfAll();
    Built4();
    var t := map["A" := RxA, "B" := RxB, "C" := RxC, "AB" := RxAB];
    assert forall a :: a in t ==> "BC" !in Names(t[a].requirements);
    BuiltNext([RxA, RxB, RxC, RxAB], t, RxBC);
    assert [RxA, RxB, RxC, RxAB] + [RxBC] == [RxA, RxB, RxC, RxAB, RxBC];
  }

  lemma Built6()
    ensures Built([RxA, RxB, RxC, RxAB, RxBC, RxCA])
      == Ok(map["A" := RxA, "B" := RxB, "C" := RxC, "AB" := RxAB, "BC" := RxBC, "CA" := RxCA])
  {
    NamesOfAll();
    Built5();
    var t := map["A" := RxA, "B" := RxB, "C" := RxC, "AB" := RxAB, "BC" := RxBC];
    assert forall a :: a in t ==> "CA" !in Names(t[a].requirements);
    BuiltNext([RxA, RxB, RxC, RxAB, RxBC], t, RxCA);
    assert [RxA, RxB, RxC, RxAB, RxBC] + [RxCA] == [RxA, RxB, RxC, RxAB, RxBC, RxCA];
  }

  /** No reaction of the example other than FUEL's consumes FUEL. */
  lemma FuelUnused(t: Table)
    requires t == map["A" := RxA, "B" := RxB, "C" := RxC, "AB" := RxAB, "BC" := RxBC, "CA" := RxCA]
    ensures forall a :: a in t ==> "FUEL" !in Names(t[a].requirements)
    ensures "FUEL" !in t && "FUEL" !in Names(RxFuel.requirements)
  {
    NamesOfAll();
  }

  /** The seven lines, in the order of the full example's input, build `T0`. */
  lemma BuiltExample()
    ensures Built([RxA, RxB, RxC, RxAB, RxBC, RxCA, RxFuel]) == Ok(T0)
  {
    Built6();
    var t6 := map["A" := RxA, "B" := RxB, "C" := RxC, "AB" := RxAB, "BC" := RxBC, "CA" := RxCA];
    FuelUnused(t6);
    BuiltNext([RxA, RxB, RxC, RxAB, RxBC, RxCA], t6, RxFuel);
    assert [RxA, RxB, RxC, RxAB, RxBC, RxCA] + [RxFuel] == [RxA, RxB, RxC, RxAB, RxBC, RxCA, RxFuel];
  }

  lemma DrainVia(t: Table, rx: Reaction, tail: seq<Reaction>)
    requires rx.result.name in t && t[rx.result.name] == rx
    requires forall k | k in t :: rx.result.name !in Names(t[k].requirements)
    requires Drains(t - {rx.result.name}, tail)
    ensures Drains(t, [rx] + tail)
  {
    assert ([rx] + tail)[0] == rx && ([rx] + tail)[1..] == tail;
  }

  lemma Drain6(t: Table)
    requires t == map["C" := RxC]
    ensures Drains(t, [RxC])
  {
    NamesOfAll();
    assert t - {"C"} == map[];
    DrainVia(t, RxC, []);
  }

  lemma Drain5(t: Table)
    requires t == map["B" := RxB, "C" := RxC]
    ensures Drains(t, [RxB, RxC])
  {
    NamesOfAll();
    Drain6(t - {"B"});
    DrainVia(t, RxB, [RxC]);
  }

  lemma Drain4(t: Table)
    requires t == map["A" := RxA, "B" := RxB, "C" := RxC]
    ensures Drains(t, [RxA, RxB, RxC])
  {
    NamesOfAll();
    Drain5(t - {"A"});
    DrainVia(t, RxA, [RxB, RxC]);
  }

  lemma Drain3(t: Table)
    requires t == map["CA" := RxCA, "A" := RxA, "B" := RxB, "C" := RxC]
    ensures Drains(t, [RxCA, RxA, RxB, RxC])
  {
    NamesOfAll();
    Drain4(t - {"CA"});
    DrainVia(t, RxCA, [RxA, RxB, RxC]);
  }

  lemma Drain2(t: Table)
    requires t == map["BC" := RxBC, "CA" := RxCA, "A" := RxA, "B" := RxB, "C" := RxC]
    ensures Drains(t, [RxBC, RxCA, RxA, RxB, RxC])
  {
    NamesOfAll();
    Drain3(t - {"BC"});
    DrainVia(t, RxBC, [RxCA, RxA, RxB, RxC]);
  }

  lemma Drain1(t: Table)
    requires t == map["AB" := RxAB, "BC" := RxBC, "CA" := RxCA, "A" := RxA, "B" := RxB, "C" := RxC]
    ensures Drains(t, [RxAB, RxBC, RxCA, RxA, RxB, RxC])
  {
    NamesOfAll();
    Drain2(t - {"AB"});
    DrainVia(t, RxAB, [RxBC, RxCA, RxA, RxB, RxC]);
  }

  lemma ExampleDrains()
    ensures Drains(T0, Order165)
  {
    NamesOfAll();
    Drain1(T0 - {"FUEL"});
    DrainVia(T0, RxFuel, [RxAB, RxBC, RxCA, RxA, RxB, RxC]);
  }

  /**
   * `test_full`: the table of the seven example reactions can hand them out in the order FUEL,
   * AB, BC, CA, A, B, C, and along that order one FUEL needs 165 ORE.
   */
  lemma Example165()
    ensures Drains(T0, Order165)
    ensures OreFor(Order165, 1) == Ok(165)
    ensures Explains(T0, 1, Ok(165))
  {
    ExampleDrains();
    Tail1(map[FUEL := 1]);
    var left: Needs := map["ORE" := 165];
    assert |left| == 1 && ORE in left;
  }
}
