/**
 * `p10/src/main.rs`: the two-mode machine with jumps and comparisons, run once on a memory
 * image with an input closure that always gives 5 and an output closure that prints each
 * value as a debug line.
 */
module ThermalRadiator {
  import opened Util
  import opened Tape
  import opened ModeVm

  /** The value p10's input closure gives on every call. */
  const SYSTEM_ID: int := 5

  /**
   * `run`: runs the program in place until it halts or its instruction pointer leaves
   * memory; the values it printed come back in order.
   */
  method Run(mem: array<int>, fuel: nat) returns (r: Result<seq<int>, Fault>)
    modifies mem
    ensures Execute(Constant(SYSTEM_ID), fuel, Start(old(mem[..]))).Ok? <==> r.Ok?
    ensures r.Ok? ==> var m := Execute(Constant(SYSTEM_ID), fuel, Start(old(mem[..]))).value;
      mem[..] == m.memory && r.value == m.printed && Stopped(m)
    ensures r.Err? ==> r.error == Execute(Constant(SYSTEM_ID), fuel, Start(old(mem[..]))).error
  {
    ghost var start := Start(mem[..]);
    var m :- ModeVm.Run(mem, Constant(SYSTEM_ID), fuel);
    ExecuteStops(Constant(SYSTEM_ID), fuel, start);
    return Ok(m.printed);
  }

  function Pos(p: int): Param
  {
    Param(Position, p)
  }

  /** The first tape of the test module: `1 + 1` stored over the opcode, then a halt. */
  lemma RunsAddExample(fuel: nat)
    ensures Execute(Constant(SYSTEM_ID), fuel + 1, Start([1, 0, 0, 0, 99])) == Ok(Machine([2, 0, 0, 0, 99], 4, 0, []))
  {
    var s, m, m' := Constant(SYSTEM_ID), Start([1, 0, 0, 0, 99]), Machine([2, 0, 0, 0, 99], 4, 0, []);
    DecodeAt(m.memory, 0, Add(Pos(0), Pos(0), 0));
    assert [1, 0, 0, 0, 99][0 := 2] == [2, 0, 0, 0, 99];
    ExecutePasses(s, fuel, m, m');
    DecodeAt(m'.memory, 4, Operation.Halt);
    ExecuteHalts(s, fuel, m');
  }

  /** The second tape: `3 * 2` stored into cell 3, then a halt. */
  lemma RunsMulExample(fuel: nat)
    ensures Execute(Constant(SYSTEM_ID), fuel + 1, Start([2, 3, 0, 3, 99])) == Ok(Machine([2, 3, 0, 6, 99], 4, 0, []))
  {
    var s, m, m' := Constant(SYSTEM_ID), Start([2, 3, 0, 3, 99]), Machine([2, 3, 0, 6, 99], 4, 0, []);
    DecodeAt(m.memory, 0, Mul(Pos(3), Pos(0), 3));
    assert [2, 3, 0, 3, 99][3 := 6] == [2, 3, 0, 6, 99];
    ExecutePasses(s, fuel, m, m');
    DecodeAt(m'.memory, 4, Operation.Halt);
    ExecuteHalts(s, fuel, m');
  }

  /** The third tape: `99 * 99` stored past the halt. */
  lemma RunsSquareExample(fuel: nat)
    ensures Execute(Constant(SYSTEM_ID), fuel + 1, Start([2, 4, 4, 5, 99, 0])) == Ok(Machine([2, 4, 4, 5, 99, 9801], 4, 0, []))
  {
    var s, m, m' := Constant(SYSTEM_ID), Start([2, 4, 4, 5, 99, 0]), Machine([2, 4, 4, 5, 99, 9801], 4, 0, []);
    DecodeAt(m.memory, 0, Mul(Pos(4), Pos(4), 5));
    assert [2, 4, 4, 5, 99, 0][5 := 9801] == [2, 4, 4, 5, 99, 9801];
    ExecutePasses(s, fuel, m, m');
    DecodeAt(m'.memory, 4, Operation.Halt);
    ExecuteHalts(s, fuel, m');
  }

  /** The fourth tape: the first instruction writes a multiplication over the halt at 4. */
  lemma RunsOverwritingExample(fuel: nat)
    ensures Execute(Constant(SYSTEM_ID), fuel + 2, Start([1, 1, 1, 4, 99, 5, 6, 0, 99]))
      == Ok(Machine([30, 1, 1, 4, 2, 5, 6, 0, 99], 8, 0, []))
  {
    OverwritesHalt(fuel + 1);
    MultipliesAtFour(fuel);
    HaltsAtEight(fuel);
  }

  lemma HaltsAtEight(fuel: nat)
    ensures Execute(Constant(SYSTEM_ID), fuel, Machine([30, 1, 1, 4, 2, 5, 6, 0, 99], 8, 0, []))
      == Ok(Machine([30, 1, 1, 4, 2, 5, 6, 0, 99], 8, 0, []))
  {
    var m'' := Machine([30, 1, 1, 4, 2, 5, 6, 0, 99], 8, 0, []);
    DecodeAt(m''.memory, 8, Operation.Halt);
    ExecuteHalts(Constant(SYSTEM_ID), fuel, m'');
  }

  lemma OverwritesHalt(fuel: nat)
    ensures Execute(Constant(SYSTEM_ID), fuel + 1, Start([1, 1, 1, 4, 99, 5, 6, 0, 99]))
      == Execute(Constant(SYSTEM_ID), fuel, Machine([1, 1, 1, 4, 2, 5, 6, 0, 99], 4, 0, []))
  {
    var m, m' := Start([1, 1, 1, 4, 99, 5, 6, 0, 99]), Machine([1, 1, 1, 4, 2, 5, 6, 0, 99], 4, 0, []);
    DecodeAt(m.memory, 0, Add(Pos(1), Pos(1), 4));
    assert m.memory[4 := 2] == m'.memory;
    ExecutePasses(Constant(SYSTEM_ID), fuel, m, m');
  }

  lemma MultipliesAtFour(fuel: nat)
    ensures Execute(Constant(SYSTEM_ID), fuel + 1, Machine([1, 1, 1, 4, 2, 5, 6, 0, 99], 4, 0, []))
      == Execute(Constant(SYSTEM_ID), fuel, Machine([30, 1, 1, 4, 2, 5, 6, 0, 99], 8, 0, []))
  {
    var m', m'' := Machine([1, 1, 1, 4, 2, 5, 6, 0, 99], 4, 0, []), Machine([30, 1, 1, 4, 2, 5, 6, 0, 99], 8, 0, []);
    DecodeAt(m'.memory, 4, Mul(Pos(5), Pos(6), 0));
    assert m'.memory[0 := 30] == m''.memory;
    ExecutePasses(Constant(SYSTEM_ID), fuel, m', m'');
  }
}
