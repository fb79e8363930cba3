/**
 * The driver of `p18/src/main.rs`: the program text is parsed into a memory image, extended
 * with a million zero cells, and `Program::run_all` is fed the given inputs; the outputs
 * collected are the answer.  The machine itself is the one of `Intcode`, which
 * `p18/src/main.rs` repeats verbatim.
 */
module SensorBoost {
  import opened Util
  import opened Tape
  import opened Resumable
  import opened Intcode

  /** Why `run` returns an error: text that is not a program, or a panic of the machine. */
  datatype Failure = InvalidProgram | Crashed(fault: Fault)

  /** What `run_all` prints for a memory image and an input queue, or the panic that stops it. */
  function Boost(program: seq<int>, inputs: seq<int>, fuel: nat): Result<seq<int>, Fault>
  {
    var d :- Resumable.RunAll(Step, fuel, Initial(program), inputs, [], false);
    Ok(d.outputs)
  }

  /** `run`: the answer for a program text and the inputs handed to `run_all`. */
  function Answer(text: string, inputs: seq<int>, fuel: nat): (r: Result<seq<int>, Failure>)
    ensures ParseProgram(text).None? <==> r == Err(InvalidProgram)
    ensures ParseProgram(text).Some? && Boost(ParseProgram(text).value, inputs, fuel).Ok? ==>
      r == Ok(Boost(ParseProgram(text).value, inputs, fuel).value)
  {
    match ParseProgram(text)
    case None => Err(InvalidProgram)
    case Some(program) =>
      match Boost(program, inputs, fuel)
      case Ok(outputs) => Ok(outputs)
      case Err(f) => Err(Crashed(f))
  }

  /** `run`, as the source writes it: parse, build the machine, drain the input queue. */
  method Run(text: string, inputs: seq<int>, fuel: nat) returns (r: Result<seq<int>, Failure>)
    ensures r == Answer(text, inputs, fuel)
  {
    var parsed := ParseProgram(text);
    if parsed.None? {
      return Err(InvalidProgram);
    }
    var prog := new Program(parsed.value);
    var drained := prog.RunAll(inputs, [], fuel);
    if drained.Err? {
      return Err(Crashed(drained.error));
    }
    return Ok(drained.value.outputs);
  }

  // ------------------------------------------------------------------------------------
  // The examples of the test module

  /** A write inside a prefix of memory is a write to the prefix. */
  lemma PrefixWrite(mem: seq<int>, n: nat, i: nat, v: int)
    requires i < n <= |mem|
    ensures mem[i := v][..n] == mem[..n][i := v]
  {
  }

  /** A first run that halts without asking for input ends `run_all` with what it printed. */
  lemma BoostHaltsAtOnce(program: seq<int>, inputs: seq<int>, fuel: nat, outputs: seq<int>, input: Option<int>, m: Machine)
    requires Resumable.Run(Step, fuel, Initial(program), Front(inputs), [])
      == Ok(Suspension(ProgramState.Halt, outputs, input, m))
    ensures Boost(program, inputs, fuel) == Ok(outputs)
  {
    assert [] + outputs == outputs;
  }

  /** `104,1125899906842624,99`: print the immediate operand, then halt. */
  lemma LargeNumberRun(mem: seq<int>)
    requires |mem| >= 3 && mem[..3] == [104, 1125899906842624, 99]
    ensures Resumable.Run(Step, 2, Machine(mem, 0, 0), None, [])
      == Ok(Suspension(ProgramState.Halt, [1125899906842624], None, Machine(mem, 2, 0)))
  {
    var show := Operation.Output(Param(Immediate, 1125899906842624));
    assert Encode(show) == [104, 1125899906842624] == mem[..3][0..2] == mem[0..2];
    StepEncoded(Machine(mem, 0, 0), None, show);
    RunRunning(Step, 1, Machine(mem, 0, 0), None, [], Machine(mem, 2, 0), None, [1125899906842624]);
    assert Encode(Operation.Halt) == [99] == mem[..3][2..3] == mem[2..3];
    StepEncoded(Machine(mem, 2, 0), None, Operation.Halt);
    RunStopped(Step, 1, Machine(mem, 2, 0), None, [] + [1125899906842624], ProgramState.Halt);
    assert [] + [1125899906842624] == [1125899906842624];
  }

  /** `104,1125899906842624,99` prints the large number in its middle. */
  lemma PrintsLargeNumber()
    ensures Boost([104, 1125899906842624, 99], [], 2) == Ok([1125899906842624])
  {
    var mem := Initial([104, 1125899906842624, 99]).memory;
    LargeNumberRun(mem);
    BoostHaltsAtOnce([104, 1125899906842624, 99], [], 2, [1125899906842624], None, Machine(mem, 2, 0));
  }

  /** `1102,34915192,34915192,7` at 0: the product of the immediate operands goes to cell 7. */
  lemma ProductStored(mem: seq<int>, fuel: nat)
    requires |mem| >= 8 && mem[..8] == [1102, 34915192, 34915192, 7, 4, 7, 99, 0]
    ensures Resumable.Run(Step, fuel + 1, Machine(mem, 0, 0), None, [])
      == Resumable.Run(Step, fuel, Machine(mem[7 := 1219070632396864], 4, 0), None, [])
  {
    var mul := Mul(Param(Immediate, 34915192), Param(Immediate, 34915192), Param(Position, 7));
    assert Encode(mul) == [1102, 34915192, 34915192, 7] == mem[..8][0..4] == mem[0..4];
    StepEncoded(Machine(mem, 0, 0), None, mul);
    RunRunning(Step, fuel, Machine(mem, 0, 0), None, [], Machine(mem[7 := 1219070632396864], 4, 0), None, []);
    var none: seq<int> := [];
    assert none + none == none;
  }

  /** `4,7,99` at 4: print cell 7, then halt. */
  lemma ProductPrinted(mem: seq<int>)
    requires |mem| >= 8 && mem[..8] == [1102, 34915192, 34915192, 7, 4, 7, 99, 1219070632396864]
    ensures Resumable.Run(Step, 1, Machine(mem, 4, 0), None, [])
      == Ok(Suspension(ProgramState.Halt, [1219070632396864], None, Machine(mem, 6, 0)))
  {
    var show := Operation.Output(Param(Position, 7));
    assert Encode(show) == [4, 7] == mem[..8][4..6] == mem[4..6];
    assert mem[7] == mem[..8][7];
    StepEncoded(Machine(mem, 4, 0), None, show);
    RunRunning(Step, 0, Machine(mem, 4, 0), None, [], Machine(mem, 6, 0), None, [1219070632396864]);
    assert Encode(Operation.Halt) == [99] == mem[..8][6..7] == mem[6..7];
    StepEncoded(Machine(mem, 6, 0), None, Operation.Halt);
    RunStopped(Step, 0, Machine(mem, 6, 0), None, [] + [1219070632396864], ProgramState.Halt);
    assert [] + [1219070632396864] == [1219070632396864];
  }

  /** The product lands in cell 7 and leaves the code alone. */
  lemma ProductWritten(mem: seq<int>)
    requires |mem| >= 8 && mem[..8] == [1102, 34915192, 34915192, 7, 4, 7, 99, 0]
    ensures mem[7 := 1219070632396864][..8] == [1102, 34915192, 34915192, 7, 4, 7, 99, 1219070632396864]
  {
    PrefixWrite(mem, 8, 7, 1219070632396864);
  }

  /** The whole run of `1102,34915192,34915192,7,4,7,99,0` from a memory that holds it. */
  lemma ProductRun(mem: seq<int>)
    requires |mem| >= 8 && mem[..8] == [1102, 34915192, 34915192, 7, 4, 7, 99, 0]
    ensures Resumable.Run(Step, 2, Machine(mem, 0, 0), None, [])
      == Ok(Suspension(ProgramState.Halt, [1219070632396864], None, Machine(mem[7 := 1219070632396864], 6, 0)))
  {
    ProductStored(mem, 1);
    ProductWritten(mem);
    ProductPrinted(mem[7 := 1219070632396864]);
  }

  /** `1102,34915192,34915192,7,4,7,99,0` multiplies into cell 7 and prints the 16-digit product. */
  lemma PrintsSixteenDigitProduct()
    ensures Boost([1102, 34915192, 34915192, 7, 4, 7, 99, 0], [], 2) == Ok([1219070632396864])
  {
    var program := [1102, 34915192, 34915192, 7, 4, 7, 99, 0];
    var mem := Initial(program).memory;
    ProductRun(mem);
    BoostHaltsAtOnce(program, [], 2, [1219070632396864], None, Machine(mem[7 := 1219070632396864], 6, 0));
  }

  /** `109,-1` at 0: the relative base moves to -1. */
  lemma EchoBase(mem: seq<int>, fuel: nat)
    requires |mem| >= 7 && mem[..7] == [109, -1, 203, 1, 4, 0, 99]
    ensures Resumable.Run(Step, fuel + 1, Machine(mem, 0, 0), Some(-70), [])
      == Resumable.Run(Step, fuel, Machine(mem, 2, -1), Some(-70), [])
  {
    var op := SetRelativeOffset(Param(Immediate, -1));
    assert Encode(op) == [109, -1] == mem[..7][0..2] == mem[0..2];
    StepEncoded(Machine(mem, 0, 0), Some(-70), op);
    RunRunning(Step, fuel, Machine(mem, 0, 0), Some(-70), [], Machine(mem, 2, -1), Some(-70), []);
    var none: seq<int> := [];
    assert none + none == none;
  }

  /** `203,1` at 2: the input goes to cell 1 relative to base -1, which is cell 0. */
  lemma EchoStores(mem: seq<int>, fuel: nat)
    requires |mem| >= 7 && mem[..7] == [109, -1, 203, 1, 4, 0, 99]
    ensures Resumable.Run(Step, fuel + 1, Machine(mem, 2, -1), Some(-70), [])
      == Resumable.Run(Step, fuel, Machine(mem[0 := -70], 4, -1), None, [])
  {
    var op := Input(Param(Relative, 1));
    assert Encode(op) == [203, 1] == mem[..7][2..4] == mem[2..4];
    StepEncoded(Machine(mem, 2, -1), Some(-70), op);
    RunRunning(Step, fuel, Machine(mem, 2, -1), Some(-70), [], Machine(mem[0 := -70], 4, -1), None, []);
    var none: seq<int> := [];
    assert none + none == none;
  }

  /** `4,0,99` at 4: print cell 0, then halt. */
  lemma EchoPrints(mem: seq<int>)
    requires |mem| >= 7 && mem[..7] == [-70, -1, 203, 1, 4, 0, 99]
    ensures Resumable.Run(Step, 1, Machine(mem, 4, -1), None, [])
      == Ok(Suspension(ProgramState.Halt, [-70], None, Machine(mem, 6, -1)))
  {
    var show := Operation.Output(Param(Position, 0));
    assert Encode(show) == [4, 0] == mem[..7][4..6] == mem[4..6];
    assert mem[0] == mem[..7][0];
    StepEncoded(Machine(mem, 4, -1), None, show);
    RunRunning(Step, 0, Machine(mem, 4, -1), None, [], Machine(mem, 6, -1), None, [-70]);
    assert Encode(Operation.Halt) == [99] == mem[..7][6..7] == mem[6..7];
    StepEncoded(Machine(mem, 6, -1), None, Operation.Halt);
    RunStopped(Step, 0, Machine(mem, 6, -1), None, [] + [-70], ProgramState.Halt);
    assert [] + [-70] == [-70];
  }

  /** The input lands in cell 0 and leaves the code alone. */
  lemma EchoWritten(mem: seq<int>)
    requires |mem| >= 7 && mem[..7] == [109, -1, 203, 1, 4, 0, 99]
    ensures mem[0 := -70][..7] == [-70, -1, 203, 1, 4, 0, 99]
  {
    PrefixWrite(mem, 7, 0, -70);
  }

  /** The whole run of `109,-1,203,1,4,0,99` with input -70, from a memory that holds it. */
  lemma EchoRun(mem: seq<int>)
    requires |mem| >= 7 && mem[..7] == [109, -1, 203, 1, 4, 0, 99]
    ensures Resumable.Run(Step, 3, Machine(mem, 0, 0), Some(-70), [])
      == Ok(Suspension(ProgramState.Halt, [-70], None, Machine(mem[0 := -70], 6, -1)))
  {
    EchoBase(mem, 2);
    EchoStores(mem, 1);
    EchoWritten(mem);
    EchoPrints(mem[0 := -70]);
  }

  /** `109,-1,203,1,4,0,99` stores its input through the relative base and prints it back. */
  lemma EchoesThroughRelativeBase()
    ensures Boost([109, -1, 203, 1, 4, 0, 99], [-70], 3) == Ok([-70])
  {
    var program := [109, -1, 203, 1, 4, 0, 99];
    var mem := Initial(program).memory;
    EchoRun(mem);
    assert Front([-70]) == Some(-70);
    BoostHaltsAtOnce(program, [-70], 3, [-70], None, Machine(mem[0 := -70], 6, -1));
  }

  /** The program of the first example, which prints a copy of itself. */
  const QUINE: seq<int> := [109, 1, 204, -1, 1001, 100, 1, 100, 1008, 100, 16, 101, 1006, 101, 0, 99]

  /** A memory that starts with the quine's code (its counter and flag cells lie beyond it). */
  predicate HoldsQuine(mem: seq<int>)
  {
    |mem| > 101 && mem[..|QUINE|] == QUINE
  }

  /** Writing the counter or the flag leaves the code alone. */
  lemma QuineUntouched(mem: seq<int>, i: int, v: int)
    requires HoldsQuine(mem) && |QUINE| <= i < |mem|
    ensures HoldsQuine(mem[i := v])
  {
    assert mem[i := v][..|QUINE|] == mem[..|QUINE|];
  }

  /** `109,1` at 0: the relative base moves up to the next cell to print. */
  lemma QuineBumpsBase(mem: seq<int>, k: int, fuel: nat, outputs: seq<int>)
    requires HoldsQuine(mem)
    ensures Resumable.Run(Step, fuel + 1, Machine(mem, 0, k), None, outputs)
      == Resumable.Run(Step, fuel, Machine(mem, 2, k + 1), None, outputs)
  {
    var op := SetRelativeOffset(Param(Immediate, 1));
    assert Encode(op) == [109, 1] == QUINE[0..2];
    assert mem[0..2] == mem[..|QUINE|][0..2];
    StepEncoded(Machine(mem, 0, k), None, op);
    RunRunning(Step, fuel, Machine(mem, 0, k), None, outputs, Machine(mem, 2, k + 1), None, []);
    assert outputs + [] == outputs;
  }

  /** `204,-1` at 2: the cell just below the relative base is printed. */
  lemma QuinePrints(mem: seq<int>, k: nat, fuel: nat, outputs: seq<int>)
    requires HoldsQuine(mem) && k < |QUINE|
    ensures Resumable.Run(Step, fuel + 1, Machine(mem, 2, k + 1), None, outputs)
      == Resumable.Run(Step, fuel, Machine(mem, 4, k + 1), None, outputs + [QUINE[k]])
  {
    var op := Operation.Output(Param(Relative, -1));
    assert Encode(op) == [204, -1] == QUINE[2..4];
    assert mem[2..4] == mem[..|QUINE|][2..4];
    assert mem[k] == mem[..|QUINE|][k];
    StepEncoded(Machine(mem, 2, k + 1), None, op);
    RunRunning(Step, fuel, Machine(mem, 2, k + 1), None, outputs, Machine(mem, 4, k + 1), None, [QUINE[k]]);
  }

  /** `1001,100,1,100` at 4: the counter in cell 100 goes up by one. */
  lemma QuineCounts(mem: seq<int>, k: int, fuel: nat, outputs: seq<int>)
    requires HoldsQuine(mem)
    ensures Resumable.Run(Step, fuel + 1, Machine(mem, 4, k), None, outputs)
      == Resumable.Run(Step, fuel, Machine(mem[100 := mem[100] + 1], 8, k), None, outputs)
  {
    var op := Add(Param(Position, 100), Param(Immediate, 1), Param(Position, 100));
    assert Encode(op) == [1001, 100, 1, 100] == QUINE[4..8];
    assert mem[4..8] == mem[..|QUINE|][4..8];
    StepEncoded(Machine(mem, 4, k), None, op);
    RunRunning(Step, fuel, Machine(mem, 4, k), None, outputs, Machine(mem[100 := mem[100] + 1], 8, k), None, []);
    assert outputs + [] == outputs;
  }

  /** `1008,100,16,101` at 8: cell 101 records whether the counter has reached 16. */
  lemma QuineCompares(mem: seq<int>, k: int, fuel: nat, outputs: seq<int>)
    requires HoldsQuine(mem)
    ensures Resumable.Run(Step, fuel + 1, Machine(mem, 8, k), None, outputs)
      == Resumable.Run(Step, fuel, Machine(mem[101 := if mem[100] == 16 then 1 else 0], 12, k), None, outputs)
  {
    var op := Equals(Param(Position, 100), Param(Immediate, 16), Param(Position, 101));
    assert Encode(op) == [1008, 100, 16, 101] == QUINE[8..12];
    assert mem[8..12] == mem[..|QUINE|][8..12];
    StepEncoded(Machine(mem, 8, k), None, op);
    RunRunning(Step, fuel, Machine(mem, 8, k), None, outputs,
               Machine(mem[101 := if mem[100] == 16 then 1 else 0], 12, k), None, []);
    assert outputs + [] == outputs;
  }

  /** `1006,101,0` at 12: back to the start unless the flag is set, else on to the halt. */
  lemma QuineLoops(mem: seq<int>, k: int, fuel: nat, outputs: seq<int>)
    requires HoldsQuine(mem)
    ensures Resumable.Run(Step, fuel + 1, Machine(mem, 12, k), None, outputs)
      == Resumable.Run(Step, fuel, Machine(mem, if mem[101] == 0 then 0 else 15, k), None, outputs)
  {
    var op := JumpIfFalse(Param(Position, 101), Param(Immediate, 0));
    assert Encode(op) == [1006, 101, 0] == QUINE[12..15];
    assert mem[12..15] == mem[..|QUINE|][12..15];
    StepEncoded(Machine(mem, 12, k), None, op);
    RunRunning(Step, fuel, Machine(mem, 12, k), None, outputs, Machine(mem, if mem[101] == 0 then 0 else 15, k), None, []);
    assert outputs + [] == outputs;
  }

  /** `99` at 15: the quine halts. */
  lemma QuineHalts(mem: seq<int>, k: int, fuel: nat, outputs: seq<int>)
    requires HoldsQuine(mem)
    ensures Resumable.Run(Step, fuel, Machine(mem, 15, k), None, outputs)
      == Ok(Suspension(ProgramState.Halt, outputs, None, Machine(mem, 15, k)))
  {
    assert Encode(Operation.Halt) == [99] == QUINE[15..16];
    assert mem[15..16] == mem[..|QUINE|][15..16];
    StepEncoded(Machine(mem, 15, k), None, Operation.Halt);
    RunStopped(Step, fuel, Machine(mem, 15, k), None, outputs, ProgramState.Halt);
  }

  /** Round `k` of the quine: five instructions that print cell `k` and count to `k + 1`. */
  lemma QuineRound(mem: seq<int>, k: nat, fuel: nat, outputs: seq<int>)
    requires HoldsQuine(mem) && k < |QUINE| && mem[100] == k && mem[101] == 0
    ensures var flag := if k + 1 == |QUINE| then 1 else 0;
      Resumable.Run(Step, fuel + 5, Machine(mem, 0, k), None, outputs)
        == Resumable.Run(Step, fuel, Machine(mem[100 := k + 1][101 := flag], if flag == 0 then 0 else 15, k + 1),
                         None, outputs + [QUINE[k]])
  {
    var flag := if k + 1 == |QUINE| then 1 else 0;
    var mem1 := mem[100 := k + 1];
    QuineUntouched(mem, 100, k + 1);
    QuineUntouched(mem1, 101, flag);
    QuineBumpsBase(mem, k, fuel + 4, outputs);
    QuinePrints(mem, k, fuel + 3, outputs);
    QuineCounts(mem, k + 1, fuel + 2, outputs + [QUINE[k]]);
    QuineCompares(mem1, k + 1, fuel + 1, outputs + [QUINE[k]]);
    QuineLoops(mem1[101 := flag], k + 1, fuel, outputs + [QUINE[k]]);
  }

  /** Rounds `k` to 15 print the rest of the program and leave the machine before its halt. */
  lemma {:induction false} QuineRounds(mem: seq<int>, k: nat, fuel: nat)
    requires HoldsQuine(mem) && k < |QUINE| && mem[100] == k && mem[101] == 0
    ensures Resumable.Run(Step, fuel + 5 * (|QUINE| - k), Machine(mem, 0, k), None, QUINE[..k])
      == Resumable.Run(Step, fuel, Machine(mem[100 := 16][101 := 1], 15, 16), None, QUINE)
    decreases |QUINE| - k
  {
    var rest := fuel + 5 * (|QUINE| - k - 1);
    assert rest + 5 == fuel + 5 * (|QUINE| - k);
    QuineRound(mem, k, rest, QUINE[..k]);
    var printed := QUINE[..k] + [QUINE[k]];
    assert printed == QUINE[..k + 1];
    if k + 1 < |QUINE| {
      var next := mem[100 := k + 1][101 := 0];
      QuineUntouched(mem, 100, k + 1);
      QuineUntouched(mem[100 := k + 1], 101, 0);
      assert next[100 := 16][101 := 1] == mem[100 := 16][101 := 1];
      QuineRounds(next, k + 1, fuel);
    } else {
      assert rest == fuel && printed == QUINE;
    }
  }

  /** The whole run of the quine from a memory that holds it with counter and flag at zero. */
  lemma QuineRun(mem: seq<int>)
    requires HoldsQuine(mem) && mem[100] == 0 && mem[101] == 0
    ensures Resumable.Run(Step, 5 * |QUINE|, Machine(mem, 0, 0), None, [])
      == Ok(Suspension(ProgramState.Halt, QUINE, None, Machine(mem[100 := 16][101 := 1], 15, 16)))
  {
    var last := mem[100 := 16][101 := 1];
    QuineRounds(mem, 0, 0);
    QuineUntouched(mem, 100, 16);
    QuineUntouched(mem[100 := 16], 101, 1);
    QuineHalts(last, 16, 0, QUINE);
    assert QUINE[..0] == [];
  }

  /** `109,1,204,-1,1001,100,1,100,1008,100,16,101,1006,101,0,99` prints itself and halts. */
  lemma QuinePrintsItself()
    ensures Boost(QUINE, [], 5 * |QUINE|) == Ok(QUINE)
  {
    var mem := Initial(QUINE).memory;
    QuineRun(mem);
    BoostHaltsAtOnce(QUINE, [], 5 * |QUINE|, QUINE, None, Machine(mem[100 := 16][101 := 1], 15, 16));
  }
}
