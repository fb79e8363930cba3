/**
 * The Intcode machine of `p22/src/intcode.rs` (the complete instruction set: add, multiply,
 * input, output, the two conditional jumps, the two comparisons, relative-base adjustment and
 * halt; parameters in position, immediate and relative mode).
 *
 * The decoder and the evaluator are pure functions; the `Program` class holds the memory, the
 * instruction pointer and the relative offset that `Program::run` updates in place.  Every
 * panic of the source is an `Err` carrying a `Fault`.  A run is bounded by a fuel budget
 * counting executed instructions, since an Intcode program need not stop.
 */
module Intcode {
  import opened Util
  import opened Tape
  import opened Resumable

  datatype ParameterMode = Position | Immediate | Relative

  /** One parameter of an instruction: its mode and the raw cell that follows the opcode. */
  datatype Param = Param(mode: ParameterMode, value: int)

  datatype Operation =
    | Add(left: Param, right: Param, dest: Param)
    | Mul(left: Param, right: Param, dest: Param)
    | Input(dest: Param)
    | Output(source: Param)
    | JumpIfTrue(cond: Param, target: Param)
    | JumpIfFalse(cond: Param, target: Param)
    | LessThan(left: Param, right: Param, dest: Param)
    | Equals(left: Param, right: Param, dest: Param)
    | SetRelativeOffset(source: Param)
    | Halt

  /** What evaluating one instruction asks the run loop to do next. */
  datatype EvalResult =
    | Halt
    | Continue
    | SetInstructionPtr(ptr: nat)
    | UpdateRelativeOffset(delta: int)
    | InputAt(pos: nat)
    | Output(value: int)

  // ------------------------------------------------------------------------------------
  // Decoding

  /** The digit that selects each mode. */
  function ModeCode(mode: ParameterMode): nat
  {
    match mode
    case Position => 0
    case Immediate => 1
    case Relative => 2
  }

  /** `ParameterMode::decode`: the digit 0, 1 or 2, anything else panics. */
  function DecodeMode(digit: int): (r: Result<ParameterMode, Fault>)
    ensures r.Ok? <==> 0 <= digit <= 2
    ensures r.Ok? ==> ModeCode(r.value) == digit
    ensures r.Err? ==> r.error == UnknownParameterMode(digit)
  {
    if digit == 0 then Ok(Position)
    else if digit == 1 then Ok(Immediate)
    else if digit == 2 then Ok(Relative)
    else Err(UnknownParameterMode(digit))
  }

  predicate IsOpcode(n: int)
  {
    1 <= n <= 9 || n == 99
  }

  function Opcode(op: Operation): (n: int)
    ensures IsOpcode(n)
  {
    match op
    case Add(_, _, _) => 1
    case Mul(_, _, _) => 2
    case Input(_) => 3
    case Output(_) => 4
    case JumpIfTrue(_, _) => 5
    case JumpIfFalse(_, _) => 6
    case LessThan(_, _, _) => 7
    case Equals(_, _, _) => 8
    case SetRelativeOffset(_) => 9
    case Halt => 99
  }

  /** The parameters of an instruction, in the order their cells follow the opcode. */
  function Params(op: Operation): (ps: seq<Param>)
    ensures |ps| <= 3
  {
    match op
    case Add(l, r, d) => [l, r, d]
    case Mul(l, r, d) => [l, r, d]
    case Input(d) => [d]
    case Output(s) => [s]
    case JumpIfTrue(c, t) => [c, t]
    case JumpIfFalse(c, t) => [c, t]
    case LessThan(l, r, d) => [l, r, d]
    case Equals(l, r, d) => [l, r, d]
    case SetRelativeOffset(s) => [s]
    case Halt => []
  }

  /** `Operation::size`: the opcode cell and one cell per parameter. */
  function Size(op: Operation): (n: nat)
    ensures n == 1 + |Params(op)|
    ensures op.Add? || op.Mul? || op.LessThan? || op.Equals? <==> n == 4
    ensures op.JumpIfTrue? || op.JumpIfFalse? <==> n == 3
    ensures op.Input? || op.Output? || op.SetRelativeOffset? <==> n == 2
    ensures op.Halt? <==> n == 1
  {
    match op
    case Add(_, _, _) => 4
    case Mul(_, _, _) => 4
    case Input(_) => 2
    case Output(_) => 2
    case JumpIfTrue(_, _) => 3
    case JumpIfFalse(_, _) => 3
    case LessThan(_, _, _) => 4
    case Equals(_, _, _) => 4
    case SetRelativeOffset(_) => 2
    case Halt => 1
  }

  /**
   * `Operation::decode` on the memory from the instruction pointer on.  The modes are decoded
   * first and then the parameter cells are read, so a bad mode digit is reported before a
   * parameter beyond the end of memory.
   */
  function Decode(cells: seq<int>): (r: Result<Operation, Fault>)
    ensures r.Ok? ==> |cells| >= Size(r.value) && Opcode(r.value) == OpcodeOf(cells[0])
    ensures r.Ok? ==> forall i :: 0 <= i < |Params(r.value)| ==>
      Params(r.value)[i].value == cells[i + 1] && ModeCode(Params(r.value)[i].mode) == ModeDigit(cells[0], i)
    ensures cells != [] && !IsOpcode(OpcodeOf(cells[0])) ==> r == Err(UnknownInstruction(OpcodeOf(cells[0])))
    ensures cells != [] && cells[0] < 0 ==> r.Err?
  {
    if cells == [] then Err(IndexOutOfBounds)
    else
      var opcode := OpcodeOf(cells[0]);
      if opcode == 1 || opcode == 2 || opcode == 7 || opcode == 8 then
        var lmode :- DecodeMode(ModeDigit(cells[0], 0));
        var rmode :- DecodeMode(ModeDigit(cells[0], 1));
        var dmode :- DecodeMode(ModeDigit(cells[0], 2));
        if |cells| < 4 then Err(IndexOutOfBounds)
        else
          var left, right, dest := Param(lmode, cells[1]), Param(rmode, cells[2]), Param(dmode, cells[3]);
          Ok(if opcode == 1 then Add(left, right, dest)
             else if opcode == 2 then Mul(left, right, dest)
             else if opcode == 7 then LessThan(left, right, dest)
             else Equals(left, right, dest))
      else if opcode == 3 || opcode == 4 || opcode == 9 then
        var mode :- DecodeMode(ModeDigit(cells[0], 0));
        if |cells| < 2 then Err(IndexOutOfBounds)
        else
          var p := Param(mode, cells[1]);
          Ok(if opcode == 3 then Input(p) else if opcode == 4 then Operation.Output(p) else SetRelativeOffset(p))
      else if opcode == 5 || opcode == 6 then
        var bmode :- DecodeMode(ModeDigit(cells[0], 0));
        var dmode :- DecodeMode(ModeDigit(cells[0], 1));
        if |cells| < 3 then Err(IndexOutOfBounds)
        else
          var cond, target := Param(bmode, cells[1]), Param(dmode, cells[2]);
          Ok(if opcode == 5 then JumpIfTrue(cond, target) else JumpIfFalse(cond, target))
      else if opcode == 99 then Ok(Operation.Halt)
      else Err(UnknownInstruction(opcode))
  }

  /** The mode digits of an instruction's parameters, placed from the hundreds digit up. */
  function ModeDigits(ps: seq<Param>): nat
    requires |ps| <= 3
  {
    (if |ps| > 0 then 100 * ModeCode(ps[0].mode) else 0)
    + (if |ps| > 1 then 1000 * ModeCode(ps[1].mode) else 0)
    + (if |ps| > 2 then 10000 * ModeCode(ps[2].mode) else 0)
  }

  /** The cells an assembler would write for an instruction: opcode with mode digits, then parameters. */
  function Encode(op: Operation): (cells: seq<int>)
    ensures |cells| == Size(op)
  {
    var ps := Params(op);
    [Opcode(op) + ModeDigits(ps)] + seq(|ps|, i requires 0 <= i < |ps| => ps[i].value)
  }

  /**
   * The converse of what `Decode` ensures: cells whose opcode, mode digits and parameter cells
   * spell out `op` decode to `op`.
   */
  lemma DecodeSpelled(cells: seq<int>, op: Operation)
    requires |cells| >= Size(op) && OpcodeOf(cells[0]) == Opcode(op)
    requires forall k :: 0 <= k < |Params(op)| ==>
      ModeDigit(cells[0], k) == ModeCode(Params(op)[k].mode) && cells[k + 1] == Params(op)[k].value
    ensures Decode(cells) == Ok(op)
  {
    var ps := Params(op);
    forall k | 0 <= k < |ps|
      ensures DecodeMode(ModeDigit(cells[0], k)) == Ok(ps[k].mode)
    {
    }
  }

  /** Decoding undoes encoding, whatever follows the instruction in memory. */
  lemma DecodeEncode(op: Operation, rest: seq<int>)
    ensures Decode(Encode(op) + rest) == Ok(op)
  {
    var ps := Params(op);
    var cells := Encode(op) + rest;
    var codes := seq(3, k requires 0 <= k < 3 => if k < |ps| then ModeCode(ps[k].mode) else 0);
    OpcodeCellDigits(Opcode(op), codes[0], codes[1], codes[2]);
    assert cells[0] == Opcode(op) + 100 * codes[0] + 1000 * codes[1] + 10000 * codes[2];
    assert forall k :: 0 <= k < |ps| ==> ModeDigit(cells[0], k) == ModeCode(ps[k].mode);
    DecodeSpelled(cells, op);
  }

  // ------------------------------------------------------------------------------------
  // Evaluation

  /** `ParameterMode::fetch`: the operand value a parameter denotes. */
  function Fetch(p: Param, base: int, mem: seq<int>): (r: Result<int, Fault>)
    ensures p.mode == Immediate ==> r == Ok(p.value)
  {
    match p.mode
    case Position => Read(mem, AsUsize(p.value))
    case Relative => Read(mem, AsUsize(base + p.value))
    case Immediate => Ok(p.value)
  }

  /** `ParameterMode::fetch_addr`: the address a destination parameter denotes. */
  function FetchAddr(p: Param, base: int): (r: Result<int, Fault>)
    ensures r.Err? <==> p.mode == Immediate
    ensures r.Err? ==> r.error == ImmediateAddress
  {
    match p.mode
    case Position => Ok(p.value)
    case Relative => Ok(base + p.value)
    case Immediate => Err(ImmediateAddress)
  }

  /** A position or relative parameter reads exactly the cell its address names. */
  lemma FetchReadsAddress(p: Param, base: int, mem: seq<int>)
    requires p.mode != Immediate
    ensures Fetch(p, base, mem) == Read(mem, AsUsize(FetchAddr(p, base).value))
  {
  }

  /** The instructions that store into memory: the two arithmetic ones and the two comparisons. */
  predicate Writes(op: Operation)
  {
    op.Add? || op.Mul? || op.LessThan? || op.Equals?
  }

  /** The memory after an instruction, and what the run loop is to do next. */
  datatype Evaluated = Evaluated(result: EvalResult, memory: seq<int>)

  /**
   * `Operation::eval`.  The destination address is resolved before the operands are fetched;
   * the store into memory is returned as the new memory, which `Program::run` keeps.
   */
  function Eval(op: Operation, mem: seq<int>, base: int): (r: Result<Evaluated, Fault>)
    ensures r.Ok? ==> |r.value.memory| == |mem|
    ensures r.Ok? && !Writes(op) ==> r.value.memory == mem
    ensures r.Ok? && Writes(op) ==>
      r.value.result == Continue && FetchAddr(op.dest, base).Ok? && AsUsize(FetchAddr(op.dest, base).value) < |mem|
    ensures r.Ok? && Writes(op) ==>
      forall i :: 0 <= i < |mem| && i != AsUsize(FetchAddr(op.dest, base).value) ==> r.value.memory[i] == mem[i]
    ensures Writes(op) && op.dest.mode == Immediate ==> r == Err(ImmediateAddress)
    ensures r.Ok? && op.Output? ==>
      Fetch(op.source, base, mem).Ok? && r.value.result == EvalResult.Output(Fetch(op.source, base, mem).value)
    ensures r.Ok? && op.Input? ==>
      FetchAddr(op.dest, base).Ok? && r.value.result == InputAt(AsUsize(FetchAddr(op.dest, base).value))
    ensures r.Ok? && op.SetRelativeOffset? ==>
      Fetch(op.source, base, mem).Ok? && r.value.result == UpdateRelativeOffset(Fetch(op.source, base, mem).value)
    ensures r.Ok? ==> (r.value.result == EvalResult.Halt <==> op.Halt?)
  {
    match op
    case Add(l, r, d) =>
      var addr :- FetchAddr(d, base);
      var x :- Fetch(l, base, mem);
      var y :- Fetch(r, base, mem);
      var mem' :- Write(mem, AsUsize(addr), x + y);
      Ok(Evaluated(Continue, mem'))
    case Mul(l, r, d) =>
      var addr :- FetchAddr(d, base);
      var x :- Fetch(l, base, mem);
      var y :- Fetch(r, base, mem);
      var mem' :- Write(mem, AsUsize(addr), x * y);
      Ok(Evaluated(Continue, mem'))
    case Input(d) =>
      var addr :- FetchAddr(d, base);
      Ok(Evaluated(InputAt(AsUsize(addr)), mem))
    case Output(s) =>
      var x :- Fetch(s, base, mem);
      Ok(Evaluated(EvalResult.Output(x), mem))
    case Halt =>
      Ok(Evaluated(EvalResult.Halt, mem))
    case JumpIfTrue(c, t) =>
      var b :- Fetch(c, base, mem);
      if b != 0 then
        var target :- Fetch(t, base, mem);
        Ok(Evaluated(SetInstructionPtr(AsUsize(target)), mem))
      else Ok(Evaluated(Continue, mem))
    case JumpIfFalse(c, t) =>
      var b :- Fetch(c, base, mem);
      if b == 0 then
        var target :- Fetch(t, base, mem);
        Ok(Evaluated(SetInstructionPtr(AsUsize(target)), mem))
      else Ok(Evaluated(Continue, mem))
    case LessThan(l, r, d) =>
      var addr :- FetchAddr(d, base);
      var x :- Fetch(l, base, mem);
      var y :- Fetch(r, base, mem);
      var mem' :- Write(mem, AsUsize(addr), if x < y then 1 else 0);
      Ok(Evaluated(Continue, mem'))
    case Equals(l, r, d) =>
      var addr :- FetchAddr(d, base);
      var x :- Fetch(l, base, mem);
      var y :- Fetch(r, base, mem);
      var mem' :- Write(mem, AsUsize(addr), if x == y then 1 else 0);
      Ok(Evaluated(Continue, mem'))
    case SetRelativeOffset(s) =>
      var x :- Fetch(s, base, mem);
      Ok(Evaluated(UpdateRelativeOffset(x), mem))
  }

  /** An addition or multiplication stores the sum or product of its two operands at its destination. */
  lemma EvalArithmetic(op: Operation, mem: seq<int>, base: int)
    requires op.Add? || op.Mul?
    requires Eval(op, mem, base).Ok?
    ensures FetchAddr(op.dest, base).Ok? && Fetch(op.left, base, mem).Ok? && Fetch(op.right, base, mem).Ok?
    ensures var x, y := Fetch(op.left, base, mem).value, Fetch(op.right, base, mem).value;
      Eval(op, mem, base).value.memory[AsUsize(FetchAddr(op.dest, base).value)] == if op.Add? then x + y else x * y
  {
  }

  /** A comparison stores 1 exactly when it holds and 0 otherwise. */
  lemma EvalComparison(op: Operation, mem: seq<int>, base: int)
    requires op.LessThan? || op.Equals?
    requires Eval(op, mem, base).Ok?
    ensures var x, y := Fetch(op.left, base, mem).value, Fetch(op.right, base, mem).value;
      var cell := Eval(op, mem, base).value.memory[AsUsize(FetchAddr(op.dest, base).value)];
      Fetch(op.left, base, mem).Ok? && Fetch(op.right, base, mem).Ok? &&
      (cell == 1 <==> (if op.LessThan? then x < y else x == y)) &&
      (cell == 0 <==> !(if op.LessThan? then x < y else x == y))
  {
  }

  /** A conditional jump moves the instruction pointer exactly when its condition holds. */
  lemma EvalJump(op: Operation, mem: seq<int>, base: int)
    requires op.JumpIfTrue? || op.JumpIfFalse?
    requires Eval(op, mem, base).Ok?
    ensures Fetch(op.cond, base, mem).Ok?
    ensures var taken := if op.JumpIfTrue? then Fetch(op.cond, base, mem).value != 0 else Fetch(op.cond, base, mem).value == 0;
      (Eval(op, mem, base).value.result.SetInstructionPtr? <==> taken) &&
      (taken ==> Eval(op, mem, base).value.result.ptr == AsUsize(Fetch(op.target, base, mem).value)) &&
      (!taken ==> Eval(op, mem, base).value.result == Continue)
  {
  }

  // ------------------------------------------------------------------------------------
  // Running

  /** The machine state `Program` keeps: memory, instruction pointer, relative offset. */
  datatype Machine = Machine(memory: seq<int>, ip: nat, base: int)

  /** The instruction at the instruction pointer. */
  function Current(m: Machine): Result<Operation, Fault>
    requires m.ip < |m.memory|
  {
    Decode(m.memory[m.ip..])
  }

  /**
   * One iteration of the loop of `Program::run`.  Past the end of memory the run stops with
   * `AwaitInput`.  An input instruction takes the pending input if there is one and otherwise
   * stops the run without moving the instruction pointer.
   */
  function Step(m: Machine, input: Option<int>): (r: Result<Progress<Machine>, Fault>)
    ensures m.ip >= |m.memory| ==> r == Ok(Stopped(AwaitInput))
    ensures r.Ok? && m.ip < |m.memory| ==> Current(m).Ok?
    ensures r.Ok? && r.value.Running? ==> |r.value.machine.memory| == |m.memory| && |r.value.emitted| <= 1
    ensures r.Ok? && r.value.Running? && !Current(m).value.SetRelativeOffset? ==> r.value.machine.base == m.base
    ensures r.Ok? && r.value.Running? && !Current(m).value.Input? ==> r.value.input == input
    ensures r.Ok? && r.value.Running? && Current(m).value.Input? ==> input.Some? && r.value.input == None
    ensures r.Ok? && r.value.Running? && !Current(m).value.Output? ==> r.value.emitted == []
    ensures r.Ok? && r.value.Stopped? && m.ip < |m.memory| ==>
      (r.value.state == AwaitInput <==> Current(m).value.Input?) &&
      (r.value.state == ProgramState.Halt <==> Current(m).value.Halt?) &&
      (r.value.state == AwaitInput ==> input == None)
  {
    if m.ip >= |m.memory| then Ok(Stopped(AwaitInput))
    else
      var op :- Current(m);
      var e :- Eval(op, m.memory, m.base);
      Advance(m, input, Size(op), e)
  }

  /** How the run loop acts on the result of evaluating an instruction of `size` cells. */
  function Advance(m: Machine, input: Option<int>, size: nat, e: Evaluated): Result<Progress<Machine>, Fault>
  {
    var next := m.ip + size;
    match e.result
    case Continue => Ok(Running(Machine(e.memory, next, m.base), input, []))
    case SetInstructionPtr(x) => Ok(Running(Machine(e.memory, x, m.base), input, []))
    case UpdateRelativeOffset(x) => Ok(Running(Machine(e.memory, next, m.base + x), input, []))
    case Halt => Ok(Stopped(ProgramState.Halt))
    case InputAt(pos) =>
      (match input
       case Some(x) =>
         if pos < |e.memory| then Ok(Running(Machine(e.memory[pos := x], next, m.base), None, []))
         else Err(IndexOutOfBounds)
       case None => Ok(Stopped(AwaitInput)))
    case Output(x) => Ok(Running(Machine(e.memory, next, m.base), input, [x]))
  }

  /** Once decoded and evaluated, an instruction's step is what the run loop makes of its result. */
  lemma StepAdvances(m: Machine, input: Option<int>, op: Operation, e: Evaluated)
    requires m.ip < |m.memory| && Current(m) == Ok(op) && Eval(op, m.memory, m.base) == Ok(e)
    ensures Step(m, input) == Advance(m, input, Size(op), e)
  {
  }

  /** A step at an encoded instruction is the run loop's reaction to evaluating it. */
  lemma StepEncoded(m: Machine, input: Option<int>, op: Operation)
    requires m.ip + Size(op) <= |m.memory| && m.memory[m.ip..m.ip + Size(op)] == Encode(op)
    ensures Current(m) == Ok(op)
    ensures Eval(op, m.memory, m.base).Ok? ==>
      Step(m, input) == Advance(m, input, Size(op), Eval(op, m.memory, m.base).value)
  {
    var rest := m.memory[m.ip + Size(op)..];
    assert m.memory[m.ip..] == Encode(op) + rest;
    DecodeEncode(op, rest);
  }

  /** Only an input instruction reads the pending input; every other step ignores it. */
  lemma StepInputDiscipline()
    ensures InputDiscipline(Step)
  {
    forall m: Machine, v: int | Step(m, None).Ok? && Step(m, None).value.Running?
      ensures Step(m, Some(v)) == Ok(Step(m, None).value.(input := Some(v)))
    {
      assert !Current(m).value.Input?;
    }
  }

  /** `Program::run` from machine `m` with at most `fuel` executed instructions. */
  function Execute(fuel: nat, m: Machine, input: Option<int>): (r: Result<Suspension<Machine>, Fault>)
    ensures r.Ok? ==> |r.value.machine.memory| == |m.memory|
  {
    ExecuteKeepsMemorySize(fuel, m, input, []);
    Run(Step, fuel, m, input, [])
  }

  lemma {:induction false} ExecuteKeepsMemorySize(fuel: nat, m: Machine, input: Option<int>, outputs: seq<int>)
    ensures Run(Step, fuel, m, input, outputs).Ok? ==> |Run(Step, fuel, m, input, outputs).value.machine.memory| == |m.memory|
    decreases fuel
  {
    RunFirstStep(Step, fuel, m, input, outputs);
    var p := Step(m, input);
    if p.Ok? && p.value.Running? && fuel > 0 {
      ExecuteKeepsMemorySize(fuel - 1, p.value.machine, p.value.input, outputs + p.value.emitted);
    }
  }

  /**
   * Where a run can stop: it halts only on a halt instruction, and it waits for input only at
   * an input instruction with no input pending, or past the end of memory.
   */
  predicate StopsProperly(s: Suspension<Machine>)
  {
    match s.state
    case AwaitInput =>
      s.machine.ip >= |s.machine.memory| ||
      (s.input == None && Current(s.machine).Ok? && Current(s.machine).value.Input?)
    case Halt =>
      s.machine.ip < |s.machine.memory| && Current(s.machine) == Ok(Operation.Halt)
  }

  lemma {:induction false} RunStopsProperly(fuel: nat, m: Machine, input: Option<int>, outputs: seq<int>)
    requires Run(Step, fuel, m, input, outputs).Ok?
    ensures StopsProperly(Run(Step, fuel, m, input, outputs).value)
    decreases fuel
  {
    RunFirstStep(Step, fuel, m, input, outputs);
    var p := Step(m, input).value;
    if p.Running? {
      RunStopsProperly(fuel - 1, p.machine, p.input, outputs + p.emitted);
    }
  }

  /** How far `Program::new` extends the program with zeroed memory. */
  const MEMORY_EXTENSION: nat := 1_000_000

  function Zeros(n: nat): (z: seq<int>)
    ensures |z| == n && forall i :: 0 <= i < n ==> z[i] == 0
  {
    seq(n, _ => 0)
  }

  /** The machine `Program::new` builds: the program followed by a million zero cells. */
  function Initial(program: seq<int>): (m: Machine)
    ensures |m.memory| == |program| + MEMORY_EXTENSION && m.memory[..|program|] == program
    ensures forall i :: |program| <= i < |m.memory| ==> m.memory[i] == 0
    ensures m.ip == 0 && m.base == 0
  {
    Machine(program + Zeros(MEMORY_EXTENSION), 0, 0)
  }

  /** `Program`: an Intcode machine that can be suspended for input and resumed. */
  class Program {
    var memory: seq<int>
    var instructionPtr: nat
    var relativeOffset: int

    function State(): Machine
      reads this
    {
      Machine(memory, instructionPtr, relativeOffset)
    }

    /** `Program::new`. */
    constructor (program: seq<int>)
      ensures State() == Initial(program)
    {
      memory := program + Zeros(MEMORY_EXTENSION);
      instructionPtr := 0;
      relativeOffset := 0;
    }

    /**
     * The body of the loop of `Program::run`: decodes and evaluates the instruction at the
     * instruction pointer and acts on the result.  The machine is left as it was when the
     * run stops here.
     */
    method Tick(pending: Option<int>) returns (r: Result<Progress<Machine>, Fault>)
      requires instructionPtr < |memory|
      modifies this
      ensures r == Step(old(State()), pending)
      ensures r.Ok? && r.value.Running? ==> State() == r.value.machine
      ensures r.Ok? && r.value.Stopped? ==> State() == old(State())
    {
      var op :- Decode(memory[instructionPtr..]);
      var size := Size(op);
      var e :- Eval(op, memory, relativeOffset);
      StepAdvances(State(), pending, op, e);
      match e.result
      case Halt =>
        return Ok(Stopped(ProgramState.Halt));
      case InputAt(pos) =>
        if pending.None? {
          return Ok(Stopped(AwaitInput));
        } else if pos >= |memory| {
          return Err(IndexOutOfBounds);
        }
        memory, instructionPtr := e.memory[pos := pending.value], instructionPtr + size;
        return Ok(Running(State(), None, []));
      case Continue =>
        memory, instructionPtr := e.memory, instructionPtr + size;
        return Ok(Running(State(), pending, []));
      case SetInstructionPtr(ptr) =>
        memory, instructionPtr := e.memory, ptr;
        return Ok(Running(State(), pending, []));
      case UpdateRelativeOffset(delta) =>
        memory, relativeOffset, instructionPtr := e.memory, relativeOffset + delta, instructionPtr + size;
        return Ok(Running(State(), pending, []));
      case Output(value) =>
        memory, instructionPtr := e.memory, instructionPtr + size;
        return Ok(Running(State(), pending, [value]));
    }

    /**
     * `Program::run`: executes until the program halts, needs input it has not got, or runs
     * off the end of memory.  The pending input, if any, is consumed by the first input
     * instruction; what is left of it comes back in the result.
     */
    method Run(input: Option<int>, fuel: nat) returns (r: Result<Suspension<Machine>, Fault>)
      modifies this
      ensures r == Execute(fuel, old(State()), input)
      ensures r.Ok? ==> State() == r.value.machine
    {
      var outputs: seq<int> := [];
      var pending := input;
      var remaining := fuel;
      while instructionPtr < |memory|
        invariant Execute(fuel, old(State()), input) == Resumable.Run(Step, remaining, State(), pending, outputs)
        decreases remaining
      {
        RunFirstStep(Step, remaining, State(), pending, outputs);
        var p :- Tick(pending);
        match p
        case Stopped(state) =>
          return Ok(Suspension(state, outputs, pending, State()));
        case Running(_, input', emitted) =>
          if remaining == 0 {
            return Err(OutOfFuel);
          }
          pending, outputs, remaining := input', outputs + emitted, remaining - 1;
      }
      RunFirstStep(Step, remaining, State(), pending, outputs);
      return Ok(Suspension(AwaitInput, outputs, pending, State()));
    }

    /**
     * `Program::run_all` of `p18/src/main.rs`: runs once per input taken from the front of
     * `inputs`, or once without input when the queue is empty, appending every output to
     * `outputs`; an input a run did not consume goes back to the front of the queue.  It stops
     * when the program halts or waits for input with the queue empty, and reports whether
     * anything was printed.
     */
    method RunAll(inputs: seq<int>, outputs: seq<int>, fuel: nat) returns (r: Result<Drained<Machine>, Fault>)
      modifies this
      ensures r == Resumable.RunAll(Step, fuel, old(State()), inputs, outputs, false)
      ensures r.Ok? ==> State() == r.value.machine
    {
      var queue, printed, progress, remaining := inputs, outputs, false, fuel;
      while true
        invariant Resumable.RunAll(Step, fuel, old(State()), inputs, outputs, false)
          == Resumable.RunAll(Step, remaining, State(), queue, printed, progress)
        decreases remaining
      {
        var s :- Run(Front(queue), remaining);
        queue := Requeue(s.input, Rest(queue));
        printed, progress := printed + s.outputs, progress || s.outputs != [];
        if s.state == ProgramState.Halt || queue == [] {
          return Ok(Drained(s.state, State(), queue, printed, progress));
        }
        if remaining == 0 {
          return Err(OutOfFuel);
        }
        remaining := remaining - 1;
      }
    }
  }
}
