/**
 * The two-mode Intcode machine that `p10/src/main.rs`, `p13/src/main.rs` and
 * `p14/src/main.rs` each carry a copy of: parameters are in position mode (0) or immediate
 * mode (1), and the destination of a store is a raw address whose mode digit is never read.
 *
 * The decoder is shared by all three.  The evaluator here is the one of p10 and p13, which
 * asks an input closure for a value and hands every output to an output closure; p14
 * evaluates differently (module `FeedbackLoop`).  The run loop is the one of p10's `run` and
 * p13's `run_thruster_program`, which differ only in their closures.
 */
module ModeVm {
  import opened Util
  import opened Tape

  datatype ParameterMode = Position | Immediate

  /** A parameter whose mode was decoded: the mode and the raw cell that follows the opcode. */
  datatype Param = Param(mode: ParameterMode, value: int)

  datatype Operation =
    | Add(left: Param, right: Param, dest: int)
    | Mul(left: Param, right: Param, dest: int)
    | Input(dest: int)
    | Output(source: Param)
    | JumpIfTrue(cond: Param, target: Param)
    | JumpIfFalse(cond: Param, target: Param)
    | LessThan(left: Param, right: Param, dest: int)
    | Equals(left: Param, right: Param, dest: int)
    | Halt

  // ------------------------------------------------------------------------------------
  // Decoding

  function ModeCode(mode: ParameterMode): nat
  {
    match mode
    case Position => 0
    case Immediate => 1
  }

  /** `ParameterMode::decode`: the digit 0 or 1, anything else panics. */
  function DecodeMode(digit: int): (r: Result<ParameterMode, Fault>)
    ensures r.Ok? <==> digit == 0 || digit == 1
    ensures r.Ok? ==> ModeCode(r.value) == digit
    ensures r.Err? ==> r.error == UnknownParameterMode(digit)
  {
    if digit == 0 then Ok(Position)
    else if digit == 1 then Ok(Immediate)
    else Err(UnknownParameterMode(digit))
  }

  predicate IsOpcode(n: int)
  {
    1 <= n <= 8 || n == 99
  }

  function Opcode(op: Operation): (n: int)
    ensures IsOpcode(n)
  {
    match op
    case Add(_, _, _) => 1
    case Mul(_, _, _) => 2
    case Input(_) => 3
    case Output(_) => 4
    case JumpIfTrue(_, _) => 5
    case JumpIfFalse(_, _) => 6
    case LessThan(_, _, _) => 7
    case Equals(_, _, _) => 8
    case Halt => 99
  }

  /** The parameters whose mode digit is decoded, in order from the hundreds digit up. */
  function Moded(op: Operation): (ps: seq<Param>)
    ensures |ps| <= 2
  {
    match op
    case Add(l, r, _) => [l, r]
    case Mul(l, r, _) => [l, r]
    case Input(_) => []
    case Output(s) => [s]
    case JumpIfTrue(c, t) => [c, t]
    case JumpIfFalse(c, t) => [c, t]
    case LessThan(l, r, _) => [l, r]
    case Equals(l, r, _) => [l, r]
    case Halt => []
  }

  /** The raw cells that follow the opcode cell. */
  function Cells(op: Operation): (cs: seq<int>)
    ensures |cs| <= 3
  {
    match op
    case Add(l, r, d) => [l.value, r.value, d]
    case Mul(l, r, d) => [l.value, r.value, d]
    case Input(d) => [d]
    case Output(s) => [s.value]
    case JumpIfTrue(c, t) => [c.value, t.value]
    case JumpIfFalse(c, t) => [c.value, t.value]
    case LessThan(l, r, d) => [l.value, r.value, d]
    case Equals(l, r, d) => [l.value, r.value, d]
    case Halt => []
  }

  /** `Operation::size`: the opcode cell and the cells of its parameters. */
  function Size(op: Operation): (n: nat)
    ensures n == 1 + |Cells(op)|
    ensures op.Add? || op.Mul? || op.LessThan? || op.Equals? <==> n == 4
    ensures op.JumpIfTrue? || op.JumpIfFalse? <==> n == 3
    ensures op.Input? || op.Output? <==> n == 2
    ensures op.Halt? <==> n == 1
  {
    match op
    case Add(_, _, _) => 4
    case Mul(_, _, _) => 4
    case Input(_) => 2
    case Output(_) => 2
    case JumpIfTrue(_, _) => 3
    case JumpIfFalse(_, _) => 3
    case LessThan(_, _, _) => 4
    case Equals(_, _, _) => 4
    case Halt => 1
  }

  /**
   * `Operation::decode` on the memory from the instruction pointer on.  The mode digits are
   * decoded before the parameter cells are read.
   */
  function Decode(cells: seq<int>): (r: Result<Operation, Fault>)
    ensures r.Ok? ==> |cells| >= Size(r.value) && Opcode(r.value) == OpcodeOf(cells[0])
    ensures r.Ok? ==> forall i :: 0 <= i < |Cells(r.value)| ==> cells[i + 1] == Cells(r.value)[i]
    ensures r.Ok? ==> forall i :: 0 <= i < |Moded(r.value)| ==> ModeCode(Moded(r.value)[i].mode) == ModeDigit(cells[0], i)
    ensures cells != [] && !IsOpcode(OpcodeOf(cells[0])) ==> r == Err(UnknownInstruction(OpcodeOf(cells[0])))
  {
    if cells == [] then Err(IndexOutOfBounds)
    else
      var opcode := OpcodeOf(cells[0]);
      if opcode == 1 || opcode == 2 || opcode == 7 || opcode == 8 then
        var lmode :- DecodeMode(ModeDigit(cells[0], 0));
        var rmode :- DecodeMode(ModeDigit(cells[0], 1));
        if |cells| < 4 then Err(IndexOutOfBounds)
        else
          var left, right := Param(lmode, cells[1]), Param(rmode, cells[2]);
          Ok(if opcode == 1 then Add(left, right, cells[3])
             else if opcode == 2 then Mul(left, right, cells[3])
             else if opcode == 7 then LessThan(left, right, cells[3])
             else Equals(left, right, cells[3]))
      else if opcode == 3 then
        if |cells| < 2 then Err(IndexOutOfBounds) else Ok(Input(cells[1]))
      else if opcode == 4 then
        var mode :- DecodeMode(ModeDigit(cells[0], 0));
        if |cells| < 2 then Err(IndexOutOfBounds) else Ok(Output(Param(mode, cells[1])))
      else if opcode == 5 || opcode == 6 then
        var bmode :- DecodeMode(ModeDigit(cells[0], 0));
        var dmode :- DecodeMode(ModeDigit(cells[0], 1));
        if |cells| < 3 then Err(IndexOutOfBounds)
        else
          var cond, target := Param(bmode, cells[1]), Param(dmode, cells[2]);
          Ok(if opcode == 5 then JumpIfTrue(cond, target) else JumpIfFalse(cond, target))
      else if opcode == 99 then Ok(Operation.Halt)
      else Err(UnknownInstruction(opcode))
  }

  /** A decoded mode digit that is neither 0 nor 1 makes decoding panic. */
  lemma DecodeRejectsMode(cells: seq<int>, k: nat)
    requires cells != [] && IsOpcode(OpcodeOf(cells[0])) && OpcodeOf(cells[0]) != 3 && OpcodeOf(cells[0]) != 99
    requires k < (if OpcodeOf(cells[0]) == 4 then 1 else 2)
    requires ModeDigit(cells[0], k) != 0 && ModeDigit(cells[0], k) != 1
    ensures Decode(cells).Err? && Decode(cells).error.UnknownParameterMode?
  {
  }

  /** The mode digits of the decoded parameters, placed from the hundreds digit up. */
  function ModeDigits(ps: seq<Param>): nat
    requires |ps| <= 2
  {
    (if |ps| > 0 then 100 * ModeCode(ps[0].mode) else 0)
    + (if |ps| > 1 then 1000 * ModeCode(ps[1].mode) else 0)
  }

  /** The cells an assembler would write for an instruction. */
  function Encode(op: Operation): (cells: seq<int>)
    ensures |cells| == Size(op)
  {
    [Opcode(op) + ModeDigits(Moded(op))] + Cells(op)
  }

  /** Cells whose opcode, mode digits and parameter cells spell out `op` decode to `op`. */
  lemma DecodeSpelled(cells: seq<int>, op: Operation)
    requires |cells| >= Size(op) && OpcodeOf(cells[0]) == Opcode(op)
    requires forall i :: 0 <= i < |Cells(op)| ==> cells[i + 1] == Cells(op)[i]
    requires forall k :: 0 <= k < |Moded(op)| ==> ModeDigit(cells[0], k) == ModeCode(Moded(op)[k].mode)
    ensures Decode(cells) == Ok(op)
  {
    var ps := Moded(op);
    forall k | 0 <= k < |ps|
      ensures DecodeMode(ModeDigit(cells[0], k)) == Ok(ps[k].mode) && cells[k + 1] == ps[k].value
    {
      assert Cells(op)[k] == ps[k].value;
    }
    if |Cells(op)| > |ps| {
      assert cells[|ps| + 1] == Cells(op)[|ps|];
    }
  }

  /** Decoding undoes encoding, whatever follows the instruction in memory. */
  lemma DecodeEncode(op: Operation, rest: seq<int>)
    ensures Decode(Encode(op) + rest) == Ok(op)
  {
    var ps := Moded(op);
    var cells := Encode(op) + rest;
    var a := if |ps| > 0 then ModeCode(ps[0].mode) else 0;
    var b := if |ps| > 1 then ModeCode(ps[1].mode) else 0;
    OpcodeCellDigits(Opcode(op), a, b, 0);
    assert cells[0] == Opcode(op) + 100 * a + 1000 * b + 10000 * 0;
    DecodeSpelled(cells, op);
  }

  /** An instruction written at `ip` is what decoding the memory from `ip` on finds. */
  lemma DecodeAt(mem: seq<int>, ip: nat, op: Operation)
    requires ip + Size(op) <= |mem| && mem[ip..ip + Size(op)] == Encode(op)
    ensures Decode(mem[ip..]) == Ok(op)
  {
    var rest := mem[ip + Size(op)..];
    assert mem[ip..] == Encode(op) + rest;
    DecodeEncode(op, rest);
  }

  /** `1001,4,3,4,99`: an addition of cell 4 and the constant 3 into cell 4, then a halt. */
  lemma DecodesExample()
    ensures Decode([1001, 4, 3, 4, 99]) == Ok(Add(Param(Position, 4), Param(Immediate, 3), 4))
    ensures Decode([1001, 4, 3, 4, 99][4..]) == Ok(Operation.Halt)
  {
    OpcodeCellDigits(1, 0, 1, 0);
    DecodeSpelled([1001, 4, 3, 4, 99], Add(Param(Position, 4), Param(Immediate, 3), 4));
    OpcodeCellDigits(99, 0, 0, 0);
  }

  // ------------------------------------------------------------------------------------
  // Evaluation

  /** `ParameterMode::fetch`: the cell a position parameter names, or an immediate's value. */
  function Fetch(p: Param, mem: seq<int>): (r: Result<int, Fault>)
    ensures p.mode == Immediate ==> r == Ok(p.value)
    ensures p.mode == Position ==> (r.Ok? <==> AsUsize(p.value) < |mem|)
    ensures p.mode == Position && r.Ok? ==> r.value == mem[AsUsize(p.value)]
  {
    match p.mode
    case Position => Read(mem, AsUsize(p.value))
    case Immediate => Ok(p.value)
  }

  /** What evaluating an instruction asks the run loop to do next. */
  datatype EvalResult = Halt | Continue | SetInstructionPtr(ptr: nat)

  /** The memory after an instruction, what comes next, and the value it printed, if any. */
  datatype Evaluated = Evaluated(result: EvalResult, memory: seq<int>, printed: Option<int>)

  /** The instructions that store into memory. */
  predicate Writes(op: Operation)
  {
    op.Add? || op.Mul? || op.LessThan? || op.Equals? || op.Input?
  }

  /**
   * `Operation::eval` of p10 and p13.  `input` is what the input closure gives when called;
   * only an input instruction calls it, before its destination is indexed.
   */
  function Eval(op: Operation, mem: seq<int>, input: Result<int, Fault>): (r: Result<Evaluated, Fault>)
    ensures r.Ok? ==> |r.value.memory| == |mem|
    ensures r.Ok? && !Writes(op) ==> r.value.memory == mem
    ensures r.Ok? && Writes(op) ==> r.value.result == Continue && AsUsize(op.dest) < |mem|
    ensures r.Ok? && Writes(op) ==>
      forall i :: 0 <= i < |mem| && i != AsUsize(op.dest) ==> r.value.memory[i] == mem[i]
    ensures r.Ok? && op.Input? ==> input.Ok? && r.value.memory[AsUsize(op.dest)] == input.value
    ensures r.Ok? && op.Output? ==>
      (r.value.result == Continue && Fetch(op.source, mem).Ok? && r.value.printed == Some(Fetch(op.source, mem).value))
    ensures r.Ok? && !op.Output? ==> r.value.printed == None
    ensures r.Ok? ==> (r.value.result == EvalResult.Halt <==> op.Halt?)
    ensures op.Input? && input.Err? ==> r == Err(input.error)
  {
    match op
    case Add(l, r, d) =>
      var x :- Fetch(l, mem);
      var y :- Fetch(r, mem);
      var mem' :- Write(mem, AsUsize(d), x + y);
      Ok(Evaluated(Continue, mem', None))
    case Mul(l, r, d) =>
      var x :- Fetch(l, mem);
      var y :- Fetch(r, mem);
      var mem' :- Write(mem, AsUsize(d), x * y);
      Ok(Evaluated(Continue, mem', None))
    case Input(d) =>
      var x :- input;
      var mem' :- Write(mem, AsUsize(d), x);
      Ok(Evaluated(Continue, mem', None))
    case Output(s) =>
      var x :- Fetch(s, mem);
      Ok(Evaluated(Continue, mem, Some(x)))
    case Halt =>
      Ok(Evaluated(EvalResult.Halt, mem, None))
    case JumpIfTrue(c, t) =>
      var b :- Fetch(c, mem);
      if b != 0 then
        var target :- Fetch(t, mem);
        Ok(Evaluated(SetInstructionPtr(AsUsize(target)), mem, None))
      else Ok(Evaluated(Continue, mem, None))
    case JumpIfFalse(c, t) =>
      var b :- Fetch(c, mem);
      if b == 0 then
        var target :- Fetch(t, mem);
        Ok(Evaluated(SetInstructionPtr(AsUsize(target)), mem, None))
      else Ok(Evaluated(Continue, mem, None))
    case LessThan(l, r, d) =>
      var x :- Fetch(l, mem);
      var y :- Fetch(r, mem);
      var mem' :- Write(mem, AsUsize(d), if x < y then 1 else 0);
      Ok(Evaluated(Continue, mem', None))
    case Equals(l, r, d) =>
      var x :- Fetch(l, mem);
      var y :- Fetch(r, mem);
      var mem' :- Write(mem, AsUsize(d), if x == y then 1 else 0);
      Ok(Evaluated(Continue, mem', None))
  }

  /** An addition or multiplication stores the sum or product of its two operands. */
  lemma EvalArithmetic(op: Operation, mem: seq<int>, input: Result<int, Fault>)
    requires op.Add? || op.Mul?
    requires Eval(op, mem, input).Ok?
    ensures Fetch(op.left, mem).Ok? && Fetch(op.right, mem).Ok?
    ensures var x, y := Fetch(op.left, mem).value, Fetch(op.right, mem).value;
      Eval(op, mem, input).value.memory[AsUsize(op.dest)] == if op.Add? then x + y else x * y
  {
  }

  /** A comparison stores 1 exactly when it holds and 0 otherwise. */
  lemma EvalComparison(op: Operation, mem: seq<int>, input: Result<int, Fault>)
    requires op.LessThan? || op.Equals?
    requires Eval(op, mem, input).Ok?
    ensures Fetch(op.left, mem).Ok? && Fetch(op.right, mem).Ok?
    ensures var x, y := Fetch(op.left, mem).value, Fetch(op.right, mem).value;
      var cell := Eval(op, mem, input).value.memory[AsUsize(op.dest)];
      (cell == 1 <==> (if op.LessThan? then x < y else x == y)) &&
      (cell == 0 <==> !(if op.LessThan? then x < y else x == y))
  {
  }

  /** A conditional jump moves the instruction pointer exactly when its condition holds. */
  lemma EvalJump(op: Operation, mem: seq<int>, input: Result<int, Fault>)
    requires op.JumpIfTrue? || op.JumpIfFalse?
    requires Eval(op, mem, input).Ok?
    ensures Fetch(op.cond, mem).Ok?
    ensures var taken := if op.JumpIfTrue? then Fetch(op.cond, mem).value != 0 else Fetch(op.cond, mem).value == 0;
      (Eval(op, mem, input).value.result.SetInstructionPtr? <==> taken) &&
      (taken ==> Fetch(op.target, mem).Ok? && Eval(op, mem, input).value.result.ptr == AsUsize(Fetch(op.target, mem).value))
  {
  }

  /** `eval` on the slice the run loop owns: the store, if any, happens in place. */
  method EvalInPlace(op: Operation, mem: array<int>, input: Result<int, Fault>) returns (r: Result<(EvalResult, Option<int>), Fault>)
    modifies mem
    ensures r.Ok? <==> Eval(op, old(mem[..]), input).Ok?
    ensures r.Ok? ==> var e := Eval(op, old(mem[..]), input).value;
      r.value == (e.result, e.printed) && mem[..] == e.memory
    ensures r.Err? ==> r.error == Eval(op, old(mem[..]), input).error
  {
    ghost var e := Eval(op, mem[..], input);
    match op
    case Halt =>
      return Ok((EvalResult.Halt, None));
    case Output(s) =>
      var x :- Fetch(s, mem[..]);
      return Ok((Continue, Some(x)));
    case JumpIfTrue(c, t) =>
      var b :- Fetch(c, mem[..]);
      if b == 0 {
        return Ok((Continue, None));
      }
      var target :- Fetch(t, mem[..]);
      return Ok((SetInstructionPtr(AsUsize(target)), None));
    case JumpIfFalse(c, t) =>
      var b :- Fetch(c, mem[..]);
      if b != 0 {
        return Ok((Continue, None));
      }
      var target :- Fetch(t, mem[..]);
      return Ok((SetInstructionPtr(AsUsize(target)), None));
    case Input(d) =>
      var x :- input;
      if AsUsize(d) >= mem.Length {
        return Err(IndexOutOfBounds);
      }
      mem[AsUsize(d)] := x;
      return Ok((Continue, None));
    case _ =>
      var x :- Fetch(op.left, mem[..]);
      var y :- Fetch(op.right, mem[..]);
      if AsUsize(op.dest) >= mem.Length {
        return Err(IndexOutOfBounds);
      }
      mem[AsUsize(op.dest)] :=
        if op.Add? then x + y else if op.Mul? then x * y
        else if op.LessThan? then (if x < y then 1 else 0)
        else (if x == y then 1 else 0);
      return Ok((Continue, None));
  }

  // ------------------------------------------------------------------------------------
  // Running

  /** What the input closure gives: always the same value, or the values of a list in turn. */
  datatype InputSource = Constant(value: int) | Listed(values: seq<int>)

  /** The value of the closure's call number `k` (counting from 0); a list that ran out panics. */
  function Next(source: InputSource, k: nat): (r: Result<int, Fault>)
    ensures source.Constant? ==> r == Ok(source.value)
    ensures source.Listed? ==> (r.Ok? <==> k < |source.values|)
    ensures source.Listed? && r.Ok? ==> r.value == source.values[k]
    ensures r.Err? ==> r.error == InputExhausted
  {
    match source
    case Constant(v) => Ok(v)
    case Listed(vs) => if k < |vs| then Ok(vs[k]) else Err(InputExhausted)
  }

  /**
   * The run loop's state: memory, instruction pointer, how often the input closure was
   * called, and every value handed to the output closure so far.
   */
  datatype Machine = Machine(memory: seq<int>, ip: nat, taken: nat, printed: seq<int>)

  /** The machine a run starts in. */
  function Start(program: seq<int>): (m: Machine)
    ensures m.memory == program && m.ip == 0 && m.taken == 0 && m.printed == []
  {
    Machine(program, 0, 0, [])
  }

  /** How the loop acts on an evaluated instruction of `size` cells. */
  function Advance(m: Machine, op: Operation, e: Evaluated): Machine
  {
    Machine(e.memory,
            if e.result.SetInstructionPtr? then e.result.ptr else m.ip + Size(op),
            if op.Input? then m.taken + 1 else m.taken,
            if e.printed.Some? then m.printed + [e.printed.value] else m.printed)
  }

  /**
   * The loop of p10's `run` and p13's `run_thruster_program`: while the instruction pointer is
   * inside memory, decode, evaluate, and advance by the size or jump; stop at a halt.  At most
   * `fuel` instructions are followed by another.
   */
  function Execute(source: InputSource, fuel: nat, m: Machine): (r: Result<Machine, Fault>)
    ensures r.Ok? ==> |r.value.memory| == |m.memory| && m.printed <= r.value.printed && m.taken <= r.value.taken
    decreases fuel, 1
  {
    if m.ip >= |m.memory| then Ok(m) else ExecuteAt(source, fuel, m)
  }

  /** One pass of the loop, kept apart so that unfolding a run once stops short of the decoder. */
  function ExecuteAt(source: InputSource, fuel: nat, m: Machine): (r: Result<Machine, Fault>)
    requires m.ip < |m.memory|
    ensures r.Ok? ==> |r.value.memory| == |m.memory| && m.printed <= r.value.printed && m.taken <= r.value.taken
    decreases fuel, 0
  {
    var next :- Step(source, m);
    match next
    case None => Ok(m)
    case Some(m') => if fuel == 0 then Err(OutOfFuel) else Execute(source, fuel - 1, m')
  }

  /**
   * The body of the loop: decode and evaluate the instruction at the pointer, then the
   * machine the loop goes on with, or `None` at a halt.
   */
  function Step(source: InputSource, m: Machine): (r: Result<Option<Machine>, Fault>)
    requires m.ip < |m.memory|
    ensures r.Ok? ==> Decode(m.memory[m.ip..]).Ok? && (r.value.None? <==> Decode(m.memory[m.ip..]).value.Halt?)
    ensures r.Ok? && r.value.Some? ==>
      var m' := r.value.value;
      |m'.memory| == |m.memory| && m.printed <= m'.printed && |m'.printed| <= |m.printed| + 1 &&
      m'.taken == (if Decode(m.memory[m.ip..]).value.Input? then m.taken + 1 else m.taken)
  {
    var op :- Decode(m.memory[m.ip..]);
    var e :- Eval(op, m.memory, Next(source, m.taken));
    if e.result == EvalResult.Halt then Ok(None) else Ok(Some(Advance(m, op, e)))
  }

  /** Where a run stops: at a halt instruction, or with the instruction pointer past the end. */
  predicate Stopped(m: Machine)
  {
    m.ip >= |m.memory| || Decode(m.memory[m.ip..]) == Ok(Operation.Halt)
  }

  lemma {:induction false} ExecuteStops(source: InputSource, fuel: nat, m: Machine)
    requires Execute(source, fuel, m).Ok?
    ensures Stopped(Execute(source, fuel, m).value)
    decreases fuel
  {
    if m.ip < |m.memory| {
      assert Execute(source, fuel, m) == ExecuteAt(source, fuel, m);
      var next := Step(source, m).value;
      if next.Some? {
        ExecuteStops(source, fuel - 1, next.value);
      }
    }
  }

  /**
   * A run whose input closure hands out a list never calls it more often than the list is
   * long: one more call would have panicked.
   */
  lemma {:induction false} ListedInputsSuffice(values: seq<int>, fuel: nat, m: Machine)
    requires m.taken <= |values|
    requires Execute(Listed(values), fuel, m).Ok?
    ensures Execute(Listed(values), fuel, m).value.taken <= |values|
    decreases fuel
  {
    if m.ip < |m.memory| {
      assert Execute(Listed(values), fuel, m) == ExecuteAt(Listed(values), fuel, m);
      var next := Step(Listed(values), m).value;
      if next.Some? {
        ListedInputsSuffice(values, fuel - 1, next.value);
      }
    }
  }

  /** A run past an instruction that is not a halt is the run from the machine after it. */
  lemma ExecutePasses(source: InputSource, fuel: nat, m: Machine, m': Machine)
    requires m.ip < |m.memory| && Step(source, m) == Ok(Some(m'))
    ensures Execute(source, fuel + 1, m) == Execute(source, fuel, m')
  {
    assert Execute(source, fuel + 1, m) == ExecuteAt(source, fuel + 1, m);
  }

  /** A run at a halt instruction stops there. */
  lemma ExecuteHalts(source: InputSource, fuel: nat, m: Machine)
    requires m.ip < |m.memory| && Step(source, m) == Ok(None)
    ensures Execute(source, fuel, m) == Ok(m)
  {
    assert Execute(source, fuel, m) == ExecuteAt(source, fuel, m);
  }

  /**
   * The loop body on the memory slice the run owns: the store, if any, happens in place, and
   * the slice is left as it was when the instruction is a halt.
   */
  method Tick(mem: array<int>, source: InputSource, ip: nat, taken: nat, printed: seq<int>) returns (r: Result<Option<Machine>, Fault>)
    requires ip < mem.Length
    modifies mem
    ensures r == Step(source, Machine(old(mem[..]), ip, taken, printed))
    ensures r.Ok? && r.value.Some? ==> mem[..] == r.value.value.memory
    ensures r.Ok? && r.value.None? ==> mem[..] == old(mem[..])
  {
    ghost var m := Machine(mem[..], ip, taken, printed);
    var op :- Decode(mem[ip..]);
    var e :- EvalInPlace(op, mem, Next(source, taken));
    ghost var ev := Eval(op, m.memory, Next(source, taken)).value;
    if e.0 == EvalResult.Halt {
      return Ok(None);
    }
    var ip' := if e.0.SetInstructionPtr? then e.0.ptr else ip + Size(op);
    var taken' := if op.Input? then taken + 1 else taken;
    var printed' := if e.1.Some? then printed + [e.1.value] else printed;
    assert Advance(m, op, ev) == Machine(mem[..], ip', taken', printed');
    return Ok(Some(Machine(mem[..], ip', taken', printed')));
  }

  /**
   * The loop of p10's `run` and p13's `run_thruster_program` over the memory slice it owns,
   * which it changes in place; the result is the machine it stopped in.
   */
  method Run(mem: array<int>, source: InputSource, fuel: nat) returns (r: Result<Machine, Fault>)
    modifies mem
    ensures r == Execute(source, fuel, Start(old(mem[..])))
    ensures r.Ok? ==> mem[..] == r.value.memory
  {
    var ip: nat, taken: nat, printed: seq<int>, remaining: nat := 0, 0, [], fuel;
    while ip < mem.Length
      invariant Execute(source, fuel, Start(old(mem[..]))) == Execute(source, remaining, Machine(mem[..], ip, taken, printed))
      decreases remaining
    {
      assert Execute(source, remaining, Machine(mem[..], ip, taken, printed))
        == ExecuteAt(source, remaining, Machine(mem[..], ip, taken, printed));
      var next :- Tick(mem, source, ip, taken, printed);
      if next.None? {
        return Ok(Machine(mem[..], ip, taken, printed));
      }
      if remaining == 0 {
        return Err(OutOfFuel);
      }
      ip, taken, printed, remaining := next.value.ip, next.value.taken, next.value.printed, remaining - 1;
    }
    return Ok(Machine(mem[..], ip, taken, printed));
  }
}
