/**
 * The first Intcode machine, of `p04/src/main.rs`: cells are `usize`, an instruction is an
 * opcode and three positions, and the machine visits every fourth cell until it meets a halt.
 * `find_noun_and_verb` searches the inputs in cells 1 and 2 that leave 19690720 in cell 0.
 */
module GravityAssist {
  import opened Util
  import opened Tape

  datatype Operation =
    | Add(left: nat, right: nat, dest: nat)
    | Mul(left: nat, right: nat, dest: nat)
    | Halt

  /** `decode`: the instruction at `pos`; an unknown opcode or a short tape panics. */
  function Decode(mem: seq<nat>, pos: nat): (r: Result<Operation, Fault>)
    ensures r.Ok? ==> pos < |mem| && (mem[pos] == 1 || mem[pos] == 2 || mem[pos] == 99)
    ensures r.Ok? && !r.value.Halt? ==>
      pos + 3 < |mem| && r.value.left == mem[pos + 1] && r.value.right == mem[pos + 2] && r.value.dest == mem[pos + 3]
    ensures r.Ok? ==> (r.value.Add? <==> mem[pos] == 1) && (r.value.Mul? <==> mem[pos] == 2)
    ensures pos < |mem| && mem[pos] !in {1, 2, 99} ==> r == Err(UnknownInstruction(mem[pos]))
  {
    var code :- Read(mem, pos);
    if code == 1 || code == 2 then
      var left :- Read(mem, pos + 1);
      var right :- Read(mem, pos + 2);
      var dest :- Read(mem, pos + 3);
      Ok(if code == 1 then Add(left, right, dest) else Mul(left, right, dest))
    else if code == 99 then Ok(Halt)
    else Err(UnknownInstruction(code))
  }

  /** The cells an instruction is written as. */
  function Encode(op: Operation): (cells: seq<nat>)
    ensures 1 <= |cells| <= 4
  {
    match op
    case Add(l, r, d) => [1, l, r, d]
    case Mul(l, r, d) => [2, l, r, d]
    case Halt => [99]
  }

  /** Decoding finds the instruction written at `pos`, whatever surrounds it. */
  lemma DecodeEncode(before: seq<nat>, op: Operation, after: seq<nat>)
    ensures Decode(before + Encode(op) + after, |before|) == Ok(op)
  {
    var mem := before + Encode(op) + after;
    assert mem[|before|..|before| + |Encode(op)|] == Encode(op);
  }

  /** What evaluating an instruction leaves: whether to go on, and the memory. */
  datatype Evaluation = Evaluation(goOn: bool, memory: seq<nat>)

  /**
   * `evaluate`: an addition or multiplication of two cells stored into a third; only a halt
   * says to stop.
   */
  function Evaluate(op: Operation, mem: seq<nat>): (r: Result<Evaluation, Fault>)
    ensures r.Ok? ==> |r.value.memory| == |mem| && (r.value.goOn <==> !op.Halt?)
    ensures r.Ok? && op.Halt? ==> r.value.memory == mem
    ensures r.Ok? && !op.Halt? ==>
      op.left < |mem| && op.right < |mem| && op.dest < |mem| &&
      r.value.memory == mem[op.dest := if op.Add? then mem[op.left] + mem[op.right] else mem[op.left] * mem[op.right]]
    ensures !op.Halt? && op.left < |mem| && op.right < |mem| && op.dest < |mem| ==> r.Ok?
  {
    match op
    case Halt => Ok(Evaluation(false, mem))
    case Add(l, r, d) =>
      var x :- Read(mem, l);
      var y :- Read(mem, r);
      var mem' :- Write(mem, d, x + y);
      Ok(Evaluation(true, mem'))
    case Mul(l, r, d) =>
      var x :- Read(mem, l);
      var y :- Read(mem, r);
      var mem' :- Write(mem, d, x * y);
      Ok(Evaluation(true, mem'))
  }

  /** `evaluate` on the array `run` works on: the store happens in place. */
  method EvaluateInPlace(op: Operation, mem: array<nat>) returns (r: Result<bool, Fault>)
    modifies mem
    ensures Evaluate(op, old(mem[..])).Ok? <==> r.Ok?
    ensures r.Ok? ==> r.value == Evaluate(op, old(mem[..])).value.goOn && mem[..] == Evaluate(op, old(mem[..])).value.memory
    ensures r.Err? ==> r.error == Evaluate(op, old(mem[..])).error
  {
    if op.Halt? {
      return Ok(false);
    }
    if op.left >= mem.Length || op.right >= mem.Length || op.dest >= mem.Length {
      return Err(IndexOutOfBounds);
    }
    var value := if op.Add? then mem[op.left] + mem[op.right] else mem[op.left] * mem[op.right];
    mem[op.dest] := value;
    return Ok(true);
  }

  /** `run` from position `pos` on: the memory left behind, or the panic. */
  function RunFrom(mem: seq<nat>, pos: nat): (r: Result<seq<nat>, Fault>)
    ensures r.Ok? ==> |r.value| == |mem|
    decreases |mem| - pos, 1
  {
    if pos >= |mem| then Ok(mem) else RunAt(mem, pos)
  }

  /**
   * One pass of the loop of `run` at a position inside the tape.  It is kept apart from
   * `RunFrom` so that unfolding the run once does not unfold the decoder as well.
   */
  function RunAt(mem: seq<nat>, pos: nat): (r: Result<seq<nat>, Fault>)
    requires pos < |mem|
    ensures r.Ok? ==> |r.value| == |mem|
    decreases |mem| - pos, 0
  {
    var op :- Decode(mem, pos);
    var e :- Evaluate(op, mem);
    if !e.goOn then Ok(e.memory) else RunFrom(e.memory, pos + 4)
  }

  /** `run`: the loop over positions 0, 4, 8, … of the array, which it changes in place. */
  method Run(mem: array<nat>) returns (r: Result<(), Fault>)
    modifies mem
    ensures RunFrom(old(mem[..]), 0).Ok? <==> r.Ok?
    ensures r.Ok? ==> mem[..] == RunFrom(old(mem[..]), 0).value
    ensures r.Err? ==> r.error == RunFrom(old(mem[..]), 0).error
  {
    var pos := 0;
    while pos < mem.Length
      invariant RunFrom(old(mem[..]), 0) == RunFrom(mem[..], pos)
      decreases mem.Length - pos
    {
      assert RunFrom(mem[..], pos) == RunAt(mem[..], pos);
      var op :- Decode(mem[..], pos);
      var goOn :- EvaluateInPlace(op, mem);
      if !goOn {
        return Ok(());
      }
      pos := pos + 4;
    }
    return Ok(());
  }

  /** A halt at the position reached ends the run with memory as it is. */
  lemma HaltStops(mem: seq<nat>, pos: nat)
    requires pos < |mem| && mem[pos] == 99
    ensures RunFrom(mem, pos) == Ok(mem)
  {
    assert RunFrom(mem, pos) == RunAt(mem, pos);
  }

  /** `decode` on `1,0,0,0,99`: an addition at 0 and a halt at 4. */
  lemma DecodesExample()
    ensures Decode([1, 0, 0, 0, 99], 0) == Ok(Add(0, 0, 0))
    ensures Decode([1, 0, 0, 0, 99], 4) == Ok(Halt)
  {
  }

  /** One instruction of a tape, then the run from the next position. */
  lemma RunsOn(mem: seq<nat>, pos: nat, op: Operation, mem': seq<nat>)
    requires pos < |mem| && Decode(mem, pos) == Ok(op) && Evaluate(op, mem) == Ok(Evaluation(true, mem'))
    ensures RunFrom(mem, pos) == RunFrom(mem', pos + 4)
  {
    assert RunFrom(mem, pos) == RunAt(mem, pos);
  }

  /** The first two tapes of the test module, and the memory `run` leaves in each. */
  lemma RunsSingleStepExamples()
    ensures RunFrom([1, 0, 0, 0, 99], 0) == Ok([2, 0, 0, 0, 99])
    ensures RunFrom([2, 3, 0, 3, 99], 0) == Ok([2, 3, 0, 6, 99])
  {
    assert [1, 0, 0, 0, 99][0 := 2] == [2, 0, 0, 0, 99];
    RunsOn([1, 0, 0, 0, 99], 0, Add(0, 0, 0), [2, 0, 0, 0, 99]);
    HaltStops([2, 0, 0, 0, 99], 4);
    assert [2, 3, 0, 3, 99][3 := 6] == [2, 3, 0, 6, 99];
    RunsOn([2, 3, 0, 3, 99], 0, Mul(3, 0, 3), [2, 3, 0, 6, 99]);
    HaltStops([2, 3, 0, 6, 99], 4);
  }

  /**
   * The last two tapes of the test module: a store past the halt, and a program whose first
   * instruction writes the halt's position over with a multiplication.
   */
  lemma RunsOverwritingExamples()
    ensures RunFrom([2, 4, 4, 5, 99, 0], 0) == Ok([2, 4, 4, 5, 99, 9801])
    ensures RunFrom([1, 1, 1, 4, 99, 5, 6, 0, 99], 0) == Ok([30, 1, 1, 4, 2, 5, 6, 0, 99])
  {
    assert [2, 4, 4, 5, 99, 0][5 := 9801] == [2, 4, 4, 5, 99, 9801];
    RunsOn([2, 4, 4, 5, 99, 0], 0, Mul(4, 4, 5), [2, 4, 4, 5, 99, 9801]);
    HaltStops([2, 4, 4, 5, 99, 9801], 4);
    assert [1, 1, 1, 4, 99, 5, 6, 0, 99][4 := 2] == [1, 1, 1, 4, 2, 5, 6, 0, 99];
    RunsOn([1, 1, 1, 4, 99, 5, 6, 0, 99], 0, Add(1, 1, 4), [1, 1, 1, 4, 2, 5, 6, 0, 99]);
    assert [1, 1, 1, 4, 2, 5, 6, 0, 99][0 := 30] == [30, 1, 1, 4, 2, 5, 6, 0, 99];
    RunsOn([1, 1, 1, 4, 2, 5, 6, 0, 99], 4, Mul(5, 6, 0), [30, 1, 1, 4, 2, 5, 6, 0, 99]);
    HaltStops([30, 1, 1, 4, 2, 5, 6, 0, 99], 8);
  }

  // ------------------------------------------------------------------------------------
  // Searching noun and verb

  /** The value `find_noun_and_verb` looks for in cell 0. */
  const TARGET: nat := 19690720

  /** Why `find_noun_and_verb` gives no pair: the machine panicked, or no pair works. */
  datatype Failure = Crashed(fault: Fault) | NoCombination

  /** One attempt: noun and verb in cells 1 and 2, then whether cell 0 ends up as the target. */
  function Attempt(original: seq<nat>, noun: nat, verb: nat): (r: Result<bool, Fault>)
    ensures |original| < 3 ==> r == Err(IndexOutOfBounds)
  {
    if |original| < 3 then Err(IndexOutOfBounds)
    else
      var mem :- RunFrom(original[1 := noun][2 := verb], 0);
      Ok(mem[0] == TARGET)
  }

  /** Whether pair `(n, v)` comes before pair `(n', v')` in row-major order. */
  predicate Before(n: nat, v: nat, n': nat, v': nat)
  {
    n < n' || (n == n' && v < v')
  }

  /** The attempts in row-major order from noun `noun` and verb `verb` on. */
  function Search(original: seq<nat>, noun: nat, verb: nat): (r: Result<(nat, nat), Failure>)
    requires noun <= 100 && verb <= 100
    decreases 100 - noun, 100 - verb
  {
    if noun == 100 then Err(NoCombination)
    else if verb == 100 then Search(original, noun + 1, 0)
    else
      match Attempt(original, noun, verb)
      case Err(f) => Err(Crashed(f))
      case Ok(found) => if found then Ok((noun, verb)) else Search(original, noun, verb + 1)
  }

  /**
   * The pair found is the first in row-major order that works: every earlier attempt ran to
   * the end without reaching the target.
   */
  lemma {:induction false} SearchFindsFirst(original: seq<nat>, noun: nat, verb: nat)
    requires noun <= 100 && verb <= 100
    ensures var r := Search(original, noun, verb);
      r.Ok? ==> r.value.0 < 100 && r.value.1 < 100 && !Before(r.value.0, r.value.1, noun, verb) &&
                Attempt(original, r.value.0, r.value.1) == Ok(true) &&
                forall n, v :: v < 100 && !Before(n, v, noun, verb) && Before(n, v, r.value.0, r.value.1) ==>
                  Attempt(original, n, v) == Ok(false)
    decreases 100 - noun, 100 - verb
  {
    if noun == 100 {
    } else if verb == 100 {
      SearchFindsFirst(original, noun + 1, 0);
    } else if Attempt(original, noun, verb) == Ok(false) {
      SearchFindsFirst(original, noun, verb + 1);
    }
  }

  /** With no pair found, every attempt from the starting pair on ran without reaching the target. */
  lemma {:induction false} SearchExhausts(original: seq<nat>, noun: nat, verb: nat)
    requires noun <= 100 && verb <= 100
    requires Search(original, noun, verb) == Err(NoCombination)
    ensures forall n, v :: n < 100 && v < 100 && !Before(n, v, noun, verb) ==> Attempt(original, n, v) == Ok(false)
    decreases 100 - noun, 100 - verb
  {
    if noun == 100 {
    } else if verb == 100 {
      SearchExhausts(original, noun + 1, 0);
    } else {
      SearchExhausts(original, noun, verb + 1);
    }
  }

  /**
   * `find_noun_and_verb`: the nested loops over noun and verb, setting cells 1 and 2 of a
   * working copy, running it, and restoring the copy after each failed attempt.
   */
  method FindNounAndVerb(original: seq<nat>) returns (r: Result<(nat, nat), Failure>)
    ensures r == Search(original, 0, 0)
  {
    var program := new nat[|original|](i requires 0 <= i < |original| => original[i]);
    for noun := 0 to 100
      invariant program[..] == original
      invariant Search(original, 0, 0) == Search(original, noun, 0)
    {
      for verb := 0 to 100
        invariant program[..] == original
        invariant Search(original, 0, 0) == Search(original, noun, verb)
      {
        if program.Length < 3 {
          return Err(Crashed(IndexOutOfBounds));
        }
        program[1] := noun;
        program[2] := verb;
        assert program[..] == original[1 := noun][2 := verb];
        var ran := Run(program);
        if ran.Err? {
          return Err(Crashed(ran.error));
        }
        if program[0] == TARGET {
          return Ok((noun, verb));
        }
        forall i | 0 <= i < program.Length {
          program[i] := original[i];
        }
      }
    }
    return Err(NoCombination);
  }
}
