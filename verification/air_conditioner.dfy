/**
 * `p09/src/main.rs`: the machine with addition, multiplication, input and output, whose
 * parameter modes and evaluation are those of the two-mode machine (module `ModeVm`) minus
 * the jumps and comparisons.  Its input closure always gives 1.  With no jumps the instruction
 * pointer only moves forward, so a run always ends.
 */
module AirConditioner {
  import opened Util
  import opened Tape
  import opened ModeVm

  /** The value p09's input closure gives on every call. */
  const SYSTEM_ID: int := 1

  /** The instructions p09 knows. */
  predicate Known(op: Operation)
  {
    op.Add? || op.Mul? || op.Input? || op.Output? || op.Halt?
  }

  /** `Operation::decode` of p09: opcodes 5 to 8 are unknown instructions here. */
  function Decode(cells: seq<int>): (r: Result<Operation, Fault>)
    ensures r.Ok? ==> Known(r.value) && ModeVm.Decode(cells) == r
    ensures cells != [] && !(OpcodeOf(cells[0]) in {1, 2, 3, 4, 99}) ==> r == Err(UnknownInstruction(OpcodeOf(cells[0])))
    ensures ModeVm.Decode(cells).Ok? && Known(ModeVm.Decode(cells).value) ==> r == ModeVm.Decode(cells)
  {
    if cells != [] && 5 <= OpcodeOf(cells[0]) <= 8 then Err(UnknownInstruction(OpcodeOf(cells[0])))
    else ModeVm.Decode(cells)
  }

  /** `1001,4,3,4,99` decodes here as in the two-mode machine. */
  lemma DecodesExample()
    ensures Decode([1001, 4, 3, 4, 99]) == Ok(Add(Param(Position, 4), Param(Immediate, 3), 4))
    ensures Decode([1001, 4, 3, 4, 99][4..]) == Ok(Operation.Halt)
  {
    ModeVm.DecodesExample();
  }

  /** What a run leaves: the memory, and the values handed to the output closure in order. */
  datatype Outcome = Outcome(memory: seq<int>, printed: seq<int>)

  /**
   * `run` from instruction pointer `ip` on: decode, move the pointer past the instruction,
   * evaluate it, and stop after a halt or once the pointer leaves memory.
   */
  function RunFrom(mem: seq<int>, ip: nat, printed: seq<int>): (r: Result<Outcome, Fault>)
    ensures r.Ok? ==> |r.value.memory| == |mem| && printed <= r.value.printed
    decreases |mem| - ip, 1
  {
    if ip >= |mem| then Ok(Outcome(mem, printed)) else RunAt(mem, ip, printed)
  }

  /** One pass of the loop of `run`, kept apart so that unfolding a run stops short of the decoder. */
  function RunAt(mem: seq<int>, ip: nat, printed: seq<int>): (r: Result<Outcome, Fault>)
    requires ip < |mem|
    ensures r.Ok? ==> |r.value.memory| == |mem| && printed <= r.value.printed
    decreases |mem| - ip, 0
  {
    var op :- Decode(mem[ip..]);
    var e :- Eval(op, mem, Ok(SYSTEM_ID));
    var printed' := if e.printed.Some? then printed + [e.printed.value] else printed;
    if op.Halt? then Ok(Outcome(e.memory, printed')) else RunFrom(e.memory, ip + Size(op), printed')
  }

  /**
   * `run`: the loop over the memory slice, which it changes in place; the values printed come
   * back in order.
   */
  method Run(mem: array<int>) returns (r: Result<seq<int>, Fault>)
    modifies mem
    ensures RunFrom(old(mem[..]), 0, []).Ok? <==> r.Ok?
    ensures r.Ok? ==> mem[..] == RunFrom(old(mem[..]), 0, []).value.memory && r.value == RunFrom(old(mem[..]), 0, []).value.printed
    ensures r.Err? ==> r.error == RunFrom(old(mem[..]), 0, []).error
  {
    var ip: nat, printed: seq<int> := 0, [];
    while ip < mem.Length
      invariant RunFrom(old(mem[..]), 0, []) == RunFrom(mem[..], ip, printed)
      decreases mem.Length - ip
    {
      assert RunFrom(mem[..], ip, printed) == RunAt(mem[..], ip, printed);
      var op :- Decode(mem[ip..]);
      ip := ip + Size(op);
      var e :- EvalInPlace(op, mem, Ok(SYSTEM_ID));
      printed := if e.1.Some? then printed + [e.1.value] else printed;
      if op.Halt? {
        return Ok(printed);
      }
    }
    return Ok(printed);
  }

  function Pos(p: int): Param
  {
    Param(Position, p)
  }

  /** One instruction that is not a halt, then the run from the next instruction. */
  lemma RunPasses(mem: seq<int>, ip: nat, op: Operation, mem': seq<int>)
    requires ip + Size(op) <= |mem| && mem[ip..ip + Size(op)] == Encode(op) && (op.Add? || op.Mul?)
    requires Eval(op, mem, Ok(SYSTEM_ID)) == Ok(Evaluated(Continue, mem', None))
    ensures RunFrom(mem, ip, []) == RunFrom(mem', ip + Size(op), [])
  {
    DecodeAt(mem, ip, op);
    assert RunFrom(mem, ip, []) == RunAt(mem, ip, []);
  }

  /** A halt at the pointer ends the run with memory as it is. */
  lemma RunHalts(mem: seq<int>, ip: nat)
    requires ip < |mem| && mem[ip] == 99
    ensures RunFrom(mem, ip, []) == Ok(Outcome(mem, []))
  {
    assert mem[ip..ip + 1] == Encode(Operation.Halt);
    DecodeAt(mem, ip, Operation.Halt);
    assert RunFrom(mem, ip, []) == RunAt(mem, ip, []);
  }

  /** The first two tapes of the test module. */
  lemma RunsSingleStepExamples()
    ensures RunFrom([1, 0, 0, 0, 99], 0, []) == Ok(Outcome([2, 0, 0, 0, 99], []))
    ensures RunFrom([2, 3, 0, 3, 99], 0, []) == Ok(Outcome([2, 3, 0, 6, 99], []))
  {
    assert [1, 0, 0, 0, 99][0 := 2] == [2, 0, 0, 0, 99];
    RunPasses([1, 0, 0, 0, 99], 0, Add(Pos(0), Pos(0), 0), [2, 0, 0, 0, 99]);
    RunHalts([2, 0, 0, 0, 99], 4);
    assert [2, 3, 0, 3, 99][3 := 6] == [2, 3, 0, 6, 99];
    RunPasses([2, 3, 0, 3, 99], 0, Mul(Pos(3), Pos(0), 3), [2, 3, 0, 6, 99]);
    RunHalts([2, 3, 0, 6, 99], 4);
  }

  /** The third tape: a store past the halt. */
  lemma RunsStorePastHaltExample()
    ensures RunFrom([2, 4, 4, 5, 99, 0], 0, []) == Ok(Outcome([2, 4, 4, 5, 99, 9801], []))
  {
    assert [2, 4, 4, 5, 99, 0][5 := 9801] == [2, 4, 4, 5, 99, 9801];
    RunPasses([2, 4, 4, 5, 99, 0], 0, Mul(Pos(4), Pos(4), 5), [2, 4, 4, 5, 99, 9801]);
    RunHalts([2, 4, 4, 5, 99, 9801], 4);
  }

  /** The fourth tape: the first instruction overwrites the halt that followed it. */
  lemma RunsOverwritingExample()
    ensures RunFrom([1, 1, 1, 4, 99, 5, 6, 0, 99], 0, []) == Ok(Outcome([30, 1, 1, 4, 2, 5, 6, 0, 99], []))
  {
    assert [1, 1, 1, 4, 99, 5, 6, 0, 99][4 := 2] == [1, 1, 1, 4, 2, 5, 6, 0, 99];
    RunPasses([1, 1, 1, 4, 99, 5, 6, 0, 99], 0, Add(Pos(1), Pos(1), 4), [1, 1, 1, 4, 2, 5, 6, 0, 99]);
    OverwrittenHaltMultiplies();
  }

  lemma OverwrittenHaltMultiplies()
    ensures RunFrom([1, 1, 1, 4, 2, 5, 6, 0, 99], 4, []) == Ok(Outcome([30, 1, 1, 4, 2, 5, 6, 0, 99], []))
  {
    assert [1, 1, 1, 4, 2, 5, 6, 0, 99][0 := 30] == [30, 1, 1, 4, 2, 5, 6, 0, 99];
    RunPasses([1, 1, 1, 4, 2, 5, 6, 0, 99], 4, Mul(Pos(5), Pos(6), 0), [30, 1, 1, 4, 2, 5, 6, 0, 99]);
    RunHalts([30, 1, 1, 4, 2, 5, 6, 0, 99], 8);
  }
}
