/**
 * `p14/src/main.rs`: the two-mode machine of `ModeVm` made resumable, and five copies of it
 * wired into a feedback loop.
 *
 * Its `eval` does not call closures: an input instruction hands its destination back to
 * `Program::run`, which stores the pending input there, or suspends with `AwaitInput` when
 * there is none; an output instruction hands its value back to be collected.  The store into
 * the destination is the one `ModeVm.Eval` makes with the input taken, so the step below
 * evaluates through it.  `Program::run` and `run_all` are the loops of `Resumable`.
 */
module FeedbackLoop {
  import opened Util
  import opened Tape
  import opened Resumable
  import opened PhaseOrders
  import ModeVm

  /** The lowest phase setting of this puzzle. */
  const FIRST_PHASE: int := 5

  /** The fields of `Program`: its memory and its instruction pointer. */
  datatype Machine = Machine(memory: seq<int>, ip: nat)

  /** The instruction at the instruction pointer. */
  function Current(m: Machine): Result<ModeVm.Operation, Fault>
    requires m.ip < |m.memory|
  {
    ModeVm.Decode(m.memory[m.ip..])
  }

  /**
   * One iteration of the loop of `Program::run`.  Past the end of memory the run stops with
   * `AwaitInput`; an input instruction with no input pending stops it too, without moving the
   * instruction pointer; an input instruction with input takes it.
   */
  function Step(m: Machine, input: Option<int>): (r: Result<Progress<Machine>, Fault>)
    ensures m.ip >= |m.memory| ==> r == Ok(Resumable.Stopped(AwaitInput))
    ensures r.Ok? && m.ip < |m.memory| ==> Current(m).Ok?
    ensures r.Ok? && r.value.Running? ==> |r.value.machine.memory| == |m.memory| && |r.value.emitted| <= 1
    ensures r.Ok? && r.value.Running? && !Current(m).value.Input? ==> r.value.input == input
    ensures r.Ok? && r.value.Running? && Current(m).value.Input? ==>
      input.Some? && r.value.input == None && r.value.emitted == []
      && AsUsize(Current(m).value.dest) < |m.memory|
      && r.value.machine.memory[AsUsize(Current(m).value.dest)] == input.value
    ensures r.Ok? && r.value.Running? && !Current(m).value.Output? ==> r.value.emitted == []
    ensures r.Ok? && r.value.Stopped? && m.ip < |m.memory| ==>
      (r.value.state == AwaitInput <==> Current(m).value.Input?) &&
      (r.value.state == ProgramState.Halt <==> Current(m).value.Halt?) &&
      (r.value.state == AwaitInput ==> input == None)
  {
    if m.ip >= |m.memory| then Ok(Resumable.Stopped(AwaitInput))
    else
      var op :- Current(m);
      if op.Input? && input.None? then Ok(Resumable.Stopped(AwaitInput))
      else
        // No instruction but an input reads the value passed to `Eval`.
        var e :- ModeVm.Eval(op, m.memory, if op.Input? then Ok(input.value) else Err(InputExhausted));
        var emitted := if e.printed.Some? then [e.printed.value] else [];
        match e.result
        case Halt => Ok(Resumable.Stopped(ProgramState.Halt))
        case Continue => Ok(Running(Machine(e.memory, m.ip + ModeVm.Size(op)), if op.Input? then None else input, emitted))
        case SetInstructionPtr(ptr) => Ok(Running(Machine(e.memory, ptr), input, emitted))
  }

  /** Only an input instruction reads the pending input; every other step ignores it. */
  lemma StepInputDiscipline()
    ensures InputDiscipline(Step)
  {
    forall m: Machine, v: int | Step(m, None).Ok? && Step(m, None).value.Running?
      ensures Step(m, Some(v)) == Ok(Step(m, None).value.(input := Some(v)))
    {
      assert !Current(m).value.Input?;
    }
  }

  /**
   * `Program::run` hands back the input it was given unless an input instruction consumed it;
   * a run given no input hands back none.
   */
  lemma RunKeepsUnreadInput(fuel: nat, m: Machine, input: Option<int>)
    requires Resumable.Run(Step, fuel, m, input, []).Ok?
    ensures Resumable.Run(Step, fuel, m, input, []).value.input in {input, None}
  {
    StepInputDiscipline();
    RunLeavesInput(Step, fuel, m, input, []);
  }

  /**
   * Where a run can stop: it halts only on a halt instruction, and it waits for input only at
   * an input instruction with no input pending, or past the end of memory.
   */
  predicate StopsProperly(s: Suspension<Machine>)
  {
    match s.state
    case AwaitInput =>
      s.machine.ip >= |s.machine.memory| ||
      (s.input == None && Current(s.machine).Ok? && Current(s.machine).value.Input?)
    case Halt =>
      s.machine.ip < |s.machine.memory| && Current(s.machine) == Ok(ModeVm.Operation.Halt)
  }

  lemma {:induction false} RunStopsProperly(fuel: nat, m: Machine, input: Option<int>, outputs: seq<int>)
    requires Resumable.Run(Step, fuel, m, input, outputs).Ok?
    ensures StopsProperly(Resumable.Run(Step, fuel, m, input, outputs).value)
    decreases fuel
  {
    RunFirstStep(Step, fuel, m, input, outputs);
    var p := Step(m, input).value;
    if p.Running? {
      RunStopsProperly(fuel - 1, p.machine, p.input, outputs + p.emitted);
    }
  }

  /** `run_all` on this machine takes its inputs from the front of the queue and loses none. */
  lemma DrainKeepsQueueOrder(fuel: nat, m: Machine, inputs: seq<int>, outputs: seq<int>)
    requires RunAll(Step, fuel, m, inputs, outputs, false).Ok?
    ensures var d := RunAll(Step, fuel, m, inputs, outputs, false).value;
      |d.inputs| <= |inputs| && d.inputs == inputs[|inputs| - |d.inputs|..]
      && outputs <= d.outputs && (d.progress <==> |d.outputs| > |outputs|)
      && (d.state == ProgramState.Halt || d.inputs == [])
  {
    StepInputDiscipline();
    RunAllConsumesPrefix(Step, fuel, m, inputs, outputs, false);
  }

  /** `Program`: a machine that can be suspended for input and resumed. */
  class Program {
    var memory: seq<int>
    var instructionPtr: nat

    function State(): Machine
      reads this
    {
      Machine(memory, instructionPtr)
    }

    /** `Program { memory: program.clone(), instruction_ptr: 0 }`. */
    constructor (program: seq<int>)
      ensures State() == Machine(program, 0)
    {
      memory := program;
      instructionPtr := 0;
    }

    /**
     * The body of the loop of `Program::run`: decodes and evaluates the instruction at the
     * instruction pointer and acts on the result.  The machine is left as it was when the
     * run stops here.
     */
    method Tick(pending: Option<int>) returns (r: Result<Progress<Machine>, Fault>)
      requires instructionPtr < |memory|
      modifies this
      ensures r == Step(old(State()), pending)
      ensures r.Ok? && r.value.Running? ==> State() == r.value.machine
      ensures r.Ok? && r.value.Stopped? ==> State() == old(State())
    {
      var op :- ModeVm.Decode(memory[instructionPtr..]);
      if op.Input? && pending.None? {
        return Ok(Resumable.Stopped(AwaitInput));
      }
      var e :- ModeVm.Eval(op, memory, if op.Input? then Ok(pending.value) else Err(InputExhausted));
      var emitted := if e.printed.Some? then [e.printed.value] else [];
      match e.result
      case Halt =>
        return Ok(Resumable.Stopped(ProgramState.Halt));
      case Continue =>
        memory, instructionPtr := e.memory, instructionPtr + ModeVm.Size(op);
        return Ok(Running(State(), if op.Input? then None else pending, emitted));
      case SetInstructionPtr(ptr) =>
        memory, instructionPtr := e.memory, ptr;
        return Ok(Running(State(), pending, emitted));
    }

    /**
     * `Program::run`: executes until the program halts, needs input it has not got, or runs
     * off the end of memory; the pending input, if any, is consumed by the first input
     * instruction and otherwise comes back in the result.
     */
    method Run(input: Option<int>, fuel: nat) returns (r: Result<Suspension<Machine>, Fault>)
      modifies this
      ensures r == Resumable.Run(Step, fuel, old(State()), input, [])
      ensures r.Ok? ==> State() == r.value.machine
    {
      var outputs: seq<int> := [];
      var pending := input;
      var remaining := fuel;
      while instructionPtr < |memory|
        invariant Resumable.Run(Step, fuel, old(State()), input, []) == Resumable.Run(Step, remaining, State(), pending, outputs)
        decreases remaining
      {
        RunFirstStep(Step, remaining, State(), pending, outputs);
        var p :- Tick(pending);
        match p
        case Stopped(state) =>
          return Ok(Suspension(state, outputs, pending, State()));
        case Running(_, input', emitted) =>
          if remaining == 0 {
            return Err(OutOfFuel);
          }
          pending, outputs, remaining := input', outputs + emitted, remaining - 1;
      }
      RunFirstStep(Step, remaining, State(), pending, outputs);
      return Ok(Suspension(AwaitInput, outputs, pending, State()));
    }

    /**
     * `Program::run_all`: runs once per input taken from the front of `inputs`, or once
     * without input when the queue is empty, appending every output to `outputs`; an input a
     * run did not consume goes back to the front of the queue.  It stops when the program
     * halts or waits for input with the queue empty, and reports whether anything was printed.
     */
    method RunAll(inputs: seq<int>, outputs: seq<int>, fuel: nat) returns (r: Result<Drained<Machine>, Fault>)
      modifies this
      ensures r == Resumable.RunAll(Step, fuel, old(State()), inputs, outputs, false)
      ensures r.Ok? ==> State() == r.value.machine
    {
      var queue, printed, progress, remaining := inputs, outputs, false, fuel;
      while true
        invariant Resumable.RunAll(Step, fuel, old(State()), inputs, outputs, false)
          == Resumable.RunAll(Step, remaining, State(), queue, printed, progress)
        decreases remaining
      {
        var s :- Run(Front(queue), remaining);
        queue := Requeue(s.input, Rest(queue));
        printed, progress := printed + s.outputs, progress || s.outputs != [];
        if s.state == ProgramState.Halt || queue == [] {
          return Ok(Drained(s.state, State(), queue, printed, progress));
        }
        if remaining == 0 {
          return Err(OutOfFuel);
        }
        remaining := remaining - 1;
      }
    }
  }

  // ------------------------------------------------------------------------------------
  // The feedback loop

  /** The five programs and the five input queues of `run_phase_permutation`. */
  datatype Amplifiers = Amplifiers(a: Machine, b: Machine, c: Machine, d: Machine, e: Machine,
                                   qa: seq<int>, qb: seq<int>, qc: seq<int>, qd: seq<int>, qe: seq<int>)

  /** The queue of amplifier `k` (A is 0). */
  function Queue(s: Amplifiers, k: nat): seq<int>
    requires k < SLOTS
  {
    match k
    case 0 => s.qa
    case 1 => s.qb
    case 2 => s.qc
    case 3 => s.qd
    case _ => s.qe
  }

  /** The machine of amplifier `k` (A is 0). */
  function Amplifier(s: Amplifiers, k: nat): Machine
    requires k < SLOTS
  {
    match k
    case 0 => s.a
    case 1 => s.b
    case 2 => s.c
    case 3 => s.d
    case _ => s.e
  }

  /** `run_all` on an amplifier: its machine drains `inputs` and appends to `outputs`. */
  function Drain(fuel: nat, m: Machine, inputs: seq<int>, outputs: seq<int>): Result<Drained<Machine>, Fault>
  {
    RunAll(Step, fuel, m, inputs, outputs, false)
  }

  /**
   * Stage `k` of a round: amplifier `k` (A is 0) drains its queue into the next one's, E's
   * back into A's.  The flag says whether it printed anything.
   */
  function Stage(fuel: nat, s: Amplifiers, k: nat): Result<(Amplifiers, bool), Fault>
    requires k < SLOTS
  {
    match k
    case 0 =>
      var d :- Drain(fuel, s.a, s.qa, s.qb);
      Ok((s.(a := d.machine, qa := d.inputs, qb := d.outputs), d.progress))
    case 1 =>
      var d :- Drain(fuel, s.b, s.qb, s.qc);
      Ok((s.(b := d.machine, qb := d.inputs, qc := d.outputs), d.progress))
    case 2 =>
      var d :- Drain(fuel, s.c, s.qc, s.qd);
      Ok((s.(c := d.machine, qc := d.inputs, qd := d.outputs), d.progress))
    case 3 =>
      var d :- Drain(fuel, s.d, s.qd, s.qe);
      Ok((s.(d := d.machine, qd := d.inputs, qe := d.outputs), d.progress))
    case _ =>
      var d :- Drain(fuel, s.e, s.qe, s.qa);
      Ok((s.(e := d.machine, qe := d.inputs, qa := d.outputs), d.progress))
  }

  /**
   * The start of `run_phase_permutation`: every amplifier's queue holds its phase setting, the
   * first one's also the initial signal 0, and each runs a fresh copy of the program.
   */
  function Seeded(program: seq<int>, phases: seq<int>): (s: Amplifiers)
    requires |phases| >= SLOTS
    ensures forall k :: 0 <= k < SLOTS ==> Amplifier(s, k) == Machine(program, 0)
    ensures forall k :: 0 < k < SLOTS ==> Queue(s, k) == [phases[k]]
    ensures Queue(s, FIRST_STAGE) == [phases[0], 0]
  {
    var m := Machine(program, 0);
    Amplifiers(m, m, m, m, m, [phases[0], 0], [phases[1]], [phases[2]], [phases[3]], [phases[4]])
  }

  /** The amplifier after amplifier `k` on the loop: E feeds A. */
  function Next(k: nat): (r: nat)
    requires k < SLOTS
    ensures r < SLOTS && r != k
  {
    (k + 1) % SLOTS
  }

  /**
   * Stage `k` drains amplifier `k` from its own queue into the next amplifier's queue, and
   * touches no other amplifier and no other queue.
   */
  lemma StageDrains(fuel: nat, s: Amplifiers, k: nat)
    requires k < SLOTS
    ensures var d := Drain(fuel, Amplifier(s, k), Queue(s, k), Queue(s, Next(k)));
      Stage(fuel, s, k).Ok? == d.Ok?
      && (d.Err? ==> Stage(fuel, s, k).error == d.error)
      && (d.Ok? ==>
        var (t, printed) := Stage(fuel, s, k).value;
        Amplifier(t, k) == d.value.machine && Queue(t, k) == d.value.inputs
        && Queue(t, Next(k)) == d.value.outputs && printed == d.value.progress
        && (forall j :: 0 <= j < SLOTS && j != k ==> Amplifier(t, j) == Amplifier(s, j))
        && (forall j :: 0 <= j < SLOTS && j != k && j != Next(k) ==> Queue(t, j) == Queue(s, j)))
  {
    if k == 0 {
    } else if k == 1 {
    } else if k == 2 {
    } else if k == 3 {
    } else {
    }
  }

  /**
   * The wiring of a stage: amplifier `k` takes its inputs from the front of its own queue and
   * loses none, appends what it prints to the back of the next amplifier's queue (E's to A's),
   * and the stage made progress exactly when it printed.  Every other amplifier and queue is
   * left alone.
   */
  lemma StageWiring(fuel: nat, s: Amplifiers, k: nat)
    requires k < SLOTS && Stage(fuel, s, k).Ok?
    ensures var (t, printed) := Stage(fuel, s, k).value;
      |Queue(t, k)| <= |Queue(s, k)| && Queue(t, k) == Queue(s, k)[|Queue(s, k)| - |Queue(t, k)|..]
      && Queue(s, Next(k)) <= Queue(t, Next(k))
      && (printed <==> |Queue(t, Next(k))| > |Queue(s, Next(k))|)
      && (forall j :: 0 <= j < SLOTS && j != k ==> Amplifier(t, j) == Amplifier(s, j))
      && (forall j :: 0 <= j < SLOTS && j != k && j != Next(k) ==> Queue(t, j) == Queue(s, j))
  {
    StageDrains(fuel, s, k);
    DrainKeepsQueueOrder(fuel, Amplifier(s, k), Queue(s, k), Queue(s, Next(k)));
  }

  /**
   * The number of amplifier A's stage.  A named constant, not a literal, so that the verifier
   * unfolds a round one stage at a time.
   */
  const FIRST_STAGE: nat := 0

  /** The stages of a round from stage `k` on; `progress` says whether an earlier one printed. */
  function Stages(fuel: nat, s: Amplifiers, k: nat, progress: bool): Result<(Amplifiers, bool), Fault>
    requires k <= SLOTS
    decreases SLOTS - k, 1
  {
    if k == SLOTS then Ok((s, progress)) else StagesAt(fuel, s, k, progress)
  }

  /** Stage `k` and the stages after it, kept apart so that unfolding a round stops short of the machines. */
  function StagesAt(fuel: nat, s: Amplifiers, k: nat, progress: bool): Result<(Amplifiers, bool), Fault>
    requires k < SLOTS
    decreases SLOTS - k, 0
  {
    var (s', printed) :- Stage(fuel, s, k);
    Stages(fuel, s', k + 1, progress || printed)
  }

  /** A round from stage `k` on: stage `k`, then the rest of the round unless it failed. */
  lemma StagesUnfold(fuel: nat, s: Amplifiers, k: nat, progress: bool)
    requires k < SLOTS
    ensures Stages(fuel, s, k, progress) ==
      match Stage(fuel, s, k)
      case Err(f) => Err(f)
      case Ok((s', printed)) => Stages(fuel, s', k + 1, progress || printed)
  {
    assert Stages(fuel, s, k, progress) == StagesAt(fuel, s, k, progress);
  }

  /**
   * One round of the loop: A drains into B, B into C and so on, E back into A; the round made
   * progress when any amplifier printed.
   */
  function Round(fuel: nat, s: Amplifiers): Result<(Amplifiers, bool), Fault>
  {
    Stages(fuel, s, FIRST_STAGE, false)
  }

  /** The end of `run_phase_permutation`: the single value left in A's queue, all others empty. */
  function Settle(s: Amplifiers): (r: Result<int, Fault>)
    ensures r.Ok? <==> |s.qa| == 1 && s.qb == s.qc == s.qd == s.qe == []
    ensures r.Ok? ==> s.qa == [r.value]
  {
    if |s.qa| == 1 && s.qb == [] && s.qc == [] && s.qd == [] && s.qe == [] then Ok(s.qa[0])
    else Err(QueueMismatch)
  }

  /** What one round does to the amplifiers, and whether any of them printed. */
  type RoundFn = (nat, Amplifiers) -> Result<(Amplifiers, bool), Fault>

  /**
   * The rounds of `run_phase_permutation`, until one makes no progress; at most `fuel` more.
   * The round is a parameter (the loop is used with `Round`), so that reasoning about the
   * loop does not look inside the machines.
   */
  function Feedback(round: RoundFn, fuel: nat, s: Amplifiers): Result<int, Fault>
    decreases fuel, 1
  {
    FeedbackAt(round, fuel, s)
  }

  /** One round of the loop and what follows it, kept apart so that unfolding the loop stops short of the round. */
  function FeedbackAt(round: RoundFn, fuel: nat, s: Amplifiers): Result<int, Fault>
    decreases fuel, 0
  {
    match round(fuel, s)
    case Err(f) => Err(f)
    case Ok((s', progress)) =>
      if !progress then Settle(s')
      else if fuel == 0 then Err(OutOfFuel)
      else Feedback(round, fuel - 1, s')
  }

  /** The loop runs one round, then fails with it, settles, or gives up for lack of fuel. */
  lemma FeedbackUnfolds(round: RoundFn, fuel: nat, s: Amplifiers)
    ensures round(fuel, s).Err? ==> Feedback(round, fuel, s) == Err(round(fuel, s).error)
    ensures round(fuel, s).Ok? && !round(fuel, s).value.1 ==> Feedback(round, fuel, s) == Settle(round(fuel, s).value.0)
    ensures round(fuel, s).Ok? && round(fuel, s).value.1 && fuel == 0 ==> Feedback(round, fuel, s) == Err(OutOfFuel)
  {
    assert Feedback(round, fuel, s) == FeedbackAt(round, fuel, s);
  }

  /** A round that made progress, with fuel left, hands over to the loop from the next round on. */
  lemma FeedbackNext(round: RoundFn, fuel: nat, s: Amplifiers, rest: nat, next: Amplifiers)
    requires fuel > 0 && rest == fuel - 1 && round(fuel, s) == Ok((next, true))
    ensures Feedback(round, fuel, s) == Feedback(round, rest, next)
  {
    assert Feedback(round, fuel, s) == FeedbackAt(round, fuel, s);
  }

  /**
   * `run_phase_permutation` for the phases in `phases`; indexing a phase array shorter than
   * five panics.
   */
  function PhaseSignal(program: seq<int>, phases: seq<int>, fuel: nat): Result<int, Fault>
  {
    if |phases| < SLOTS then Err(IndexOutOfBounds) else Feedback(Round, fuel, Seeded(program, phases))
  }

  function Signal(program: seq<int>, fuel: nat): seq<int> -> Result<int, Fault>
  {
    phases => PhaseSignal(program, phases, fuel)
  }

  /** Why `run` returns an error: text that is not a program, or a panic of an amplifier. */
  datatype Failure = InvalidProgram | Crashed(fault: Fault)

  /** `run`: the largest signal over all orderings of the phase settings 5 to 9. */
  function Answer(text: string, fuel: nat): Result<int, Failure>
  {
    match ParseProgram(text)
    case None => Err(InvalidProgram)
    case Some(program) =>
      match BestOver(Signal(program, fuel), Orders(FIRST_PHASE, []), ISIZE_MIN)
      case Ok(max) => Ok(max)
      case Err(f) => Err(Crashed(f))
  }

  // ------------------------------------------------------------------------------------
  // What the loop computes

  /**
   * A signal comes out of the loop only from a round in which no amplifier printed and after
   * which A's queue holds exactly that signal and every other queue is empty.
   */
  lemma {:induction false} FeedbackSettles(round: RoundFn, fuel: nat, s: Amplifiers)
    requires Feedback(round, fuel, s).Ok?
    ensures exists f: nat, t: Amplifiers, u: Amplifiers ::
      (f <= fuel && round(f, t) == Ok((u, false)) && u.qa == [Feedback(round, fuel, s).value] && u.qb == u.qc == u.qd == u.qe == [])
    decreases fuel
  {
    assert Feedback(round, fuel, s) == FeedbackAt(round, fuel, s);
    var r := round(fuel, s).value;
    if !r.1 {
      assert round(fuel, s) == Ok((r.0, false));
    } else {
      FeedbackSettles(round, fuel - 1, r.0);
    }
  }

  /**
   * The answer of `run` is the largest signal of the loop over every ordering of the phase
   * settings 5 to 9 (at least `isize::MIN`, where it starts), and one of the orderings
   * reaches it.
   */
  lemma AnswerIsBestOrdering(text: string, fuel: nat)
    requires Answer(text, fuel).Ok?
    ensures ParseProgram(text).Some?
    ensures var program, best := ParseProgram(text).value, Answer(text, fuel).value;
      (forall p :: Arrangement(FIRST_PHASE, p) ==> PhaseSignal(program, p, fuel).Ok? && PhaseSignal(program, p, fuel).value <= best)
      && exists p :: Arrangement(FIRST_PHASE, p) && best == Max(ISIZE_MIN, PhaseSignal(program, p, fuel).value)
  {
    var program := ParseProgram(text).value;
    BestOverAll(Signal(program, fuel), FIRST_PHASE);
  }

  // ------------------------------------------------------------------------------------
  // The loops of the source

  /**
   * The body of the loop of `run_phase_permutation`: each program drains its queue into the
   * next one's, and the round reports whether any of them printed.
   */
  method RunRound(pa: Program, pb: Program, pc: Program, pd: Program, pe: Program,
                  qa: seq<int>, qb: seq<int>, qc: seq<int>, qd: seq<int>, qe: seq<int>, fuel: nat)
    returns (r: Result<(Amplifiers, bool), Fault>)
    requires pa != pb && pa != pc && pa != pd && pa != pe && pb != pc && pb != pd && pb != pe
      && pc != pd && pc != pe && pd != pe
    modifies pa, pb, pc, pd, pe
    ensures r == Round(fuel, Amplifiers(old(pa.State()), old(pb.State()), old(pc.State()), old(pd.State()), old(pe.State()),
                                        qa, qb, qc, qd, qe))
    ensures r.Ok? ==> var u := r.value.0;
      u == Amplifiers(pa.State(), pb.State(), pc.State(), pd.State(), pe.State(), u.qa, u.qb, u.qc, u.qd, u.qe)
  {
    ghost var k0, k1, k2, k3, k4, k5 := FIRST_STAGE, FIRST_STAGE + 1, FIRST_STAGE + 2, FIRST_STAGE + 3, FIRST_STAGE + 4, FIRST_STAGE + 5;
    ghost var s0 := Amplifiers(pa.State(), pb.State(), pc.State(), pd.State(), pe.State(), qa, qb, qc, qd, qe);
    var inputA, inputB, inputC, inputD, inputE := qa, qb, qc, qd, qe;
    StagesUnfold(fuel, s0, k0, false);
    var drained :- pa.RunAll(inputA, inputB, fuel);
    inputA, inputB := drained.inputs, drained.outputs;
    var progress := drained.progress;
    ghost var s1 := Amplifiers(pa.State(), pb.State(), pc.State(), pd.State(), pe.State(), inputA, inputB, inputC, inputD, inputE);
    ghost var p1 := progress;
    assert Stages(fuel, s0, k0, false) == Stages(fuel, s1, k1, p1);
    StagesUnfold(fuel, s1, k1, p1);
    drained :- pb.RunAll(inputB, inputC, fuel);
    inputB, inputC, progress := drained.inputs, drained.outputs, progress || drained.progress;
    ghost var s2 := Amplifiers(pa.State(), pb.State(), pc.State(), pd.State(), pe.State(), inputA, inputB, inputC, inputD, inputE);
    ghost var p2 := progress;
    assert Stages(fuel, s1, k1, p1) == Stages(fuel, s2, k2, p2);
    StagesUnfold(fuel, s2, k2, p2);
    drained :- pc.RunAll(inputC, inputD, fuel);
    inputC, inputD, progress := drained.inputs, drained.outputs, progress || drained.progress;
    ghost var s3 := Amplifiers(pa.State(), pb.State(), pc.State(), pd.State(), pe.State(), inputA, inputB, inputC, inputD, inputE);
    ghost var p3 := progress;
    assert Stages(fuel, s2, k2, p2) == Stages(fuel, s3, k3, p3);
    StagesUnfold(fuel, s3, k3, p3);
    drained :- pd.RunAll(inputD, inputE, fuel);
    inputD, inputE, progress := drained.inputs, drained.outputs, progress || drained.progress;
    ghost var s4 := Amplifiers(pa.State(), pb.State(), pc.State(), pd.State(), pe.State(), inputA, inputB, inputC, inputD, inputE);
    ghost var p4 := progress;
    assert Stages(fuel, s3, k3, p3) == Stages(fuel, s4, k4, p4);
    StagesUnfold(fuel, s4, k4, p4);
    drained :- pe.RunAll(inputE, inputA, fuel);
    inputE, inputA, progress := drained.inputs, drained.outputs, progress || drained.progress;
    ghost var s5 := Amplifiers(pa.State(), pb.State(), pc.State(), pd.State(), pe.State(), inputA, inputB, inputC, inputD, inputE);
    assert Stages(fuel, s4, k4, p4) == Stages(fuel, s5, k5, progress) == Ok((s5, progress));
    return Ok((Amplifiers(pa.State(), pb.State(), pc.State(), pd.State(), pe.State(), inputA, inputB, inputC, inputD, inputE), progress));
  }

  /**
   * The `loop` of `run_phase_permutation`: rounds of `run_all` until a round makes no
   * progress; the queue check at the end panics when it fails.
   */
  method Circulate(pa: Program, pb: Program, pc: Program, pd: Program, pe: Program,
                   qa: seq<int>, qb: seq<int>, qc: seq<int>, qd: seq<int>, qe: seq<int>, fuel: nat)
    returns (r: Result<int, Fault>)
    requires pa != pb && pa != pc && pa != pd && pa != pe && pb != pc && pb != pd && pb != pe
      && pc != pd && pc != pe && pd != pe
    modifies pa, pb, pc, pd, pe
    ensures r == Feedback(Round, fuel, Amplifiers(old(pa.State()), old(pb.State()), old(pc.State()), old(pd.State()), old(pe.State()),
                                                  qa, qb, qc, qd, qe))
  {
    var inputA, inputB, inputC, inputD, inputE := qa, qb, qc, qd, qe;
    ghost var now := Amplifiers(pa.State(), pb.State(), pc.State(), pd.State(), pe.State(), qa, qb, qc, qd, qe);
    ghost var target := Feedback(Round, fuel, now);
    var remaining := fuel;
    while true
      invariant now == Amplifiers(pa.State(), pb.State(), pc.State(), pd.State(), pe.State(), inputA, inputB, inputC, inputD, inputE)
      invariant Feedback(Round, remaining, now) == target
      decreases remaining
    {
      ghost var before := now;
      var outcome := RunRound(pa, pb, pc, pd, pe, inputA, inputB, inputC, inputD, inputE, remaining);
      if outcome.Err? {
        FeedbackUnfolds(Round, remaining, before);
        return Err(outcome.error);
      }
      var next, progress := outcome.value.0, outcome.value.1;
      inputA, inputB, inputC, inputD, inputE := next.qa, next.qb, next.qc, next.qd, next.qe;
      if !progress {
        FeedbackUnfolds(Round, remaining, before);
        if |inputA| != 1 || inputB != [] || inputC != [] || inputD != [] || inputE != [] {
          return Err(QueueMismatch);
        }
        return Ok(inputA[0]);
      }
      if remaining == 0 {
        FeedbackUnfolds(Round, remaining, before);
        return Err(OutOfFuel);
      }
      ghost var spent := remaining;
      remaining, now := remaining - 1, next;
      FeedbackNext(Round, spent, before, remaining, now);
    }
  }

  /**
   * `run_phase_permutation`: five programs, each a fresh copy, and five queues seeded with
   * the phase settings and the signal 0, then the loop.
   */
  method RunPhasePermutation(program: seq<int>, phases: seq<int>, fuel: nat) returns (r: Result<int, Fault>)
    ensures r == PhaseSignal(program, phases, fuel)
  {
    if |phases| < SLOTS {
      return Err(IndexOutOfBounds);
    }
    var qa, qb, qc, qd, qe := [phases[0]], [phases[1]], [phases[2]], [phases[3]], [phases[4]];
    qa := qa + [0];
    var pa := new Program(program);
    var pb := new Program(program);
    var pc := new Program(program);
    var pd := new Program(program);
    var pe := new Program(program);
    assert Amplifiers(pa.State(), pb.State(), pc.State(), pd.State(), pe.State(), qa, qb, qc, qd, qe) == Seeded(program, phases);
    r := Circulate(pa, pb, pc, pd, pe, qa, qb, qc, qd, qe, fuel);
  }

  /** The loop of `run` over the orderings, keeping the largest signal. */
  method BestSignal(program: seq<int>, fuel: nat) returns (r: Result<int, Fault>)
    ensures r == BestOver(Signal(program, fuel), Orders(FIRST_PHASE, []), ISIZE_MIN)
  {
    var orders := AllPhaseOrders(FIRST_PHASE);
    var max := ISIZE_MIN;
    for k := 0 to |orders|
      invariant BestOver(Signal(program, fuel), orders, ISIZE_MIN) == BestOver(Signal(program, fuel), orders[k..], max)
    {
      assert orders[k..][1..] == orders[k + 1..];
      var signal :- RunPhasePermutation(program, orders[k], fuel);
      if signal > max {
        max := signal;
      }
    }
    return Ok(max);
  }

  /** `run`: parse, then the best signal. */
  method Run(text: string, fuel: nat) returns (r: Result<int, Failure>)
    ensures r == Answer(text, fuel)
  {
    var parsed := ParseProgram(text);
    if parsed.None? {
      return Err(InvalidProgram);
    }
    var best := BestSignal(parsed.value, fuel);
    if best.Err? {
      return Err(Crashed(best.error));
    }
    return Ok(best.value);
  }
}
