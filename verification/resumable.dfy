/**
 * The suspend-and-resume protocol shared by the Intcode machines of `p14/src/main.rs`,
 * `p18/src/main.rs` and `p22/src/intcode.rs`.  `Program::run` executes one instruction after
 * the other until the program halts, or an input instruction finds no input pending, or the
 * instruction pointer leaves memory; `Program::run_all` feeds a queue of inputs, one value per
 * call of `run`, and collects the outputs in a second queue.
 *
 * Both loops are written once here over the machine's single-step function, so that each
 * machine only supplies how one instruction executes.
 */
module Resumable {
  import opened Util
  import opened Tape

  datatype ProgramState = AwaitInput | Halt

  /** One iteration of the run loop: either the machine goes on, or the run stops. */
  datatype Progress<M> =
    | Running(machine: M, input: Option<int>, emitted: seq<int>)
    | Stopped(state: ProgramState)

  /** How a run ended: why it stopped, what it printed, the unused input, the machine. */
  datatype Suspension<M> = Suspension(state: ProgramState, outputs: seq<int>, input: Option<int>, machine: M)

  /**
   * What a step function must respect: a step that goes on either leaves the pending input
   * alone or consumes it, and whether it goes on without input decides that it goes on the
   * same way, printing the same, when an input is pending that it does not read.
   */
  ghost predicate InputDiscipline<M(!new)>(step: (M, Option<int>) -> Result<Progress<M>, Fault>)
  {
    (forall m: M, i: Option<int> {:trigger step(m, i)} ::
       step(m, i).Ok? && step(m, i).value.Running? ==> step(m, i).value.input in {i, None})
    && (forall m: M, v: int {:trigger step(m, Some(v))} ::
       step(m, None).Ok? && step(m, None).value.Running? ==>
       step(m, Some(v)) == Ok(step(m, None).value.(input := Some(v))))
  }

  /**
   * `Program::run`: steps until the machine stops, with at most `fuel` steps that go on;
   * `outputs` is what this run has printed so far.
   */
  function Run<M>(step: (M, Option<int>) -> Result<Progress<M>, Fault>, fuel: nat, m: M, input: Option<int>, outputs: seq<int>)
    : (r: Result<Suspension<M>, Fault>)
    ensures r.Ok? ==> outputs <= r.value.outputs
    decreases fuel, 2
  {
    Turn(step, fuel, m, input, outputs)
  }

  /**
   * The top of the loop of `Program::run`.  `Run` reaches the step only through `Turn` and
   * `Loop`, so that an unfolding of a run for a symbolic machine does not unfold the step.
   */
  function Turn<M>(step: (M, Option<int>) -> Result<Progress<M>, Fault>, fuel: nat, m: M, input: Option<int>, outputs: seq<int>)
    : (r: Result<Suspension<M>, Fault>)
    ensures r.Ok? ==> outputs <= r.value.outputs
    decreases fuel, 1
  {
    Loop(step, fuel, m, input, outputs)
  }

  /** One iteration of the loop of `Program::run`, which then resumes the run from the new machine. */
  function Loop<M>(step: (M, Option<int>) -> Result<Progress<M>, Fault>, fuel: nat, m: M, input: Option<int>, outputs: seq<int>)
    : (r: Result<Suspension<M>, Fault>)
    ensures r.Ok? ==> outputs <= r.value.outputs
    decreases fuel, 0
  {
    var p :- step(m, input);
    match p
    case Stopped(state) => Ok(Suspension(state, outputs, input, m))
    case Running(m', input', emitted) =>
      if fuel == 0 then Err(OutOfFuel) else Run(step, fuel - 1, m', input', outputs + emitted)
  }

  /** A run is decided by its first step: it stops there, gives up for lack of fuel, or goes on. */
  lemma RunFirstStep<M>(step: (M, Option<int>) -> Result<Progress<M>, Fault>, fuel: nat, m: M, input: Option<int>, outputs: seq<int>)
    ensures step(m, input).Err? ==> Run(step, fuel, m, input, outputs) == Err(step(m, input).error)
    ensures step(m, input).Ok? && step(m, input).value.Stopped? ==>
      Run(step, fuel, m, input, outputs) == Ok(Suspension(step(m, input).value.state, outputs, input, m))
    ensures step(m, input).Ok? && step(m, input).value.Running? && fuel == 0 ==>
      Run(step, fuel, m, input, outputs) == Err(OutOfFuel)
    ensures step(m, input).Ok? && step(m, input).value.Running? && fuel > 0 ==>
      var p := step(m, input).value;
      Run(step, fuel, m, input, outputs) == Run(step, fuel - 1, p.machine, p.input, outputs + p.emitted)
  {
    assert Run(step, fuel, m, input, outputs) == Turn(step, fuel, m, input, outputs);
    assert Turn(step, fuel, m, input, outputs) == Loop(step, fuel, m, input, outputs);
  }

  /** A step that keeps the machine running costs one unit of fuel and adds what it printed. */
  lemma RunRunning<M>(step: (M, Option<int>) -> Result<Progress<M>, Fault>, fuel: nat, m: M, input: Option<int>,
                      outputs: seq<int>, m': M, input': Option<int>, emitted: seq<int>)
    requires step(m, input) == Ok(Running(m', input', emitted))
    ensures Run(step, fuel + 1, m, input, outputs) == Run(step, fuel, m', input', outputs + emitted)
  {
    RunFirstStep(step, fuel + 1, m, input, outputs);
  }

  /** A step that stops the machine ends the run where it stands. */
  lemma RunStopped<M>(step: (M, Option<int>) -> Result<Progress<M>, Fault>, fuel: nat, m: M, input: Option<int>,
                      outputs: seq<int>, state: ProgramState)
    requires step(m, input) == Ok(Stopped(state))
    ensures Run(step, fuel, m, input, outputs) == Ok(Suspension(state, outputs, input, m))
  {
    RunFirstStep(step, fuel, m, input, outputs);
  }

  /** A run's result with `outputs` printed before it. */
  function Prefixed<M>(r: Result<Suspension<M>, Fault>, outputs: seq<int>): Result<Suspension<M>, Fault>
  {
    match r
    case Ok(s) => Ok(s.(outputs := outputs + s.outputs))
    case Err(f) => Err(f)
  }

  /** The outputs printed earlier in a run only prefix what the rest of the run prints. */
  lemma {:induction false} OutputsAccumulate<M>(step: (M, Option<int>) -> Result<Progress<M>, Fault>,
                                                fuel: nat, m: M, input: Option<int>, outputs: seq<int>)
    ensures Run(step, fuel, m, input, outputs) == Prefixed(Run(step, fuel, m, input, []), outputs)
    decreases fuel
  {
    assert outputs + [] == outputs;
    RunFirstStep(step, fuel, m, input, outputs);
    RunFirstStep(step, fuel, m, input, []);
    var p := step(m, input);
    if p.Ok? && p.value.Running? && fuel > 0 {
      var Running(m', input', emitted) := p.value;
      var rest := Run(step, fuel - 1, m', input', []);
      OutputsAccumulate(step, fuel - 1, m', input', outputs + emitted);
      OutputsAccumulate(step, fuel - 1, m', input', emitted);
      assert [] + emitted == emitted;
      if rest.Ok? {
        assert outputs + emitted + rest.value.outputs == outputs + (emitted + rest.value.outputs);
      }
    }
  }

  /** A run that finishes within its budget finishes the same way with any larger budget. */
  lemma {:induction false} MoreFuel<M>(step: (M, Option<int>) -> Result<Progress<M>, Fault>,
                                       fuel: nat, more: nat, m: M, input: Option<int>, outputs: seq<int>)
    requires Run(step, fuel, m, input, outputs).Ok?
    requires fuel <= more
    ensures Run(step, more, m, input, outputs) == Run(step, fuel, m, input, outputs)
    decreases fuel
  {
    RunFirstStep(step, fuel, m, input, outputs);
    RunFirstStep(step, more, m, input, outputs);
    var p := step(m, input).value;
    if p.Running? {
      MoreFuel(step, fuel - 1, more - 1, p.machine, p.input, outputs + p.emitted);
    }
  }

  /** A run hands back either the input it was given or nothing. */
  lemma {:induction false} RunLeavesInput<M(!new)>(step: (M, Option<int>) -> Result<Progress<M>, Fault>,
                                                   fuel: nat, m: M, input: Option<int>, outputs: seq<int>)
    requires InputDiscipline(step)
    requires Run(step, fuel, m, input, outputs).Ok?
    ensures Run(step, fuel, m, input, outputs).value.input in {input, None}
    decreases fuel
  {
    RunFirstStep(step, fuel, m, input, outputs);
    var p := step(m, input).value;
    if p.Running? {
      RunLeavesInput(step, fuel - 1, p.machine, p.input, outputs + p.emitted);
      if p.input == None {
        RunLeavesInput(step, fuel - 1, p.machine, None, outputs + p.emitted);
      }
    }
  }

  /** A run without input goes on with no input pending until it stops. */
  lemma {:induction false} NoInputStaysNone<M(!new)>(step: (M, Option<int>) -> Result<Progress<M>, Fault>,
                                                     fuel: nat, m: M, outputs: seq<int>)
    requires InputDiscipline(step)
    requires Run(step, fuel, m, None, outputs).Ok?
    ensures Run(step, fuel, m, None, outputs).value.input == None
  {
    RunLeavesInput(step, fuel, m, None, outputs);
  }

  /**
   * Suspending for input and resuming is the same as having the input ready from the start:
   * a run without input that stops with `AwaitInput`, resumed where it stopped with the value
   * `v`, prints and ends exactly like one run that has `v` pending from the outset.
   */
  lemma {:induction false} ResumeAfterAwait<M(!new)>(step: (M, Option<int>) -> Result<Progress<M>, Fault>,
                                                     f1: nat, f2: nat, m: M, v: int)
    requires InputDiscipline(step)
    requires Run(step, f1, m, None, []).Ok? && Run(step, f1, m, None, []).value.state == AwaitInput
    requires Run(step, f2, Run(step, f1, m, None, []).value.machine, Some(v), []).Ok?
    ensures var first := Run(step, f1, m, None, []).value;
      var second := Run(step, f2, first.machine, Some(v), []).value;
      Run(step, f1 + f2, m, Some(v), []) == Ok(second.(outputs := first.outputs + second.outputs))
    decreases f1
  {
    RunFirstStep(step, f1, m, None, []);
    RunFirstStep(step, f1 + f2, m, Some(v), []);
    var first := Run(step, f1, m, None, []).value;
    var p := step(m, None).value;
    if p.Stopped? {
      assert first == Suspension(AwaitInput, [], None, m);
      var second := Run(step, f2, m, Some(v), []).value;
      assert [] + second.outputs == second.outputs;
      MoreFuel(step, f2, f1 + f2, m, Some(v), []);
    } else {
      var Running(m', input', emitted) := p;
      assert input' == None;
      assert step(m, Some(v)) == Ok(p.(input := Some(v)));
      assert [] + emitted == emitted;
      assert f1 > 0;
      assert Run(step, f1, m, None, []) == Run(step, f1 - 1, m', None, emitted);
      OutputsAccumulate(step, f1 - 1, m', None, emitted);
      var rest := Run(step, f1 - 1, m', None, []).value;
      assert first == rest.(outputs := emitted + rest.outputs);
      ResumeAfterAwait(step, f1 - 1, f2, m', v);
      assert Run(step, f1 + f2, m, Some(v), []) == Run(step, f1 - 1 + f2, m', Some(v), emitted);
      OutputsAccumulate(step, f1 - 1 + f2, m', Some(v), emitted);
      var second := Run(step, f2, first.machine, Some(v), []).value;
      assert emitted + (rest.outputs + second.outputs) == first.outputs + second.outputs;
    }
  }

  // ------------------------------------------------------------------------------------
  // Feeding a queue of inputs

  /** The state `Program::run_all` leaves behind. */
  datatype Drained<M> = Drained(state: ProgramState, machine: M, inputs: seq<int>, outputs: seq<int>, progress: bool)

  /**
   * `Program::run_all`: pops the next input (if any) and runs; appends what the run printed
   * to the output queue; pushes an unused input back to the front; stops once the program
   * has halted or waits for input with the queue empty.  `fuel` bounds both the number of
   * rounds and each run.  `progress` says whether any round printed something.
   */
  function RunAll<M>(step: (M, Option<int>) -> Result<Progress<M>, Fault>, fuel: nat, m: M,
                     inputs: seq<int>, outputs: seq<int>, progress: bool): (r: Result<Drained<M>, Fault>)
    ensures r.Ok? ==> outputs <= r.value.outputs
    ensures r.Ok? ==> r.value.progress == (progress || |r.value.outputs| > |outputs|)
    ensures r.Ok? ==> r.value.state == Halt || r.value.inputs == []
    decreases fuel
  {
    var s :- Run(step, fuel, m, Front(inputs), []);
    var inputs' := Requeue(s.input, Rest(inputs));
    var outputs' := outputs + s.outputs;
    var progress' := progress || s.outputs != [];
    if s.state == Halt || inputs' == [] then Ok(Drained(s.state, s.machine, inputs', outputs', progress'))
    else if fuel == 0 then Err(OutOfFuel)
    else RunAll(step, fuel - 1, s.machine, inputs', outputs', progress')
  }

  /** `VecDeque::pop_front`: the value taken, and the queue without it. */
  function Front(q: seq<int>): Option<int>
  {
    if q == [] then None else Some(q[0])
  }

  function Rest(q: seq<int>): seq<int>
  {
    if q == [] then [] else q[1..]
  }

  /** `VecDeque::push_front` of an input the run handed back. */
  function Requeue(input: Option<int>, q: seq<int>): seq<int>
  {
    match input
    case Some(i) => [i] + q
    case None => q
  }

  /** Taking the front input and putting back a subset of it leaves a suffix of the queue. */
  lemma RequeueSuffix(q: seq<int>, input: Option<int>)
    requires input in {Front(q), None}
    ensures var q' := Requeue(input, Rest(q)); |q'| <= |q| && q' == q[|q| - |q'|..]
  {
    if input.Some? {
      assert Requeue(input, Rest(q)) == q;
    }
  }

  lemma SuffixOfSuffix(a: seq<int>, b: seq<int>, c: seq<int>)
    requires |b| <= |a| && b == a[|a| - |b|..]
    requires |c| <= |b| && c == b[|b| - |c|..]
    ensures c == a[|a| - |c|..]
  {
    assert a[|a| - |b|..][|b| - |c|..] == a[|a| - |c|..];
  }

  /** One round of `run_all`: a run on the front input, then either the end or the next round. */
  lemma RunAllRound<M>(step: (M, Option<int>) -> Result<Progress<M>, Fault>, fuel: nat, m: M,
                       inputs: seq<int>, outputs: seq<int>, progress: bool)
    requires RunAll(step, fuel, m, inputs, outputs, progress).Ok?
    ensures Run(step, fuel, m, Front(inputs), []).Ok?
    ensures var s := Run(step, fuel, m, Front(inputs), []).value;
      var inputs' := Requeue(s.input, Rest(inputs));
      var r := RunAll(step, fuel, m, inputs, outputs, progress).value;
      if s.state == Halt || inputs' == [] then r.inputs == inputs'
      else fuel > 0 && r == RunAll(step, fuel - 1, s.machine, inputs', outputs + s.outputs, progress || s.outputs != []).value
  {
  }

  /** `run_all` neither loses nor reorders inputs: what is left is a suffix of the queue. */
  lemma {:induction false} RunAllConsumesPrefix<M(!new)>(step: (M, Option<int>) -> Result<Progress<M>, Fault>, fuel: nat, m: M,
                                                         inputs: seq<int>, outputs: seq<int>, progress: bool)
    requires InputDiscipline(step)
    requires RunAll(step, fuel, m, inputs, outputs, progress).Ok?
    ensures var left := RunAll(step, fuel, m, inputs, outputs, progress).value.inputs;
      |left| <= |inputs| && left == inputs[|inputs| - |left|..]
    decreases fuel
  {
    RunAllRound(step, fuel, m, inputs, outputs, progress);
    var s := Run(step, fuel, m, Front(inputs), []).value;
    RunLeavesInput(step, fuel, m, Front(inputs), []);
    RequeueSuffix(inputs, s.input);
    var inputs' := Requeue(s.input, Rest(inputs));
    if !(s.state == Halt || inputs' == []) {
      var outputs', progress' := outputs + s.outputs, progress || s.outputs != [];
      RunAllConsumesPrefix(step, fuel - 1, s.machine, inputs', outputs', progress');
      SuffixOfSuffix(inputs, inputs', RunAll(step, fuel - 1, s.machine, inputs', outputs', progress').value.inputs);
    }
  }
}
