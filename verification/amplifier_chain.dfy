/**
 * `p13/src/main.rs`: five amplifiers run the same program (the two-mode machine of `ModeVm`,
 * whose code the source file repeats) one after another.  Each gets a fresh copy of the memory image, its
 * phase setting as first input and the previous amplifier's output as second; the signal
 * starts at 0.  The answer is the largest final signal over every ordering of the phase
 * settings 0 to 4.
 */
module AmplifierChain {
  import opened Util
  import opened Tape
  import opened ModeVm
  import opened PhaseOrders

  /** The lowest phase setting of this puzzle. */
  const FIRST_PHASE: int := 0

  /** Why `run` returns an error: text that is not a program, or a panic of an amplifier. */
  datatype Failure = InvalidProgram | Crashed(fault: Fault)

  /**
   * `run_thruster_program`: the machine fed exactly the phase and the incoming signal, whose
   * output closure keeps only the last value; halting without output is a panic.
   */
  function Thruster(program: seq<int>, phase: int, signal: int, fuel: nat): Result<int, Fault>
  {
    var m :- Execute(Listed([phase, signal]), fuel, Start(program));
    if m.printed == [] then Err(MissingOutput) else Ok(m.printed[|m.printed| - 1])
  }

  /** The signal after the amplifiers set to `order`, starting from `signal`. */
  function Chain(program: seq<int>, order: seq<int>, signal: int, fuel: nat): Result<int, Fault>
  {
    if order == [] then Ok(signal)
    else
      var next :- Thruster(program, order[0], signal, fuel);
      Chain(program, order[1..], next, fuel)
  }

  /** The final signal of each ordering, as the loop of `run` sees it. */
  function Signal(program: seq<int>, fuel: nat): seq<int> -> Result<int, Fault>
  {
    order => Chain(program, order, 0, fuel)
  }

  /** `run`: parse the program, then the best chain over all orderings, from `isize::MIN`. */
  function Answer(text: string, fuel: nat): Result<int, Failure>
  {
    match ParseProgram(text)
    case None => Err(InvalidProgram)
    case Some(program) =>
      match BestOver(Signal(program, fuel), Orders(FIRST_PHASE, []), ISIZE_MIN)
      case Ok(max) => Ok(max)
      case Err(f) => Err(Crashed(f))
  }

  // ------------------------------------------------------------------------------------
  // What the answer is

  /** An amplifier reads at most its two inputs; a third read would have been a panic. */
  lemma ThrusterReadsTwo(program: seq<int>, phase: int, signal: int, fuel: nat)
    requires Execute(Listed([phase, signal]), fuel, Start(program)).Ok?
    ensures Execute(Listed([phase, signal]), fuel, Start(program)).value.taken <= 2
    ensures Stopped(Execute(Listed([phase, signal]), fuel, Start(program)).value)
  {
    ListedInputsSuffice([phase, signal], fuel, Start(program));
    ExecuteStops(Listed([phase, signal]), fuel, Start(program));
  }

  /** Running the chain in two parts: the second part starts from the first part's signal. */
  lemma {:induction false} ChainAppend(program: seq<int>, a: seq<int>, b: seq<int>, signal: int, fuel: nat)
    ensures Chain(program, a + b, signal, fuel) ==
      (match Chain(program, a, signal, fuel)
       case Ok(s) => Chain(program, b, s, fuel)
       case Err(f) => Err(f))
  {
    if a == [] {
      assert a + b == b;
    } else {
      assert (a + b)[1..] == a[1..] + b;
      match Thruster(program, a[0], signal, fuel)
      case Ok(next) => ChainAppend(program, a[1..], b, next, fuel);
      case Err(_) =>
    }
  }

  /**
   * The answer of `run` is the largest final signal over every ordering of the five phase
   * settings (at least `isize::MIN`, where it starts), and one of the orderings reaches it.
   */
  lemma AnswerIsBestOrdering(text: string, fuel: nat)
    requires Answer(text, fuel).Ok?
    ensures ParseProgram(text).Some?
    ensures var program, best := ParseProgram(text).value, Answer(text, fuel).value;
      (forall p :: Arrangement(FIRST_PHASE, p) ==> Chain(program, p, 0, fuel).Ok? && Chain(program, p, 0, fuel).value <= best)
      && exists p :: Arrangement(FIRST_PHASE, p) && best == Max(ISIZE_MIN, Chain(program, p, 0, fuel).value)
  {
    var program := ParseProgram(text).value;
    BestOverAll(Signal(program, fuel), FIRST_PHASE);
  }

  // ------------------------------------------------------------------------------------
  // The loops of the source

  /** `run_thruster_program` on a memory slice it changes in place. */
  method RunThrusterProgram(mem: array<int>, phase: int, signal: int, fuel: nat) returns (r: Result<int, Fault>)
    modifies mem
    ensures r == Thruster(old(mem[..]), phase, signal, fuel)
  {
    var m :- ModeVm.Run(mem, Listed([phase, signal]), fuel);
    if m.printed == [] {
      return Err(MissingOutput);
    }
    return Ok(m.printed[|m.printed| - 1]);
  }

  /** The inner loop of `run`: each amplifier on a fresh copy of the memory image. */
  method RunChain(program: seq<int>, order: seq<int>, fuel: nat) returns (r: Result<int, Fault>)
    ensures r == Chain(program, order, 0, fuel)
  {
    var signal := 0;
    for k := 0 to |order|
      invariant Chain(program, order, 0, fuel) == Chain(program, order[k..], signal, fuel)
    {
      assert order[k..][1..] == order[k + 1..];
      var clone := new int[|program|](i requires 0 <= i < |program| => program[i]);
      assert clone[..] == program;
      signal :- RunThrusterProgram(clone, order[k], signal, fuel);
    }
    return Ok(signal);
  }

  /** The loop of `run` over the orderings, keeping the largest signal. */
  method BestSignal(program: seq<int>, fuel: nat) returns (r: Result<int, Fault>)
    ensures r == BestOver(Signal(program, fuel), Orders(FIRST_PHASE, []), ISIZE_MIN)
  {
    var orders := AllPhaseOrders(FIRST_PHASE);
    var max := ISIZE_MIN;
    for k := 0 to |orders|
      invariant BestOver(Signal(program, fuel), orders, ISIZE_MIN) == BestOver(Signal(program, fuel), orders[k..], max)
    {
      assert orders[k..][1..] == orders[k + 1..];
      var signal :- RunChain(program, orders[k], fuel);
      if signal > max {
        max := signal;
      }
    }
    return Ok(max);
  }

  /** `run`: parse, then the best signal. */
  method Run(text: string, fuel: nat) returns (r: Result<int, Failure>)
    ensures r == Answer(text, fuel)
  {
    var parsed := ParseProgram(text);
    if parsed.None? {
      return Err(InvalidProgram);
    }
    var best := BestSignal(parsed.value, fuel);
    if best.Err? {
      return Err(Crashed(best.error));
    }
    return Ok(best.value);
  }
}
