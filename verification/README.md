# Advent of Code 2019 in Dafny

A verified model of the Rust solutions in the `aoc-2019` repository. Each puzzle lives in its own crate, `pNN/src/main.rs`. The heart of the repository is the Intcode machine, which is rewritten seven times:

- `p04` is the four-cell add/multiply machine;
- `p09` adds input, output and parameter modes;
- `p10` and `p13` add jumps and comparisons;
- `p14` makes the machine resumable, with input queues;
- `p18` and `p22/src/intcode.rs` add relative mode.

The other puzzles cover rocket fuel, password rules, orbit maps, crossed wires, the space image format, asteroid visibility, the hull-painting robot, moon gravity, the arcade screen and the nanofactory's reactions.

The model follows the source one file at a time:

- Pure Rust code becomes datatypes, functions and lemmas.
- Code that updates state in place becomes methods. These are methods over arrays, or classes whose fields they reassign (`Intcode.Program`, `FeedbackLoop.Program`, `Hull.HullMap`, `WireGraphs.Wire`, `ReactionTables.ReactionTable`).
- Each method is proved against a specification function. The properties the source promises are proved about that function.
- A panic in the source (an index out of range, an `unwrap`, an `assert!`, `unreachable!`) becomes an `Err` result. No panic is turned into a precondition.
- A loop that need not end carries a fuel budget and ends in `OutOfFuel` when the budget runs out.

Modules and the source they model:

- `Util`: the `Option`/`Result` wrappers, Rust's truncating `/` and `%`, the `as usize` cast, and `trim`, `split`, `lines` and `parse` on strings.
- `Tape`: memory access, faults and program text, shared by the Intcode machines.
- `Intcode`: `p22/src/intcode.rs`, the decoder, evaluator and `Program`.
- `Resumable`: the suspend-and-resume loop of `Program::run` and the queue driver `run_all`, written once for every resumable machine.
- `SensorBoost`: `p18/src/main.rs`.
- `GravityAssist`: `p04/src/main.rs`.
- `AirConditioner`: `p09/src/main.rs`.
- `ModeVm`: the two-mode decoder and evaluator of `p10`, `p13` and `p14`.
- `ThermalRadiator`: `p10/src/main.rs`.
- `AmplifierChain`: `p13/src/main.rs`.
- `PhaseOrders`: `get_all_permutations` of `p13` and `p14`, and the maximum over the orderings.
- `FeedbackLoop`: `p14/src/main.rs`.
- `FuelCounter`: `p01`.
- `PasswordRules`: `p07`.
- `PasswordGroups`: `p08`.
- `OrbitMap`: `p11`.
- `OrbitTransfers`: `p12`.
- `CrossedWires`: `p05`.
- `WireCuts` and `WireGraphs`: `p06`.
- `StableSort`: `sort_by_key`, used by `p06` and `p15`.
- `SpaceImage`: `p15`.
- `ImageDecoder`: `p16`.
- `Divisibility`: the `gcd` loops of `p19` and `p24`.
- `AsteroidMap`: `p19`.
- `MonitoringStation`: `p20`.
- `Hull` and `HullRobot`: `p21`.
- `Registration`: `p22/src/main.rs`.
- `Moons`: `p23`.
- `Cycles` and `MoonCycles`: `p24`.
- `Arcade`: `p25`.
- `Chemicals`, `ReactionTables`, `Refinery` and `RefineryExample`: `p27`.
- `FuelSearch`: `p28`.

Some behaviour of the Intcode machines worth knowing when reading the model:

- The feedback loop of `p14` runs rounds until a round in which no amplifier printed. It then asserts that amplifier A's queue holds exactly one value and the other queues are empty; a failure of that assertion is `QueueMismatch` in the model.
- The loop has exactly five stages, wired A to E and back to A.
- An instruction pointer past the end of memory ends a run with `AwaitInput`.
- A negative address wraps through `as usize` to a huge index and fails the bounds check, which is `IndexOutOfBounds` in the model.

## Model

| member | source | states |
|---|---|---|
| `Tape.Read` | p22/src/intcode.rs:19-26 | reading a cell succeeds exactly below the end of memory and gives that cell; past the end it is the index panic |
| `Tape.Write` | p22/src/intcode.rs:186 | a store succeeds exactly below the end of memory, sets that one cell and keeps every other cell and the length |
| `Tape.OpcodeCellDigits` | p22/src/intcode.rs:94-100 | an opcode cell built from an opcode and three mode digits gives back the opcode as `% 100` and each mode as its decimal digit |
| `Tape.ParseNumbers` | p18/src/main.rs:269-272 | the comma-separated pieces, trimmed, read as numbers: one number per piece, in order, and failure exactly when some piece does not read |
| `Tape.ParseShowProgram` | p18/src/main.rs:269-272 | reading a printed program gives the program back |
| `Intcode.DecodeMode` | p22/src/intcode.rs:9-17 | the digits 0, 1 and 2 decode to Position, Immediate and Relative; any other digit is the unknown-mode error |
| `Intcode.Size` | p22/src/intcode.rs:78-92 | the size is 4 for Add, Mul, LessThan and Equals, 3 for the two jumps, 2 for Input, Output and SetRelativeOffset, 1 for Halt, and always one more than the parameter count |
| `Intcode.Decode` | p22/src/intcode.rs:94-177 | a decoded instruction has its opcode equal to the first cell `% 100`, its modes from the hundreds, thousands and ten-thousands digits and its parameters from the following cells; an unknown opcode is the unknown-instruction error; a negative cell never decodes |
| `Intcode.DecodeSpelled` | p22/src/intcode.rs:94-177 | conversely, cells whose opcode, mode digits and parameter cells spell out an instruction decode to that instruction |
| `Intcode.DecodeEncode` | p22/src/intcode.rs:94-177 | decoding the encoding of any instruction gives it back, whatever follows in memory |
| `Intcode.Fetch` | p22/src/intcode.rs:19-26 | an Immediate parameter is its own value; Position and Relative read memory |
| `Intcode.FetchAddr` | p22/src/intcode.rs:28-35 | an address is refused exactly for an Immediate parameter |
| `Intcode.FetchReadsAddress` | p22/src/intcode.rs:19-35 | a Position or Relative parameter reads exactly the cell at the address `fetch_addr` gives (the parameter, or base plus parameter) |
| `Intcode.Eval` | p22/src/intcode.rs:179-251 | memory keeps its length; an instruction that does not store leaves memory alone; Add, Mul, LessThan and Equals store into the destination cell only and change no other cell; Output yields the fetched value, Input names the address `fetch_addr` resolves, SetRelativeOffset adds the fetched value; the result is Halt exactly for Halt; an Immediate destination is the address error |
| `Intcode.EvalArithmetic` | p22/src/intcode.rs:182-199 | Add stores the sum and Mul the product of the two fetched operands at the address `fetch_addr` resolves |
| `Intcode.EvalComparison` | p22/src/intcode.rs:228-245 | LessThan and Equals store 1 exactly when the comparison holds and 0 otherwise |
| `Intcode.EvalJump` | p22/src/intcode.rs:209-226 | JumpIfTrue jumps to the fetched target exactly when the condition is non-zero, JumpIfFalse exactly when it is zero; otherwise both continue |
| `Intcode.Step` | p22/src/intcode.rs:276-303 | past the end of memory the run stops awaiting input; a running step keeps the memory length, prints at most one value, changes the base only for SetRelativeOffset, consumes the pending input only at Input and only when there is one, and prints only at Output |
| `Intcode.StepAdvances` | p22/src/intcode.rs:279-285 | a decoded, evaluated instruction's step is the loop's reaction to the evaluation result, advancing by the instruction's size |
| `Intcode.StepEncoded` | p22/src/intcode.rs:277-302 | at an encoded instruction, the step is the loop's reaction to evaluating that instruction |
| `Intcode.StepInputDiscipline` | p22/src/intcode.rs:288-296 | only an input instruction reads the pending input: without one it suspends in place, with one it consumes it |
| `Intcode.Execute` | p22/src/intcode.rs:275-305 | a run keeps the memory length |
| `Intcode.RunStopsProperly` | p22/src/intcode.rs:287-303 | a run stops with Halt only on opcode 99 and with AwaitInput only at an Input without input or at the end of memory |
| `Intcode.Initial` | p22/src/intcode.rs:266-273 | the new machine's memory is the program followed by a million zero cells, with instruction pointer 0 and relative offset 0 |
| `Intcode.Program.constructor` | p22/src/intcode.rs:266-273 | `Program::new` builds exactly that machine |
| `Intcode.Program.Tick` | p22/src/intcode.rs:277-302 | one loop iteration on the object's fields: the result is the step of the old machine, and the fields become the new machine when it runs on and stay put when it stops |
| `Intcode.Program.Run` | p22/src/intcode.rs:275-305 | `Program::run` on the object's fields is the run of the step function from the old state, and the fields end at the run's final machine |
| `Intcode.Program.RunAll` | p18/src/main.rs:327-344 | `run_all` on the object's fields is the queue-driven run of the step function from the old state |
| `Resumable.Run` | p18/src/main.rs:296-325 | the outputs printed so far are a prefix of the run's outputs |
| `Resumable.RunFirstStep` | p18/src/main.rs:298-323 | a run is decided by its first step: an error, a stop where the machine stands, running out of fuel, or the rest of the run from the next machine |
| `Resumable.RunRunning` | p18/src/main.rs:301-321 | a running step costs one unit of fuel and appends what it printed |
| `Resumable.RunStopped` | p18/src/main.rs:307-318 | a stopping step ends the run with its state, the outputs so far and the remaining input |
| `Resumable.OutputsAccumulate` | p18/src/main.rs:297-324 | earlier outputs only prefix what the rest of the run prints |
| `Resumable.MoreFuel` | p18/src/main.rs:298-325 | a run that finishes within its budget finishes the same way with any larger budget |
| `Resumable.RunLeavesInput` | p18/src/main.rs:309-318 | a run hands back either the input it was given or nothing |
| `Resumable.NoInputStaysNone` | p18/src/main.rs:309-318 | a run without input ends without input |
| `Resumable.ResumeAfterAwait` | p22/src/intcode.rs:288-296 | a run that suspends for input and is resumed with it prints and ends exactly like a run that had the input from the start, because the pointer stays on the Input |
| `Resumable.RunAll` | p18/src/main.rs:327-344 | outputs are appended in order; progress is true exactly when something was printed (or it already was); it stops on Halt or with the input queue empty |
| `Resumable.RequeueSuffix` | p18/src/main.rs:329-335 | popping the front input and pushing an unused one back leaves a suffix of the queue |
| `Resumable.RunAllRound` | p18/src/main.rs:328-342 | one round of `run_all` is a run on the front input followed by the end or by the next round |
| `Resumable.RunAllConsumesPrefix` | p18/src/main.rs:333-335 | the inputs left are a suffix of the queue: nothing is lost or reordered |
| `SensorBoost.Answer` | p18/src/main.rs:268-281 | an unreadable program is the parse error; otherwise the answer is what `run_all` leaves in the output queue |
| `SensorBoost.Run` | p18/src/main.rs:268-281 | `run`, written with the object, gives that answer |
| `SensorBoost.BoostHaltsAtOnce` | p18/src/main.rs:327-344 | a first run that halts without asking for input ends `run_all` with what it printed |
| `SensorBoost.PrintsLargeNumber` | p18/src/main.rs:365-370 | `104,1125899906842624,99` prints 1125899906842624 |
| `SensorBoost.ProductStored` | p18/src/main.rs:357-363 | `1102,34915192,34915192,7` stores the product of its immediate operands in cell 7 |
| `SensorBoost.ProductPrinted` | p18/src/main.rs:357-363 | `4,7,99` prints cell 7 and halts |
| `SensorBoost.ProductRun` | p18/src/main.rs:357-363 | the whole run of `1102,34915192,34915192,7,4,7,99,0` prints the product and halts |
| `SensorBoost.PrintsSixteenDigitProduct` | p18/src/main.rs:357-363 | `1102,34915192,34915192,7,4,7,99,0` outputs 1219070632396864 |
| `SensorBoost.EchoBase` | p18/src/main.rs:372-377 | `109,-1` moves the relative base to -1 |
| `SensorBoost.EchoStores` | p18/src/main.rs:372-377 | `203,1` with base -1 stores the input in cell 0 |
| `SensorBoost.EchoPrints` | p18/src/main.rs:372-377 | `4,0,99` prints cell 0 and halts |
| `SensorBoost.EchoRun` | p18/src/main.rs:372-377 | the whole run of `109,-1,203,1,4,0,99` with input -70 prints -70 and halts |
| `SensorBoost.EchoesThroughRelativeBase` | p18/src/main.rs:372-377 | `109,-1,203,1,4,0,99` with input -70 outputs exactly -70 |
| `SensorBoost.QuineBumpsBase` | p18/src/main.rs:350-355 | `109,1` moves the relative base up by one |
| `SensorBoost.QuinePrints` | p18/src/main.rs:350-355 | `204,-1` prints the cell just below the relative base |
| `SensorBoost.QuineCounts` | p18/src/main.rs:350-355 | `1001,100,1,100` increments the counter in cell 100 |
| `SensorBoost.QuineCompares` | p18/src/main.rs:350-355 | `1008,100,16,101` sets cell 101 to whether the counter has reached 16 |
| `SensorBoost.QuineLoops` | p18/src/main.rs:350-355 | `1006,101,0` jumps back to 0 unless the flag is set |
| `SensorBoost.QuineHalts` | p18/src/main.rs:350-355 | `99` at 15 halts |
| `SensorBoost.QuineRound` | p18/src/main.rs:350-355 | round k of the quine prints cell k and moves the counter to k + 1 |
| `SensorBoost.QuineRounds` | p18/src/main.rs:350-355 | rounds k to 15 print the rest of the program |
| `SensorBoost.QuineRun` | p18/src/main.rs:350-355 | the whole run prints the sixteen cells of the program and halts |
| `SensorBoost.QuinePrintsItself` | p18/src/main.rs:350-355 | the quine `109,1,204,-1,1001,100,1,100,1008,100,16,101,1006,101,0,99` outputs exactly itself |
| `GravityAssist.Decode` | p04/src/main.rs:64-79 | a decoded instruction sits on a cell holding 1, 2 or 99; Add exactly for 1 and Mul exactly for 2, with the next three cells as positions; any other opcode is the decode panic |
| `GravityAssist.DecodeEncode` | p04/src/main.rs:64-79 | decoding finds the instruction written at a position, whatever surrounds it |
| `GravityAssist.Evaluate` | p04/src/main.rs:81-95 | memory keeps its length; only Halt says to stop and leaves memory alone; Add and Mul store the sum or product of the two cells in the destination and change nothing else; in-range positions never fail |
| `GravityAssist.EvaluateInPlace` | p04/src/main.rs:81-95 | on the array, the store happens in place and the result is that of `Evaluate` on the old contents |
| `GravityAssist.RunFrom` | p04/src/main.rs:54-62 | a run keeps the memory length |
| `GravityAssist.Run` | p04/src/main.rs:54-62 | the loop over positions 0, 4, 8, … leaves the array holding exactly what `RunFrom` computes from the old contents, or fails with its error |
| `GravityAssist.HaltStops` | p04/src/main.rs:58-60 | a halt at the position reached ends the run with memory as it is |
| `GravityAssist.RunsOn` | p04/src/main.rs:55-61 | an instruction that goes on is followed by the run from four cells further |
| `GravityAssist.DecodesExample` | p04/src/main.rs:101-106 | `1,0,0,0,99` decodes to Add(0,0,0) at 0 and Halt at 4 |
| `GravityAssist.RunsSingleStepExamples` | p04/src/main.rs:108-115 | `1,0,0,0,99` becomes `2,0,0,0,99` and `2,3,0,3,99` becomes `2,3,0,6,99` |
| `GravityAssist.RunsOverwritingExamples` | p04/src/main.rs:116-123 | `2,4,4,5,99,0` becomes `2,4,4,5,99,9801` and `1,1,1,4,99,5,6,0,99` becomes `30,1,1,4,2,5,6,0,99` |
| `GravityAssist.Attempt` | p04/src/main.rs:37-42 | a tape too short to hold noun and verb is the index panic |
| `GravityAssist.SearchFindsFirst` | p04/src/main.rs:34-52 | the pair found works and every pair before it in row-major order ran to the end without leaving 19690720 in cell 0 |
| `GravityAssist.SearchExhausts` | p04/src/main.rs:34-52 | when no pair is found, every remaining pair below 100 × 100 ran without reaching the target, which is the final panic |
| `GravityAssist.FindNounAndVerb` | p04/src/main.rs:34-52 | the nested loops, with the copy restored after each failed attempt, give exactly the row-major search from (0, 0) |
| `AirConditioner.Decode` | p09/src/main.rs:61-94 | only opcodes 1, 2, 3, 4 and 99 decode; anything else is the unknown-instruction error; what decodes is what the two-mode decoder gives |
| `AirConditioner.DecodesExample` | p09/src/main.rs:159-164 | `1001,4,3,4,99` decodes to Add of cell 4 and the constant 3 into cell 4, then Halt at offset 4 |
| `AirConditioner.RunFrom` | p09/src/main.rs:139-152 | a run keeps the memory length and only adds to what was printed |
| `AirConditioner.Run` | p09/src/main.rs:139-152 | the loop that moves the pointer past each instruction before evaluating it leaves the slice and the printed values as `RunFrom` computes, or fails with its error |
| `AirConditioner.RunPasses` | p09/src/main.rs:145-150 | an instruction other than Halt is followed by the run from the pointer advanced by its size |
| `AirConditioner.RunHalts` | p09/src/main.rs:148-150 | a halt ends the run with memory as it is |
| `AirConditioner.RunsSingleStepExamples` | p09/src/main.rs:166-172 | `1,0,0,0,99` becomes `2,0,0,0,99` and `2,3,0,3,99` becomes `2,3,0,6,99` |
| `AirConditioner.RunsStorePastHaltExample` | p09/src/main.rs:173-175 | `2,4,4,5,99,0` becomes `2,4,4,5,99,9801` |
| `AirConditioner.RunsOverwritingExample` | p09/src/main.rs:176-179 | `1,1,1,4,99,5,6,0,99` becomes `30,1,1,4,2,5,6,0,99` |
| `ModeVm.DecodeMode` | p10/src/main.rs:14-21 | the digits 0 and 1 decode to Position and Immediate; any other digit is the unknown-mode error |
| `ModeVm.Size` | p10/src/main.rs:68-81 | the size is 4 for Add, Mul, LessThan and Equals, 3 for the jumps, 2 for Input and Output, 1 for Halt |
| `ModeVm.Decode` | p10/src/main.rs:83-154 | a decoded instruction has the first cell's opcode, its raw cells from the following cells and its modes from the hundreds digit up; an unknown opcode is the unknown-instruction error |
| `ModeVm.DecodeRejectsMode` | p10/src/main.rs:14-21 | a decoded mode digit other than 0 or 1 makes decoding fail with the unknown-mode error |
| `ModeVm.DecodeSpelled` | p10/src/main.rs:83-154 | cells that spell out an instruction decode to it |
| `ModeVm.DecodeEncode` | p10/src/main.rs:83-154 | decoding undoes encoding, whatever follows |
| `ModeVm.DecodeAt` | p10/src/main.rs:236 | an instruction written at the pointer is what decoding memory from the pointer finds |
| `ModeVm.DecodesExample` | p10/src/main.rs:253-258 | `1001,4,3,4,99` decodes to Add(Position 4, Immediate 3, 4) and then Halt at offset 4 |
| `ModeVm.Fetch` | p10/src/main.rs:23-29 | an Immediate parameter is its value; a Position parameter reads its cell and fails exactly outside memory |
| `ModeVm.Eval` | p10/src/main.rs:156-219 | memory keeps its length; only storing instructions change memory, and only their destination cell; Input stores the closure's value; only Output prints, the fetched value; the result is Halt exactly for Halt; an input closure that fails makes Input fail |
| `ModeVm.EvalArithmetic` | p10/src/main.rs:158-173 | Add and Mul store the sum or product of the two fetched operands |
| `ModeVm.EvalComparison` | p10/src/main.rs:202-215 | LessThan and Equals store 1 exactly when the comparison holds and 0 otherwise |
| `ModeVm.EvalJump` | p10/src/main.rs:184-201 | a jump sets the pointer to the fetched target exactly when its condition selects it, and continues otherwise |
| `ModeVm.EvalInPlace` | p10/src/main.rs:156-219 | on the slice, the store happens in place and the outcome is that of `Eval` on the old contents |
| `ModeVm.Next` | p13/src/main.rs:278-283 | a constant closure always gives its value; a list closure gives its k-th value and fails exactly once the list is used up |
| `ModeVm.Start` | p10/src/main.rs:232-233 | a run starts at pointer 0 with nothing read and nothing printed |
| `ModeVm.Execute` | p10/src/main.rs:236-245 | a run keeps the memory length and only adds to what was read and printed |
| `ModeVm.Step` | p10/src/main.rs:237-244 | a step decodes the instruction at the pointer; it ends the loop exactly at Halt, and otherwise advances by the size or jumps |
| `ModeVm.ExecuteStops` | p10/src/main.rs:236-245 | a finished run stopped at a halt or with the pointer outside memory |
| `ModeVm.ListedInputsSuffice` | p13/src/main.rs:278-283 | a run whose closure hands out a list never reads more values than the list holds |
| `ModeVm.ExecutePasses` | p10/src/main.rs:240-243 | a run past an instruction other than Halt is the run from the machine after it |
| `ModeVm.ExecuteHalts` | p10/src/main.rs:243 | a run at a halt stops there |
| `ModeVm.Tick` | p10/src/main.rs:237-244 | the loop body on the slice is `Step` of the old machine, with the store done in place and the slice untouched at a halt |
| `ModeVm.Run` | p10/src/main.rs:232-246 | the loop over the slice ends in exactly the machine `Execute` computes from the start, and the slice holds its memory |
| `ThermalRadiator.Run` | p10/src/main.rs:232-246 | `run` with the input closure fixed at 5 leaves the slice holding the memory of the machine `Execute` reaches, and prints what that machine printed |
| `ThermalRadiator.RunsAddExample` | p10/src/main.rs:262-264 | `1,0,0,0,99` becomes `2,0,0,0,99` |
| `ThermalRadiator.RunsMulExample` | p10/src/main.rs:265-267 | `2,3,0,3,99` becomes `2,3,0,6,99` |
| `ThermalRadiator.RunsSquareExample` | p10/src/main.rs:268-270 | `2,4,4,5,99,0` becomes `2,4,4,5,99,9801` |
| `ThermalRadiator.RunsOverwritingExample` | p10/src/main.rs:271-274 | `1,1,1,4,99,5,6,0,99` becomes `30,1,1,4,2,5,6,0,99`, the first store turning the halt at 4 into a multiplication |
| `AmplifierChain.ThrusterReadsTwo` | p13/src/main.rs:277-296 | an amplifier run that finishes reads at most its phase and its signal, never the panicking third value, and stops properly |
| `AmplifierChain.ChainAppend` | p13/src/main.rs:263-266 | running the chain in two parts is the second part started from the first part's signal |
| `AmplifierChain.AnswerIsBestOrdering` | p13/src/main.rs:255-275 | the answer is at least every ordering's final signal of the phase settings 0 to 4 (and `isize::MIN`), and is reached by one of them unless it is `isize::MIN` |
| `AmplifierChain.RunThrusterProgram` | p13/src/main.rs:277-296 | `run_thruster_program` on its slice gives exactly the last output of the run fed [phase, signal], failing without output or on a third read |
| `AmplifierChain.RunChain` | p13/src/main.rs:263-266 | the inner loop, each amplifier on a fresh copy, gives the signal of the chain started from 0 |
| `AmplifierChain.BestSignal` | p13/src/main.rs:261-272 | the loop over the orderings keeps the largest signal, as `BestOver` computes |
| `AmplifierChain.Run` | p13/src/main.rs:255-275 | `run` gives exactly the answer above |
| `PhaseOrders.OrdersSound` | p13/src/main.rs:220-246 | every ordering pushed extends the outer loops' choices and is an arrangement of the five settings |
| `PhaseOrders.OrdersComplete` | p13/src/main.rs:220-246 | every arrangement that extends the choices so far is pushed |
| `PhaseOrders.OrdersDistinct` | p13/src/main.rs:220-246 | no ordering is pushed twice |
| `PhaseOrders.OrdersCount` | p13/src/main.rs:220-246 | with k slots chosen, (5 - k)! orderings are pushed |
| `PhaseOrders.AllOrders` | p13/src/main.rs:329-338 | 120 orderings, each an arrangement of the five settings with no repeated value, none twice, and every arrangement among them |
| `PhaseOrders.AllPhaseOrders` | p13/src/main.rs:220-246 | `get_all_permutations`, as one recursive level per nested loop, returns exactly those orderings |
| `PhaseOrders.PushOrders` | p13/src/main.rs:224-243 | the loop over one slot and the loops inside it append exactly the orderings that extend the outer choices |
| `PhaseOrders.BestIsMaximum` | p13/src/main.rs:261-272 | the loop fails exactly when some ordering's signal fails; otherwise it gives an upper bound of the start value and every signal, equal to one of them |
| `PhaseOrders.BestOverAll` | p14/src/main.rs:255-270 | the best over the pushed orderings is at least the signal of every arrangement, and is `isize::MIN` or the signal of one of them |
| `FeedbackLoop.Step` | p14/src/main.rs:328-350 | past the end of memory it stops awaiting input; a running step keeps the memory length, prints at most one value, consumes the pending input only at Input and prints only at Output |
| `FeedbackLoop.StepInputDiscipline` | p14/src/main.rs:335-343 | only an input instruction reads the pending input |
| `FeedbackLoop.RunKeepsUnreadInput` | p14/src/main.rs:326-351 | `Program::run` hands back the input it was given unless an Input consumed it |
| `FeedbackLoop.RunStopsProperly` | p14/src/main.rs:326-351 | a run stops with Halt only at opcode 99 and with AwaitInput only at an Input without input or past the end of memory |
| `FeedbackLoop.DrainKeepsQueueOrder` | p14/src/main.rs:353-369 | `run_all` takes its inputs from the front of the queue and leaves a suffix of it: none lost or reordered |
| `FeedbackLoop.Program.constructor` | p14/src/main.rs:288-292 | a fresh program holds a copy of the memory image with the pointer at 0 |
| `FeedbackLoop.Program.Tick` | p14/src/main.rs:328-349 | one loop iteration on the fields is `Step` of the old machine; the fields follow a running step and stay put when it stops |
| `FeedbackLoop.Program.Run` | p14/src/main.rs:326-351 | `Program::run` on the fields is the resumable run of `Step` from the old state |
| `FeedbackLoop.Program.RunAll` | p14/src/main.rs:353-369 | `run_all` on the fields is the queue-driven run of `Step` from the old state |
| `FeedbackLoop.Seeded` | p14/src/main.rs:273-292 | each amplifier starts as a fresh copy; queue k holds phase k, and A's queue also the signal 0 |
| `FeedbackLoop.Next` | p14/src/main.rs:297-301 | the amplifier fed by k is another amplifier, with E feeding A |
| `FeedbackLoop.StageDrains` | p14/src/main.rs:297-301 | stage k drains amplifier k's queue into the next amplifier's queue and touches no other amplifier or queue |
| `FeedbackLoop.StageWiring` | p14/src/main.rs:297-301 | within a stage, amplifier k consumes a prefix of its own queue and its outputs are appended to the next queue |
| `FeedbackLoop.Settle` | p14/src/main.rs:303-311 | the check succeeds exactly when A's queue holds one value and the others are empty, and gives that value |
| `FeedbackLoop.FeedbackUnfolds` | p14/src/main.rs:294-312 | the loop runs one round and then fails with it, settles when nothing was printed, or runs out of fuel |
| `FeedbackLoop.FeedbackSettles` | p14/src/main.rs:294-312 | a signal comes out only from a round in which nobody printed and after which A's queue holds exactly it and every other queue is empty |
| `FeedbackLoop.AnswerIsBestOrdering` | p14/src/main.rs:255-270 | the answer is at least the loop's signal for every ordering of the settings 5 to 9 (and `isize::MIN`), and is reached by one of them unless it is `isize::MIN` |
| `FeedbackLoop.RunRound` | p14/src/main.rs:294-301 | the loop body on five programs and five queues is `Round` of the old states, and reports whether anyone printed |
| `FeedbackLoop.Circulate` | p14/src/main.rs:294-312 | the loop of rounds until no progress, with the final check, is `Feedback` of the old states |
| `FeedbackLoop.RunPhasePermutation` | p14/src/main.rs:273-312 | `run_phase_permutation` gives exactly the signal `PhaseSignal` defines |
| `FeedbackLoop.BestSignal` | p14/src/main.rs:261-267 | the loop over orderings keeps the largest signal, as `BestOver` computes |
| `FeedbackLoop.Run` | p14/src/main.rs:255-270 | `run` gives exactly that answer |
| `FuelCounter.FuelFromMass` | p01/src/main.rs:18-20 | the fuel is 0 exactly when the mass is at most 8; otherwise it is the largest f with 3·(f + 2) ≤ mass; never more than mass / 3 |
| `FuelCounter.FuelIsMonotone` | p01/src/main.rs:18-20 | a heavier module never needs less fuel |
| `FuelCounter.FuelExamples` | p01/src/main.rs:26-34 | masses 12, 14, 1969 and 100756 need 2, 2, 654 and 33583 |
| `PasswordRules.Digits` | p07/src/main.rs:3-12 | six digits, each at most 9, that read as a decimal number give the number modulo 1,000,000 (the number itself below a million) |
| `PasswordRules.AscendingDigits` | p07/src/main.rs:14-20 | the loop is true exactly when every digit is at most the next |
| `PasswordRules.HasAdjacentIdenticalDigits` | p07/src/main.rs:22-28 | the loop is true exactly when some digit equals the next |
| `PasswordRules.AdjacentPairIffRepeat` | p07/src/main.rs:22-33 | for non-decreasing digits, an equal neighbour pair is the same as a digit repeated anywhere |
| `PasswordRules.ValidIffSortedWithRepeat` | p07/src/main.rs:30-33 | a number is valid exactly when its digits are sorted and not all distinct |
| `PasswordRules.CountValid` | p07/src/main.rs:35-37 | the count is 0 for an empty range and at most the range's size otherwise |
| `PasswordRules.CountIsCardinality` | p07/src/main.rs:35-37 | the count is the number of accepted numbers in `low..=high` |
| `PasswordRules.CountMonotone` | p07/src/main.rs:35-37 | a weaker test accepts at least as many numbers of the range |
| `PasswordRules.Run` | p07/src/main.rs:35-37 | `run` counts exactly the valid numbers of the inclusive range, at most its size |
| `PasswordGroups.HasAdjacentIdenticalDigits` | p08/src/main.rs:22-31 | the edge tests and the inner loop are true exactly when some equal pair has different neighbours on each side where one exists |
| `PasswordGroups.ExactPairIffGroupOfTwo` | p08/src/main.rs:22-31 | the rule holds exactly when some maximal group of equal digits has length two |
| `PasswordGroups.NoGroupOfTwoFails` | p08/src/main.rs:22-31 | digits whose groups of equal digits all have length one or at least three fail the rule |
| `PasswordGroups.ExactPairIsPair` | p08/src/main.rs:22-31 | a group of exactly two is an equal neighbour pair |
| `PasswordGroups.ValidIsStricter` | p08/src/main.rs:33-36 | every valid number here is valid under the rules of p07 |
| `PasswordGroups.Run` | p08/src/main.rs:38-40 | `run` counts the valid numbers of the inclusive range, never more than p07's count |
| `OrbitMap.LineOrbitMeaning` | p11/src/main.rs:22-30 | a blank trimmed line is skipped; a non-blank line without `)` is the `Invalid format` error; names read from a line contain no `)` |
| `OrbitMap.ReadLinesMeaning` | p11/src/main.rs:22-38 | reading fails exactly at a failing line, with its error, and otherwise gives one entry per line |
| `OrbitMap.Orbit` | p11/src/main.rs:32-37 | both names become keys; the orbiter now orbits the center; a new center gets an empty entry; every other entry is unchanged |
| `OrbitMap.ResumeStep` | p11/src/main.rs:22-38 | one more line adds its orbit to the map or ends the reading with its error |
| `OrbitMap.AddLine` | p11/src/main.rs:23-37 | the loop body adds the line's orbit to the map, or fails with the line's error |
| `OrbitMap.FillMap` | p11/src/main.rs:21-40 | the loop over the lines fills the map exactly as the line-by-line reading defines |
| `OrbitMap.FromStr` | p11/src/main.rs:20-41 | `from_str` gives exactly the parsed map or its error |
| `OrbitMap.BuiltKeys` | p11/src/main.rs:32-37 | known objects stay and every center and orbiter named gets an entry |
| `OrbitMap.BuiltClosed` | p11/src/main.rs:32-37 | every parent link in the built map names an object of the map |
| `OrbitMap.BuiltLastWins` | p11/src/main.rs:35-37 | a repeated orbiter ends up orbiting the center of the last line naming it |
| `OrbitMap.BuiltUntouched` | p11/src/main.rs:32-37 | an object no line names as orbiter keeps its entry |
| `OrbitMap.ChainIsPath` | p12/src/main.rs:45-54 | a walk up the links starts at the parent, each element orbits the next, and the last orbits nothing; it fails only on a link to a missing object or out of fuel |
| `OrbitMap.ClosedChainNeverMisses` | p11/src/main.rs:49-52 | in a map whose links all name objects of the map, a walk never hits `Parent entry not found` |
| `OrbitMap.TotalDepthRemove` | p11/src/main.rs:48-53 | the sum of depths does not depend on the order the objects are visited in |
| `OrbitMap.CountOrbits` | p11/src/main.rs:47-55 | the loop over the entries, in any order, succeeds exactly when every walk does, gives the sum of all depths, and otherwise fails with some walk's error |
| `OrbitMap.Run` | p11/src/main.rs:44-56 | a bad line is `Invalid format`; otherwise the count is the sum of the depths, and it fails only when some walk does |
| `OrbitTransfers.CentersArePath` | p12/src/main.rs:45-54 | the centers above an object, nearest first: each orbits the next, and the last orbits nothing |
| `OrbitTransfers.GetCentersFor` | p12/src/main.rs:45-54 | the loop that pushes each center gives exactly that chain, or the missing-entry panic |
| `OrbitTransfers.IndexFrom` | p12/src/main.rs:58-62 | the inner loop finds the first position from `j` on that holds the value, or reports none |
| `OrbitTransfers.CommonFromIsFirst` | p12/src/main.rs:57-63 | the outer loop from `i` finds the first element of `left` that `right` holds |
| `OrbitTransfers.CommonAncestorIsFirst` | p12/src/main.rs:56-66 | nothing is found exactly when the two slices share no element; otherwise the left part ends at the first shared element of `left` and the right part at its first position in `right` |
| `OrbitTransfers.CommonAncestorExample` | p12/src/main.rs:106-114 | `["foo","bar","baz"]` and `["b","ba","bar"]` give `["foo","bar"]` and `["b","ba","bar"]` |
| `OrbitTransfers.FindCommonAncestor` | p12/src/main.rs:56-66 | the nested loops with the early return compute exactly that result |
| `OrbitTransfers.TransfersMeetAtFirstCommonCenter` | p12/src/main.rs:68-77 | the answer counts the links from what SAN and YOU orbit up to the first center their chains share |
| `OrbitTransfers.TransfersOf` | p12/src/main.rs:71-76 | the two chains and their common part give exactly that count, or the `COM must be common orbit!` error |
| `OrbitTransfers.Run` | p12/src/main.rs:68-77 | a map that does not parse gives its error; otherwise the transfer count |
| `CrossedWires.Manhattan` | p05/src/main.rs:21-23 | the distance is 0 exactly at the origin and is at least the absolute value of each coordinate |
| `CrossedWires.AlongReachesEnd` | p05/src/main.rs:79-82 | walking a segment from its start reaches its end after the absolute value of its length |
| `CrossedWires.InteriorBetween` | p05/src/main.rs:37-42 | a point strictly inside a vertical or horizontal segment is one on its line strictly between its end coordinates |
| `CrossedWires.Intersection` | p05/src/main.rs:34-51 | a crossing exists only for segments along different axes and is the vertical segment's x with the horizontal segment's y |
| `CrossedWires.IntersectionMeaning` | p05/src/main.rs:34-51 | two segments meet at p exactly when they run along different axes and p lies strictly inside both, endpoints excluded; the result does not depend on the order of the arguments |
| `CrossedWires.Instruction` | p05/src/main.rs:65-71 | an empty piece or one not starting with U, D, R or L is the unexpected-fragment panic; a known letter with a bad number is the parse error; U and D give a vertical move, R and L a horizontal one, D and L negated |
| `CrossedWires.InstructionShow` | p05/src/main.rs:65-71 | reading a written move gives the move back |
| `CrossedWires.WalkIsPath` | p05/src/main.rs:61-83 | the walk lays one segment per piece with that piece's axis and length; the first starts at the origin and each next where the previous one ends; it fails exactly at the first bad piece |
| `CrossedWires.FollowPieces` | p05/src/main.rs:64-83 | the loop fails with the walk's error or gives the set of the walk's segments |
| `CrossedWires.FromStr` | p05/src/main.rs:60-86 | `Wire::from_str` gives exactly the parsed wire or its error |
| `CrossedWires.PairsInner` | p05/src/main.rs:92-96 | taking one more segment in the inner loop adds its pair to the crossing pairs exactly when the two cross |
| `CrossedWires.PairsOuter` | p05/src/main.rs:91-98 | finishing one segment of the outer loop adds all of its crossing pairs, none counted before |
| `CrossedWires.Intersect` | p05/src/main.rs:90-100 | the points pushed are exactly the points where a segment of one wire crosses a segment of the other, one entry per crossing pair of segments |
| `WireCuts.IsOnSegment` | p06/src/main.rs:57-72 | true exactly for points strictly inside the segment, on its line |
| `WireCuts.Intersection` | p06/src/main.rs:41-55 | a crossing is a point strictly inside two segments along different axes, and the result equals p05's, so it is symmetric and None for parallel segments |
| `WireCuts.Reverse` | p06/src/main.rs:103-116 | the reversed segment starts at the old end and ends at the old start, with the length negated and the same axis |
| `WireCuts.ReverseInvolution` | p06/src/main.rs:103-116 | reversing twice gives the segment back, and a reversed segment holds the same inner points |
| `WireCuts.SortByDistance` | p06/src/main.rs:76-79 | the sorted points are as many as the points given |
| `WireCuts.PiecesShape` | p06/src/main.rs:81-98 | one piece per cut point and one more, along the segment's axis, the first from the running start and the others from the cut points in order |
| `WireCuts.PiecesSum` | p06/src/main.rs:85-98 | the piece lengths add up to the way from the start to the segment's end |
| `WireCuts.PiecesJoin` | p06/src/main.rs:85-98 | for points on the segment's line, each piece ends where the next begins and the last ends at the segment's end |
| `WireCuts.CutSegment` | p06/src/main.rs:74-101 | `cut_at`, sorting in place and laying pieces in a loop, gives exactly `Cut` |
| `WireCuts.CutSegmentMeaning` | p06/src/main.rs:74-101 | the points are a permutation of the given ones sorted by distance from the start; the first piece starts at the segment's start and each other at the next point; all keep the axis; the lengths sum to the segment's length |
| `WireCuts.CutSegmentJoins` | p06/src/main.rs:74-101 | for points on the segment's line, consecutive pieces share endpoints and the last ends where the segment does |
| `WireGraphs.OnSegmentMeaning` | p06/src/main.rs:169-176 | the points kept for a segment are exactly the given points strictly inside it |
| `WireGraphs.PlanStep` | p06/src/main.rs:170-175 | one more point is pushed onto the segment's entry exactly when the segment holds it |
| `WireGraphs.PlanCuts` | p06/src/main.rs:168-177 | the first loop of `Wire::cut_at` builds exactly the plan that maps each segment holding cut points to those points in order |
| `WireGraphs.AddEdge` | p06/src/main.rs:192-198 | the edge is added under its point, which becomes a key, and every other edge stays; nothing else is added |
| `WireGraphs.Wire.constructor` | p06/src/main.rs:119-120 | a wire holds the given segments |
| `WireGraphs.Wire.CutAt` | p06/src/main.rs:167-183 | segments without a cut point stay; each segment with cut points is replaced by its pieces; every segment of the result is an old uncut segment or a piece of a cut one |
| `WireGraphs.Wire.ToGraph` | p06/src/main.rs:185-202 | every segment gives an edge from its start to its end and one back, weighted by the absolute length, and the graph has no other edges |
| `WireGraphs.LeastExists` | p06/src/main.rs:205-215 | a non-empty heap of edges ordered by length has one of least length for `pop` to give |
| `WireGraphs.OfferedAdd` | p06/src/main.rs:242-247 | pushing one lengthened edge keeps every edge handled so far offered (proof helper for `PushEdges`) |
| `WireGraphs.PushEdges` | p06/src/main.rs:242-247 | the inner loop adds to the candidates exactly the edges of the visited point lengthened by its distance, each ending a walk of that length |
| `WireGraphs.CoveredPop` | p06/src/main.rs:231-240 | dropping a candidate whose point already has a distance keeps every edge out of a point with a distance covered |
| `WireGraphs.CoveredVisit` | p06/src/main.rs:233-247 | giving the popped point its distance and pushing its edges keeps every edge out of a point with a distance covered |
| `WireGraphs.Visit` | p06/src/main.rs:241-247 | visiting the popped point pushes candidates that each end a walk of their length, and keeps every edge out of a point with a distance covered |
| `WireGraphs.Step` | p06/src/main.rs:231-248 | one turn pops a least candidate; fixed distances are never changed, each stays the length of a walk from the origin, and either a new point gets a distance or the heap shrinks; every edge out of a point with a distance still ends at a point with a distance or at a candidate on the heap; a point without neighbours is the panic, and it is a point some walk reaches |
| `WireGraphs.WalkArrives` | p06/src/main.rs:229-249 | once the heap is empty, every walk from the origin ends at a point with a distance |
| `WireGraphs.ReachedHasDistance` | p06/src/main.rs:229-249 | once the heap is empty, every point some walk reaches has a distance |
| `WireGraphs.Search` | p06/src/main.rs:219-249 | the origin has distance 0, every distance found is the length of a walk from the origin, and every point some walk reaches gets a distance; `0, 0 must be connected!` fails exactly when the origin is not in the graph, and `Has to have neighbors!` only for a reachable point that is not in it |
| `WireGraphs.Dijkstra` | p06/src/main.rs:218-258 | a target that is not a node is the assertion failure; otherwise one distance per target in order, each the length of a walk to it, and 0 for the origin; `Everything is connected!` fails only for a target no walk reaches, `Has to have neighbors!` only for a reachable point without edges, and `0, 0 must be connected!` only when the origin is not a node |
| `StableSort.SortByKeyMeaning` | p06/src/main.rs:77-78 | `sort_by_key` orders by key and keeps every element exactly as often as it came |
| `StableSort.SortByKeyHead` | p15/src/main.rs:46-47 | the stable sort puts first the first element of least key |
| `SpaceImage.CountPixels` | p15/src/main.rs:24-29 | the count is the multiplicity of the digit in the layer, so never more than the layer's length |
| `SpaceImage.Layers` | p15/src/main.rs:41-44 | as many layers as whole runs of 150 bytes fit in the input, each of exactly 150 bytes |
| `SpaceImage.LayersMeaning` | p15/src/main.rs:41-44 | layer `i` is exactly bytes `150*i` to `150*(i+1)` of the input, so a shorter tail is dropped |
| `SpaceImage.SortByZeros` | p15/src/main.rs:46 | sorting by the number of zeros keeps the number of layers; its order and contents are those of `StableSort.SortByKey`, proved in `StableSort.SortByKeyMeaning` |
| `SpaceImage.RunMeaning` | p15/src/main.rs:39-49 | `run` fails exactly when there is no whole layer; otherwise the answer is ones times twos of the first layer with the fewest zeros |
| `ImageDecoder.Symbol` | p16/src/main.rs:28-38 | every pixel displays as one of a space, `#` or `/` |
| `ImageDecoder.SymbolDistinct` | p16/src/main.rs:28-38 | two pixels display alike exactly when they are the same pixel |
| `ImageDecoder.FromByte` | p16/src/main.rs:40-49 | the conversion succeeds exactly for the digits 0, 1 and 2, and otherwise reports the byte |
| `ImageDecoder.FromByteToByte` | p16/src/main.rs:40-49 | reading a pixel's digit gives that pixel back, and a digit that reads as a pixel is that pixel's digit |
| `ImageDecoder.Backed` | p16/src/main.rs:52-61 | the result is the pixel in front or the one behind, and transparent only when both are |
| `ImageDecoder.BackedStays` | p16/src/main.rs:52-61 | a pixel that is not transparent is never changed by what is behind it, and backing twice is backing once |
| `ImageDecoder.BackedLaws` | p16/src/main.rs:52-61 | transparent is neutral on both sides and stacking pixels is associative |
| `ImageDecoder.AddBackingPixel` | p16/src/main.rs:52-61 | pixel `k` of the image array becomes its backed value and no other pixel changes |
| `ImageDecoder.Overlap` | p16/src/main.rs:70-72 | `zip` pairs at most one layer's worth of bytes and no more than the layer holds |
| `ImageDecoder.VisibleSnoc` | p16/src/main.rs:69-73 | a layer added behind the others changes only pixels that were still transparent |
| `ImageDecoder.FromLayers` | p16/src/main.rs:68-77 | the image is built exactly when every byte read is a pixel digit; each pixel is then the first non-transparent one front to back, and otherwise the error names the first bad byte |
| `ImageDecoder.RowPrefix` | p16/src/main.rs:80-90 | the symbols of the first `j` pixels of a row are `j` characters long |
| `ImageDecoder.Show` | p16/src/main.rs:80-90 | the display loop produces the rendering of all 6 rows |
| `ImageDecoder.RowPrefixAt` | p16/src/main.rs:80-90 | character `j` of row `i` shows pixel `25*i + j` |
| `ImageDecoder.RenderPrefix` | p16/src/main.rs:80-90 | each row takes 26 characters and rendering more rows only appends |
| `ImageDecoder.RenderMeaning` | p16/src/main.rs:80-90 | the text has 6 lines of 26 characters; column `j` of line `i` is pixel `25*i + j` and each line ends with a newline |
| `ImageDecoder.Run` | p16/src/main.rs:99-107 | `run` decodes the whole layers of the input: it succeeds exactly when all their bytes are pixel digits, and then each pixel is the visible one |
| `Divisibility.DividesSum` | p24/src/main.rs:74-81 | a common divisor of two numbers divides every sum of multiples of them, the step that keeps Euclid's loop correct |
| `Divisibility.DividesNegation` | p19/src/main.rs:36 | a number divides another exactly when it divides its negation, so dividing by absolute values loses nothing |
| `Divisibility.MulMagnitude` | p19/src/main.rs:37 | a positive number times a non-zero one is at least as large in magnitude |
| `Divisibility.UnitDivisor` | p19/src/main.rs:36-37 | the only positive divisor of 1 is 1 |
| `Divisibility.GcdOf` | p24/src/main.rs:74-81 | the recursion of Euclid's algorithm is zero exactly when both inputs are |
| `Divisibility.GcdMeaning` | p24/src/main.rs:74-81 | Euclid's algorithm computes a common divisor that every common divisor divides |
| `Divisibility.DivisionIdentity` | p24/src/main.rs:77 | quotient and remainder put the dividend back together |
| `Divisibility.DivModUnique` | p24/src/main.rs:77 | a quotient and remainder in range are the only ones |
| `Divisibility.GcdScale` | p24/src/main.rs:74-81 | scaling both numbers scales their greatest common divisor |
| `Divisibility.Gcd` | p19/src/main.rs:22-29 | the loop of `gcd` (here and in `p24/src/main.rs:74-81`) returns the greatest common divisor, zero only for two zeros |
| `AsteroidMap.Signum` | p19/src/main.rs:33-34 | the sign is -1, 0 or 1, zero exactly for zero and positive exactly for a positive number |
| `AsteroidMap.SlopeExamples` | p19/src/main.rs:170-175 | the four slopes the test checks |
| `AsteroidMap.TruncDivExact` | p19/src/main.rs:37 | Rust's rounding-toward-zero division of an exact multiple gives the exact quotient |
| `AsteroidMap.DividesAbs` | p19/src/main.rs:36-37 | a divisor of the absolute value of `x` divides `x` exactly |
| `AsteroidMap.CancelDivisor` | p19/src/main.rs:36-37 | `g*d` divides `g` only when `d` is 1 |
| `AsteroidMap.CoprimeQuotients` | p19/src/main.rs:36-37 | the two quotients by the greatest common divisor share no divisor above 1 |
| `AsteroidMap.CommonFactor` | p19/src/main.rs:36-37 | a divisor of `x / g`, times `g`, divides the absolute value of `x` |
| `AsteroidMap.GcdQuotients` | p19/src/main.rs:35-37 | both components are exact multiples of their positive greatest common divisor |
| `AsteroidMap.SlopeGeneral` | p19/src/main.rs:35-38 | with two non-zero components, the difference is the slope times their greatest common divisor and the slope's components are coprime |
| `AsteroidMap.SlopeMeaning` | p19/src/main.rs:21-40 | the slope is (0, 0) only for no difference, keeps the sign of each component, is a positive divisor of the difference, and is reduced |
| `AsteroidMap.AbsScale` | p19/src/main.rs:36 | the absolute value of `k*x` is `k` times that of `x`, for positive `k` |
| `AsteroidMap.GcdOfScaled` | p19/src/main.rs:36 | scaling both components scales their greatest common divisor |
| `AsteroidMap.SlopeScale` | p19/src/main.rs:21-40 | scaling a difference by a positive factor does not change its slope |
| `AsteroidMap.ScaledQuotient` | p19/src/main.rs:37 | an exact quotient stays the same when dividend and divisor are scaled alike |
| `AsteroidMap.SlopeEqualIffSameRay` | p19/src/main.rs:21-40 | two differences get the same slope exactly when one is a positive multiple of the other's direction, so the set of slopes counts lines of sight |
| `AsteroidMap.Difference` | p19/src/main.rs:43-49 | the slope between two asteroids is (0, 0) exactly when they are at the same place |
| `AsteroidMap.TrimmedLines` | p19/src/main.rs:60-61 | one trimmed row per line, in order |
| `AsteroidMap.RowAsteroidsMeaning` | p19/src/main.rs:65-69 | a row yields exactly the positions of its `#` characters, at its own row index |
| `AsteroidMap.ScanMeaning` | p19/src/main.rs:59-72 | an asteroid is recorded exactly for each `#`, at its column and line index; blank lines still count as lines |
| `AsteroidMap.ScanRow` | p19/src/main.rs:65-69 | the column loop finds exactly the row's asteroids |
| `AsteroidMap.FromStr` | p19/src/main.rs:58-73 | parsing yields exactly the asteroids of the trimmed lines of the text |
| `AsteroidMap.SlopesMeaning` | p19/src/main.rs:81-84 | a slope is in the set exactly when some other asteroid lies in that direction |
| `AsteroidMap.MostVisibleMeaning` | p19/src/main.rs:79-90 | the answer bounds the count of every asteroid and is the count of one of them, or 0 for an empty map |
| `AsteroidMap.FewAsteroids` | p19/src/main.rs:79-90 | with fewer than two asteroids the answer is 0 |
| `AsteroidMap.CollectSlopes` | p19/src/main.rs:81-84 | the inner loop collects exactly the set of slopes from the location |
| `AsteroidMap.BestCount` | p19/src/main.rs:79-89 | the outer loop keeps the largest slope count in `max_visible` |
| `AsteroidMap.Run` | p19/src/main.rs:76-91 | `run` answers the largest number of distinct slopes from any parsed asteroid |
| `MonitoringStation.Offset` | p20/src/main.rs:46-54 | the first half of the difference is the slope of p19 |
| `MonitoringStation.OffsetDistance` | p20/src/main.rs:49-53 | the squared distance is non-negative, zero only between an asteroid and itself, and symmetric |
| `MonitoringStation.Compare` | p20/src/main.rs:87-97 | locations compare equal exactly at equal distance and less exactly at smaller distance |
| `MonitoringStation.CompareLaws` | p20/src/main.rs:87-97 | the ordering is antisymmetric and transitive, a total preorder |
| `MonitoringStation.CompareIgnoresPosition` | p20/src/main.rs:82-97 | two different asteroids at one distance compare as equal although `==` tells them apart |
| `MonitoringStation.GroupKeys` | p20/src/main.rs:126-137 | there is one group per distinct slope, so the number of groups is the count of p19 |
| `MonitoringStation.GroupsHoldAll` | p20/src/main.rs:127-135 | every other asteroid is in the group of its slope, with its distance |
| `MonitoringStation.GroupsHoldOnly` | p20/src/main.rs:127-135 | a group holds only other asteroids in its direction, with their distances |
| `MonitoringStation.GroupOthers` | p20/src/main.rs:126-135 | the inner loop builds exactly the grouping by slope |
| `MonitoringStation.BestMeaning` | p20/src/main.rs:122-142 | the best count is p19's answer and the station is the first asteroid reaching it; no station is chosen exactly when no asteroid sees another |
| `MonitoringStation.SelectStation` | p20/src/main.rs:122-143 | the loop selects the first asteroid with the most slopes and its grouping, and the assertion fails exactly when no asteroid sees another |
| `MonitoringStation.ParsedNeverUnset` | p20/src/main.rs:123 | no parsed asteroid lies at (-1, -1) |
| `MonitoringStation.ChooseStation` | p20/src/main.rs:119-143 | `run` up to the choice of station: it fails exactly when no asteroid sees another, and otherwise returns the best station and its groups |
| `Hull.RotateLeft` | p22/src/main.rs:110-118 | a left turn always changes the heading |
| `Hull.RotateRight` | p22/src/main.rs:120-128 | a right turn always changes the heading, and a left turn afterwards restores it |
| `Hull.RotationInverse` | p22/src/main.rs:109-129 | turning right undoes turning left |
| `Hull.FourTurns` | p22/src/main.rs:109-129 | four turns the same way restore the heading; two left turns equal two right turns and face backwards |
| `Hull.MoveForward` | p22/src/main.rs:136-144 | a step changes one coordinate by one, upwards for Up, right for Right, down for Down and left for Left |
| `Hull.MoveForwardLaws` | p22/src/main.rs:136-144 | different headings reach different panels, and stepping back after turning around returns to the start |
| `Hull.ColorAt` | p22/src/main.rs:78-80 | an unpainted panel reads Black and a painted one reads the colour it was painted |
| `Hull.PaintedColor` | p22/src/main.rs:82-84 | painting changes the colour of that panel and of no other |
| `Hull.RepaintSize` | p21/src/main.rs:81-87 | painting adds one to the painted count only for a panel never painted before |
| `Hull.SpansOne` | p22/src/main.rs:89-93 | a single panel is bounded by its own coordinates |
| `Hull.SpansAdd` | p22/src/main.rs:89-93 | one more panel widens the bounds exactly enough to hold it |
| `Hull.BoundsUnique` | p22/src/main.rs:89-93 | the extremes of a set of panels are determined by the set |
| `Hull.BoundsExist` | p22/src/main.rs:89-93 | every finite set of panels has bounds: its extremes, or all zero for no panel as `unwrap_or(0)` gives |
| `Hull.BoundsOf` | p22/src/main.rs:89-93 | the bounds returned are the extremes of the panels, all zero for none |
| `Hull.ComputeBounds` | p22/src/main.rs:89-93 | one pass over the keys, in any order, finds the four extremes |
| `Hull.Symbol` | p22/src/main.rs:97-100 | a panel is drawn `#` exactly when it is White |
| `Hull.RowText` | p22/src/main.rs:96-102 | a drawn line has one character per column |
| `Hull.RowTextAt` | p22/src/main.rs:96-102 | column `i` of a line shows the panel `i` columns right of the left edge |
| `Hull.RowsLength` | p22/src/main.rs:95-104 | each line takes its width plus a newline |
| `Hull.RowsFront` | p22/src/main.rs:95-104 | drawing another line leaves the characters before it in place |
| `Hull.RowsLast` | p22/src/main.rs:95-104 | the last line drawn shows its panels followed by a newline |
| `Hull.RowsAt` | p22/src/main.rs:95-104 | character `c` after the first `r` lines is column `c` of line `r`, or its newline |
| `Hull.LineOffset` | p22/src/main.rs:95-104 | the position of column `c` of line `r` lies inside the picture |
| `Hull.PictureMeaning` | p22/src/main.rs:87-107 | the picture has one line per row from the top row down, each as wide as the bounds plus a newline, and shows each panel at its place |
| `Hull.PaintedPanelShown` | p22/src/main.rs:87-107 | every painted panel lies inside the picture and shows as `#` exactly when it is White |
| `Hull.HullMap.constructor` | p21/src/main.rs:29 | the default hull map has nothing painted |
| `Hull.HullMap.GetColor` | p22/src/main.rs:78-80 | the colour read is the panel's colour in the map, Black when unpainted |
| `Hull.HullMap.Paint` | p22/src/main.rs:82-84 | painting records the colour for that panel, after which it reads that colour, and every other panel reads as before |
| `Hull.HullMap.Len` | p21/src/main.rs:86-88 | the length is the number of panels painted at least once |
| `Hull.HullMap.DrawLine` | p22/src/main.rs:96-103 | the inner loop writes exactly the symbols of one line |
| `Hull.HullMap.Display` | p22/src/main.rs:87-107 | the display loop writes exactly the picture of the painted part of the hull |
| `HullRobot.ColorCode` | p21/src/main.rs:32-35 | the camera reports 0 exactly over Black and 1 exactly over White |
| `HullRobot.Respond` | p21/src/main.rs:42-55 | a reply other than two outputs, an unknown colour or an unknown turn is reported as that error |
| `HullRobot.RespondMeaning` | p21/src/main.rs:42-55 | with a valid reply the panel under the robot takes the colour and no other changes, the robot turns left on 0 and right on 1, then steps once |
| `HullRobot.PaintingGrows` | p21/src/main.rs:31-56 | the loop only adds panels: a painted panel stays painted |
| `HullRobot.PaintingCount` | p21/src/main.rs:31-56 | the painted count grows by at most one per round |
| `HullRobot.KeysGrowByOne` | p21/src/main.rs:48 | one paint adds at most one panel |
| `HullRobot.Obey` | p21/src/main.rs:42-55 | the loop body paints, turns and steps the robot on the hull map exactly as `Respond` says, and reports the same errors |
| `HullRobot.CountPainted` | p21/src/main.rs:19-59 | `run` of p21 answers the number of panels painted by the loop from an empty hull, or the loop's error |
| `HullRobot.StartInPicture` | p22/src/main.rs:30 | the starting panel is painted before the loop, so it is always in the picture |
| `HullRobot.HaltAtOnce` | p22/src/main.rs:30-57 | a program that halts at once leaves one White panel, printed as `#` and a newline |
| `Registration.Run` | p22/src/main.rs:19-58 | `run` of p22 reports an unparsable program, and otherwise prints exactly the picture the loop leaves from a hull with the start painted White, or the loop's error |
| `Moons.Attraction` | p23/src/main.rs:64-68 | the velocity change is +1 exactly when the other coordinate is larger, 0 exactly when equal and -1 exactly when smaller |
| `Moons.AttractionOpposite` | p23/src/main.rs:63-81 | two moons pull each other by opposite amounts |
| `Moons.ApplyGravityForce` | p23/src/main.rs:63-81 | the position stays, and each velocity component changes by the pull towards the other moon on that axis |
| `Moons.Advance` | p23/src/main.rs:83-87 | the velocity stays and each coordinate moves by its velocity component |
| `Moons.AdvanceExamples` | p23/src/main.rs:136-153 | the two results `test_advance` expects |
| `Moons.ProductZero` | p23/src/main.rs:89-99 | a product of two naturals is zero exactly when one factor is (proof helper, not a model of the cited line) |
| `Moons.EnergyMeaning` | p23/src/main.rs:89-99 | a moon has no energy exactly when it is at the origin or stands still |
| `Moons.EnergyExample` | p23/src/main.rs:155-163 | the energy 36 that `test_energy` expects |
| `Moons.Pull` | p23/src/main.rs:29-34 | pulling a moon by others never moves it |
| `Moons.Coords` | p23/src/main.rs:63-81 | the coordinates of the moons along one axis, one per moon in order |
| `Moons.PullMeaning` | p23/src/main.rs:29-34 | the pulls change each velocity component by the sum of the pulls on that axis |
| `Moons.PullReadsPositions` | p23/src/main.rs:29-34 | the pulls depend only on the other moons' positions, not on their velocities |
| `Moons.PullSnoc` | p23/src/main.rs:29-34 | pulling by one more moon is one more `apply_gravity_force` |
| `Moons.Others` | p23/src/main.rs:27-28 | all moons except one leave one moon fewer |
| `Moons.Pulled` | p23/src/main.rs:26-35 | pulling every moon keeps the number of moons |
| `Moons.Moved` | p23/src/main.rs:37-39 | moving every moon keeps the number of moons |
| `Moons.Tick` | p23/src/main.rs:25-40 | a tick keeps the number of moons |
| `Moons.TickMeaning` | p23/src/main.rs:25-40 | in a tick each velocity component changes by the pulls of the other moons measured before the tick, and the position then moves by the new velocity |
| `Moons.PullSumAppend` | p23/src/main.rs:29-34 | the pulls from two groups of moons add up |
| `Moons.PullToOpposite` | p23/src/main.rs:63-81 | the pulls one moon exerts on a group are the opposite of those the group exerts on it |
| `Moons.TotalPullSnoc` | p23/src/main.rs:26-35 | the total pull over the moons grows by the pulls towards one more moon |
| `Moons.PullsCancel` | p23/src/main.rs:26-35 | all pulls between the moons add up to zero |
| `Moons.PullFromOthers` | p23/src/main.rs:27-28 | leaving out the moon itself changes no pull, since a moon does not pull itself |
| `Moons.VelocitySumSnoc` | p23/src/main.rs:50-54 | the velocity sum of one more moon adds its component |
| `Moons.TotalPullSnocLeft` | p23/src/main.rs:26-35 | the total pull on one more moon adds the pulls on it |
| `Moons.TickVelocityPrefix` | p23/src/main.rs:25-40 | along the first `k` moons a tick adds the pulls on them to their velocities |
| `Moons.TickKeepsVelocitySum` | p23/src/main.rs:25-40 | a tick keeps the sum of the velocities along each axis |
| `Moons.PullMoon` | p23/src/main.rs:27-34 | pulling moon `midx` in place, first by the moons before it and then by those after it, changes only that moon, to its pull by the others as they were before the tick |
| `Moons.PullRange` | p23/src/main.rs:29-34 | one of the two inner loops changes only moon `midx`, to its pull by the moons of its range |
| `Moons.SliceSnoc` | p23/src/main.rs:29-34 | a range grown by one element is the range followed by that element |
| `Moons.GravityReadsPosition` | p23/src/main.rs:63-81 | `apply_gravity_force` reads only the other moon's position |
| `Moons.ApplyGravity` | p23/src/main.rs:26-35 | the first loop of `advance_tick` leaves every moon pulled by all the others, measured before the tick |
| `Moons.Move` | p23/src/main.rs:37-39 | the second loop leaves every moon moved by its velocity |
| `Moons.AdvanceTick` | p23/src/main.rs:25-40 | `advance_tick` replaces the moons with their tick, in place |
| `Moons.TrimMatches` | p23/src/main.rs:112 | trimming shortens, and leaves neither end equal to the trimmed character |
| `Moons.FromStr` | p23/src/main.rs:105-118 | a line with fewer than three comma-separated fields is exactly the format error, and a parsed moon is at rest |
| `Moons.FromStrExample` | p23/src/main.rs:127-133 | the moon `test_moon_parse` expects |
| `Moons.ExampleSplit` | p23/src/main.rs:106 | the three fields of the example line |
| `Moons.ExampleFields` | p23/src/main.rs:110-112 | the three numbers read from the example's fields |
| `Moons.ExampleNumbers` | p23/src/main.rs:110-112 | the three decimal numbers of the example |
| `Moons.Ticks` | p23/src/main.rs:18-20 | any number of ticks keeps the number of moons |
| `Moons.TicksKeepVelocitySum` | p23/src/main.rs:18-20 | the 1000 ticks, like any run of ticks, keep the velocity sums of the start |
| `Moons.SumEnergy` | p23/src/main.rs:22 | the loop adds up the energy of every moon |
| `Moons.Simulate` | p23/src/main.rs:18-22 | 1000 ticks in place, then the sum of the energies, give the total energy after 1000 ticks |
| `Moons.Run` | p23/src/main.rs:13-23 | `run` reports the first line that does not parse, and otherwise the total energy of the moons after 1000 ticks |
| `Cycles.IterateAdd` | p24/src/main.rs:25-37 | `m + n` steps are `m` steps followed by `n` steps |
| `Cycles.SeenNothing` | p24/src/main.rs:22-24 | the cleared map records every state seen before the first step |
| `Cycles.SeenAdd` | p24/src/main.rs:30-32 | inserting a new state with its step keeps the map recording every state seen so far |
| `Cycles.SeenDistinct` | p24/src/main.rs:30-32 | while the map records them, no earlier step repeated a state |
| `Cycles.SeenFound` | p24/src/main.rs:30-32 | a state already in the map means this step is the first repeat |
| `Cycles.SeenNew` | p24/src/main.rs:30-32 | a state not in the map means no step so far is a repeat |
| `Cycles.FirstRepeatUnique` | p24/src/main.rs:25-37 | there is only one first repeat |
| `Cycles.RepeatShift` | p24/src/main.rs:25-37 | for a step that can be undone, two equal states stay equal when both are taken back the same number of steps |
| `Cycles.FirstRepeatIsStart` | p24/src/main.rs:25-37 | for a step that can be undone the first repeated state is the start, so the count is a period |
| `Cycles.PeriodMultiple` | p24/src/main.rs:67-68 | any multiple of a period brings the run back to its start |
| `Cycles.ReturnsAfterMultiple` | p24/src/main.rs:67-68 | a run returns to its start after every number of steps that its period divides |
| `Cycles.DividesTrans` | p24/src/main.rs:67-68 | divisibility is transitive (proof helper, not a model of the cited line) |
| `Cycles.Lcm` | p24/src/main.rs:67-68 | `(a * b) / gcd(a, b)` of two positive numbers is a positive common multiple of both |
| `Cycles.LcmMultiple` | p24/src/main.rs:67-68 | the same, for the expression written out with `gcd` |
| `MoonCycles.ApplyGravityForceAxis` | p24/src/main.rs:155-176 | only the speed along the axis changes, by the pull towards the other moon |
| `MoonCycles.AdvanceAxis` | p24/src/main.rs:178-186 | only the coordinate along the axis moves, by its speed |
| `MoonCycles.AxisStepsCompose` | p24/src/main.rs:155-186 | the three axis steps together are the whole step of p23, for the pull and for the move |
| `MoonCycles.GravityAxisReadsPosition` | p24/src/main.rs:155-176 | the pull along an axis reads only the other moon's position |
| `MoonCycles.PullAxis` | p24/src/main.rs:87-92 | pulling along an axis never moves the moon |
| `MoonCycles.PullAxisMeaning` | p24/src/main.rs:87-92 | pulling along an axis changes that speed by the sum of the pulls and no other speed |
| `MoonCycles.PullAxisSnoc` | p24/src/main.rs:87-92 | pulling by one more moon is one more `apply_gravity_force_x` |
| `MoonCycles.PulledAxis` | p24/src/main.rs:84-93 | pulling every moon keeps the number of moons |
| `MoonCycles.MovedAxis` | p24/src/main.rs:95-97 | moving every moon keeps the number of moons |
| `MoonCycles.TickAxis` | p24/src/main.rs:83-98 | a tick along an axis keeps the number of moons |
| `MoonCycles.TickAxisMeaning` | p24/src/main.rs:83-98 | in a tick along an axis a moon's speed there changes by its pulls and its coordinate there moves by the new speed, while nothing along the other axes changes |
| `MoonCycles.SameAlongTrans` | p24/src/main.rs:83-98 | agreeing along an axis is transitive |
| `MoonCycles.SameEverywhere` | p24/src/main.rs:83-133 | moons that agree along every axis are the same moons |
| `MoonCycles.TickAxisAgrees` | p24/src/main.rs:83-98 | along its own axis, the tick of `advance_tick_x` agrees with the full tick of p23 |
| `MoonCycles.TickAxisKeeps` | p24/src/main.rs:83-98 | `advance_tick_x` leaves the other axes untouched |
| `MoonCycles.TickAlong` | p24/src/main.rs:83-98 | what a full tick does along an axis depends only on that axis |
| `MoonCycles.TicksAgree` | p24/src/main.rs:25-37 | along its axis, the simulation of each loop follows the full simulation of p23 |
| `MoonCycles.VelocitySumAlong` | p24/src/main.rs:83-98 | moons that agree along an axis have the same speed sum along it |
| `MoonCycles.TickAxisKeepsVelocitySum` | p24/src/main.rs:83-98 | a tick along an axis keeps the sum of the speeds along it |
| `MoonCycles.PositionExt` | p24/src/main.rs:135-140 | positions equal on all three axes are equal |
| `MoonCycles.VelocityExt` | p24/src/main.rs:142-147 | velocities equal on all three axes are equal |
| `MoonCycles.TickAxisBackPosition` | p24/src/main.rs:83-98 | the positions before a tick along an axis are determined by the state after it |
| `MoonCycles.TickAxisBackVelocity` | p24/src/main.rs:83-98 | once the positions before are known, so are the speeds before |
| `MoonCycles.TickAxisInjective` | p24/src/main.rs:83-98 | a tick along an axis can be undone: different states never tick to the same state |
| `MoonCycles.TickAxisUndo` | p24/src/main.rs:83-98 | two states with the same tick along an axis are the same |
| `MoonCycles.ReturnsToStart` | p24/src/main.rs:66-69 | when every axis is back at its start after `n` ticks, so are the moons of p23 |
| `MoonCycles.PullRangeAxis` | p24/src/main.rs:87-92 | one of the inner loops changes only moon `midx`, to its pull along the axis by the moons of its range |
| `MoonCycles.PullOnce` | p24/src/main.rs:88 | one `apply_gravity_force_x` changes moon `midx` by one more pull and no other moon |
| `MoonCycles.PullMoonAxis` | p24/src/main.rs:84-93 | the loop body for moon `midx` changes only that moon, to its pull by the others as they were before the tick |
| `MoonCycles.ApplyGravityAxis` | p24/src/main.rs:84-93 | the first loop of `advance_tick_x` leaves every moon pulled along the axis |
| `MoonCycles.MoveAxis` | p24/src/main.rs:95-97 | the second loop moves every moon along the axis |
| `MoonCycles.AdvanceTickAxis` | p24/src/main.rs:83-98 | `advance_tick_x` replaces the moons with their tick along the axis, in place |
| `MoonCycles.FindRepeat` | p24/src/main.rs:22-37 | a loop of `run` breaks at the first tick that repeats a state, or reports that none repeats within the bound |
| `MoonCycles.Period` | p24/src/main.rs:18-69 | the result is `lcm(z, lcm(x, y))` of the three first repeats, after which the four moons are all back where they started |
| `MoonCycles.Combine` | p24/src/main.rs:66-67 | the last two lines compute `lcm(z, lcm(x, y))`, a multiple of each of the three counts |
| `MoonCycles.Run` | p24/src/main.rs:14-72 | `run` reports a bad line or fewer than four moons, and otherwise answers for the first four moons a count after which they are back at the start |
| `MoonCycles.PeriodOfCommonMultiple` | p24/src/main.rs:66-69 | a common multiple of the three periods brings the four moons back to their start |
| `Arcade.FromCode` | p25/src/main.rs:56-68 | the codes 0 to 4 are tiles, in declaration order with 2 a block, and any other code is an error naming it |
| `Arcade.FromCodeInjective` | p25/src/main.rs:56-68 | different codes give different tiles |
| `Arcade.Collect` | p25/src/main.rs:30-36 | the gathered outputs extend what was gathered before |
| `Arcade.CollectHalt` | p25/src/main.rs:30-36 | a program that halts on its first run gives what that run printed |
| `Arcade.CollectNeverHalts` | p25/src/main.rs:30-36 | a program still running after every resumption allowed runs out of fuel |
| `Arcade.CollectOutputs` | p25/src/main.rs:29-36 | the loop gathers exactly the outputs of all the runs up to the halt |
| `Arcade.Chunks` | p25/src/main.rs:40 | outputs whose count is a multiple of three form a third as many triples |
| `Arcade.ChunksAt` | p25/src/main.rs:40-41 | triple `k` is outputs `3k`, `3k+1` and `3k+2` as x, y and tile |
| `Arcade.ScreenError` | p25/src/main.rs:40-43 | drawing fails exactly when some triple has an unknown tile, and then names the first one |
| `Arcade.ScreenKeys` | p25/src/main.rs:40-43 | a position is on the screen exactly when some triple drew at it |
| `Arcade.LastDrawWins` | p25/src/main.rs:42 | a position shows the tile of the last triple drawn at it |
| `Arcade.DrawScreen` | p25/src/main.rs:40-43 | the drawing loop builds exactly the screen of the triples |
| `Arcade.ScreenStops` | p25/src/main.rs:41 | once a triple has an unknown tile, every longer run of triples fails with it |
| `Arcade.BlocksAdd` | p25/src/main.rs:45 | one more position adds one to the count exactly when it shows a block |
| `Arcade.CountBlocks` | p25/src/main.rs:45 | the sum counts the positions showing a block, at most the size of the screen |
| `Arcade.SubsetCard` | p25/src/main.rs:45 | a subset is no larger than its superset (proof helper, not a model of the cited line) |
| `Arcade.Run` | p25/src/main.rs:27-46 | `run` after parsing fails when the program runs out of fuel, prints a count of outputs that is not a multiple of three, or draws an unknown tile, and otherwise answers the number of positions left showing a block |
| `Arcade.AnswerBound` | p25/src/main.rs:38-45 | the block count is at most the number of triples printed |
| `Arcade.ScreenKeysBound` | p25/src/main.rs:40-43 | there are no more positions on the screen than triples |
| `Arcade.SetAddOne` | p25/src/main.rs:42 | one more element grows a set by at most one (proof helper, not a model of the cited line) |
| `Chemicals.WordLength` | p27/src/main.rs:140 | the first word is no longer than the text, and non-empty when the text starts with a non-space |
| `Chemicals.WordLengthMeaning` | p27/src/main.rs:140 | the first word is as long as it can be: none of its characters is whitespace and the next one is |
| `Chemicals.WordsAreWords` | p27/src/main.rs:140 | every piece `split_whitespace` yields is non-empty and free of whitespace |
| `Chemicals.WordLengthOfWord` | p27/src/main.rs:140 | a word followed by whitespace or nothing is read in full |
| `Chemicals.WordsCons` | p27/src/main.rs:140 | a word followed by whitespace or nothing is the first word |
| `Chemicals.WordsAfterSpace` | p27/src/main.rs:140 | leading whitespace does not change the words |
| `Chemicals.HeadTail` | p27/src/main.rs:140 | a non-empty sequence is its head followed by its tail (proof helper, not a model of the cited line) |
| `Chemicals.WordsJoin` | p27/src/main.rs:140 | splitting at whitespace undoes joining words with single spaces |
| `Chemicals.Find` | p27/src/main.rs:121 | the position found is an occurrence of the separator with none before it, and no position is found only when there is none |
| `Chemicals.OccursShift` | p27/src/main.rs:121 | an occurrence in the tail is an occurrence one position later in the whole |
| `Chemicals.SplitOn` | p27/src/main.rs:121-123 | splitting at `=>` gives at least one piece, and exactly one when the text holds no `=>` |
| `Chemicals.Around` | p27/src/main.rs:121 | a text is the part before a slice, the slice and the part after it (proof helper, not a model of the cited line) |
| `Chemicals.JoinOnCons` | p27/src/main.rs:121 | joining a piece in front of others puts the separator between them |
| `Chemicals.SplitOnJoin` | p27/src/main.rs:121 | joining the pieces with `=>` gives the text back |
| `Chemicals.SplitAtArrow` | p27/src/main.rs:121-123 | where neither side holds an `=`, the two pieces are exactly the sides around the arrow |
| `Chemicals.NoArrow` | p27/src/main.rs:121-123 | a text without `=` splits into itself alone |
| `Chemicals.ParseItem` | p27/src/main.rs:136-149 | an item read has a word as name and an amount that fits a `usize` and needs two words; a text without words, or with one, is the error for a missing part, and an amount that does not read is its own error |
| `Chemicals.ParseShowItem` | p27/src/main.rs:136-149 | reading a written item, with or without a leading space, gives the item back |
| `Chemicals.ParseReaction` | p27/src/main.rs:117-134 | a line fails for lack of `=>` exactly when it holds none, and a reaction read always has at least one requirement |
| `Chemicals.ShowItems` | p27/src/main.rs:126 | there is one written requirement per requirement |
| `Chemicals.DigitsHaveNoMark` | p27/src/main.rs:121-126 | a written number holds no comma, `=` or space |
| `Chemicals.ShowItemMarks` | p27/src/main.rs:121-126 | a written item holds no comma or `=` |
| `Chemicals.JoinHasNoEquals` | p27/src/main.rs:121-126 | pieces without `=` joined by commas hold no `=` |
| `Chemicals.ParseShowReaction` | p27/src/main.rs:117-134 | reading a written reaction gives the reaction back |
| `Chemicals.ParseReactionParts` | p27/src/main.rs:120-133 | a line whose two sides read gives the reaction made of them |
| `Chemicals.ParseExample` | p27/src/main.rs:155-167 | the line of `test_line_parse` reads as one FUEL from 7 A and 1 E |
| `Chemicals.ExampleArrow` | p27/src/main.rs:155-167 | the example line splits into its two sides |
| `Chemicals.ExampleItems` | p27/src/main.rs:155-167 | the example's left side reads as 7 A and 1 E |
| `Chemicals.ParseTwo` | p27/src/main.rs:126 | two pieces that read give the two items |
| `Chemicals.ExampleCommas` | p27/src/main.rs:155-167 | the example's left side splits into two pieces at its comma |
| `Chemicals.TwoWords` | p27/src/main.rs:140 | two words joined by a space are those two words |
| `Chemicals.SpacedWords` | p27/src/main.rs:140 | two words after a space, as the result side is written, are those two words |
| `Chemicals.PaddedWords` | p27/src/main.rs:140 | two words between spaces, as the last requirement is written, are those two words |
| `Chemicals.ExampleWords` | p27/src/main.rs:155-167 | the words of the example, and its two amounts |
| `Chemicals.ExampleResult` | p27/src/main.rs:155-167 | the example's right side reads as 1 FUEL |
| `Chemicals.ExampleRequirements` | p27/src/main.rs:155-167 | the example's two requirements read as 7 A and 1 E |
| `ReactionTables.LeadsItself` | p27/src/main.rs:54-62 | every chemical is reached from itself |
| `ReactionTables.LeadsStep` | p27/src/main.rs:59-61 | a requirement of a reaction, followed by a way down from it, is a way down from the reaction's result |
| `ReactionTables.PathJoin` | p27/src/main.rs:54-62 | two chains of requirements, the second starting where the first ends, make one chain |
| `ReactionTables.LeadsTrans` | p27/src/main.rs:54-62 | reaching is transitive |
| `ReactionTables.FirstStep` | p27/src/main.rs:54-62 | a way down from a chemical to another starts with one of its requirements |
| `ReactionTables.SubPath` | p27/src/main.rs:54-62 | a piece of a chain of requirements is a chain |
| `ReactionTables.PathStep` | p27/src/main.rs:54-62 | consecutive chemicals of a chain are a reaction and one of its requirements |
| `ReactionTables.PathAfterInsert` | p27/src/main.rs:64 | a chain in the table with one reaction added either stays in the old table or passes through the added result |
| `ReactionTables.LeadsAfterInsert` | p27/src/main.rs:64 | the same for reaching |
| `ReactionTables.PathAfterRemove` | p27/src/main.rs:96 | a chain in the table with a reaction taken out is a chain of the whole table |
| `ReactionTables.InsertAcyclic` | p27/src/main.rs:51-66 | inserting a reaction that closes no cycle, for a result not yet in the table, keeps the table free of cycles |
| `ReactionTables.NewNeedsCycle` | p27/src/main.rs:51-66 | after such an insertion no requirement of the new reaction leads back to its result in the old table |
| `ReactionTables.BackToNew` | p27/src/main.rs:51-66 | nor in the new table |
| `ReactionTables.RemoveAcyclic` | p27/src/main.rs:96 | taking a reaction out keeps the table free of cycles |
| `ReactionTables.NamesAppend` | p27/src/main.rs:60 | the names on a stack grown by a list are the names of both |
| `ReactionTables.SearchStart` | p27/src/main.rs:52 | the walk starts with the new reaction's requirements on the stack and nothing looked at |
| `ReactionTables.SearchPop` | p27/src/main.rs:54-61 | popping a chemical other than the new result and pushing its reaction's requirements keeps the walk's invariant |
| `ReactionTables.SearchFound` | p27/src/main.rs:55-57 | meeting the new result on the stack means a requirement leads to it, so the panic reports a real cycle |
| `ReactionTables.ClosedPath` | p27/src/main.rs:54-62 | a chain that starts among the chemicals looked at stays among them when everything they need was looked at |
| `ReactionTables.SearchDone` | p27/src/main.rs:54-62 | when the stack empties without meeting the new result, no requirement leads to it |
| `ReactionTables.CheckCycle` | p27/src/main.rs:52-62 | the walk panics exactly when a requirement of the new reaction leads back to its result (or the walk runs out of fuel) |
| `ReactionTables.UnusedResult` | p27/src/main.rs:52-62 | a reaction whose result no reaction in the table consumes, and which does not consume it itself, closes no cycle |
| `ReactionTables.BuiltAppend` | p27/src/main.rs:51-66 | a reaction that closes no cycle and names a new result is added under its result's name |
| `ReactionTables.BuiltWellFormed` | p27/src/main.rs:48-72 | a built table stores each reaction under its result's name and holds no cycle |
| `ReactionTables.BuiltHas` | p27/src/main.rs:48-72 | a built table holds each listed reaction under its result's name |
| `ReactionTables.BuiltOnly` | p27/src/main.rs:48-72 | a built table holds nothing but the listed reactions, one entry per reaction |
| `ReactionTables.BuiltLast` | p27/src/main.rs:51-66 | a built table is the table of all but the last reaction with the last one added under a new name |
| `ReactionTables.BuiltRefused` | p27/src/main.rs:51-66 | once a prefix of the reactions is refused, the whole list is refused for the same reason |
| `ReactionTables.FromIter` | p27/src/main.rs:48-72 | `from_iter` builds exactly the table of the reactions, and otherwise reports the first reaction that closes a cycle or repeats a result |
| `ReactionTables.HandedOutMore` | p27/src/main.rs:77-102 | handing out one more reaction extends the reactions handed out so far |
| `ReactionTables.HandedOutAll` | p27/src/main.rs:77-102 | handing out until the table is empty is a full drain of the table |
| `ReactionTables.DrainsOnce` | p27/src/main.rs:77-102 | draining the table hands out each of its reactions exactly once |
| `ReactionTables.DrainsConsumersFirst` | p27/src/main.rs:77-102 | draining hands out every reaction before the producers of what it consumes |
| `ReactionTables.LongPath` | p27/src/main.rs:79-93 | in a table where every reaction's result is required, there are chains of requirements of every length |
| `ReactionTables.ConsumerOf` | p27/src/main.rs:82-87 | a required chemical has a reaction that consumes it |
| `ReactionTables.Pigeonhole` | p27/src/main.rs:79-93 | a chain longer than the table repeats a chemical |
| `ReactionTables.SourceExists` | p27/src/main.rs:95-99 | a table with no cycle in which every result is required is empty, so the `assert_eq!` of `next` holds |
| `ReactionTables.RepeatIsCycle` | p27/src/main.rs:79-93 | a chain that comes back to a chemical passes through a cycle |
| `ReactionTables.Mentions` | p27/src/main.rs:83 | the `find` reports exactly whether the name is among the requirements |
| `ReactionTables.IsRequired` | p27/src/main.rs:80-87 | the inner loop reports exactly whether some reaction of the table consumes the name |
| `ReactionTables.ReactionTable.constructor` | p27/src/main.rs:68-70 | the table holds the given reactions and is well formed |
| `ReactionTables.ReactionTable.Clone` | p28/src/main.rs:72-75 | the clone is a new table with the same reactions |
| `ReactionTables.ReactionTable.Next` | p27/src/main.rs:77-102 | `next` returns nothing exactly when the table is empty, and otherwise takes out a reaction whose result no remaining reaction requires |
| `Refinery.Add` | p27/src/main.rs:33-35 | adding to a need lists its name, raises that need by the amount and changes no other |
| `Refinery.AddAllMeaning` | p27/src/main.rs:32-36 | adding the requirements lists their names and raises each need by the multiplier times that chemical's total in the list |
| `Refinery.AddAllKeys` | p27/src/main.rs:32-36 | adding the requirements lists exactly the old names and the requirements' names |
| `Refinery.AddAllAmount` | p27/src/main.rs:32-36 | adding the requirements raises each need by the multiplier times that chemical's total in the list |
| `Refinery.Runs` | p27/src/main.rs:31 | the multiplier is at least one, covers the need, and one fewer run would not |
| `Refinery.RunsCover` | p27/src/main.rs:31 | the formula covers the need and one run fewer does not |
| `Refinery.RunsLeast` | p27/src/main.rs:31 | any number of runs that covers the need is at least the multiplier |
| `Refinery.Distribute` | p27/src/main.rs:35 | multiplication distributes over a sum (proof helper, not a model of the cited line) |
| `Refinery.MulMonotone` | p27/src/main.rs:35 | a larger factor gives a larger product (proof helper, not a model of the cited line) |
| `Refinery.RefineMeaning` | p27/src/main.rs:26-36 | when the result is needed, the reaction runs the least number of times that covers the need, and the result's need is replaced by the requirements that many times over |
| `Refinery.OreLeft` | p27/src/main.rs:39-41 | the end of `run` succeeds exactly when ORE is the only chemical left, with that amount |
| `Refinery.OnlyKey` | p27/src/main.rs:39 | a map of one entry holding a key has only that key |
| `Refinery.ReduceAppend` | p27/src/main.rs:25-37 | reducing along one order and then another is reducing along both |
| `Refinery.StaysAbsent` | p27/src/main.rs:25-37 | a chemical not needed that no remaining reaction requires is never needed again |
| `Refinery.ReduceLeavesRaw` | p27/src/main.rs:25-37 | reducing along a drain of the table leaves no chemical that the table produces |
| `Refinery.NoFuelFails` | p28/src/main.rs:53-57 | reducing zero FUEL always fails, since a need of zero fails the `assert_ne!` or leaves FUEL |
| `Refinery.NoFuelStuck` | p28/src/main.rs:53-57 | with zero FUEL the reduction fails or leaves the need unchanged |
| `Refinery.RunsMonotone` | p27/src/main.rs:31 | a larger need never takes fewer runs |
| `Refinery.AddAllBelow` | p27/src/main.rs:32-36 | adding the same requirements with at least as many runs keeps one set of needs below the other |
| `Refinery.RefineBelow` | p27/src/main.rs:26-36 | needing more of the same chemicals never changes whether a step fails, and needs more after it |
| `Refinery.ReduceBelow` | p27/src/main.rs:25-37 | the same along a whole order |
| `Refinery.OreMonotone` | p28/src/main.rs:48-69 | for at least one FUEL, more FUEL never changes whether or how the reduction fails, and never needs less ORE |
| `Refinery.AddRequirements` | p27/src/main.rs:32-36 | the inner loop adds exactly the requirements, each times the multiplier |
| `Refinery.ApplyReaction` | p27/src/main.rs:26-36 | the loop body for one reaction does exactly the reduction step |
| `Refinery.DrainExists` | p27/src/main.rs:77-102 | every table without a cycle can hand out all its reactions |
| `Refinery.FindSource` | p27/src/main.rs:79-93 | a non-empty table without a cycle has a reaction whose result nothing requires |
| `Refinery.HandedOutThenDrains` | p27/src/main.rs:25 | what was handed out followed by a drain of the rest is a drain of the whole table |
| `Refinery.FailureExplained` | p27/src/main.rs:25-37 | a failure part-way through is the failure along some full drain of the table |
| `Refinery.Consume` | p27/src/main.rs:22-41 | the loop and the end of `run` give what reducing one FUEL gives along some order in which the table can hand out its reactions |
| `Refinery.Run` | p27/src/main.rs:15-42 | `run` reports the first line that does not read, or the first reaction the table refuses, and otherwise the ORE for one FUEL along some drain of the table |
| `RefineryExample.AddAllOne` | p27/src/main.rs:32-36 | adding one requirement is one `Add` |
| `RefineryExample.AddAllTwo` | p27/src/main.rs:32-36 | adding two requirements is two `Add`s |
| `RefineryExample.AddAllThree` | p27/src/main.rs:32-36 | adding three requirements is three `Add`s |
| `RefineryExample.StepVia` | p27/src/main.rs:26-36 | a step with a given multiplier and sum gives the expected needs |
| `RefineryExample.ReduceStep` | p27/src/main.rs:25-37 | reducing along a reaction and a tail is the step followed by the tail |
| `RefineryExample.Step1` | p27/src/main.rs:169-182 | the FUEL reaction of the example turns 1 FUEL into 2 AB, 3 BC and 4 CA |
| `RefineryExample.Step2` | p27/src/main.rs:169-182 | the AB reaction turns 2 AB into 6 A and 8 B |
| `RefineryExample.Step3` | p27/src/main.rs:169-182 | the BC reaction turns 3 BC into 15 more B and 21 C |
| `RefineryExample.Step4` | p27/src/main.rs:169-182 | the CA reaction turns 4 CA into 16 more C and 4 more A |
| `RefineryExample.Step5` | p27/src/main.rs:169-182 | the A reaction turns 10 A into 45 ORE |
| `RefineryExample.Step6` | p27/src/main.rs:169-182 | the B reaction turns 23 B into 64 more ORE |
| `RefineryExample.Step7` | p27/src/main.rs:169-182 | the C reaction turns 37 C into 56 more ORE, 165 in all |
| `RefineryExample.Tail7` | p27/src/main.rs:169-182 | the last reaction of the order leaves 165 ORE |
| `RefineryExample.Tail6` | p27/src/main.rs:169-182 | the last two reactions leave 165 ORE |
| `RefineryExample.Tail5` | p27/src/main.rs:169-182 | the last three reactions leave 165 ORE |
| `RefineryExample.Tail4` | p27/src/main.rs:169-182 | the last four reactions leave 165 ORE |
| `RefineryExample.Tail3` | p27/src/main.rs:169-182 | the last five reactions leave 165 ORE |
| `RefineryExample.Tail2` | p27/src/main.rs:169-182 | the last six reactions leave 165 ORE |
| `RefineryExample.Tail1` | p27/src/main.rs:169-182 | the whole order reduces 1 FUEL to 165 ORE |
| `RefineryExample.NamesOfAll` | p27/src/main.rs:169-182 | the chemicals each example reaction requires |
| `RefineryExample.BuiltNext` | p27/src/main.rs:51-66 | a line whose result is new and consumed by nothing in the table goes in |
| `RefineryExample.Built1` | p27/src/main.rs:170-178 | the first line of `test_full` builds the table of A |
| `RefineryExample.Built2` | p27/src/main.rs:170-178 | the first two lines build the table of A and B |
| `RefineryExample.Built3` | p27/src/main.rs:170-178 | the first three lines build the table of A, B and C |
| `RefineryExample.Built4` | p27/src/main.rs:170-178 | the fourth line adds AB |
| `RefineryExample.Built5` | p27/src/main.rs:170-178 | the fifth line adds BC |
| `RefineryExample.Built6` | p27/src/main.rs:170-178 | the sixth line adds CA |
| `RefineryExample.FuelUnused` | p27/src/main.rs:170-178 | no line before the last consumes FUEL, and FUEL does not consume itself |
| `RefineryExample.BuiltExample` | p27/src/main.rs:170-178 | the seven lines of `test_full`, in their order, build the example table with no cycle or duplicate refused |
| `RefineryExample.DrainVia` | p27/src/main.rs:77-102 | a reaction nothing requires, followed by a drain of the rest, is a drain |
| `RefineryExample.Drain6` | p27/src/main.rs:169-182 | the table of C alone hands out C |
| `RefineryExample.Drain5` | p27/src/main.rs:169-182 | the table of B and C can hand out B, C |
| `RefineryExample.Drain4` | p27/src/main.rs:169-182 | the table of A, B and C can hand out A, B, C |
| `RefineryExample.Drain3` | p27/src/main.rs:169-182 | with CA added it can hand out CA first |
| `RefineryExample.Drain2` | p27/src/main.rs:169-182 | with BC added it can hand out BC first |
| `RefineryExample.Drain1` | p27/src/main.rs:169-182 | with AB added it can hand out AB first |
| `RefineryExample.ExampleDrains` | p27/src/main.rs:169-182 | the example table can hand out FUEL, AB, BC, CA, A, B, C in that order |
| `RefineryExample.Example165` | p27/src/main.rs:169-182 | `test_full`: along that order one FUEL needs 165 ORE, so 165 is an answer `run` can give for the example table, the table `BuiltExample` shows the seven lines build |
| `FuelSearch.FitsBelow` | p28/src/main.rs:15-46 | less FUEL, but at least one, fits whenever more does |
| `FuelSearch.NoFitAbove` | p28/src/main.rs:15-46 | past an amount of at least one that does not fit, nothing fits |
| `FuelSearch.DetermineRequiredOre` | p28/src/main.rs:48-69 | `determine_required_ore` gives the ORE that reducing the FUEL along the table's order gives |
| `FuelSearch.Drain` | p28/src/main.rs:52 | iterating a clone of the table hands out its reactions in an order that drains it |
| `FuelSearch.Double` | p28/src/main.rs:22-25 | the doubling loop stops at an amount that does not fit and whose half fits (or 1), and fails exactly when the ORE for one FUEL does |
| `FuelSearch.Bisect` | p28/src/main.rs:26-37 | the binary search succeeds exactly when one FUEL fits, with a lower end below which everything fits |
| `FuelSearch.Scan` | p28/src/main.rs:39-45 | the last loop and the two `assert!`s end at the most FUEL that fits |
| `FuelSearch.Search` | p28/src/main.rs:22-45 | the search answers the most FUEL one trillion ORE makes, and fails when even one FUEL does not fit |
| `FuelSearch.Run` | p28/src/main.rs:15-46 | `run` of p28 reports the first line that does not read, or the first reaction the table refuses, and otherwise the most FUEL one trillion ORE makes along an order the table hands out |
| `Util.TruncDivision` | p22/src/intcode.rs:95-100 | Rust's `/` and `%` put the dividend back together, with a remainder of the dividend's sign and smaller than the divisor |
| `Util.AsUsize` | p22/src/intcode.rs:19-26 | `as usize` keeps a non-negative value and wraps a negative one to a huge index |
| `Util.TrimStart` | p19/src/main.rs:61 | trimming the front removes exactly the leading whitespace |
| `Util.TrimEnd` | p19/src/main.rs:61 | trimming the back removes exactly the trailing whitespace |
| `Util.IndexOf` | p22/src/main.rs:20 | the position found holds the character, with no occurrence before it |
| `Util.Split` | p22/src/main.rs:20 | splitting at a character gives at least one piece and no piece holds the separator |
| `Util.SplitJoin` | p22/src/main.rs:20 | joining the pieces with the separator gives the text back |
| `Util.FirstIndex` | p22/src/main.rs:20 | the first occurrence is the one with none before it |
| `Util.JoinSplit` | p22/src/main.rs:20 | pieces free of the separator come back out of the text they were joined into |
| `Util.Lines` | p19/src/main.rs:60 | no line holds a line feed, and an empty text has no lines |
| `Util.ParseUnsigned` | p27/src/main.rs:141 | a number reads only from a text that starts with a digit or `+` |
| `Util.ParseSigned` | p22/src/main.rs:21 | a text with a minus sign reads as no positive number, and a text of digits reads as their value |
| `Util.ParseIsize` | p22/src/main.rs:21 | an `isize` read lies in the 64-bit range and is what the unbounded reading gives |
| `Util.ShowNat` | p27/src/main.rs:141 | a number is written as a non-empty run of digits |
| `Util.ParseShowNat` | p27/src/main.rs:141 | reading back a written number gives the number |
| `Util.ShowInt` | p22/src/main.rs:21 | an integer is written as a non-empty text |
| `Util.ParseShowInt` | p22/src/main.rs:21 | reading back a written integer gives the integer, also as an `isize` when it is in range |
| `Util.NonEmptyLines` | p27/src/main.rs:16-17 | the lines kept are the non-empty ones |
| `Util.Filter` | p27/src/main.rs:17 | the filter keeps only non-empty lines |
| `Util.ParseAll` | p27/src/main.rs:16-19 | collecting reads one item per line |
| `Util.ParseAllAt` | p27/src/main.rs:16-19 | item `i` is what line `i` reads as |
| `Util.ParseAllError` | p27/src/main.rs:16-19 | collecting fails only with the error of some line |
| `Util.ParseAllOk` | p27/src/main.rs:16-19 | when every line reads, collecting gives the items line by line |
| `Util.ParseUsize` | p27/src/main.rs:141 | a `usize` read fits in 64 bits and is what the unbounded reading gives, whenever that fits |
| `StableSort.Insert` | p15/src/main.rs:46 | inserting one element grows the sorted list by one |
| `StableSort.SortByKey` | p15/src/main.rs:46 | the sort keeps the number of elements |
| `StableSort.InsertKeeps` | p15/src/main.rs:46 | inserting adds exactly that element, in front of every element of no smaller key and behind the first of a smaller key |
| `StableSort.InsertSorted` | p15/src/main.rs:46 | inserting into a list sorted by key keeps it sorted |
| `StableSort.FirstLeastStep` | p15/src/main.rs:46-47 | the first element of least key is the head, unless the tail's first least element has a strictly smaller key |
| `Intcode.Opcode` | p22/src/intcode.rs:94-177 | every instruction has an opcode the decoder knows |
| `Intcode.Params` | p22/src/intcode.rs:94-177 | an instruction has at most three parameters |
| `Intcode.Encode` | p22/src/intcode.rs:78-92 | an instruction is written as as many cells as its size |
| `ModeVm.Opcode` | p10/src/main.rs:83-154 | every instruction has an opcode the decoder knows |
| `ModeVm.Moded` | p10/src/main.rs:83-154 | at most two parameters carry a mode digit |
| `ModeVm.Cells` | p10/src/main.rs:83-154 | at most three cells follow the opcode |
| `ModeVm.Encode` | p10/src/main.rs:68-81 | an instruction is written as as many cells as its size |
| `GravityAssist.Encode` | p04/src/main.rs:64-79 | an instruction is written as one to four cells |
| `ThermalRadiator.OverwritesHalt` | p10/src/main.rs:271-274 | the first instruction of the fourth test writes 2 over the halt at 4 and moves to 4 |
| `ThermalRadiator.MultipliesAtFour` | p10/src/main.rs:271-274 | the multiplication at 4 writes 30 into cell 0 and moves to 8 |
| `ThermalRadiator.HaltsAtEight` | p10/src/main.rs:271-274 | the halt at 8 stops the run with memory as it is |
| `AirConditioner.OverwrittenHaltMultiplies` | p09/src/main.rs:176-179 | from the multiplication that replaced the halt, the run ends with `30,1,1,4,2,5,6,0,99` |
| `SensorBoost.LargeNumberRun` | p18/src/main.rs:365-370 | `104,1125899906842624,99` prints its operand and halts within two steps |
| `SensorBoost.ProductWritten` | p18/src/main.rs:357-363 | storing the product in cell 7 leaves the code before it unchanged |
| `SensorBoost.EchoWritten` | p18/src/main.rs:372-377 | storing the input in cell 0 leaves the rest of the code unchanged |
| `SensorBoost.QuineUntouched` | p18/src/main.rs:350-355 | writing the counter or the flag leaves the sixteen cells of the quine unchanged |
| `PhaseOrders.OrdersUpToSound` | p13/src/main.rs:224-243 | the rounds of one slot's loop push only orderings whose slot holds a setting of those rounds |
| `PhaseOrders.UpToIncludes` | p13/src/main.rs:224-243 | past the round for a free setting, the list holds every ordering that round pushed |
| `PhaseOrders.OrdersUpToDistinct` | p13/src/main.rs:224-243 | the rounds of one slot's loop push no ordering twice |
| `PhaseOrders.OrdersUpToCount` | p13/src/main.rs:224-243 | each free setting among the rounds run so far contributes the factorial of the slots left |

## Left out

- Input and output: `include_str!`/`include_bytes!`, every `main`, and all `println!`/`eprintln!` calls are not modelled. Each `run` takes its puzzle input as a string or byte sequence parameter.
- Non-termination: every loop that need not end carries a fuel parameter and fails with `OutOfFuel` when the fuel runs out. This covers the Intcode runs, `run_all`, the feedback rounds of `p14`, the orbit walks of `p11` and `p12` on cyclic maps, the cycle searches of `p24`, the cycle check of `ReactionTable::from_iter`, and the doubling of `p28`. A fuel failure has no counterpart in the source, which would loop for ever.
- Machine integers: `isize` and `usize` arithmetic is unbounded `int`/`nat`. Overflow, which panics in debug builds and wraps in release builds, is not modelled. This affects the Intcode add and multiply, `fuel * 2` and `amount * multiplier` in `p27`/`p28`, the moon energies, and the lcm of `p24`. The `as usize` cast of a negative value is modelled, as a wrap by 2^64 that ends in an index panic.
- Strings: `str` is a sequence of characters with no UTF-8 encoding. `trim` and `split_whitespace` recognise ASCII whitespace only.
- `HashMap`/`HashSet` order: the order is unknown, so the model makes each choice nondeterministically (`:|`) or uses Dafny sets and maps. Results that depend on the order are stated for some order the map could produce.
- Refinery.Run: the ORE count is proved for some order in which the table can hand out its reactions. The proof does not show that every such order gives the same count.
- FuelSearch.Run: as for `Refinery.Run`, the answer is proved for one order the table hands out, and independence of the order is not proved. It may also end in `OutOfFuel` when the doubling budget runs out. When not even one FUEL fits, `run` fails rather than answering 0, because its binary search then computes the ORE for zero FUEL.
- MoonCycles.Run: the answer is proved to be a number of ticks after which all four moons are back at their start, and each axis count is proved to be that axis's first return to its start. What is not proved is that `lcm(z, lcm(x, y))` is the least number of ticks at which all three axes are back together.
- WireGraphs.Dijkstra: every distance is proved to be the length of a walk through the graph, the origin's distance to be 0, and every point a walk reaches to get a distance; that each distance is the shortest is not proved. The `BinaryHeap` is a multiset of candidate entries (a point and the length of a walk to it, duplicates kept); a turn pops one of least length and skips it when its point already has a distance, with `Ord` comparing lengths only.
- PhaseOrders.AllPhaseOrders: the five nested loops of `get_all_permutations` are one recursive method with one loop per nesting level.
- StableSort.SortByKey: `sort_by_key` is modelled as a stable insertion sort. Any stable sort gives the same result.
- `p06` `run` and `p05` `run`: the search for the best crossing over the wires' cuts and graph is not part of this model. Its building blocks (`intersection`, `cut_at`, `to_graph`, `dijkstra`) are modelled.
- `p20` vaporisation: `slope_order` uses `f64::atan2`, and the laser's cycling order and the `nth` answer depend on it. Floating point is not modelled. Only the choice of the monitoring station is modelled.
- `p21/src/intcode.rs` and `p25/src/intcode.rs` are not part of this model. In `HullRobot.CountPainted` the robot's program is a `brain` function parameter, and in `Arcade.Run` the game is a resumable `run` function parameter. The parsing of the program text in those two crates is not included.
- Examples that need long executions are not proved. These include:
  - the feedback results 139629729 and 18216, and the chain results 43210, 54321 and 65210;
  - the asteroid counts 33, 35, 41 and 210;
  - the orbit counts 42 and 4;
  - the wire results 610 and 410;
  - 82892753 FUEL.
  The rules these examples follow are proved, and several small examples are proved (see the table).
- The tests of `p24` do not compile (`Moon::advance` is not defined there), so their result 2772 is not treated as behaviour of the source.
- Slicing and indexing panics (`mem[1..3]` past the end of a short tape, `layers[0]`, `split_at`) are `Err` results with a fault or error value of their own.
