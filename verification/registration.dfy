/**
 * `run` of `p22/src/main.rs`: the painting loop of module `HullRobot` driven by the Intcode
 * machine of module `Intcode`, from a hull whose starting panel is painted White, and the
 * picture of the hull that `run` returns.
 */
module Registration {
  import opened Util
  import opened Tape
  import opened Resumable
  import opened Intcode
  import opened Hull
  import opened HullRobot

  /** The robot program of `p22`: one `Program::run` of at most `fuel` instructions per reading. */
  function Brain(fuel: nat): (Machine, int) -> Result<Suspension<Machine>, Fault>
  {
    (m: Machine, reading: int) => Execute(fuel, m, Some(reading))
  }

  /**
   * `run` of `p22/src/main.rs`: parse the program, paint the starting panel White, run the loop
   * and print the hull.
   */
  method Run(text: string, fuel: nat) returns (r: Result<string, RobotError>)
    ensures ParseProgram(text).None? ==> r == Err(InvalidProgram)
    ensures ParseProgram(text).Some? ==>
      var p := Painting(Brain(fuel), fuel, Initial(ParseProgram(text).value), START, PAINTED_START);
      && (r.Ok? <==> p.Ok?)
      && (r.Err? ==> r.error == p.error)
      && (r.Ok? ==> r.value == Picture(p.value, BoundsOf(p.value.Keys)))
  {
    var memory := ParseProgram(text);
    if memory.None? {
      return Err(InvalidProgram);
    }
    var prog := new Program(memory.value);
    var robot := START;
    var hull := new HullMap();
    hull.Paint(robot.position, White);
    var remaining := fuel;
    while true
      invariant Painting(Brain(fuel), fuel, Initial(memory.value), START, PAINTED_START)
        == Painting(Brain(fuel), remaining, prog.State(), robot, hull.panels)
      decreases remaining
    {
      var cur := hull.GetColor(robot.position);
      var run := prog.Run(Some(ColorCode(cur)), fuel);
      if run.Err? {
        return Err(Crashed(run.error));
      }
      var stop := run.value;
      if stop.state == ProgramState.Halt {
        break;
      }
      var obeyed := Obey(hull, robot, stop.outputs);
      if obeyed.Err? {
        return Err(obeyed.error);
      }
      robot := obeyed.value;
      if remaining == 0 {
        return Err(Crashed(OutOfFuel));
      }
      remaining := remaining - 1;
    }
    var picture := hull.Display();
    return Ok(picture);
  }
}
