/**
 * The painting loop of `run` in `p21/src/main.rs` and `p22/src/main.rs`: an Intcode program
 * reads the colour under the robot and answers with the colour to paint and the way to turn.
 * The program is taken here as an arbitrary function from its state and the reading to where it
 * stops next: `p21` runs its own Intcode machine, which is not part of this model, and `p22`
 * the machine of module `Intcode` (module `Registration`).
 */
module HullRobot {
  import opened Util
  import opened Tape
  import opened Resumable
  import opened Hull

  /** Where the robot stands and where it faces. */
  datatype Robot = Robot(position: RobotPosition, direction: RobotDirection)

  /** The robot starts on panel (0, 0), facing up. */
  const START: Robot := Robot(RobotPosition(0, 0), Up)

  /**
   * Why `run` stops without an answer: a program text that does not parse, a panic of the
   * machine, or a reply other than a colour (0 or 1) and a turn (0 or 1).
   */
  datatype RobotError =
    | InvalidProgram
    | Crashed(fault: Fault)
    | WrongOutputCount(count: nat)
    | UnknownColor(color: int)
    | UnknownTurn(turn: int)

  /** What the robot's camera reports: 0 over a Black panel, 1 over a White one. */
  function ColorCode(c: Color): (code: int)
    ensures code == 0 <==> c == Black
    ensures code == 1 <==> c == White
  {
    match c
    case Black => 0
    case White => 1
  }

  /**
   * The body of the loop of `run` after the program has answered with `outputs`: exactly two
   * outputs, the colour for the current panel and the turn, then one step forward.
   */
  function Respond(robot: Robot, panels: map<RobotPosition, Color>, outputs: seq<int>)
    : (r: Result<(Robot, map<RobotPosition, Color>), RobotError>)
    ensures |outputs| != 2 ==> r == Err(WrongOutputCount(|outputs|))
    ensures |outputs| == 2 && outputs[0] != 0 && outputs[0] != 1 ==> r == Err(UnknownColor(outputs[0]))
    ensures |outputs| == 2 && (outputs[0] == 0 || outputs[0] == 1) && outputs[1] != 0 && outputs[1] != 1
      ==> r == Err(UnknownTurn(outputs[1]))
  {
    if |outputs| != 2 then Err(WrongOutputCount(|outputs|))
    else if outputs[0] != 0 && outputs[0] != 1 then Err(UnknownColor(outputs[0]))
    else if outputs[1] != 0 && outputs[1] != 1 then Err(UnknownTurn(outputs[1]))
    else
      var color := if outputs[0] == 0 then Black else White;
      var direction := if outputs[1] == 0 then RotateLeft(robot.direction) else RotateRight(robot.direction);
      Ok((Robot(MoveForward(robot.position, direction), direction), panels[robot.position := color]))
  }

  /**
   * With a colour and a turn, the panel under the robot takes that colour and no other panel
   * changes, the robot turns left on 0 and right on 1, and it steps once along its new heading.
   */
  lemma RespondMeaning(robot: Robot, panels: map<RobotPosition, Color>, outputs: seq<int>)
    requires Respond(robot, panels, outputs).Ok?
    ensures var (robot', panels') := Respond(robot, panels, outputs).value;
      && ColorCode(ColorAt(panels', robot.position)) == outputs[0]
      && (forall q :: q != robot.position ==> ColorAt(panels', q) == ColorAt(panels, q))
      && panels'.Keys == panels.Keys + {robot.position}
      && robot'.direction == (if outputs[1] == 0 then RotateLeft(robot.direction) else RotateRight(robot.direction))
      && robot'.position == MoveForward(robot.position, robot'.direction)
  {
  }

  /**
   * The loop of `run`, for a program `brain` that is run from state `s` with the camera's
   * reading as its input: it stops when the program halts, and otherwise repaints and moves the
   * robot as the program says.  At most `fuel` rounds are taken.
   */
  function Painting<S>(brain: (S, int) -> Result<Suspension<S>, Fault>, fuel: nat, s: S, robot: Robot,
                       panels: map<RobotPosition, Color>): Result<map<RobotPosition, Color>, RobotError>
    decreases fuel
  {
    match brain(s, ColorCode(ColorAt(panels, robot.position)))
    case Err(f) => Err(Crashed(f))
    case Ok(stop) =>
      if stop.state == ProgramState.Halt then Ok(panels)
      else
        match Respond(robot, panels, stop.outputs)
        case Err(e) => Err(e)
        case Ok((robot', panels')) =>
          if fuel == 0 then Err(Crashed(OutOfFuel))
          else Painting(brain, fuel - 1, stop.machine, robot', panels')
  }

  /** The loop only ever adds panels: what was painted before stays painted. */
  lemma {:induction false} PaintingGrows<S>(brain: (S, int) -> Result<Suspension<S>, Fault>, fuel: nat, s: S,
                                            robot: Robot, panels: map<RobotPosition, Color>)
    requires Painting(brain, fuel, s, robot, panels).Ok?
    ensures panels.Keys <= Painting(brain, fuel, s, robot, panels).value.Keys
    decreases fuel
  {
    var stop := brain(s, ColorCode(ColorAt(panels, robot.position))).value;
    if stop.state != ProgramState.Halt {
      var (robot', panels') := Respond(robot, panels, stop.outputs).value;
      PaintingGrows(brain, fuel - 1, stop.machine, robot', panels');
    }
  }

  /** Each round paints the panel under the robot, so the count grows by at most one per round. */
  lemma {:induction false} PaintingCount<S>(brain: (S, int) -> Result<Suspension<S>, Fault>, fuel: nat, s: S,
                                            robot: Robot, panels: map<RobotPosition, Color>)
    requires Painting(brain, fuel, s, robot, panels).Ok?
    ensures |Painting(brain, fuel, s, robot, panels).value| <= |panels| + fuel
    decreases fuel
  {
    var stop := brain(s, ColorCode(ColorAt(panels, robot.position))).value;
    if stop.state != ProgramState.Halt {
      var (robot', panels') := Respond(robot, panels, stop.outputs).value;
      PaintingCount(brain, fuel - 1, stop.machine, robot', panels');
      RespondMeaning(robot, panels, stop.outputs);
      KeysGrowByOne(panels, panels', robot.position);
    }
  }

  lemma KeysGrowByOne(panels: map<RobotPosition, Color>, panels': map<RobotPosition, Color>, pos: RobotPosition)
    requires panels'.Keys == panels.Keys + {pos}
    ensures |panels'| <= |panels| + 1
  {
    assert |panels'| == |panels'.Keys| && |panels| == |panels.Keys|;
  }

  /**
   * The body of the loop of `run` once the program has answered with `outputs`: paint the panel
   * under the robot with the first output, turn by the second and step forward.
   */
  method Obey(hull: HullMap, robot: Robot, outputs: seq<int>) returns (r: Result<Robot, RobotError>)
    modifies hull
    ensures var next := Respond(robot, old(hull.panels), outputs);
      && (r.Ok? <==> next.Ok?)
      && (r.Err? ==> r.error == next.error)
      && (r.Ok? ==> r.value == next.value.0 && hull.panels == next.value.1)
  {
    if |outputs| != 2 {
      return Err(WrongOutputCount(|outputs|));
    }
    var color;
    match outputs[0] {
      case 0 => color := Black;
      case 1 => color := White;
      case _ => return Err(UnknownColor(outputs[0]));
    }
    hull.Paint(robot.position, color);
    var direction;
    match outputs[1] {
      case 0 => direction := RotateLeft(robot.direction);
      case 1 => direction := RotateRight(robot.direction);
      case _ => return Err(UnknownTurn(outputs[1]));
    }
    return Ok(Robot(MoveForward(robot.position, direction), direction));
  }

  /**
   * `run` of `p21/src/main.rs` for the robot program `brain` started in state `s0`: the loop from
   * an unpainted hull, then the number of panels painted at least once.
   */
  method CountPainted<S>(brain: (S, int) -> Result<Suspension<S>, Fault>, s0: S, fuel: nat)
    returns (r: Result<nat, RobotError>)
    ensures var p := Painting(brain, fuel, s0, START, map[]);
      && (r.Ok? <==> p.Ok?)
      && (r.Err? ==> r.error == p.error)
      && (r.Ok? ==> r.value == |p.value| <= fuel)
  {
    var hull := new HullMap();
    var s, robot, remaining := s0, START, fuel;
    while true
      invariant Painting(brain, fuel, s0, START, map[]) == Painting(brain, remaining, s, robot, hull.panels)
      decreases remaining
    {
      var cur := hull.GetColor(robot.position);
      var run := brain(s, ColorCode(cur));
      if run.Err? {
        return Err(Crashed(run.error));
      }
      var stop := run.value;
      if stop.state == ProgramState.Halt {
        break;
      }
      var obeyed := Obey(hull, robot, stop.outputs);
      if obeyed.Err? {
        return Err(obeyed.error);
      }
      robot := obeyed.value;
      if remaining == 0 {
        return Err(Crashed(OutOfFuel));
      }
      s, remaining := stop.machine, remaining - 1;
    }
    PaintingCount(brain, fuel, s0, START, map[]);
    return Ok(hull.Len());
  }

  /** The hull `p22` starts from: only the robot's panel painted, White. */
  const PAINTED_START: map<RobotPosition, Color> := map[START.position := White]

  /** The starting panel is painted before the loop, so it is always part of the picture. */
  lemma StartInPicture<S>(brain: (S, int) -> Result<Suspension<S>, Fault>, fuel: nat, s: S)
    requires Painting(brain, fuel, s, START, PAINTED_START).Ok?
    ensures START.position in Painting(brain, fuel, s, START, PAINTED_START).value
  {
    PaintingGrows(brain, fuel, s, START, PAINTED_START);
  }

  /** A program that halts at once leaves one White panel, which prints as "#\n". */
  lemma HaltAtOnce<S>(brain: (S, int) -> Result<Suspension<S>, Fault>, fuel: nat, s: S)
    requires brain(s, 1).Ok? && brain(s, 1).value.state == ProgramState.Halt
    ensures Painting(brain, fuel, s, START, PAINTED_START) == Ok(PAINTED_START)
    ensures Picture(PAINTED_START, BoundsOf(PAINTED_START.Keys)) == "#\n"
  {
    SpansOne(START.position);
    assert PAINTED_START.Keys == {START.position};
    BoundsUnique(PAINTED_START.Keys, Bounds(0, 0, 0, 0), BoundsOf(PAINTED_START.Keys));
    assert RowText(PAINTED_START, 0, 1, 0) == "#";
  }
}
