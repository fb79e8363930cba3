/**
 * What the Intcode machines share: the panics they can end in, indexing that panics past the
 * end of the tape, the decimal digits of an opcode cell (two for the opcode, one per parameter
 * mode above them), and the comma-separated text a program is loaded from.
 */
module Tape {
  import opened Util

  /**
   * The panics of the Intcode machines and their drivers (`InputExhausted`: an input closure
   * with no value left to give; `MissingOutput`: an amplifier that halted without output;
   * `QueueMismatch`: a feedback loop that went quiet with other than one value left, in the
   * first queue only), plus `OutOfFuel`, which ends a run of the model that has used up its
   * budget of steps.
   */
  datatype Fault =
    | UnknownParameterMode(digit: int)
    | UnknownInstruction(opcode: int)
    | IndexOutOfBounds
    | ImmediateAddress
    | InputExhausted
    | MissingOutput
    | QueueMismatch
    | OutOfFuel

  /** `mem[index]`, which panics past the end of memory. */
  function Read<T>(mem: seq<T>, index: nat): (r: Result<T, Fault>)
    ensures r.Ok? <==> index < |mem|
    ensures r.Ok? ==> r.value == mem[index]
  {
    if index < |mem| then Ok(mem[index]) else Err(IndexOutOfBounds)
  }

  /** `mem[index] = value`, which panics past the end of memory. */
  function Write<T>(mem: seq<T>, index: nat, value: T): (r: Result<seq<T>, Fault>)
    ensures r.Ok? <==> index < |mem|
    ensures r.Ok? ==> |r.value| == |mem| && r.value[index] == value
    ensures r.Ok? ==> forall i :: 0 <= i < |mem| && i != index ==> r.value[i] == mem[i]
  {
    if index < |mem| then Ok(mem[index := value]) else Err(IndexOutOfBounds)
  }

  // ------------------------------------------------------------------------------------
  // Opcode cells

  /** The power of ten whose digit holds the mode of parameter `k` (hundreds for the first). */
  function ModeDivisor(k: nat): int
  {
    if k == 0 then 100 else if k == 1 then 1000 else 10000
  }

  /** The mode digit of parameter `k`, computed with Rust's signed `/` and `%`. */
  function ModeDigit(cell: int, k: nat): int
  {
    TruncRem(TruncDiv(cell, ModeDivisor(k)), 10)
  }

  /** The two low decimal digits of the first cell, with Rust's signed `%`. */
  function OpcodeOf(cell: int): int
  {
    TruncRem(cell, 100)
  }

  /** The digits of an opcode cell written with three mode digits come back out of it. */
  lemma OpcodeCellDigits(opcode: int, a: nat, b: nat, c: nat)
    requires 0 <= opcode < 100 && a < 10 && b < 10 && c < 10
    ensures var cell := opcode + 100 * a + 1000 * b + 10000 * c;
      OpcodeOf(cell) == opcode && ModeDigit(cell, 0) == a && ModeDigit(cell, 1) == b && ModeDigit(cell, 2) == c
  {
    var cell := opcode + 100 * a + 1000 * b + 10000 * c;
    assert cell / 100 == a + 10 * b + 100 * c;
    assert cell / 1000 == b + 10 * c;
    assert cell / 10000 == c;
  }

  // ------------------------------------------------------------------------------------
  // Program text

  /** Each comma-separated piece, trimmed, read as an `isize`; one bad piece spoils the lot. */
  function ParseNumbers(parts: seq<string>): (r: Option<seq<int>>)
    ensures r.Some? ==> |r.value| == |parts|
    ensures r.Some? ==> forall i :: 0 <= i < |parts| ==> ParseIsize(Trim(parts[i])) == Some(r.value[i])
    ensures r.None? ==> exists i :: 0 <= i < |parts| && ParseIsize(Trim(parts[i])).None?
  {
    if parts == [] then Some([])
    else
      match ParseIsize(Trim(parts[0]))
      case None => None
      case Some(x) =>
        match ParseNumbers(parts[1..])
        case None => None
        case Some(xs) => Some([x] + xs)
  }

  /** The memory image in a program text: `input.split(',').map(|part| part.trim().parse::<isize>())`. */
  function ParseProgram(text: string): Option<seq<int>>
  {
    ParseNumbers(Split(text, ','))
  }

  /** A program written out as comma-separated decimal numbers. */
  function ShowProgram(program: seq<int>): (text: string)
    requires |program| >= 1
  {
    Join(seq(|program|, i requires 0 <= i < |program| => ShowInt(program[i])), ',')
  }

  /** A printed number has nothing for `trim` to remove and no comma. */
  lemma ShowIntPlain(x: int)
    ensures Trim(ShowInt(x)) == ShowInt(x) && ',' !in ShowInt(x)
  {
    var s := ShowInt(x);
    var digits := ShowNat(Abs(x));
    assert s == (if x < 0 then "-" else "") + digits;
    assert !IsWhitespace(s[0]) && !IsWhitespace(s[|s| - 1]);
    assert forall i :: 0 <= i < |s| ==> s[i] == '-' || IsDigit(s[i]);
  }

  /** Reading a printed program gives the program back, for cells in the `isize` range. */
  lemma ParseShowProgram(program: seq<int>)
    requires |program| >= 1
    requires forall i :: 0 <= i < |program| ==> ISIZE_MIN <= program[i] <= ISIZE_MAX
    ensures ParseProgram(ShowProgram(program)) == Some(program)
  {
    var parts := seq(|program|, i requires 0 <= i < |program| => ShowInt(program[i]));
    forall i | 0 <= i < |parts|
      ensures ',' !in parts[i] && ParseIsize(Trim(parts[i])) == Some(program[i])
    {
      ShowIntPlain(program[i]);
      ParseShowInt(program[i]);
    }
    JoinSplit(parts, ',');
    ParseAllPieces(parts, program);
  }

  lemma {:induction false} ParseAllPieces(parts: seq<string>, values: seq<int>)
    requires |parts| == |values|
    requires forall i :: 0 <= i < |parts| ==> ParseIsize(Trim(parts[i])) == Some(values[i])
    ensures ParseNumbers(parts) == Some(values)
    decreases |parts|
  {
    if parts != [] {
      ParseAllPieces(parts[1..], values[1..]);
      assert values == [values[0]] + values[1..];
    }
  }

}
