/**
 * `p25/src/main.rs`: the arcade cabinet.  An Intcode program prints triples `x, y, tile`; each
 * triple draws one tile on the screen, a later triple for the same position replacing an
 * earlier one, and `run` counts the positions that end up showing a block.
 *
 * The Intcode machine of `p25` (`p25/src/intcode.rs`) is not part of this model: the program is
 * taken as an arbitrary function `run` from its state to where it stops next, what it printed
 * on the way and its new state.
 */
module Arcade {
  import opened Util
  import opened Resumable

  datatype TileType = Empty | Wall | Block | Paddle | Ball

  /** Why `run` gives no answer. */
  datatype ArcadeError =
    | UnknownTile(code: int)        // `unimplemented!()` in `TileType::from`
    | BadOutputLength(length: nat)  // `assert_eq!(all_out.len() % 3, 0)` fails
    | OutOfFuel                     // the program did not halt within the runs allowed

  /** `TileType::from`: the codes 0 to 4, in the order the tiles are declared; any other code panics. */
  function FromCode(v: int): (r: Result<TileType, ArcadeError>)
    ensures r.Ok? <==> 0 <= v <= 4
    ensures r.Err? ==> r.error == UnknownTile(v)
    ensures r == Ok(Block) <==> v == 2
  {
    match v
    case 0 => Ok(Empty)
    case 1 => Ok(Wall)
    case 2 => Ok(Block)
    case 3 => Ok(Paddle)
    case 4 => Ok(Ball)
    case _ => Err(UnknownTile(v))
  }

  /** Different codes give different tiles. */
  lemma FromCodeInjective(v: int, w: int)
    requires FromCode(v).Ok? && FromCode(v) == FromCode(w)
    ensures v == w
  {
  }

  // ------------------------------------------------------------------------------------
  // Collecting the outputs

  /**
   * The loop of `run` that resumes the program, with no input, until it halts, gathering all it
   * prints after `acc`.  At most `fuel` resumptions follow the first.
   */
  function Collect<S>(run: S -> Suspension<S>, fuel: nat, s: S, acc: seq<int>): (r: Result<seq<int>, ArcadeError>)
    ensures r.Ok? ==> acc <= r.value
    decreases fuel
  {
    var stop := run(s);
    if stop.state == ProgramState.Halt then Ok(acc + stop.outputs)
    else if fuel == 0 then Err(OutOfFuel)
    else Collect(run, fuel - 1, stop.machine, acc + stop.outputs)
  }

  /** The outputs of a program that halts on its first run are what that run printed. */
  lemma CollectHalt<S>(run: S -> Suspension<S>, fuel: nat, s: S)
    requires run(s).state == ProgramState.Halt
    ensures Collect(run, fuel, s, []) == Ok(run(s).outputs)
  {
    assert [] + run(s).outputs == run(s).outputs;
  }

  /** A program that is still running after every resumption allowed gives no outputs. */
  lemma {:induction false} CollectNeverHalts<S>(run: S -> Suspension<S>, fuel: nat, s: S, acc: seq<int>)
    requires forall t :: run(t).state != ProgramState.Halt
    ensures Collect(run, fuel, s, acc) == Err(OutOfFuel)
    decreases fuel
  {
    if fuel > 0 {
      CollectNeverHalts(run, fuel - 1, run(s).machine, acc + run(s).outputs);
    }
  }

  /** The loop itself: `prog.run(&mut None)` and `all_out.extend_from_slice(&out)` until `Halt`. */
  method CollectOutputs<S>(run: S -> Suspension<S>, s0: S, fuel: nat) returns (r: Result<seq<int>, ArcadeError>)
    ensures r == Collect(run, fuel, s0, [])
  {
    var s, remaining := s0, fuel;
    var allOut: seq<int> := [];
    while true
      invariant Collect(run, fuel, s0, []) == Collect(run, remaining, s, allOut)
      decreases remaining
    {
      var stop := run(s);
      allOut := allOut + stop.outputs;
      if stop.state == ProgramState.Halt {
        return Ok(allOut);
      }
      if remaining == 0 {
        return Err(OutOfFuel);
      }
      s, remaining := stop.machine, remaining - 1;
    }
  }

  // ------------------------------------------------------------------------------------
  // The screen

  /** One chunk of three outputs. */
  datatype Draw = Draw(x: int, y: int, code: int)

  function Pos(d: Draw): (int, int)
  {
    (d.x, d.y)
  }

  /** `chunks_exact(3)` over outputs whose count is a multiple of three. */
  function Chunks(outs: seq<int>): (ds: seq<Draw>)
    requires |outs| % 3 == 0
    ensures |ds| * 3 == |outs|
    decreases |outs|
  {
    if outs == [] then [] else [Draw(outs[0], outs[1], outs[2])] + Chunks(outs[3..])
  }

  /** Chunk `k` is made of outputs `3k`, `3k + 1` and `3k + 2`. */
  lemma {:induction false} ChunksAt(outs: seq<int>, k: nat)
    requires |outs| % 3 == 0 && 3 * k + 2 < |outs|
    ensures k < |Chunks(outs)| && Chunks(outs)[k] == Draw(outs[3 * k], outs[3 * k + 1], outs[3 * k + 2])
    decreases k
  {
    if k > 0 {
      ChunksAt(outs[3..], k - 1);
      assert outs[3..][3 * (k - 1)] == outs[3 * k];
      assert outs[3..][3 * (k - 1) + 1] == outs[3 * k + 1];
      assert outs[3..][3 * (k - 1) + 2] == outs[3 * k + 2];
    }
  }

  type ScreenMap = map<(int, int), TileType>

  /** The screen after the draws `ds` in order, or the error of the first unknown tile. */
  function Screen(ds: seq<Draw>): Result<ScreenMap, ArcadeError>
    decreases |ds|
  {
    if ds == [] then Ok(map[])
    else
      var screen :- Screen(ds[..|ds| - 1]);
      var d := ds[|ds| - 1];
      var tile :- FromCode(d.code);
      Ok(screen[Pos(d) := tile])
  }

  /** The screen fails exactly when some draw has an unknown tile, and then with the first such tile. */
  lemma {:induction false} ScreenError(ds: seq<Draw>)
    ensures Screen(ds).Err? <==> exists k :: 0 <= k < |ds| && FromCode(ds[k].code).Err?
    ensures Screen(ds).Err? ==> exists k :: (0 <= k < |ds| && Screen(ds).error == UnknownTile(ds[k].code)
      && FromCode(ds[k].code).Err? && forall j :: 0 <= j < k ==> FromCode(ds[j].code).Ok?)
    decreases |ds|
  {
    if ds != [] {
      var n := |ds| - 1;
      ScreenError(ds[..n]);
      assert forall k :: 0 <= k < n ==> ds[..n][k] == ds[k];
    }
  }

  /** A position is on the screen exactly when some draw was at it. */
  lemma {:induction false} ScreenKeys(ds: seq<Draw>, p: (int, int))
    requires Screen(ds).Ok?
    ensures p in Screen(ds).value <==> exists k :: 0 <= k < |ds| && Pos(ds[k]) == p
    decreases |ds|
  {
    if ds != [] {
      var n := |ds| - 1;
      ScreenKeys(ds[..n], p);
      assert forall k :: 0 <= k < n ==> ds[..n][k] == ds[k];
    }
  }

  /** A position shows the tile of the last draw at it. */
  lemma {:induction false} LastDrawWins(ds: seq<Draw>, k: nat)
    requires Screen(ds).Ok? && k < |ds|
    requires forall j :: k < j < |ds| ==> Pos(ds[j]) != Pos(ds[k])
    ensures FromCode(ds[k].code).Ok? && Pos(ds[k]) in Screen(ds).value
    ensures Screen(ds).value[Pos(ds[k])] == FromCode(ds[k].code).value
    decreases |ds|
  {
    var n := |ds| - 1;
    if k < n {
      assert forall j :: k < j < n ==> ds[..n][j] == ds[j];
      LastDrawWins(ds[..n], k);
    }
  }

  /** The loop of `run` over `all_out.chunks_exact(3)`, inserting each tile into the screen. */
  method DrawScreen(outs: seq<int>) returns (r: Result<ScreenMap, ArcadeError>)
    requires |outs| % 3 == 0
    ensures r == Screen(Chunks(outs))
  {
    ghost var ds := Chunks(outs);
    var screen: ScreenMap := map[];
    var count := |outs| / 3;
    assert count == |ds|;
    for k := 0 to count
      invariant Screen(ds[..k]) == Ok(screen)
    {
      ChunksAt(outs, k);
      assert ds[..k + 1][..k] == ds[..k];
      var x, y := outs[3 * k], outs[3 * k + 1];
      var tile := FromCode(outs[3 * k + 2]);
      if tile.Err? {
        ScreenStops(ds, k);
        return Err(tile.error);
      }
      screen := screen[(x, y) := tile.value];
    }
    assert ds[..count] == ds;
    return Ok(screen);
  }

  /** Once a draw has an unknown tile, every longer run of draws fails with it. */
  lemma {:induction false} ScreenStops(ds: seq<Draw>, k: nat)
    requires k < |ds| && Screen(ds[..k]).Ok? && FromCode(ds[k].code).Err?
    ensures Screen(ds) == Err(UnknownTile(ds[k].code))
    decreases |ds|
  {
    var n := |ds| - 1;
    assert ds[..k + 1][..k] == ds[..k];
    if k < n {
      assert ds[..n][..k] == ds[..k];
      ScreenStops(ds[..n], k);
    }
  }

  // ------------------------------------------------------------------------------------
  // Counting the blocks

  /** The positions among `ks` that show a block. */
  function BlocksAmong(screen: ScreenMap, ks: set<(int, int)>): set<(int, int)>
    requires ks <= screen.Keys
  {
    set p | p in ks && screen[p] == Block
  }

  /** One more position adds one more block exactly when it shows a block. */
  lemma BlocksAdd(screen: ScreenMap, ks: set<(int, int)>, p: (int, int))
    requires ks <= screen.Keys && p in screen && p !in ks
    ensures |BlocksAmong(screen, ks + {p})| == |BlocksAmong(screen, ks)| + (if screen[p] == Block then 1 else 0)
  {
    if screen[p] == Block {
      assert BlocksAmong(screen, ks + {p}) == BlocksAmong(screen, ks) + {p};
    } else {
      assert BlocksAmong(screen, ks + {p}) == BlocksAmong(screen, ks);
    }
  }

  /** `screen.values().map(|x| if Block then 1 else 0).sum()`: the number of positions showing a block. */
  method CountBlocks(screen: ScreenMap) returns (n: nat)
    ensures n == |BlocksAmong(screen, screen.Keys)|
    ensures n <= |screen|
  {
    var todo := screen.Keys;
    n := 0;
    while todo != {}
      invariant todo <= screen.Keys
      invariant n == |BlocksAmong(screen, screen.Keys - todo)|
      decreases |todo|
    {
      var p :| p in todo;
      BlocksAdd(screen, screen.Keys - todo, p);
      assert screen.Keys - (todo - {p}) == (screen.Keys - todo) + {p};
      if screen[p] == Block {
        n := n + 1;
      }
      todo := todo - {p};
    }
    assert screen.Keys - todo == screen.Keys;
    assert BlocksAmong(screen, screen.Keys) <= screen.Keys;
    SubsetCard(BlocksAmong(screen, screen.Keys), screen.Keys);
    assert |screen.Keys| == |screen|;
  }

  lemma SubsetCard<T>(a: set<T>, b: set<T>)
    requires a <= b
    ensures |a| <= |b|
  {
    assert b == a + (b - a);
  }

  // ------------------------------------------------------------------------------------
  // `run`

  /** What `run` computes for the program `run` started in state `s0`. */
  function Answer<S>(run: S -> Suspension<S>, s0: S, fuel: nat): Result<nat, ArcadeError>
  {
    var outs :- Collect(run, fuel, s0, []);
    if |outs| % 3 != 0 then Err(BadOutputLength(|outs|))
    else
      var screen :- Screen(Chunks(outs));
      Ok(|BlocksAmong(screen, screen.Keys)|)
  }

  /**
   * `run`: collect everything the program prints, check that it comes in triples, draw the
   * screen and count the blocks on it.
   */
  method Run<S>(run: S -> Suspension<S>, s0: S, fuel: nat) returns (r: Result<nat, ArcadeError>)
    ensures r == Answer(run, s0, fuel)
  {
    var allOut :- CollectOutputs(run, s0, fuel);
    if |allOut| % 3 != 0 {
      return Err(BadOutputLength(|allOut|));
    }
    var screen :- DrawScreen(allOut);
    var blocks := CountBlocks(screen);
    return Ok(blocks);
  }

  /** The count is at most the number of triples printed. */
  lemma AnswerBound<S>(run: S -> Suspension<S>, s0: S, fuel: nat)
    requires Answer(run, s0, fuel).Ok?
    ensures Answer(run, s0, fuel).value * 3 <= |Collect(run, fuel, s0, []).value|
  {
    var outs := Collect(run, fuel, s0, []).value;
    var ds := Chunks(outs);
    var screen := Screen(ds).value;
    ScreenKeysBound(ds);
    SubsetCard(BlocksAmong(screen, screen.Keys), screen.Keys);
  }

  /** There are no more positions on the screen than draws. */
  lemma {:induction false} ScreenKeysBound(ds: seq<Draw>)
    requires Screen(ds).Ok?
    ensures |Screen(ds).value.Keys| <= |ds|
    decreases |ds|
  {
    if ds != [] {
      var n := |ds| - 1;
      ScreenKeysBound(ds[..n]);
      var screen := Screen(ds[..n]).value;
      var d := ds[n];
      assert Screen(ds).value.Keys == screen.Keys + {Pos(d)};
      SetAddOne(screen.Keys, Pos(d));
    }
  }

  lemma SetAddOne<T>(a: set<T>, x: T)
    ensures |a + {x}| <= |a| + 1
  {
    if x !in a {
      assert |a + {x}| == |a| + 1;
    } else {
      assert a + {x} == a;
    }
  }
}
