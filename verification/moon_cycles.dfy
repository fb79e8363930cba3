/**
 * `p24/src/main.rs`: the moons of module `Moons`, simulated one axis at a time.  Along one axis
 * the moons' coordinates and speeds evolve on their own, so `run` looks for the first tick at
 * which each axis repeats an earlier state, and combines the three counts into a common
 * multiple.  The moons are four, kept in fixed-size arrays, and the states seen so far are kept
 * in a map from state to tick.
 */
module MoonCycles {
  import opened Util
  import opened Moons
  import opened Divisibility
  import opened Cycles

  // ------------------------------------------------------------------------------------
  // One axis of a moon

  /**
   * `Moon::apply_gravity_force_x` (and `_y`, `_z`): only the speed along the axis changes, by
   * one unit towards the other moon.
   */
  function ApplyGravityForceAxis(m: Moon, other: Moon, a: Axis): (r: Moon)
    ensures r.position == m.position
    ensures Speed(r.velocity, a) == Speed(m.velocity, a) + Attraction(Coord(m.position, a), Coord(other.position, a))
    ensures forall b :: b != a ==> Speed(r.velocity, b) == Speed(m.velocity, b)
  {
    var v, d := m.velocity, Attraction(Coord(m.position, a), Coord(other.position, a));
    match a
    case X => Moon(m.position, v.(dx := v.dx + d))
    case Y => Moon(m.position, v.(dy := v.dy + d))
    case Z => Moon(m.position, v.(dz := v.dz + d))
  }

  /** `Moon::advance_x` (and `_y`, `_z`): only the coordinate along the axis moves, by its speed. */
  function AdvanceAxis(m: Moon, a: Axis): (r: Moon)
    ensures r.velocity == m.velocity
    ensures Coord(r.position, a) == Coord(m.position, a) + Speed(m.velocity, a)
    ensures forall b :: b != a ==> Coord(r.position, b) == Coord(m.position, b)
  {
    var p, v := m.position, m.velocity;
    match a
    case X => Moon(p.(x := p.x + v.dx), v)
    case Y => Moon(p.(y := p.y + v.dy), v)
    case Z => Moon(p.(z := p.z + v.dz), v)
  }

  /** The three axis steps together are the whole step of `p23`, in either part of a tick. */
  lemma AxisStepsCompose(m: Moon, other: Moon)
    ensures ApplyGravityForce(m, other)
         == ApplyGravityForceAxis(ApplyGravityForceAxis(ApplyGravityForceAxis(m, other, X), other, Y), other, Z)
    ensures Advance(m) == AdvanceAxis(AdvanceAxis(AdvanceAxis(m, X), Y), Z)
  {
  }

  /** `apply_gravity_force_x` only looks at the other moon's position. */
  lemma GravityAxisReadsPosition(m: Moon, o1: Moon, o2: Moon, a: Axis)
    requires o1.position == o2.position
    ensures ApplyGravityForceAxis(m, o1, a) == ApplyGravityForceAxis(m, o2, a)
  {
  }

  // ------------------------------------------------------------------------------------
  // A tick along one axis

  /** The moon after the pulls of `others` along axis `a`, applied in order. */
  function PullAxis(m: Moon, others: seq<Moon>, a: Axis): (r: Moon)
    ensures r.position == m.position
    decreases |others|
  {
    if others == [] then m else ApplyGravityForceAxis(PullAxis(m, others[..|others| - 1], a), others[|others| - 1], a)
  }

  /** Pulling along `a` changes the speed along `a` by the sum of the pulls, and no other speed. */
  lemma {:induction false} PullAxisMeaning(m: Moon, others: seq<Moon>, a: Axis)
    ensures Speed(PullAxis(m, others, a).velocity, a) == Speed(m.velocity, a) + PullSum(Coord(m.position, a), Coords(others, a))
    ensures forall b :: b != a ==> Speed(PullAxis(m, others, a).velocity, b) == Speed(m.velocity, b)
    decreases |others|
  {
    if others != [] {
      var front := others[..|others| - 1];
      PullAxisMeaning(m, front, a);
      assert Coords(others, a)[..|others| - 1] == Coords(front, a);
    }
  }

  lemma PullAxisSnoc(m: Moon, others: seq<Moon>, other: Moon, a: Axis)
    ensures PullAxis(m, others + [other], a) == ApplyGravityForceAxis(PullAxis(m, others, a), other, a)
  {
    assert (others + [other])[..|others|] == others;
  }

  /** The first loop of `advance_tick_x`: every moon pulled along the axis by every other. */
  function PulledAxis(ms: seq<Moon>, a: Axis): (r: seq<Moon>)
    ensures |r| == |ms|
  {
    seq(|ms|, i requires 0 <= i < |ms| => PullAxis(ms[i], Others(ms, i), a))
  }

  /** The second loop of `advance_tick_x`: every moon moved along the axis. */
  function MovedAxis(ms: seq<Moon>, a: Axis): (r: seq<Moon>)
    ensures |r| == |ms|
  {
    seq(|ms|, i requires 0 <= i < |ms| => AdvanceAxis(ms[i], a))
  }

  /** `advance_tick_x` (and `_y`, `_z`). */
  function TickAxis(ms: seq<Moon>, a: Axis): (r: seq<Moon>)
    ensures |r| == |ms|
  {
    MovedAxis(PulledAxis(ms, a), a)
  }

  /**
   * In a tick along `a` a moon's speed along `a` changes by its pulls from all the moons, and
   * its coordinate along `a` then moves by the new speed; nothing along the other axes changes.
   */
  lemma TickAxisMeaning(ms: seq<Moon>, i: nat, a: Axis)
    requires i < |ms|
    ensures Speed(TickAxis(ms, a)[i].velocity, a) == Speed(ms[i].velocity, a) + PullSum(Coord(ms[i].position, a), Coords(ms, a))
    ensures Coord(TickAxis(ms, a)[i].position, a) == Coord(ms[i].position, a) + Speed(TickAxis(ms, a)[i].velocity, a)
    ensures forall b :: b != a ==> Speed(TickAxis(ms, a)[i].velocity, b) == Speed(ms[i].velocity, b)
    ensures forall b :: b != a ==> Coord(TickAxis(ms, a)[i].position, b) == Coord(ms[i].position, b)
  {
    PullAxisMeaning(ms[i], Others(ms, i), a);
    PullFromOthers(ms, i, a);
  }

  // ------------------------------------------------------------------------------------
  // The axes are independent

  /** `ms` and `ns` are the same moons as far as axis `a` is concerned. */
  predicate SameAlong(ms: seq<Moon>, ns: seq<Moon>, a: Axis)
  {
    |ms| == |ns|
    && forall i :: 0 <= i < |ms| ==> Coord(ms[i].position, a) == Coord(ns[i].position, a) && Speed(ms[i].velocity, a) == Speed(ns[i].velocity, a)
  }

  lemma SameAlongTrans(ms: seq<Moon>, ns: seq<Moon>, ks: seq<Moon>, a: Axis)
    requires SameAlong(ms, ns, a) && SameAlong(ns, ks, a)
    ensures SameAlong(ms, ks, a)
  {
  }

  /** Moons that agree along every axis are the same moons. */
  lemma SameEverywhere(ms: seq<Moon>, ns: seq<Moon>)
    requires SameAlong(ms, ns, X) && SameAlong(ms, ns, Y) && SameAlong(ms, ns, Z)
    ensures ms == ns
  {
    forall i | 0 <= i < |ms|
      ensures ms[i] == ns[i]
    {
      assert Coord(ms[i].position, X) == Coord(ns[i].position, X) && Speed(ms[i].velocity, X) == Speed(ns[i].velocity, X);
      assert Coord(ms[i].position, Y) == Coord(ns[i].position, Y) && Speed(ms[i].velocity, Y) == Speed(ns[i].velocity, Y);
      assert Coord(ms[i].position, Z) == Coord(ns[i].position, Z) && Speed(ms[i].velocity, Z) == Speed(ns[i].velocity, Z);
    }
  }

  /** Along its own axis, the tick of `advance_tick_x` is the full tick of `p23`. */
  lemma TickAxisAgrees(ms: seq<Moon>, a: Axis)
    ensures SameAlong(TickAxis(ms, a), Tick(ms), a)
  {
    forall i | 0 <= i < |ms|
      ensures Coord(TickAxis(ms, a)[i].position, a) == Coord(Tick(ms)[i].position, a)
      ensures Speed(TickAxis(ms, a)[i].velocity, a) == Speed(Tick(ms)[i].velocity, a)
    {
      TickAxisMeaning(ms, i, a);
      TickMeaning(ms, i, a);
      PullFromOthers(ms, i, a);
    }
  }

  /** `advance_tick_x` leaves the other axes untouched. */
  lemma TickAxisKeeps(ms: seq<Moon>, a: Axis, b: Axis)
    requires b != a
    ensures SameAlong(TickAxis(ms, a), ms, b)
  {
    forall i | 0 <= i < |ms|
      ensures Coord(TickAxis(ms, a)[i].position, b) == Coord(ms[i].position, b)
      ensures Speed(TickAxis(ms, a)[i].velocity, b) == Speed(ms[i].velocity, b)
    {
      TickAxisMeaning(ms, i, a);
    }
  }

  /** What a full tick does along one axis depends only on that axis. */
  lemma TickAlong(ms: seq<Moon>, ns: seq<Moon>, a: Axis)
    requires SameAlong(ms, ns, a)
    ensures SameAlong(Tick(ms), Tick(ns), a)
  {
    assert Coords(ms, a) == Coords(ns, a);
    forall i | 0 <= i < |ms|
      ensures Coord(Tick(ms)[i].position, a) == Coord(Tick(ns)[i].position, a)
      ensures Speed(Tick(ms)[i].velocity, a) == Speed(Tick(ns)[i].velocity, a)
    {
      TickMeaning(ms, i, a);
      TickMeaning(ns, i, a);
      PullFromOthers(ms, i, a);
      PullFromOthers(ns, i, a);
    }
  }

  /** `advance_tick_x` as a step function on the moons. */
  function TickOf(a: Axis): (seq<Moon> -> seq<Moon>)
  {
    ms => TickAxis(ms, a)
  }

  /** Along its own axis, the simulation of `p24` follows the full simulation of `p23`. */
  lemma {:induction false} TicksAgree(ms: seq<Moon>, a: Axis, n: nat)
    ensures SameAlong(Iterate(TickOf(a), ms, n), Ticks(ms, n), a)
  {
    if n > 0 {
      TicksAgree(ms, a, n - 1);
      var p, q := Iterate(TickOf(a), ms, n - 1), Ticks(ms, n - 1);
      TickAxisAgrees(p, a);
      TickAlong(p, q, a);
      SameAlongTrans(TickAxis(p, a), Tick(p), Tick(q), a);
    }
  }

  /** The sums of the speeds along one axis. */
  lemma {:induction false} VelocitySumAlong(ms: seq<Moon>, ns: seq<Moon>, a: Axis)
    requires SameAlong(ms, ns, a)
    ensures VelocitySum(ms, a) == VelocitySum(ns, a)
    decreases |ms|
  {
    if ms != [] {
      var n := |ms| - 1;
      assert SameAlong(ms[..n], ns[..n], a) by {
        forall i | 0 <= i < n
          ensures ms[..n][i] == ms[i] && ns[..n][i] == ns[i]
        {
        }
      }
      VelocitySumAlong(ms[..n], ns[..n], a);
    }
  }

  /** `advance_tick_x` leaves the sum of the speeds along its axis as it was. */
  lemma TickAxisKeepsVelocitySum(ms: seq<Moon>, a: Axis)
    ensures VelocitySum(TickAxis(ms, a), a) == VelocitySum(ms, a)
  {
    TickAxisAgrees(ms, a);
    VelocitySumAlong(TickAxis(ms, a), Tick(ms), a);
    TickKeepsVelocitySum(ms, a);
  }

  // ------------------------------------------------------------------------------------
  // A tick can be undone

  lemma PositionExt(p: Position, q: Position)
    requires Coord(p, X) == Coord(q, X) && Coord(p, Y) == Coord(q, Y) && Coord(p, Z) == Coord(q, Z)
    ensures p == q
  {
  }

  lemma VelocityExt(v: Velocity, w: Velocity)
    requires Speed(v, X) == Speed(w, X) && Speed(v, Y) == Speed(w, Y) && Speed(v, Z) == Speed(w, Z)
    ensures v == w
  {
  }

  /** A moon's position before a tick along `a` is its position after it less its new speed. */
  lemma TickAxisBackPosition(ms: seq<Moon>, ns: seq<Moon>, a: Axis, i: nat)
    requires |ms| == |ns| && i < |ms| && TickAxis(ms, a)[i] == TickAxis(ns, a)[i]
    ensures ms[i].position == ns[i].position
  {
    TickAxisMeaning(ms, i, a);
    TickAxisMeaning(ns, i, a);
    PositionExt(ms[i].position, ns[i].position);
  }

  /** Once the positions before the tick are known, so are the pulls and the speeds before it. */
  lemma TickAxisBackVelocity(ms: seq<Moon>, ns: seq<Moon>, a: Axis, i: nat)
    requires |ms| == |ns| && i < |ms| && TickAxis(ms, a)[i] == TickAxis(ns, a)[i]
    requires ms[i].position == ns[i].position && Coords(ms, a) == Coords(ns, a)
    ensures ms[i].velocity == ns[i].velocity
  {
    TickAxisMeaning(ms, i, a);
    TickAxisMeaning(ns, i, a);
    VelocityExt(ms[i].velocity, ns[i].velocity);
  }

  /**
   * The state before a tick along `a` is determined by the state after it: the coordinates are
   * the new ones less the new speeds, and then the pulls, and so the old speeds, are known.
   */
  lemma TickAxisInjective(a: Axis)
    ensures Injective(TickOf(a))
  {
    forall ms, ns | TickOf(a)(ms) == TickOf(a)(ns)
      ensures ms == ns
    {
      TickAxisUndo(ms, ns, a);
    }
  }

  lemma TickAxisUndo(ms: seq<Moon>, ns: seq<Moon>, a: Axis)
    requires TickAxis(ms, a) == TickAxis(ns, a)
    ensures ms == ns
  {
    assert |ms| == |ns|;
    forall i | 0 <= i < |ms|
      ensures ms[i].position == ns[i].position
    {
      TickAxisBackPosition(ms, ns, a, i);
    }
    assert Coords(ms, a) == Coords(ns, a);
    forall i | 0 <= i < |ms|
      ensures ms[i] == ns[i]
    {
      TickAxisBackVelocity(ms, ns, a, i);
    }
  }

  /** When every axis is back at its start after `n` ticks, so are the moons of `p23`. */
  lemma ReturnsToStart(ms: seq<Moon>, n: nat)
    requires Iterate(TickOf(X), ms, n) == ms && Iterate(TickOf(Y), ms, n) == ms && Iterate(TickOf(Z), ms, n) == ms
    ensures Ticks(ms, n) == ms
  {
    TicksAgree(ms, X, n);
    TicksAgree(ms, Y, n);
    TicksAgree(ms, Z, n);
    SameEverywhere(Ticks(ms, n), ms);
  }

  // ------------------------------------------------------------------------------------
  // `advance_tick_x` on the array of moons

  /** One of the two inner loops of `advance_tick_x`: moon `midx` pulled by moons `lo` to `hi`. */
  method PullRangeAxis(moons: array<Moon>, a: Axis, midx: nat, lo: nat, hi: nat, ghost start: seq<Moon>, ghost done: seq<Moon>)
    requires midx < moons.Length == |start| && lo <= hi <= moons.Length && (midx < lo || hi <= midx)
    requires forall k :: 0 <= k < moons.Length ==> moons[k].position == start[k].position
    requires moons[midx] == PullAxis(start[midx], done, a)
    modifies moons
    ensures moons[..] == old(moons[..])[midx := PullAxis(start[midx], done + start[lo..hi], a)]
  {
    assert done + start[lo..lo] == done;
    for j := lo to hi
      invariant moons[midx] == PullAxis(start[midx], done + start[lo..j], a)
      invariant forall k :: 0 <= k < moons.Length && k != midx ==> moons[k] == old(moons[k])
    {
      SliceSnoc(done, start, lo, j);
      PullOnce(moons, a, midx, j, start, done + start[lo..j]);
    }
  }

  /** One step of the inner loops: `to_update.apply_gravity_force_x(other)`. */
  method PullOnce(moons: array<Moon>, a: Axis, midx: nat, j: nat, ghost start: seq<Moon>, ghost pulled: seq<Moon>)
    requires midx < moons.Length == |start| && j < moons.Length && j != midx
    requires moons[j].position == start[j].position && moons[midx] == PullAxis(start[midx], pulled, a)
    modifies moons
    ensures moons[midx] == PullAxis(start[midx], pulled + [start[j]], a)
    ensures forall k :: 0 <= k < moons.Length && k != midx ==> moons[k] == old(moons[k])
  {
    PullAxisSnoc(start[midx], pulled, start[j], a);
    GravityAxisReadsPosition(moons[midx], moons[j], start[j], a);
    moons[midx] := ApplyGravityForceAxis(moons[midx], moons[j], a);
  }

  /** The body of the first loop of `advance_tick_x`: moon `midx` pulled by all the others. */
  method PullMoonAxis(moons: array<Moon>, a: Axis, midx: nat, ghost start: seq<Moon>)
    requires midx < moons.Length == |start|
    requires forall k :: 0 <= k < moons.Length ==> moons[k].position == start[k].position
    requires moons[midx] == start[midx]
    modifies moons
    ensures moons[..] == old(moons[..])[midx := PullAxis(start[midx], Others(start, midx), a)]
  {
    PullRangeAxis(moons, a, midx, 0, midx, start, []);
    assert start[..midx] == [] + start[0..midx];
    PullRangeAxis(moons, a, midx, midx + 1, moons.Length, start, start[..midx]);
    assert start[midx + 1..moons.Length] == start[midx + 1..];
  }

  /** The first loop of `advance_tick_x`. */
  method ApplyGravityAxis(moons: array<Moon>, a: Axis)
    modifies moons
    ensures moons[..] == PulledAxis(old(moons[..]), a)
  {
    ghost var start := moons[..];
    for midx := 0 to moons.Length
      invariant moons[..midx] == PulledAxis(start, a)[..midx]
      invariant moons[midx..] == start[midx..]
      invariant forall k :: 0 <= k < moons.Length ==> moons[k].position == start[k].position
    {
      assert moons[midx] == moons[midx..][0];
      ghost var before := moons[..];
      PullMoonAxis(moons, a, midx, start);
      assert moons[..midx + 1] == PulledAxis(start, a)[..midx + 1];
      assert moons[midx + 1..] == before[midx + 1..];
    }
    assert moons[..] == moons[..moons.Length];
  }

  /** The second loop of `advance_tick_x`. */
  method MoveAxis(moons: array<Moon>, a: Axis)
    modifies moons
    ensures moons[..] == MovedAxis(old(moons[..]), a)
  {
    for k := 0 to moons.Length
      invariant moons[..k] == MovedAxis(old(moons[..]), a)[..k]
      invariant moons[k..] == old(moons[..])[k..]
    {
      assert moons[k] == moons[k..][0];
      moons[k] := AdvanceAxis(moons[k], a);
      assert moons[..k + 1] == MovedAxis(old(moons[..]), a)[..k + 1];
    }
    assert moons[..] == moons[..moons.Length];
  }

  /** `advance_tick_x` (and `_y`, `_z`): the tick along one axis, in place. */
  method AdvanceTickAxis(moons: array<Moon>, a: Axis)
    modifies moons
    ensures moons[..] == TickAxis(old(moons[..]), a)
  {
    ApplyGravityAxis(moons, a);
    MoveAxis(moons, a);
  }

  // ------------------------------------------------------------------------------------
  // The cycle search and `run`

  /**
   * Why `run` gives no answer: a line that is not a moon, fewer than four moons (indexing
   * `moons[3]` panics), or an axis that does not repeat within the ticks allowed.
   */
  datatype CycleError = BadMoon(error: MoonError) | TooFewMoons | OutOfFuel

  /**
   * One of the three loops of `run`: record each state with its tick until a state comes back,
   * and break with that tick.  At most `fuel` ticks are simulated.
   */
  method FindRepeat(moons: array<Moon>, a: Axis, fuel: nat) returns (r: Result<nat, CycleError>)
    modifies moons
    ensures r.Ok? ==> FirstRepeat(TickOf(a), old(moons[..]), r.value) && r.value <= fuel
    ensures r.Err? ==> r.error == OutOfFuel && NoRepeatWithin(TickOf(a), old(moons[..]), fuel)
  {
    ghost var start := moons[..];
    ghost var step := TickOf(a);
    var states: map<seq<Moon>, nat> := map[];
    var counter: nat := 0;
    SeenNothing(step, start);
    while true
      invariant counter <= fuel
      invariant moons[..] == Iterate(step, start, counter)
      invariant Seen(step, start, states, counter)
      decreases fuel - counter
    {
      var state := moons[..];
      if state in states {
        SeenFound(step, start, states, counter);
        return Ok(counter);
      }
      if counter == fuel {
        SeenNew(step, start, states, counter);
        return Err(OutOfFuel);
      }
      SeenAdd(step, start, states, counter);
      states := states[state := counter];
      AdvanceTickAxis(moons, a);
      counter := counter + 1;
    }
  }

  /** `run` after parsing: the answer for the four moons `start`, or the axis that did not repeat. */
  ghost predicate IsAnswer(start: seq<Moon>, fuel: nat, r: Result<nat, CycleError>)
  {
    && (r.Err? ==> (r.error == OutOfFuel
          && (NoRepeatWithin(TickOf(X), start, fuel) || NoRepeatWithin(TickOf(Y), start, fuel) || NoRepeatWithin(TickOf(Z), start, fuel))))
    && (r.Ok? ==> exists px, py, pz :: (FirstRepeat(TickOf(X), start, px) && FirstRepeat(TickOf(Y), start, py)
                                       && FirstRepeat(TickOf(Z), start, pz) && px > 0 && py > 0 && pz > 0
                                       && r.value == Lcm(pz, Lcm(px, py))))
  }

  /**
   * The three loops of `run` and the combination of their counts as `lcm(z, lcm(x, y))`: the
   * result is a step count after which the four moons are all back where they started.
   */
  method Period(start: seq<Moon>, fuel: nat) returns (r: Result<nat, CycleError>)
    requires |start| == 4
    ensures IsAnswer(start, fuel, r)
    ensures r.Ok? ==> Ticks(start, r.value) == start
  {
    var xmoons := new Moon[4](i requires 0 <= i < 4 => start[i]);
    var ymoons := new Moon[4](i requires 0 <= i < 4 => start[i]);
    var zmoons := new Moon[4](i requires 0 <= i < 4 => start[i]);
    assert xmoons[..] == start && ymoons[..] == start && zmoons[..] == start;
    var resx :- FindRepeat(xmoons, X, fuel);
    var resy :- FindRepeat(ymoons, Y, fuel);
    var resz :- FindRepeat(zmoons, Z, fuel);
    TickAxisInjective(X);
    TickAxisInjective(Y);
    TickAxisInjective(Z);
    FirstRepeatIsStart(TickOf(X), start, resx);
    FirstRepeatIsStart(TickOf(Y), start, resy);
    FirstRepeatIsStart(TickOf(Z), start, resz);
    var res := Combine(resx, resy, resz);
    PeriodOfCommonMultiple(start, resx, resy, resz, res);
    return Ok(res);
  }

  /** The last lines of `run`: `f = resx * resy / gcd(resx, resy)`, then `resz * f / gcd(resz, f)`. */
  method Combine(resx: nat, resy: nat, resz: nat) returns (res: nat)
    requires resx > 0 && resy > 0 && resz > 0
    ensures res == Lcm(resz, Lcm(resx, resy))
    ensures Divides(resx, res) && Divides(resy, res) && Divides(resz, res)
  {
    var g := Gcd(resx, resy);
    LcmMultiple(resx, resy);
    var f: nat := (resx * resy) / g;
    var h := Gcd(resz, f);
    LcmMultiple(resz, f);
    res := (resz * f) / h;
    DividesTrans(resx, f, res);
    DividesTrans(resy, f, res);
  }

  /**
   * `run`: read the moons, take the first four (indexing `moons[3]` panics when there are
   * fewer) and find their common period.
   */
  method Run(input: string, fuel: nat) returns (r: Result<nat, CycleError>)
    ensures var parsed := ParseAll(FromStr, NonEmptyLines(input));
      && (parsed.Err? ==> r == Err(BadMoon(parsed.error)))
      && (parsed.Ok? && |parsed.value| < 4 ==> r == Err(TooFewMoons))
      && (parsed.Ok? && |parsed.value| >= 4 ==> IsAnswer(parsed.value[..4], fuel, r))
      && (r.Ok? ==> parsed.Ok? && |parsed.value| >= 4 && Ticks(parsed.value[..4], r.value) == parsed.value[..4])
  {
    var parsed := ParseAll(FromStr, NonEmptyLines(input));
    if parsed.Err? {
      return Err(BadMoon(parsed.error));
    }
    var ms := parsed.value;
    if |ms| < 4 {
      return Err(TooFewMoons);
    }
    r := Period(ms[..4], fuel);
  }

  /** A common multiple of the three periods brings the four moons back to their start. */
  lemma PeriodOfCommonMultiple(start: seq<Moon>, px: nat, py: nat, pz: nat, res: nat)
    requires px > 0 && py > 0 && pz > 0
    requires Iterate(TickOf(X), start, px) == start && Iterate(TickOf(Y), start, py) == start
    requires Iterate(TickOf(Z), start, pz) == start
    requires res == Lcm(pz, Lcm(px, py))
    ensures Ticks(start, res) == start
  {
    DividesTrans(px, Lcm(px, py), res);
    DividesTrans(py, Lcm(px, py), res);
    ReturnsAfterMultiple(TickOf(X), start, px, res);
    ReturnsAfterMultiple(TickOf(Y), start, py, res);
    ReturnsAfterMultiple(TickOf(Z), start, pz, res);
    ReturnsToStart(start, res);
  }
}
