/**
 * The moons of `p23/src/main.rs`: each moon has a position and a velocity; in a tick every moon
 * is pulled one unit towards every other moon along each axis, measured on the positions before
 * the tick, and then moves by its velocity.  `p24/src/main.rs` declares the same moons and the
 * same parser, and works on one axis at a time (module `MoonCycles`).
 */
module Moons {
  import opened Util

  datatype Position = Position(x: int, y: int, z: int)

  datatype Velocity = Velocity(dx: int, dy: int, dz: int)

  datatype Moon = Moon(position: Position, velocity: Velocity)

  datatype Axis = X | Y | Z

  function Coord(p: Position, a: Axis): int
  {
    match a
    case X => p.x
    case Y => p.y
    case Z => p.z
  }

  function Speed(v: Velocity, a: Axis): int
  {
    match a
    case X => v.dx
    case Y => v.dy
    case Z => v.dz
  }

  /** The velocity change `cmp(own, other)` selects: towards the other coordinate, or none. */
  function Attraction(own: int, other: int): (d: int)
    ensures d == 1 <==> own < other
    ensures d == 0 <==> own == other
    ensures d == -1 <==> own > other
  {
    if own < other then 1 else if own == other then 0 else -1
  }

  /** Two moons pull each other by opposite amounts. */
  lemma AttractionOpposite(a: int, b: int)
    ensures Attraction(a, b) == -Attraction(b, a)
  {
  }

  /**
   * `Moon::apply_gravity_force`: the moon's velocity changes by one unit towards `other` on
   * each axis where their positions differ; only `other`'s position is looked at, and the
   * moon's own position does not change.
   */
  function ApplyGravityForce(m: Moon, other: Moon): (r: Moon)
    ensures r.position == m.position
    ensures forall a :: Speed(r.velocity, a) == Speed(m.velocity, a) + Attraction(Coord(m.position, a), Coord(other.position, a))
  {
    var p, q := m.position, other.position;
    Moon(p, Velocity(m.velocity.dx + Attraction(p.x, q.x),
                     m.velocity.dy + Attraction(p.y, q.y),
                     m.velocity.dz + Attraction(p.z, q.z)))
  }

  /** `Moon::advance`: the position moves by the velocity, which stays as it is. */
  function Advance(m: Moon): (r: Moon)
    ensures r.velocity == m.velocity
    ensures forall a :: Coord(r.position, a) == Coord(m.position, a) + Speed(m.velocity, a)
  {
    var p, v := m.position, m.velocity;
    Moon(Position(p.x + v.dx, p.y + v.dy, p.z + v.dz), v)
  }

  /** The examples of `test_advance`: standing still, then moving by (2, 1, -3). */
  lemma AdvanceExamples()
    ensures Advance(Moon(Position(2, -3, -14), Velocity(0, 0, 0))) == Moon(Position(2, -3, -14), Velocity(0, 0, 0))
    ensures Advance(Moon(Position(2, -3, -14), Velocity(2, 1, -3))) == Moon(Position(4, -2, -17), Velocity(2, 1, -3))
  {
  }

  /** `Moon::energy`: the potential energy times the kinetic energy. */
  function Energy(m: Moon): nat
  {
    var p, v := m.position, m.velocity;
    (Abs(p.x) + Abs(p.y) + Abs(p.z)) * (Abs(v.dx) + Abs(v.dy) + Abs(v.dz))
  }

  /** A product of two naturals is zero exactly when one of them is. */
  lemma ProductZero(p: nat, k: nat)
    ensures p * k == 0 <==> p == 0 || k == 0
  {
    if p > 0 && k > 0 {
      assert p * k == k + (p - 1) * k;
    }
  }

  /** A moon has no energy exactly when it sits at the origin or stands still. */
  lemma EnergyMeaning(m: Moon)
    ensures Energy(m) == 0 <==> m.position == Position(0, 0, 0) || m.velocity == Velocity(0, 0, 0)
  {
    var p, v := m.position, m.velocity;
    ProductZero(Abs(p.x) + Abs(p.y) + Abs(p.z), Abs(v.dx) + Abs(v.dy) + Abs(v.dz));
  }

  /** The example of `test_energy`. */
  lemma EnergyExample()
    ensures Energy(Moon(Position(2, 1, -3), Velocity(-3, -2, 1))) == 36
  {
  }

  // ------------------------------------------------------------------------------------
  // A tick

  /** The moon after the pulls of `others`, applied in order. */
  function Pull(m: Moon, others: seq<Moon>): (r: Moon)
    ensures r.position == m.position
    decreases |others|
  {
    if others == [] then m else ApplyGravityForce(Pull(m, others[..|others| - 1]), others[|others| - 1])
  }

  /** The coordinates of the moons along one axis. */
  function Coords(ms: seq<Moon>, a: Axis): (cs: seq<int>)
    ensures |cs| == |ms| && forall i :: 0 <= i < |ms| ==> cs[i] == Coord(ms[i].position, a)
  {
    seq(|ms|, i requires 0 <= i < |ms| => Coord(ms[i].position, a))
  }

  /** The total pull on a moon at coordinate `own` from moons at coordinates `cs`. */
  function PullSum(own: int, cs: seq<int>): int
    decreases |cs|
  {
    if cs == [] then 0 else PullSum(own, cs[..|cs| - 1]) + Attraction(own, cs[|cs| - 1])
  }

  /** Pulling changes each velocity component by the sum of the pulls along that axis. */
  lemma {:induction false} PullMeaning(m: Moon, others: seq<Moon>, a: Axis)
    ensures Speed(Pull(m, others).velocity, a) == Speed(m.velocity, a) + PullSum(Coord(m.position, a), Coords(others, a))
    decreases |others|
  {
    if others != [] {
      var front := others[..|others| - 1];
      PullMeaning(m, front, a);
      assert Coords(others, a)[..|others| - 1] == Coords(front, a);
    }
  }

  /** The pull only looks at the other moons' positions. */
  lemma {:induction false} PullReadsPositions(m: Moon, xs: seq<Moon>, ys: seq<Moon>)
    requires |xs| == |ys| && forall k :: 0 <= k < |xs| ==> xs[k].position == ys[k].position
    ensures Pull(m, xs) == Pull(m, ys)
    decreases |xs|
  {
    if xs != [] {
      PullReadsPositions(m, xs[..|xs| - 1], ys[..|ys| - 1]);
    }
  }

  /** Pulling by one more moon is one more `apply_gravity_force`. */
  lemma PullSnoc(m: Moon, others: seq<Moon>, other: Moon)
    ensures Pull(m, others + [other]) == ApplyGravityForce(Pull(m, others), other)
  {
    assert (others + [other])[..|others|] == others;
  }

  /** All moons except moon `i`. */
  function Others(ms: seq<Moon>, i: nat): (r: seq<Moon>)
    requires i < |ms|
    ensures |r| == |ms| - 1
  {
    ms[..i] + ms[i + 1..]
  }

  /** The first half of `advance_tick`: every moon pulled by every other, on the positions before the tick. */
  function Pulled(ms: seq<Moon>): (r: seq<Moon>)
    ensures |r| == |ms|
  {
    seq(|ms|, i requires 0 <= i < |ms| => Pull(ms[i], Others(ms, i)))
  }

  /** The second half of `advance_tick`: every moon moved by its velocity. */
  function Moved(ms: seq<Moon>): (r: seq<Moon>)
    ensures |r| == |ms|
  {
    seq(|ms|, i requires 0 <= i < |ms| => Advance(ms[i]))
  }

  /**
   * `advance_tick`: every moon is pulled by every other moon, all on the positions before the
   * tick, and then every moon moves.
   */
  function Tick(ms: seq<Moon>): (r: seq<Moon>)
    ensures |r| == |ms|
  {
    Moved(Pulled(ms))
  }

  /**
   * In a tick a moon's velocity changes along each axis by its pulls from the other moons,
   * measured before the tick, and its position then moves by the new velocity.
   */
  lemma TickMeaning(ms: seq<Moon>, i: nat, a: Axis)
    requires i < |ms|
    ensures Speed(Tick(ms)[i].velocity, a) == Speed(ms[i].velocity, a) + PullSum(Coord(ms[i].position, a), Coords(Others(ms, i), a))
    ensures Coord(Tick(ms)[i].position, a) == Coord(ms[i].position, a) + Speed(Tick(ms)[i].velocity, a)
  {
    PullMeaning(ms[i], Others(ms, i), a);
  }

  // ------------------------------------------------------------------------------------
  // The pulls cancel

  /** The sum of the velocity components of the moons along one axis. */
  function VelocitySum(ms: seq<Moon>, a: Axis): int
    decreases |ms|
  {
    if ms == [] then 0 else VelocitySum(ms[..|ms| - 1], a) + Speed(ms[|ms| - 1].velocity, a)
  }

  /** The pulls on the moons at `cs` from the moons at `ds`, all added up. */
  function TotalPull(cs: seq<int>, ds: seq<int>): int
    decreases |cs|
  {
    if cs == [] then 0 else TotalPull(cs[..|cs| - 1], ds) + PullSum(cs[|cs| - 1], ds)
  }

  /** The pulls on one moon from the moons at `cs`: sums over concatenations split. */
  lemma {:induction false} PullSumAppend(own: int, cs: seq<int>, ds: seq<int>)
    ensures PullSum(own, cs + ds) == PullSum(own, cs) + PullSum(own, ds)
    decreases |ds|
  {
    if ds == [] {
      assert cs + ds == cs;
    } else {
      var n := |ds| - 1;
      PullSumAppend(own, cs, ds[..n]);
      assert (cs + ds)[..|cs + ds| - 1] == cs + ds[..n];
      assert (cs + ds)[|cs + ds| - 1] == ds[n];
    }
  }

  /** The pulls towards a moon at `d` from each moon at `cs`. */
  function PullTo(cs: seq<int>, d: int): int
    decreases |cs|
  {
    if cs == [] then 0 else PullTo(cs[..|cs| - 1], d) + Attraction(cs[|cs| - 1], d)
  }

  lemma {:induction false} PullToOpposite(cs: seq<int>, d: int)
    ensures PullTo(cs, d) == -PullSum(d, cs)
    decreases |cs|
  {
    if cs != [] {
      PullToOpposite(cs[..|cs| - 1], d);
      AttractionOpposite(cs[|cs| - 1], d);
    }
  }

  lemma {:induction false} TotalPullSnoc(cs: seq<int>, ds: seq<int>, d: int)
    ensures TotalPull(cs, ds + [d]) == TotalPull(cs, ds) + PullTo(cs, d)
    decreases |cs|
  {
    if cs != [] {
      var n := |cs| - 1;
      TotalPullSnoc(cs[..n], ds, d);
      PullSumAppend(cs[n], ds, [d]);
    }
  }

  /** Every pull between two moons is matched by an opposite one, so all pulls add up to 0. */
  lemma {:induction false} PullsCancel(cs: seq<int>)
    ensures TotalPull(cs, cs) == 0
    decreases |cs|
  {
    if cs != [] {
      var n := |cs| - 1;
      var front, c := cs[..n], cs[n];
      assert cs == front + [c];
      PullsCancel(front);
      TotalPullSnoc(front, front, c);
      PullToOpposite(front, c);
      PullSumAppend(c, front, [c]);
    }
  }

  /** Leaving out the moon itself changes nothing, since a moon does not pull itself. */
  lemma PullFromOthers(ms: seq<Moon>, i: nat, a: Axis)
    requires i < |ms|
    ensures PullSum(Coord(ms[i].position, a), Coords(Others(ms, i), a)) == PullSum(Coord(ms[i].position, a), Coords(ms, a))
  {
    var c := Coord(ms[i].position, a);
    assert Coords(Others(ms, i), a) == Coords(ms[..i], a) + Coords(ms[i + 1..], a);
    assert Coords(ms, a) == Coords(ms[..i], a) + [c] + Coords(ms[i + 1..], a);
    PullSumAppend(c, Coords(ms[..i], a), Coords(ms[i + 1..], a));
    PullSumAppend(c, Coords(ms[..i], a) + [c], Coords(ms[i + 1..], a));
    PullSumAppend(c, Coords(ms[..i], a), [c]);
  }

  lemma VelocitySumSnoc(ms: seq<Moon>, a: Axis, k: nat)
    requires k < |ms|
    ensures VelocitySum(ms[..k + 1], a) == VelocitySum(ms[..k], a) + Speed(ms[k].velocity, a)
  {
    assert ms[..k + 1][..k] == ms[..k];
  }

  lemma TotalPullSnocLeft(cs: seq<int>, ds: seq<int>, k: nat)
    requires k < |cs|
    ensures TotalPull(cs[..k + 1], ds) == TotalPull(cs[..k], ds) + PullSum(cs[k], ds)
  {
    assert cs[..k + 1][..k] == cs[..k];
  }

  /** Along the first `k` moons, the tick adds the pulls on them to their velocities. */
  lemma {:induction false} TickVelocityPrefix(ms: seq<Moon>, a: Axis, k: nat)
    requires k <= |ms|
    ensures VelocitySum(Tick(ms)[..k], a) == VelocitySum(ms[..k], a) + TotalPull(Coords(ms, a)[..k], Coords(ms, a))
    decreases k
  {
    if k > 0 {
      var i := k - 1;
      TickVelocityPrefix(ms, a, i);
      VelocitySumSnoc(Tick(ms), a, i);
      VelocitySumSnoc(ms, a, i);
      TotalPullSnocLeft(Coords(ms, a), Coords(ms, a), i);
      TickMeaning(ms, i, a);
      PullFromOthers(ms, i, a);
    }
  }

  /** A tick leaves the sum of the velocities along each axis as it was. */
  lemma TickKeepsVelocitySum(ms: seq<Moon>, a: Axis)
    ensures VelocitySum(Tick(ms), a) == VelocitySum(ms, a)
  {
    TickVelocityPrefix(ms, a, |ms|);
    assert Tick(ms)[..|ms|] == Tick(ms);
    assert ms[..|ms|] == ms;
    assert Coords(ms, a)[..|ms|] == Coords(ms, a);
    PullsCancel(Coords(ms, a));
  }

  // ------------------------------------------------------------------------------------
  // `advance_tick` on the slice of moons

  /**
   * The pulls on moon `midx` in `advance_tick`: first from the moons before it, which have been
   * pulled already but not moved, then from the moons after it.
   */
  method PullMoon(moons: array<Moon>, midx: nat, ghost start: seq<Moon>)
    requires midx < moons.Length == |start|
    requires forall k :: 0 <= k < moons.Length ==> moons[k].position == start[k].position
    requires moons[midx] == start[midx]
    modifies moons
    ensures moons[..] == old(moons[..])[midx := Pull(start[midx], Others(start, midx))]
  {
    PullRange(moons, midx, 0, midx, start, []);
    assert start[..midx] == [] + start[0..midx];
    PullRange(moons, midx, midx + 1, moons.Length, start, start[..midx]);
    assert start[midx + 1..moons.Length] == start[midx + 1..];
  }

  /** One of the two inner loops of `advance_tick`: moon `midx` pulled by moons `lo` to `hi`. */
  method PullRange(moons: array<Moon>, midx: nat, lo: nat, hi: nat, ghost start: seq<Moon>, ghost done: seq<Moon>)
    requires midx < moons.Length == |start| && lo <= hi <= moons.Length && (midx < lo || hi <= midx)
    requires forall k :: 0 <= k < moons.Length ==> moons[k].position == start[k].position
    requires moons[midx] == Pull(start[midx], done)
    modifies moons
    ensures moons[..] == old(moons[..])[midx := Pull(start[midx], done + start[lo..hi])]
  {
    assert done + start[lo..lo] == done;
    for j := lo to hi
      invariant moons[midx] == Pull(start[midx], done + start[lo..j])
      invariant forall k :: 0 <= k < moons.Length && k != midx ==> moons[k] == old(moons[k])
    {
      SliceSnoc(done, start, lo, j);
      PullSnoc(start[midx], done + start[lo..j], start[j]);
      GravityReadsPosition(moons[midx], moons[j], start[j]);
      moons[midx] := ApplyGravityForce(moons[midx], moons[j]);
    }
  }

  lemma SliceSnoc(done: seq<Moon>, start: seq<Moon>, lo: nat, j: nat)
    requires lo <= j < |start|
    ensures done + start[lo..j + 1] == done + start[lo..j] + [start[j]]
  {
    assert start[lo..j + 1] == start[lo..j] + [start[j]];
  }

  /** `apply_gravity_force` only looks at the other moon's position. */
  lemma GravityReadsPosition(m: Moon, o1: Moon, o2: Moon)
    requires o1.position == o2.position
    ensures ApplyGravityForce(m, o1) == ApplyGravityForce(m, o2)
  {
  }

  /** The first loop of `advance_tick`: each moon in turn pulled by all the others. */
  method ApplyGravity(moons: array<Moon>)
    modifies moons
    ensures moons[..] == Pulled(old(moons[..]))
  {
    ghost var start := moons[..];
    for midx := 0 to moons.Length
      invariant moons[..midx] == Pulled(start)[..midx]
      invariant moons[midx..] == start[midx..]
      invariant forall k :: 0 <= k < moons.Length ==> moons[k].position == start[k].position
    {
      assert moons[midx] == moons[midx..][0];
      ghost var before := moons[..];
      PullMoon(moons, midx, start);
      assert moons[..midx + 1] == Pulled(start)[..midx + 1];
      assert moons[midx + 1..] == before[midx + 1..];
    }
    assert moons[..] == moons[..moons.Length];
  }

  /** The second loop of `advance_tick`: every moon moves. */
  method Move(moons: array<Moon>)
    modifies moons
    ensures moons[..] == Moved(old(moons[..]))
  {
    for k := 0 to moons.Length
      invariant moons[..k] == Moved(old(moons[..]))[..k]
      invariant moons[k..] == old(moons[..])[k..]
    {
      assert moons[k] == moons[k..][0];
      moons[k] := Advance(moons[k]);
      assert moons[..k + 1] == Moved(old(moons[..]))[..k + 1];
    }
    assert moons[..] == moons[..moons.Length];
  }

  /** `advance_tick`: the tick, in place. */
  method AdvanceTick(moons: array<Moon>)
    modifies moons
    ensures moons[..] == Tick(old(moons[..]))
  {
    ApplyGravity(moons);
    Move(moons);
  }

  // ------------------------------------------------------------------------------------
  // Parsing and `run`

  /** Why a moon cannot be read: too few fields, a field too short to slice, or a bad number. */
  datatype MoonError = InvalidFormat | FieldTooShort | InvalidNumber

  /** `str::trim_matches(c)`: `c` removed from both ends. */
  function TrimMatches(s: string, c: char): (r: string)
    ensures |r| <= |s|
    ensures r != [] ==> r[0] != c && r[|r| - 1] != c
    decreases |s|
  {
    if s == [] then []
    else if s[0] == c then TrimMatches(s[1..], c)
    else if s[|s| - 1] == c then TrimMatches(s[..|s| - 1], c)
    else s
  }

  /** `field[3..].parse()`: the number after the three characters `<x=`, ` y=` or ` z=`. */
  function FieldValue(field: string, closing: bool): Result<int, MoonError>
  {
    if |field| < 3 then Err(FieldTooShort)
    else
      var text := if closing then TrimMatches(field[3..], '>') else field[3..];
      match ParseIsize(text)
      case Some(v) => Ok(v)
      case None => Err(InvalidNumber)
  }

  /**
   * `Moon::from_str`: the first three comma-separated fields give x, y and z after their first
   * three characters, the last with its `>` trimmed; the moon starts at rest.
   */
  function FromStr(s: string): (r: Result<Moon, MoonError>)
    ensures |Split(s, ',')| < 3 <==> r == Err(InvalidFormat)
    ensures r.Ok? ==> r.value.velocity == Velocity(0, 0, 0)
  {
    var parts := Split(s, ',');
    if |parts| < 3 then Err(InvalidFormat)
    else
      var x :- FieldValue(parts[0], false);
      var y :- FieldValue(parts[1], false);
      var z :- FieldValue(parts[2], true);
      Ok(Moon(Position(x, y, z), Velocity(0, 0, 0)))
  }

  /** The example of `test_moon_parse`. */
  lemma FromStrExample()
    ensures FromStr("<x=2, y=-3, z=-14>") == Ok(Moon(Position(2, -3, -14), Velocity(0, 0, 0)))
  {
    ExampleSplit();
    ExampleFields();
  }

  lemma ExampleSplit()
    ensures Split("<x=2, y=-3, z=-14>", ',') == ["<x=2", " y=-3", " z=-14>"]
  {
    var parts := ["<x=2", " y=-3", " z=-14>"];
    assert Join(parts, ',') == "<x=2, y=-3, z=-14>";
    JoinSplit(parts, ',');
  }

  lemma ExampleFields()
    ensures FieldValue("<x=2", false) == Ok(2)
    ensures FieldValue(" y=-3", false) == Ok(-3)
    ensures FieldValue(" z=-14>", true) == Ok(-14)
  {
    assert "<x=2"[3..] == "2";
    assert " y=-3"[3..] == "-3";
    assert " z=-14>"[3..] == "-14>";
    assert TrimMatches("-14>", '>') == "-14";
    ExampleNumbers();
  }

  lemma ExampleNumbers()
    ensures ParseIsize("2") == Some(2)
    ensures ParseIsize("-3") == Some(-3)
    ensures ParseIsize("-14") == Some(-14)
  {
    assert DecimalValue("2") == 2;
    assert "-3"[1..] == "3" && DecimalValue("3") == 3;
    assert "-14"[1..] == "14" && "14"[..1] == "1";
    assert DecimalValue("14") == 14;
  }

  /** `n` ticks from `ms`. */
  function Ticks(ms: seq<Moon>, n: nat): (r: seq<Moon>)
    ensures |r| == |ms|
  {
    if n == 0 then ms else Tick(Ticks(ms, n - 1))
  }

  /** A run of ticks keeps the velocity sums of the start. */
  lemma {:induction false} TicksKeepVelocitySum(ms: seq<Moon>, n: nat, a: Axis)
    ensures VelocitySum(Ticks(ms, n), a) == VelocitySum(ms, a)
  {
    if n > 0 {
      TicksKeepVelocitySum(ms, n - 1, a);
      TickKeepsVelocitySum(Ticks(ms, n - 1), a);
    }
  }

  function TotalEnergy(ms: seq<Moon>): nat
    decreases |ms|
  {
    if ms == [] then 0 else TotalEnergy(ms[..|ms| - 1]) + Energy(ms[|ms| - 1])
  }

  /** How many ticks `run` simulates. */
  const STEPS: nat := 1000

  /** `run`: read the moons, simulate the ticks and add up the energies. */
  function Answer(input: string): Result<nat, MoonError>
  {
    var ms :- ParseAll(FromStr, NonEmptyLines(input));
    Ok(TotalEnergy(Ticks(ms, STEPS)))
  }

  /** `moons.iter().map(Moon::energy).sum()`. */
  method SumEnergy(moons: array<Moon>) returns (total: nat)
    ensures total == TotalEnergy(moons[..])
  {
    total := 0;
    for k := 0 to moons.Length
      invariant total == TotalEnergy(moons[..k])
    {
      assert moons[..k + 1][..k] == moons[..k];
      total := total + Energy(moons[k]);
    }
    assert moons[..moons.Length] == moons[..];
  }

  /** The loops of `run`, over the moons kept in one slice that each tick updates in place. */
  method Simulate(ms: seq<Moon>) returns (total: nat)
    ensures total == TotalEnergy(Ticks(ms, STEPS))
  {
    var moons := new Moon[|ms|](i requires 0 <= i < |ms| => ms[i]);
    assert moons[..] == ms;
    for t := 0 to STEPS
      invariant moons[..] == Ticks(ms, t)
    {
      AdvanceTick(moons);
    }
    total := SumEnergy(moons);
  }

  /** `run`: read the moons, then simulate them. */
  method Run(input: string) returns (r: Result<nat, MoonError>)
    ensures r == Answer(input)
  {
    var parsed := ParseAll(FromStr, NonEmptyLines(input));
    if parsed.Err? {
      return Err(parsed.error);
    }
    var total := Simulate(parsed.value);
    return Ok(total);
  }
}
