/**
 * `p19/src/main.rs`: a map of asteroids, one `#` per asteroid. From an asteroid, the others
 * it can see are told apart by the direction towards them, reduced by the greatest common
 * divisor to a `Slope`; the answer is the largest number of distinct slopes any asteroid has.
 */
module AsteroidMap {
  import opened Util
  import opened Divisibility

  /** `AstroidCoords`: column and line of an asteroid. */
  datatype Coords = Coords(x: int, y: int)

  /** A direction with coprime components, or (0, 0). */
  datatype Slope = Slope(dx: int, dy: int)

  /** `isize::signum`. */
  function Signum(x: int): (s: int)
    ensures -1 <= s <= 1
    ensures s == 0 <==> x == 0
    ensures s > 0 <==> x > 0
  {
    if x > 0 then 1 else if x < 0 then -1 else 0
  }

  /**
   * `Slope::new`: the difference itself when it is zero, the unit vector along an axis, and
   * otherwise both components divided (rounding toward zero) by the greatest common divisor
   * of their magnitudes.
   */
  function NewSlope(dx: int, dy: int): Slope
  {
    if dx == 0 && dy == 0 then Slope(0, 0)
    else if dx == 0 then Slope(0, Signum(dy))
    else if dy == 0 then Slope(Signum(dx), 0)
    else
      var g := GcdOf(Abs(dx), Abs(dy));
      Slope(TruncDiv(dx, g), TruncDiv(dy, g))
  }

  /** The four slopes the tests of `p19/src/main.rs` check. */
  lemma SlopeExamples()
    ensures NewSlope(1, 0) == Slope(1, 0) && NewSlope(2, 0) == Slope(1, 0)
    ensures NewSlope(0, -1) == Slope(0, -1) && NewSlope(-1, -1) == Slope(-1, -1)
  {
    assert GcdOf(1, 1) == 1;
  }

  /** `(dx, dy)` is `k` times the slope `s`, for a positive `k`. */
  predicate Multiple(k: int, s: Slope, dx: int, dy: int)
  {
    k > 0 && dx == k * s.dx && dy == k * s.dy
  }

  /** No whole number above 1 divides both components. */
  ghost predicate Coprime(a: int, b: int)
  {
    forall d :: d > 0 && Divides(d, a) && Divides(d, b) ==> d == 1
  }

  /** An exact quotient is what the rounding-toward-zero division gives. */
  lemma TruncDivExact(n: int, m: int, q: int)
    requires m > 0 && n == m * q
    ensures TruncDiv(n, m) == q
  {
    MulMagnitude(m, q);
    if n >= 0 {
      DivModUnique(n, m, q, 0);
    } else {
      assert -n == (-q) * m;
      DivModUnique(-n, m, -q, 0);
    }
  }

  /** A divisor of `|x|` divides `x` exactly. */
  lemma DividesAbs(g: int, x: int) returns (q: int)
    requires Divides(g, Abs(x))
    ensures x == g * q
  {
    DividesNegation(g, x);
    q :| x == g * q;
  }

  /** `g * d` divides `g` only for `d == 1`, when both are positive. */
  lemma CancelDivisor(g: int, d: int)
    requires g > 0 && d > 0 && Divides(g * d, g)
    ensures d == 1
  {
    var c :| g == (g * d) * c;
    assert g * (d * c - 1) == 0;
    MulMagnitude(g, d * c - 1);
    UnitDivisor(d, c);
  }

  /** The quotients of two numbers by their greatest common divisor have no common divisor above 1. */
  lemma CoprimeQuotients(g: int, dx: int, dy: int, qx: int, qy: int)
    requires g > 0 && IsGcd(g, Abs(dx), Abs(dy)) && dx == g * qx && dy == g * qy
    ensures Coprime(qx, qy)
  {
    forall d | d > 0 && Divides(d, qx) && Divides(d, qy)
      ensures d == 1
    {
      CommonFactor(g, d, dx, qx);
      CommonFactor(g, d, dy, qy);
      CancelDivisor(g, d);
    }
  }

  /** A divisor of the quotient `x / g`, times `g`, divides `|x|`. */
  lemma CommonFactor(g: int, d: int, x: int, q: int)
    requires x == g * q && Divides(d, q)
    ensures Divides(g * d, Abs(x))
  {
    var a :| q == d * a;
    assert x == (g * d) * a;
    DividesNegation(g * d, x);
  }

  /** `dx` and `dy` divided exactly by their greatest common divisor `g`. */
  lemma GcdQuotients(dx: int, dy: int) returns (g: int, qx: int, qy: int)
    requires dx != 0 && dy != 0
    ensures g == GcdOf(Abs(dx), Abs(dy)) && g > 0 && IsGcd(g, Abs(dx), Abs(dy))
    ensures dx == g * qx && dy == g * qy
  {
    g := GcdOf(Abs(dx), Abs(dy));
    GcdMeaning(Abs(dx), Abs(dy));
    qx := DividesAbs(g, dx);
    qy := DividesAbs(g, dy);
  }

  /** The general case of `Slope::new`: both components divided by their greatest common divisor. */
  lemma SlopeGeneral(dx: int, dy: int) returns (g: int)
    requires dx != 0 && dy != 0
    ensures g == GcdOf(Abs(dx), Abs(dy)) && g > 0
    ensures Multiple(g, NewSlope(dx, dy), dx, dy)
    ensures Coprime(NewSlope(dx, dy).dx, NewSlope(dx, dy).dy)
  {
    var qx, qy;
    g, qx, qy := GcdQuotients(dx, dy);
    TruncDivExact(dx, g, qx);
    TruncDivExact(dy, g, qy);
    assert NewSlope(dx, dy) == Slope(qx, qy);
    CoprimeQuotients(g, dx, dy, qx, qy);
  }

  /**
   * The slope is (0, 0) only for the zero difference; it keeps the sign of each component;
   * the difference is a positive multiple of it; and, for a non-zero difference, its components
   * are coprime.
   */
  lemma SlopeMeaning(dx: int, dy: int)
    ensures NewSlope(dx, dy) == Slope(0, 0) <==> dx == 0 && dy == 0
    ensures Signum(NewSlope(dx, dy).dx) == Signum(dx) && Signum(NewSlope(dx, dy).dy) == Signum(dy)
    ensures exists k :: Multiple(k, NewSlope(dx, dy), dx, dy)
    ensures dx != 0 || dy != 0 ==> Coprime(NewSlope(dx, dy).dx, NewSlope(dx, dy).dy)
  {
    var s := NewSlope(dx, dy);
    if dx == 0 && dy == 0 {
      assert Multiple(1, s, dx, dy);
    } else if dx == 0 || dy == 0 {
      assert Multiple(Abs(dx) + Abs(dy), s, dx, dy);
      forall d | d > 0 && Divides(d, s.dx) && Divides(d, s.dy)
        ensures d == 1
      {
        var u := if dx == 0 then s.dy else s.dx;
        var c :| u == d * c;
        UnitDivisor(d, c);
      }
    } else {
      var g := SlopeGeneral(dx, dy);
      MulMagnitude(g, s.dx);
      MulMagnitude(g, s.dy);
    }
  }

  /** `|k * x| == k * |x|` for a positive `k`. */
  lemma AbsScale(k: int, x: int)
    requires k > 0
    ensures Abs(k * x) == k * Abs(x)
  {
    MulMagnitude(k, x);
    if x < 0 {
      assert k * -x == -(k * x);
    }
  }

  /** Scaling both components by a positive factor scales their greatest common divisor alike. */
  lemma GcdOfScaled(k: int, dx: int, dy: int)
    requires k > 0
    ensures GcdOf(Abs(k * dx), Abs(k * dy)) == k * GcdOf(Abs(dx), Abs(dy))
  {
    AbsScale(k, dx);
    AbsScale(k, dy);
    GcdScale(k, Abs(dx), Abs(dy));
  }

  /** Scaling a difference by a positive factor does not change its slope. */
  lemma SlopeScale(k: int, dx: int, dy: int)
    requires k > 0
    ensures NewSlope(k * dx, k * dy) == NewSlope(dx, dy)
  {
    MulMagnitude(k, dx);
    MulMagnitude(k, dy);
    if dx != 0 && dy != 0 {
      var g, qx, qy := GcdQuotients(dx, dy);
      TruncDivExact(dx, g, qx);
      TruncDivExact(dy, g, qy);
      GcdOfScaled(k, dx, dy);
      ScaledQuotient(k, g, dx, qx);
      ScaledQuotient(k, g, dy, qy);
    }
  }

  /** An exact quotient stays the same when dividend and divisor are scaled alike. */
  lemma ScaledQuotient(k: int, g: int, x: int, q: int)
    requires k > 0 && g > 0 && x == g * q
    ensures k * g > 0 && TruncDiv(k * x, k * g) == q
  {
    MulMagnitude(k, g);
    assert k * x == (k * g) * q;
    TruncDivExact(k * x, k * g, q);
  }

  /** Both differences are positive multiples of one slope: they point the same way. */
  ghost predicate SameRay(dx1: int, dy1: int, dx2: int, dy2: int)
  {
    exists s, k1, k2 :: Multiple(k1, s, dx1, dy1) && Multiple(k2, s, dx2, dy2)
  }

  /** Two differences get the same slope exactly when they point the same way. */
  lemma SlopeEqualIffSameRay(dx1: int, dy1: int, dx2: int, dy2: int)
    ensures NewSlope(dx1, dy1) == NewSlope(dx2, dy2) <==> SameRay(dx1, dy1, dx2, dy2)
  {
    if NewSlope(dx1, dy1) == NewSlope(dx2, dy2) {
      var s := NewSlope(dx1, dy1);
      SlopeMeaning(dx1, dy1);
      SlopeMeaning(dx2, dy2);
      var k1 :| Multiple(k1, s, dx1, dy1);
      var k2 :| Multiple(k2, s, dx2, dy2);
      assert Multiple(k1, s, dx1, dy1) && Multiple(k2, s, dx2, dy2);
    }
    if SameRay(dx1, dy1, dx2, dy2) {
      var s, k1, k2 :| Multiple(k1, s, dx1, dy1) && Multiple(k2, s, dx2, dy2);
      SlopeScale(k1, s.dx, s.dy);
      SlopeScale(k2, s.dx, s.dy);
    }
  }

  /** `AstroidCoords - AstroidCoords`: the slope from `b` towards `a`. */
  function Difference(a: Coords, b: Coords): (s: Slope)
    ensures s == Slope(0, 0) <==> a == b
  {
    SlopeMeaning(a.x - b.x, a.y - b.y);
    NewSlope(a.x - b.x, a.y - b.y)
  }

  /** The asteroids of one (trimmed) line `y`, left to right. */
  function RowAsteroids(line: string, y: int): seq<Coords>
    decreases |line|
  {
    if line == [] then []
    else RowAsteroids(line[..|line| - 1], y) + (if line[|line| - 1] == '#' then [Coords(|line| - 1, y)] else [])
  }

  /** Each line trimmed, as `from_str` reads it. */
  function TrimmedLines(lines: seq<string>): (rows: seq<string>)
    ensures |rows| == |lines|
    ensures forall y :: 0 <= y < |lines| ==> rows[y] == Trim(lines[y])
  {
    seq(|lines|, y requires 0 <= y < |lines| => Trim(lines[y]))
  }

  /** The asteroids of the rows, row by row; a blank row keeps its index and holds none. */
  function Scan(rows: seq<string>): seq<Coords>
    decreases |rows|
  {
    if rows == [] then []
    else Scan(rows[..|rows| - 1]) + RowAsteroids(rows[|rows| - 1], |rows| - 1)
  }

  lemma {:induction false} RowAsteroidsMeaning(line: string, y: int, c: Coords)
    ensures c in RowAsteroids(line, y) <==> c.y == y && 0 <= c.x < |line| && line[c.x] == '#'
    decreases |line|
  {
    if line != [] {
      RowAsteroidsMeaning(line[..|line| - 1], y, c);
    }
  }

  /** An asteroid is recorded exactly for each `#` of a row, at its column and row index. */
  lemma {:induction false} ScanMeaning(rows: seq<string>, c: Coords)
    ensures c in Scan(rows) <==> 0 <= c.y < |rows| && 0 <= c.x < |rows[c.y]| && rows[c.y][c.x] == '#'
    decreases |rows|
  {
    if rows != [] {
      var n := |rows| - 1;
      ScanMeaning(rows[..n], c);
      RowAsteroidsMeaning(rows[n], n, c);
      if 0 <= c.y < n {
        assert rows[..n][c.y] == rows[c.y];
      }
    }
  }

  /** The asteroids of a row, found column by column. */
  method ScanRow(line: string, y: nat) returns (found: seq<Coords>)
    ensures found == RowAsteroids(line, y)
  {
    found := [];
    for x := 0 to |line|
      invariant found == RowAsteroids(line[..x], y)
    {
      assert line[..x + 1][..x] == line[..x];
      if line[x] == '#' {
        found := found + [Coords(x, y)];
      }
    }
    assert line[..|line|] == line;
  }

  /**
   * `AstroidMap::from_str`: a `#` at column `x` of trimmed line `y` is an asteroid at `(x, y)`;
   * a blank line is skipped but still counted.
   */
  method FromStr(s: string) returns (asteroids: seq<Coords>)
    ensures asteroids == Scan(TrimmedLines(Lines(s)))
  {
    var lines := Lines(s);
    ghost var rows := TrimmedLines(lines);
    asteroids := [];
    for y := 0 to |lines|
      invariant asteroids == Scan(rows[..y])
    {
      assert rows[..y + 1][..y] == rows[..y];
      var line := Trim(lines[y]);
      if line == [] {
        continue;
      }
      var found := ScanRow(line, y);
      asteroids := asteroids + found;
    }
    assert rows[..|lines|] == rows;
  }

  /** The slopes from `loc` to the asteroids of `asteroids` other than `loc`. */
  function Slopes(asteroids: seq<Coords>, loc: Coords): set<Slope>
    decreases |asteroids|
  {
    if asteroids == [] then {}
    else
      var other := asteroids[|asteroids| - 1];
      Slopes(asteroids[..|asteroids| - 1], loc) + (if other != loc then {Difference(other, loc)} else {})
  }

  /** A slope is counted exactly when some other asteroid lies in that direction. */
  lemma {:induction false} SlopesMeaning(asteroids: seq<Coords>, loc: Coords, s: Slope)
    ensures s in Slopes(asteroids, loc) <==> exists other :: other in asteroids && other != loc && Difference(other, loc) == s
    decreases |asteroids|
  {
    if asteroids != [] {
      var n := |asteroids| - 1;
      SlopesMeaning(asteroids[..n], loc, s);
      assert asteroids == asteroids[..n] + [asteroids[n]];
    }
  }

  /** How many distinct slopes each asteroid sees: the size of the set `run` builds for it. */
  function SlopeCount(asteroids: seq<Coords>): Coords -> nat
  {
    loc => |Slopes(asteroids, loc)|
  }

  /** The largest count of any of `locs`, as `max_visible` keeps it; 0 when there is none. */
  function MostVisible(count: Coords -> nat, locs: seq<Coords>): nat
    decreases |locs|
  {
    if locs == [] then 0
    else
      var best := MostVisible(count, locs[..|locs| - 1]);
      var here := count(locs[|locs| - 1]);
      if here > best then here else best
  }

  /** The result bounds every location's count and is the count of one of them (0 with no location). */
  lemma {:induction false} MostVisibleMeaning(count: Coords -> nat, locs: seq<Coords>)
    ensures forall loc :: loc in locs ==> count(loc) <= MostVisible(count, locs)
    ensures locs == [] ==> MostVisible(count, locs) == 0
    ensures locs != [] ==> exists loc :: loc in locs && MostVisible(count, locs) == count(loc)
    decreases |locs|
  {
    if locs != [] {
      var n := |locs| - 1;
      MostVisibleMeaning(count, locs[..n]);
      assert locs == locs[..n] + [locs[n]];
      if n == 0 || count(locs[n]) > MostVisible(count, locs[..n]) {
        assert locs[n] in locs;
      } else {
        var loc :| loc in locs[..n] && MostVisible(count, locs[..n]) == count(loc);
        assert loc in locs;
      }
    }
  }

  /** With fewer than two asteroids, no asteroid sees another. */
  lemma FewAsteroids(asteroids: seq<Coords>)
    requires |asteroids| < 2
    ensures MostVisible(SlopeCount(asteroids), asteroids) == 0
  {
    MostVisibleMeaning(SlopeCount(asteroids), asteroids);
    if asteroids != [] {
      var a := asteroids[0];
      assert asteroids == [a];
      assert asteroids[..0] == [];
      assert Slopes(asteroids, a) == {};
    }
  }

  /** The inner loop of `run`: the slopes from `loc` to every other asteroid, gathered in a set. */
  method CollectSlopes(asteroids: seq<Coords>, loc: Coords) returns (possible: set<Slope>)
    ensures possible == Slopes(asteroids, loc)
  {
    possible := {};
    for j := 0 to |asteroids|
      invariant possible == Slopes(asteroids[..j], loc)
    {
      assert asteroids[..j + 1][..j] == asteroids[..j];
      var other := asteroids[j];
      if other != loc {
        possible := possible + {Difference(other, loc)};
      }
    }
    assert asteroids[..|asteroids|] == asteroids;
  }

  /** The outer loop of `run`: the largest slope count of any asteroid, kept in `max_visible`. */
  method BestCount(asteroids: seq<Coords>) returns (maxVisible: nat)
    ensures maxVisible == MostVisible(SlopeCount(asteroids), asteroids)
  {
    maxVisible := 0;
    for i := 0 to |asteroids|
      invariant maxVisible == MostVisible(SlopeCount(asteroids), asteroids[..i])
    {
      assert asteroids[..i + 1][..i] == asteroids[..i];
      var possible := CollectSlopes(asteroids, asteroids[i]);
      if |possible| > maxVisible {
        maxVisible := |possible|;
      }
    }
    assert asteroids[..|asteroids|] == asteroids;
  }

  /** `run`: parse the map, then the largest number of distinct slopes from any asteroid. */
  method Run(input: string) returns (r: nat)
    ensures var asteroids := Scan(TrimmedLines(Lines(input)));
      r == MostVisible(SlopeCount(asteroids), asteroids)
  {
    var asteroids := FromStr(input);
    r := BestCount(asteroids);
  }
}
