/**
 * `p20/src/main.rs`: choosing the monitoring station. The slopes and the map parsing are the
 * same code as in `p19/src/main.rs` (module `AsteroidMap`); here the difference of two
 * asteroids also carries the squared distance, and for each asteroid the others are grouped by
 * slope, each group a heap of `RelativeLocation`s ordered by distance.
 */
module MonitoringStation {
  import opened Util
  import opened AsteroidMap

  /** `AstroidCoords - AstroidCoords` of p20: the slope from `b` to `a` and the squared distance. */
  function Offset(a: Coords, b: Coords): (r: (Slope, int))
    ensures r.0 == Difference(a, b)
  {
    var dx := a.x - b.x;
    var dy := a.y - b.y;
    (NewSlope(dx, dy), dx * dx + dy * dy)
  }

  /** The squared distance is never negative, is zero only from an asteroid to itself, and is symmetric. */
  lemma OffsetDistance(a: Coords, b: Coords)
    ensures Offset(a, b).1 >= 0
    ensures Offset(a, b).1 == 0 <==> a == b
    ensures Offset(a, b).1 == Offset(b, a).1
  {
    var dx, dy := a.x - b.x, a.y - b.y;
    assert (-dx) * (-dx) == dx * dx && (-dy) * (-dy) == dy * dy;
    if dx != 0 {
      assert dx * dx > 0;
    }
    if dy != 0 {
      assert dy * dy > 0;
    }
  }

  /** `RelativeLocation`: another asteroid and its squared distance from the station. */
  datatype RelativeLocation = RelativeLocation(dist: int, originalPos: Coords)

  datatype Ordering = Less | Equal | Greater

  /** `Ord for RelativeLocation`: by distance alone; the position is not looked at. */
  function Compare(a: RelativeLocation, b: RelativeLocation): (o: Ordering)
    ensures o == Equal <==> a.dist == b.dist
    ensures o == Less <==> a.dist < b.dist
  {
    if a.dist < b.dist then Less else if a.dist == b.dist then Equal else Greater
  }

  /** The ordering is a total preorder: reversing the arguments reverses it, and it is transitive. */
  lemma CompareLaws(a: RelativeLocation, b: RelativeLocation, c: RelativeLocation)
    ensures Compare(a, b) == Less <==> Compare(b, a) == Greater
    ensures Compare(a, b) == Equal <==> Compare(b, a) == Equal
    ensures Compare(a, b) != Greater && Compare(b, c) != Greater ==> Compare(a, c) != Greater
  {
  }

  /** Two different asteroids at the same distance compare as equal, though `==` tells them apart. */
  lemma CompareIgnoresPosition(d: int, p: Coords, q: Coords)
    requires p != q
    ensures Compare(RelativeLocation(d, p), RelativeLocation(d, q)) == Equal
    ensures RelativeLocation(d, p) != RelativeLocation(d, q)
  {
  }

  /** For each slope, the asteroids seen from `loc` along it, as the heaps of `run` hold them. */
  type Groups = map<Slope, multiset<RelativeLocation>>

  /** The groups after the inner loop of `run` has gone over `asteroids`. */
  function GroupBySlope(asteroids: seq<Coords>, loc: Coords): Groups
    decreases |asteroids|
  {
    if asteroids == [] then map[]
    else
      var groups := GroupBySlope(asteroids[..|asteroids| - 1], loc);
      var other := asteroids[|asteroids| - 1];
      if other == loc then groups
      else
        var (slope, dist) := Offset(other, loc);
        groups[slope := (if slope in groups then groups[slope] else multiset{}) + multiset{RelativeLocation(dist, other)}]
  }

  /** `location` is some other asteroid, at the slope and distance of its group. */
  predicate Belongs(asteroids: seq<Coords>, loc: Coords, slope: Slope, location: RelativeLocation)
  {
    location.originalPos in asteroids && location.originalPos != loc
    && Offset(location.originalPos, loc) == (slope, location.dist)
  }

  /** There is one group per distinct slope, so the map's size is the count of p19. */
  lemma {:induction false} GroupKeys(asteroids: seq<Coords>, loc: Coords)
    ensures GroupBySlope(asteroids, loc).Keys == Slopes(asteroids, loc)
    decreases |asteroids|
  {
    if asteroids != [] {
      GroupKeys(asteroids[..|asteroids| - 1], loc);
    }
  }

  /** Every other asteroid is in the group of its slope, with its distance. */
  lemma {:induction false} GroupsHoldAll(asteroids: seq<Coords>, loc: Coords, other: Coords)
    requires other in asteroids && other != loc
    ensures Offset(other, loc).0 in GroupBySlope(asteroids, loc)
    ensures RelativeLocation(Offset(other, loc).1, other) in GroupBySlope(asteroids, loc)[Offset(other, loc).0]
    decreases |asteroids|
  {
    var n := |asteroids| - 1;
    if asteroids[n] != other {
      assert asteroids == asteroids[..n] + [asteroids[n]];
      GroupsHoldAll(asteroids[..n], loc, other);
    }
  }

  /** Every group holds only other asteroids, at the group's slope and with their distance. */
  lemma {:induction false} GroupsHoldOnly(asteroids: seq<Coords>, loc: Coords, slope: Slope, location: RelativeLocation)
    requires slope in GroupBySlope(asteroids, loc) && location in GroupBySlope(asteroids, loc)[slope]
    ensures Belongs(asteroids, loc, slope, location)
    decreases |asteroids|
  {
    var n := |asteroids| - 1;
    var groups := GroupBySlope(asteroids[..n], loc);
    var other := asteroids[n];
    assert asteroids == asteroids[..n] + [other];
    if other == loc || location != RelativeLocation(Offset(other, loc).1, other) || slope != Offset(other, loc).0 {
      GroupsHoldOnly(asteroids[..n], loc, slope, location);
    }
  }

  /** The inner loop of `run` for one asteroid: push every other asteroid onto the heap of its slope. */
  method GroupOthers(asteroids: seq<Coords>, loc: Coords) returns (groups: Groups)
    ensures groups == GroupBySlope(asteroids, loc)
  {
    groups := map[];
    for j := 0 to |asteroids|
      invariant groups == GroupBySlope(asteroids[..j], loc)
    {
      assert asteroids[..j + 1][..j] == asteroids[..j];
      var other := asteroids[j];
      if other != loc {
        var (slope, dist) := Offset(other, loc);
        var heap := if slope in groups then groups[slope] else multiset{};
        groups := groups[slope := heap + multiset{RelativeLocation(dist, other)}];
      }
    }
    assert asteroids[..|asteroids|] == asteroids;
  }

  /**
   * The best count and the station after the outer loop has gone over `locs`: an asteroid
   * replaces the station only when it sees strictly more slopes; with no count above 0 there is
   * no station.
   */
  function Best(count: Coords -> nat, locs: seq<Coords>): (nat, Option<Coords>)
    decreases |locs|
  {
    if locs == [] then (0, None)
    else
      var (best, at) := Best(count, locs[..|locs| - 1]);
      var here := count(locs[|locs| - 1]);
      if here > best then (here, Some(locs[|locs| - 1])) else (best, at)
  }

  /**
   * The best count is the largest of p19, and the station is the first of `locs` to reach it;
   * there is no station exactly when no asteroid sees another.
   */
  lemma {:induction false} BestMeaning(count: Coords -> nat, locs: seq<Coords>)
    ensures Best(count, locs).0 == MostVisible(count, locs)
    ensures Best(count, locs).1.None? <==> MostVisible(count, locs) == 0
    ensures Best(count, locs).1.Some? ==> exists i :: (0 <= i < |locs| && locs[i] == Best(count, locs).1.value
      && count(locs[i]) == MostVisible(count, locs)
      && forall j :: 0 <= j < i ==> count(locs[j]) < MostVisible(count, locs))
    decreases |locs|
  {
    if locs != [] {
      var n := |locs| - 1;
      BestMeaning(count, locs[..n]);
      MostVisibleMeaning(count, locs[..n]);
      var best := MostVisible(count, locs[..n]);
      if count(locs[n]) > best {
        forall j | 0 <= j < n
          ensures count(locs[j]) < count(locs[n])
        {
          assert locs[j] == locs[..n][j];
        }
      } else if Best(count, locs[..n]).1.Some? {
        var i :| 0 <= i < n && locs[..n][i] == Best(count, locs[..n]).1.value
          && count(locs[..n][i]) == best
          && forall j :: 0 <= j < i ==> count(locs[..n][j]) < best;
        assert locs[i] == locs[..n][i];
        assert forall j :: 0 <= j < i ==> locs[j] == locs[..n][j];
      }
    }
  }

  /** What the station selection of `run` ends with. */
  datatype Station = Station(location: Coords, visible: nat, groups: Groups)

  /** `assert_ne!(location, AstroidCoords(-1, -1))` fails: no station was chosen. */
  datatype StationError = NoStation

  const UNSET: Coords := Coords(-1, -1)

  /**
   * The station selection of `run`: `location` starts at (-1, -1) and is replaced by each
   * asteroid that sees strictly more slopes than any before; the assertion at the end fails
   * when it is still (-1, -1).
   */
  method SelectStation(asteroids: seq<Coords>) returns (r: Result<Station, StationError>)
    ensures var (best, at) := Best(SlopeCount(asteroids), asteroids);
      && (r.Err? <==> at.None? || at == Some(UNSET))
      && (r.Ok? ==> r.value.location == at.value && r.value.visible == best
                    && r.value.groups == GroupBySlope(asteroids, at.value))
  {
    var maxVisible := 0;
    var location := UNSET;
    ghost var chosen: Option<Coords> := None;
    var relativeLocations: Groups := map[];
    for i := 0 to |asteroids|
      invariant Best(SlopeCount(asteroids), asteroids[..i]) == (maxVisible, chosen)
      invariant chosen.None? ==> location == UNSET && relativeLocations == map[]
      invariant chosen.Some? ==> location == chosen.value && relativeLocations == GroupBySlope(asteroids, location)
    {
      assert asteroids[..i + 1][..i] == asteroids[..i];
      var loc := asteroids[i];
      var current := GroupOthers(asteroids, loc);
      GroupKeys(asteroids, loc);
      if |current.Keys| > maxVisible {
        maxVisible := |current.Keys|;
        location := loc;
        chosen := Some(loc);
        relativeLocations := current;
      }
    }
    assert asteroids[..|asteroids|] == asteroids;
    if location == UNSET {
      return Err(NoStation);
    }
    return Ok(Station(location, maxVisible, relativeLocations));
  }

  /** Every asteroid read from a map lies at non-negative coordinates, so never at (-1, -1). */
  lemma ParsedNeverUnset(rows: seq<string>)
    ensures UNSET !in Scan(rows)
  {
    ScanMeaning(rows, UNSET);
  }

  /**
   * `run` up to the choice of the station: parse the map and select the station; it fails
   * exactly when no asteroid sees another.
   */
  method ChooseStation(input: string) returns (r: Result<Station, StationError>)
    ensures var asteroids := Scan(TrimmedLines(Lines(input)));
      && (r.Err? <==> MostVisible(SlopeCount(asteroids), asteroids) == 0)
      && (r.Ok? ==> Best(SlopeCount(asteroids), asteroids).1.Some? && r.value.location == Best(SlopeCount(asteroids), asteroids).1.value
                    && r.value.visible == MostVisible(SlopeCount(asteroids), asteroids)
                    && r.value.groups == GroupBySlope(asteroids, r.value.location))
  {
    var asteroids := FromStr(input);
    r := SelectStation(asteroids);
    BestMeaning(SlopeCount(asteroids), asteroids);
    ParsedNeverUnset(TrimmedLines(Lines(input)));
  }
}
