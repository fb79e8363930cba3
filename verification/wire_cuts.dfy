/**
 * `p06/src/main.rs`, segment by segment: the segments of `p05/src/main.rs` (module
 * `CrossedWires`, whose types and `from_str` the source file repeats), tested for points
 * strictly inside them, reversed, and cut into pieces at given points.
 */
module WireCuts {
  import opened Util
  import opened CrossedWires
  import StableSort

  /**
   * `is_on_segment`: `p` is on the segment's line, strictly between the coordinates of its two
   * end points; that is exactly a point of the segment other than its ends.
   */
  function IsOnSegment(s: WireSegment, p: Point): (r: bool)
    ensures r <==> Interior(s, p)
  {
    InteriorBetween(s, p);
    match s.direction
    case Up =>
      var yMin := Min(s.start.y, s.start.y + s.length);
      var yMax := Max(s.start.y, s.start.y + s.length);
      p.x == s.start.x && yMin < p.y && p.y < yMax
    case Right =>
      var xMin := Min(s.start.x, s.start.x + s.length);
      var xMax := Max(s.start.x, s.start.x + s.length);
      p.y == s.start.y && xMin < p.x && p.x < xMax
  }

  /**
   * `WireSegment::intersection` of p06: the candidate point at the vertical segment's x and
   * the horizontal one's y, kept when both segments hold it. It lies strictly inside both
   * segments, and it is the point the bounds test of p05 finds.
   */
  function Intersection(a: WireSegment, b: WireSegment): (r: Option<Point>)
    ensures r.Some? ==> a.direction != b.direction && Interior(a, r.value) && Interior(b, r.value)
    ensures r == CrossedWires.Intersection(a, b)
    decreases Turn(a)
  {
    match (a.direction, b.direction)
    case (Up, Right) =>
      var candidate := Point(a.start.x, b.start.y);
      InteriorBetween(a, candidate);
      InteriorBetween(b, candidate);
      if IsOnSegment(a, candidate) && IsOnSegment(b, candidate) then Some(candidate) else None
    case (Right, Up) => Intersection(b, a)
    case _ => None
  }

  /** `reverse`: the same points, walked from the other end. */
  function Reverse(s: WireSegment): (r: WireSegment)
    ensures r.start == End(s) && End(r) == s.start
    ensures r.length == -s.length && r.direction == s.direction
  {
    match s.direction
    case Up => WireSegment(Point(s.start.x, s.start.y + s.length), -s.length, Up)
    case Right => WireSegment(Point(s.start.x + s.length, s.start.y), -s.length, Right)
  }

  /** Reversing twice gives the segment back, and a reversed segment holds the same inner points. */
  lemma ReverseInvolution(s: WireSegment, p: Point)
    ensures Reverse(Reverse(s)) == s
    ensures Interior(Reverse(s), p) <==> Interior(s, p)
  {
    var r := Reverse(s);
    if Interior(s, p) {
      var t :| 0 < t < Abs(s.length) && p == Along(s, t);
      assert p == Along(r, Abs(s.length) - t);
    }
    if Interior(r, p) {
      var t :| 0 < t < Abs(r.length) && p == Along(r, t);
      assert p == Along(s, Abs(s.length) - t);
    }
  }

  /** The key `cut_at` sorts by: how far `p` lies from the start of `s` along its axis. */
  function Distance(s: WireSegment, p: Point): nat
  {
    match s.direction
    case Up => Abs(p.y - s.start.y)
    case Right => Abs(p.x - s.start.x)
  }

  /** `Distance` from the start of `s`, as the key function handed to the sort. */
  function DistanceFrom(s: WireSegment): Point -> nat
  {
    p => Distance(s, p)
  }

  /** `ps.sort_by_key(...)` in `cut_at`: the points, stably sorted by distance from the start of `s`. */
  function SortByDistance(s: WireSegment, ps: seq<Point>): (sorted: seq<Point>)
    ensures |sorted| == |ps|
  {
    StableSort.SortByKey(DistanceFrom(s), ps)
  }

  /** The pieces `cut_at` lays from `start`: one up to each cut point in turn, the last up to the end of `s`. */
  function Pieces(s: WireSegment, start: Point, cuts: seq<Point>): seq<WireSegment>
    decreases |cuts|
  {
    if cuts == [] then [WireSegment(start, (End(s).x - start.x) + (End(s).y - start.y), s.direction)]
    else [WireSegment(start, (cuts[0].x - start.x) + (cuts[0].y - start.y), s.direction)] + Pieces(s, cuts[0], cuts[1..])
  }

  /** The sum of the (signed) lengths of the segments. */
  function SumLengths(segments: seq<WireSegment>): int
  {
    if segments == [] then 0 else segments[0].length + SumLengths(segments[1..])
  }

  /** `p` is on the line through `s`. */
  predicate OnLine(s: WireSegment, p: Point)
  {
    match s.direction
    case Up => p.x == s.start.x
    case Right => p.y == s.start.y
  }

  /** One piece per cut point and one more, all along the axis of `s`: the first starts at `start`, the others at the cut points in order. */
  lemma {:induction false} PiecesShape(s: WireSegment, start: Point, cuts: seq<Point>)
    ensures var ps := Pieces(s, start, cuts);
      |ps| == |cuts| + 1 && ps[0].start == start
      && (forall i :: 0 <= i < |ps| ==> ps[i].direction == s.direction)
      && (forall i :: 0 <= i < |cuts| ==> ps[i + 1].start == cuts[i])
    decreases |cuts|
  {
    if cuts != [] {
      PiecesShape(s, cuts[0], cuts[1..]);
      var ps, rest := Pieces(s, start, cuts), Pieces(s, cuts[0], cuts[1..]);
      assert forall i :: 1 <= i < |ps| ==> ps[i] == rest[i - 1];
    }
  }

  /** The lengths of the pieces add up to the way from `start` to the end of `s`. */
  lemma {:induction false} PiecesSum(s: WireSegment, start: Point, cuts: seq<Point>)
    ensures SumLengths(Pieces(s, start, cuts)) == (End(s).x - start.x) + (End(s).y - start.y)
    decreases |cuts|
  {
    if cuts != [] {
      PiecesSum(s, cuts[0], cuts[1..]);
      assert Pieces(s, start, cuts)[1..] == Pieces(s, cuts[0], cuts[1..]);
    }
  }

  /** For a start and cut points on the line of `s`, each piece ends where the next begins and the last ends where `s` does. */
  lemma {:induction false} PiecesJoin(s: WireSegment, start: Point, cuts: seq<Point>)
    requires OnLine(s, start) && forall i :: 0 <= i < |cuts| ==> OnLine(s, cuts[i])
    ensures var ps := Pieces(s, start, cuts);
      (forall i :: 0 <= i < |ps| - 1 ==> End(ps[i]) == ps[i + 1].start) && End(ps[|ps| - 1]) == End(s)
    decreases |cuts|
  {
    PiecesShape(s, start, cuts);
    if cuts != [] {
      PiecesJoin(s, cuts[0], cuts[1..]);
      PiecesShape(s, cuts[0], cuts[1..]);
      var ps, rest := Pieces(s, start, cuts), Pieces(s, cuts[0], cuts[1..]);
      assert forall i :: 1 <= i < |ps| ==> ps[i] == rest[i - 1];
    }
  }

  /**
   * `WireSegment::cut_at`: sort the points by distance, then lay one piece from the running
   * start up to each point and a last one up to the end that `reverse` gives.
   */
  method CutSegment(s: WireSegment, ps: seq<Point>) returns (res: seq<WireSegment>)
    ensures res == Cut(s, ps)
  {
    var sorted := SortByDistance(s, ps);
    var start := s.start;
    var end := Reverse(s).start;
    res := [];
    for i := 0 to |sorted|
      invariant res + Pieces(s, start, sorted[i..]) == Pieces(s, s.start, sorted)
    {
      var p := sorted[i];
      assert sorted[i..][1..] == sorted[i + 1..];
      res := res + [WireSegment(start, (p.x - start.x) + (p.y - start.y), s.direction)];
      start := p;
    }
    assert sorted[|sorted|..] == [];
    res := res + [WireSegment(start, (end.x - start.x) + (end.y - start.y), s.direction)];
  }

  /** What `cut_at` returns for the segment `s` and the points `ps`. */
  function Cut(s: WireSegment, ps: seq<Point>): seq<WireSegment>
  {
    Pieces(s, s.start, SortByDistance(s, ps))
  }

  /**
   * What cutting a segment at points gives: the first piece starts where the segment does,
   * the others start at the points, sorted by distance from the start and each point as often
   * as it was given, all along the segment's axis; the lengths add up to the segment's length.
   */
  lemma CutSegmentMeaning(s: WireSegment, ps: seq<Point>)
    ensures |SortByDistance(s, ps)| == |ps| && |Cut(s, ps)| == |ps| + 1
    ensures multiset(SortByDistance(s, ps)) == multiset(ps) && StableSort.SortedBy(DistanceFrom(s), SortByDistance(s, ps))
    ensures Cut(s, ps)[0].start == s.start
    ensures forall i :: 0 <= i < |ps| ==> Cut(s, ps)[i + 1].start == SortByDistance(s, ps)[i]
    ensures forall i :: 0 <= i < |ps| + 1 ==> Cut(s, ps)[i].direction == s.direction
    ensures SumLengths(Cut(s, ps)) == s.length
  {
    StableSort.SortByKeyMeaning(DistanceFrom(s), ps);
    PiecesShape(s, s.start, SortByDistance(s, ps));
    PiecesSum(s, s.start, SortByDistance(s, ps));
  }

  /** Cut at points on the segment's line, the pieces join up and the last ends where the segment does. */
  lemma CutSegmentJoins(s: WireSegment, ps: seq<Point>)
    requires forall i :: 0 <= i < |ps| ==> OnLine(s, ps[i])
    ensures |Cut(s, ps)| == |ps| + 1
    ensures forall i :: 0 <= i < |ps| ==> End(Cut(s, ps)[i]) == Cut(s, ps)[i + 1].start
    ensures End(Cut(s, ps)[|ps|]) == End(s)
  {
    var sorted := SortByDistance(s, ps);
    StableSort.SortByKeyMeaning(DistanceFrom(s), ps);
    PiecesShape(s, s.start, sorted);
    forall i | 0 <= i < |sorted| ensures OnLine(s, sorted[i]) {
      assert sorted[i] in multiset(ps);
      assert sorted[i] in ps;
    }
    PiecesJoin(s, s.start, sorted);
  }
}
