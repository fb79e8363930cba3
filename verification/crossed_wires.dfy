/**
 * `p05/src/main.rs`: a wire is a path of horizontal and vertical segments from the origin,
 * read from text such as `R8,U5,L5,D3`; two wires cross where a vertical segment of one
 * passes strictly through a horizontal segment of the other. `p06/src/main.rs` repeats these
 * types and `from_str` (module `WireCuts`).
 */
module CrossedWires {
  import opened Util

  /** A segment runs along the y axis (`Up`) or the x axis (`Right`); the sign of its length says which way. */
  datatype WireDirection = Up | Right

  datatype Point = Point(x: int, y: int)

  const ORIGIN: Point := Point(0, 0)

  datatype WireSegment = WireSegment(start: Point, length: int, direction: WireDirection)

  /** `manhattan`: the distance from the origin along the grid. */
  function Manhattan(p: Point): (d: nat)
    ensures d == 0 <==> p == ORIGIN
    ensures Abs(p.x) <= d && Abs(p.y) <= d
  {
    Abs(p.x) + Abs(p.y)
  }

  /** The point a segment reaches: `start` moved by `length` along its axis. */
  function End(s: WireSegment): Point
  {
    match s.direction
    case Up => Point(s.start.x, s.start.y + s.length)
    case Right => Point(s.start.x + s.length, s.start.y)
  }

  /** The point `t` steps from the start of `s`, walking towards its end. */
  function Along(s: WireSegment, t: int): Point
  {
    var step := if s.length >= 0 then t else -t;
    match s.direction
    case Up => Point(s.start.x, s.start.y + step)
    case Right => Point(s.start.x + step, s.start.y)
  }

  /** The walk along a segment reaches its end after `|length|` steps. */
  lemma AlongReachesEnd(s: WireSegment)
    ensures Along(s, 0) == s.start && Along(s, Abs(s.length)) == End(s)
  {
  }

  /** `p` lies on `s` strictly between its two end points. */
  ghost predicate Interior(s: WireSegment, p: Point)
  {
    exists t :: 0 < t < Abs(s.length) && p == Along(s, t)
  }

  /** `v` lies strictly between `a` and `b`, in either order. */
  predicate Between(v: int, a: int, b: int)
  {
    Min(a, b) < v < Max(a, b)
  }

  /** The interior of a segment by coordinates: on its line, strictly between its end coordinates. */
  lemma InteriorBetween(s: WireSegment, p: Point)
    ensures s.direction == Up ==>
      (Interior(s, p) <==> p.x == s.start.x && Between(p.y, s.start.y, s.start.y + s.length))
    ensures s.direction == Right ==>
      (Interior(s, p) <==> p.y == s.start.y && Between(p.x, s.start.x, s.start.x + s.length))
  {
    var offset := match s.direction case Up => p.y - s.start.y case Right => p.x - s.start.x;
    var t := if s.length >= 0 then offset else -offset;
    if s.direction == Up && p.x == s.start.x && Between(p.y, s.start.y, s.start.y + s.length) {
      assert 0 < t < Abs(s.length) && p == Along(s, t);
    }
    if s.direction == Right && p.y == s.start.y && Between(p.x, s.start.x, s.start.x + s.length) {
      assert 0 < t < Abs(s.length) && p == Along(s, t);
    }
  }

  /** The argument on which `intersection` hands a (Right, Up) pair over to the (Up, Right) case. */
  function Turn(s: WireSegment): nat
  {
    if s.direction == Right then 1 else 0
  }

  /**
   * `WireSegment::intersection`: a vertical and a horizontal segment meet at the vertical one's
   * x and the horizontal one's y when that point lies strictly inside both coordinate ranges;
   * segments along the same axis never meet.
   */
  function Intersection(a: WireSegment, b: WireSegment): (r: Option<Point>)
    ensures r.Some? ==> a.direction != b.direction
    ensures r.Some? && a.direction == Up ==> r.value == Point(a.start.x, b.start.y)
    ensures r.Some? && a.direction == Right ==> r.value == Point(b.start.x, a.start.y)
    decreases Turn(a)
  {
    match (a.direction, b.direction)
    case (Up, Right) =>
      if Between(b.start.y, a.start.y, a.start.y + a.length) && Between(a.start.x, b.start.x, b.start.x + b.length)
      then Some(Point(a.start.x, b.start.y))
      else None
    case (Right, Up) => Intersection(b, a)
    case _ => None
  }

  /**
   * Two segments intersect at `p` exactly when they run along different axes and `p` lies
   * strictly inside both; so the point is unique, and the order of the arguments does not
   * matter.
   */
  lemma IntersectionMeaning(a: WireSegment, b: WireSegment, p: Point)
    ensures Intersection(a, b) == Some(p) <==> a.direction != b.direction && Interior(a, p) && Interior(b, p)
    ensures Intersection(a, b) == Intersection(b, a)
  {
    InteriorBetween(a, p);
    InteriorBetween(b, p);
  }

  /** Text that is not an instruction: the panic of `from_str`, or the error `parse` returns. */
  datatype WireError = UnexpectedFragment(fragment: string) | InvalidLength(fragment: string)

  /** One instruction of a wire: the axis and the signed length. */
  datatype Move = Move(direction: WireDirection, length: int)

  /**
   * One piece of `from_str`'s `split(",")`: `U` and `R` take the number after the letter as
   * it is, `D` and `L` negate it; `split_at(1)` panics on an empty piece, and any other first
   * letter is the "Unexpcted fragment" panic.
   */
  function Instruction(piece: string): (r: Result<Move, WireError>)
    ensures r.Err? && r.error.UnexpectedFragment? <==> piece == [] || piece[0] !in "UDRL"
    ensures r.Err? && r.error.InvalidLength? <==> piece != [] && piece[0] in "UDRL" && ParseIsize(piece[1..]).None?
    ensures r.Ok? ==> (r.value.direction == Up <==> piece[0] in "UD")
  {
    if piece == [] || piece[0] !in "UDRL" then Err(UnexpectedFragment(piece))
    else
      match ParseIsize(piece[1..])
      case None => Err(InvalidLength(piece))
      case Some(n) =>
        if piece[0] == 'U' then Ok(Move(Up, n))
        else if piece[0] == 'D' then Ok(Move(Up, -n))
        else if piece[0] == 'R' then Ok(Move(Right, n))
        else Ok(Move(Right, -n))
  }

  /** How a move is written: the letter gives the axis and the way, the number the distance. */
  function ShowMove(m: Move): string
  {
    match m.direction
    case Up => if m.length >= 0 then "U" + ShowNat(m.length) else "D" + ShowNat(-m.length)
    case Right => if m.length >= 0 then "R" + ShowNat(m.length) else "L" + ShowNat(-m.length)
  }

  /** Reading a written move gives the move back, for every length a 64-bit `isize` holds. */
  lemma InstructionShow(m: Move)
    requires ISIZE_MIN < m.length <= ISIZE_MAX
    ensures Instruction(ShowMove(m)) == Ok(m)
  {
    var distance := Abs(m.length);
    ParseShowInt(distance);
    var piece := ShowMove(m);
    assert piece[1..] == ShowNat(distance) == ShowInt(distance);
  }

  /** The segments the pieces describe, the first starting at `start`, in the order of the pieces. */
  function Walk(pieces: seq<string>, start: Point): Result<seq<WireSegment>, WireError>
    decreases |pieces|
  {
    if pieces == [] then Ok([])
    else
      var move :- Instruction(pieces[0]);
      var segment := WireSegment(start, move.length, move.direction);
      Prepend([segment], Walk(pieces[1..], End(segment)))
  }

  /**
   * The walk lays one segment per piece, with the piece's axis and length; the first starts
   * at `start` and each next one where the one before it ends. It fails exactly at the first
   * piece that is not an instruction.
   */
  lemma {:induction false} WalkIsPath(pieces: seq<string>, start: Point)
    ensures var r := Walk(pieces, start);
      (r.Ok? <==> forall i :: 0 <= i < |pieces| ==> Instruction(pieces[i]).Ok?)
      && (r.Ok? ==>
        |r.value| == |pieces|
        && (r.value != [] ==> r.value[0].start == start)
        && (forall i :: 0 <= i < |pieces| ==>
          Instruction(pieces[i]) == Ok(Move(r.value[i].direction, r.value[i].length)))
        && (forall i :: 0 <= i < |pieces| - 1 ==> r.value[i + 1].start == End(r.value[i])))
      && (r.Err? ==> exists i :: (0 <= i < |pieces| && Instruction(pieces[i]) == Err(r.error)
        && forall k :: 0 <= k < i ==> Instruction(pieces[k]).Ok?))
    decreases |pieces|
  {
    if pieces != [] && Instruction(pieces[0]).Ok? {
      var move := Instruction(pieces[0]).value;
      var segment := WireSegment(start, move.length, move.direction);
      var rest := pieces[1..];
      WalkIsPath(rest, End(segment));
      assert forall i :: 1 <= i < |pieces| ==> pieces[i] == rest[i - 1];
      if Walk(rest, End(segment)).Ok? {
        var r := Walk(pieces, start).value;
        assert r == [segment] + Walk(rest, End(segment)).value;
      } else {
        var i :| 0 <= i < |rest| && Instruction(rest[i]) == Err(Walk(rest, End(segment)).error)
          && forall k :: 0 <= k < i ==> Instruction(rest[k]).Ok?;
        assert Instruction(pieces[i + 1]) == Err(Walk(pieces, start).error);
      }
    }
  }

  /** What `from_str` builds: the set of the segments the comma-separated pieces describe. */
  function Parse(text: string): Result<set<WireSegment>, WireError>
  {
    var segments :- Walk(Split(text, ','), ORIGIN);
    Ok(set s | s in segments)
  }

  /** `from_str`'s loop: each piece adds its segment to the set and moves `start` to its end. */
  method FollowPieces(pieces: seq<string>) returns (r: Result<set<WireSegment>, WireError>)
    ensures Walk(pieces, ORIGIN).Err? ==> r == Err(Walk(pieces, ORIGIN).error)
    ensures Walk(pieces, ORIGIN).Ok? ==> r == Ok(set s | s in Walk(pieces, ORIGIN).value)
  {
    var start := ORIGIN;
    var segments: set<WireSegment> := {};
    ghost var laid: seq<WireSegment> := [];
    PrependNothing(Walk(pieces, ORIGIN));
    for i := 0 to |pieces|
      invariant Walk(pieces, ORIGIN) == Prepend(laid, Walk(pieces[i..], start))
      invariant segments == set s | s in laid
    {
      assert pieces[i..][1..] == pieces[i + 1..];
      var move := Instruction(pieces[i]);
      if move.Err? {
        return Err(move.error);
      }
      var segment := WireSegment(start, move.value.length, move.value.direction);
      PrependTwice(laid, [segment], Walk(pieces[i + 1..], End(segment)));
      segments := segments + {segment};
      laid := laid + [segment];
      start := End(segment);
    }
    assert pieces[|pieces|..] == [] && laid + [] == laid;
    return Ok(segments);
  }

  /** `Wire::from_str`. */
  method FromStr(text: string) returns (r: Result<set<WireSegment>, WireError>)
    ensures r == Parse(text)
  {
    r := FollowPieces(Split(text, ','));
  }

  /** Some segment of `wire` meets some segment of `other` at `p`. */
  ghost predicate CrossesAt(wire: set<WireSegment>, other: set<WireSegment>, p: Point)
  {
    exists a, b :: a in wire && b in other && Intersection(a, b) == Some(p)
  }

  /** The pairs of a segment of `wire` and a segment of `other` that cross. */
  ghost function CrossingPairs(wire: set<WireSegment>, other: set<WireSegment>): set<(WireSegment, WireSegment)>
  {
    set a, b | a in wire && b in other && Intersection(a, b).Some? :: (a, b)
  }

  /** Taking `b` out of the inner loop's remaining segments adds its pair, if it crosses. */
  lemma PairsInner(a: WireSegment, other: set<WireSegment>, inner: set<WireSegment>, b: WireSegment)
    requires b in inner && inner <= other
    ensures |CrossingPairs({a}, other - (inner - {b}))|
      == |CrossingPairs({a}, other - inner)| + (if Intersection(a, b).Some? then 1 else 0)
  {
    var before := CrossingPairs({a}, other - inner);
    var after := CrossingPairs({a}, other - (inner - {b}));
    if Intersection(a, b).Some? {
      assert after == before + {(a, b)};
      assert (a, b) !in before;
    } else {
      assert after == before;
    }
  }

  /** Taking `a` out of the outer loop's remaining segments adds all of `a`'s pairs. */
  lemma PairsOuter(wire: set<WireSegment>, outer: set<WireSegment>, other: set<WireSegment>, a: WireSegment)
    requires a in outer && outer <= wire
    ensures |CrossingPairs(wire - (outer - {a}), other)| == |CrossingPairs(wire - outer, other)| + |CrossingPairs({a}, other)|
  {
    assert CrossingPairs(wire - (outer - {a}), other) == CrossingPairs(wire - outer, other) + CrossingPairs({a}, other);
    assert CrossingPairs(wire - outer, other) * CrossingPairs({a}, other) == {};
  }

  /**
   * `Wire::intersect`: the nested loops over both sets of segments, pushing every
   * intersection; the result holds exactly the points where a segment of `wire` crosses one
   * of `other` strictly inside both, one entry per crossing pair of segments.
   */
  method Intersect(wire: set<WireSegment>, other: set<WireSegment>) returns (res: seq<Point>)
    ensures forall p :: p in res <==> CrossesAt(wire, other, p)
    ensures forall p :: p in res <==> exists a, b :: (a in wire && b in other
      && a.direction != b.direction && Interior(a, p) && Interior(b, p))
    ensures |res| == |CrossingPairs(wire, other)|
  {
    res := [];
    var outer := wire;
    while outer != {}
      invariant outer <= wire
      invariant forall p :: p in res <==> CrossesAt(wire - outer, other, p)
      invariant |res| == |CrossingPairs(wire - outer, other)|
      decreases outer
    {
      var a :| a in outer;
      var inner := other;
      assert CrossingPairs({a}, other - inner) == {};
      while inner != {}
        invariant inner <= other
        invariant forall p :: p in res <==>
          CrossesAt(wire - outer, other, p) || CrossesAt({a}, other - inner, p)
        invariant |res| == |CrossingPairs(wire - outer, other)| + |CrossingPairs({a}, other - inner)|
        decreases inner
      {
        var b :| b in inner;
        var crossing := Intersection(a, b);
        PairsInner(a, other, inner, b);
        if crossing.Some? {
          res := res + [crossing.value];
        }
        inner := inner - {b};
        forall p ensures CrossesAt({a}, other - inner, p) <==> CrossesAt({a}, other - (inner + {b}), p) || Intersection(a, b) == Some(p) {
          if CrossesAt({a}, other - inner, p) {
            var a', b' :| a' in {a} && b' in other - inner && Intersection(a', b') == Some(p);
          }
        }
      }
      assert other - inner == other;
      PairsOuter(wire, outer, other, a);
      outer := outer - {a};
      forall p ensures CrossesAt(wire - outer, other, p) <==> CrossesAt(wire - (outer + {a}), other, p) || CrossesAt({a}, other, p) {
        if CrossesAt(wire - outer, other, p) {
          var a', b' :| a' in wire - outer && b' in other && Intersection(a', b') == Some(p);
          if a' != a {
            assert a' in wire - (outer + {a});
          }
        }
      }
    }
    assert wire - outer == wire;
    forall p ensures CrossesAt(wire, other, p) <==> exists a, b :: (a in wire && b in other
      && a.direction != b.direction && Interior(a, p) && Interior(b, p))
    {
      if CrossesAt(wire, other, p) {
        var a, b :| a in wire && b in other && Intersection(a, b) == Some(p);
        IntersectionMeaning(a, b, p);
      }
      if exists a, b :: a in wire && b in other && a.direction != b.direction && Interior(a, p) && Interior(b, p) {
        var a, b :| a in wire && b in other && a.direction != b.direction && Interior(a, p) && Interior(b, p);
        IntersectionMeaning(a, b, p);
      }
    }
  }
}
