/**
 * The robot and the hull of `p21/src/main.rs` and `p22/src/main.rs`, which both files declare
 * alike: a robot that turns and moves on a grid of panels, a hull map of painted panels that
 * reads Black where nothing was painted, and the picture `p22` prints of the hull.
 */
module Hull {
  import opened Util

  datatype Color = Black | White

  datatype RobotDirection = Up | Right | Down | Left

  /** A panel: `x` grows to the right and `y` upwards. */
  datatype RobotPosition = RobotPosition(x: int, y: int)

  /** A quarter turn counter-clockwise; turning right afterwards gives the heading back. */
  function RotateLeft(d: RobotDirection): (r: RobotDirection)
    ensures r != d
  {
    match d
    case Up => Left
    case Left => Down
    case Down => Right
    case Right => Up
  }

  /** A quarter turn clockwise; turning left afterwards gives the heading back. */
  function RotateRight(d: RobotDirection): (r: RobotDirection)
    ensures r != d
    ensures RotateLeft(r) == d
  {
    match d
    case Up => Right
    case Right => Down
    case Down => Left
    case Left => Up
  }

  /** Turning right undoes turning left. */
  lemma RotationInverse(d: RobotDirection)
    ensures RotateRight(RotateLeft(d)) == d
  {
  }

  /** Four quarter turns the same way face the robot where it started; two face it backwards. */
  lemma FourTurns(d: RobotDirection)
    ensures RotateLeft(RotateLeft(RotateLeft(RotateLeft(d)))) == d
    ensures RotateRight(RotateRight(RotateRight(RotateRight(d)))) == d
    ensures RotateLeft(RotateLeft(d)) == RotateRight(RotateRight(d)) != d
  {
  }

  /** One step along the heading: exactly one coordinate changes, and by one. */
  function MoveForward(p: RobotPosition, d: RobotDirection): (q: RobotPosition)
    ensures Abs(q.x - p.x) + Abs(q.y - p.y) == 1
    ensures d == Up ==> q.y > p.y
    ensures d == Right ==> q.x > p.x
    ensures d == Down ==> q.y < p.y
    ensures d == Left ==> q.x < p.x
  {
    match d
    case Up => RobotPosition(p.x, p.y + 1)
    case Right => RobotPosition(p.x + 1, p.y)
    case Down => RobotPosition(p.x, p.y - 1)
    case Left => RobotPosition(p.x - 1, p.y)
  }

  /** Different headings lead to different panels, and turning around leads back. */
  lemma MoveForwardLaws(p: RobotPosition, d: RobotDirection, e: RobotDirection)
    ensures d != e ==> MoveForward(p, d) != MoveForward(p, e)
    ensures MoveForward(MoveForward(p, d), RotateLeft(RotateLeft(d))) == p
  {
  }

  // ------------------------------------------------------------------------------------
  // The hull

  /** `HullMap::get_color` on the map's contents: the colour painted last, Black if none. */
  function ColorAt(panels: map<RobotPosition, Color>, pos: RobotPosition): (c: Color)
    ensures pos !in panels ==> c == Black
    ensures pos in panels ==> c == panels[pos]
  {
    if pos in panels then panels[pos] else Black
  }

  /** Painting a panel changes the colour of that panel and of no other. */
  lemma PaintedColor(panels: map<RobotPosition, Color>, pos: RobotPosition, color: Color, q: RobotPosition)
    ensures ColorAt(panels[pos := color], q) == if q == pos then color else ColorAt(panels, q)
  {
  }

  /** Painting adds a panel to the count only when it had never been painted. */
  lemma RepaintSize(panels: map<RobotPosition, Color>, pos: RobotPosition, color: Color)
    ensures |panels[pos := color]| == if pos in panels then |panels| else |panels| + 1
  {
    if pos in panels {
      assert panels[pos := color].Keys == panels.Keys;
    } else {
      assert panels[pos := color].Keys == panels.Keys + {pos};
    }
  }

  /** The smallest and largest coordinates of the painted panels. */
  datatype Bounds = Bounds(xmin: int, xmax: int, ymin: int, ymax: int)

  /**
   * `b` holds the least and greatest `x` and `y` of the panels in `keys`, each reached by some
   * panel; with no panel, `unwrap_or(0)` makes all four 0.
   */
  ghost predicate Spans(keys: set<RobotPosition>, b: Bounds)
  {
    if keys == {} then b == Bounds(0, 0, 0, 0)
    else
      (forall p :: p in keys ==> b.xmin <= p.x <= b.xmax && b.ymin <= p.y <= b.ymax)
      && (exists p :: p in keys && p.x == b.xmin) && (exists p :: p in keys && p.x == b.xmax)
      && (exists p :: p in keys && p.y == b.ymin) && (exists p :: p in keys && p.y == b.ymax)
  }

  function Widen(b: Bounds, p: RobotPosition): Bounds
  {
    Bounds(Min(b.xmin, p.x), Max(b.xmax, p.x), Min(b.ymin, p.y), Max(b.ymax, p.y))
  }

  lemma SpansOne(p: RobotPosition)
    ensures Spans({p}, Bounds(p.x, p.x, p.y, p.y))
  {
    assert p in {p};
  }

  /** One more panel widens the bounds just enough to hold it. */
  lemma SpansAdd(keys: set<RobotPosition>, b: Bounds, p: RobotPosition)
    requires keys != {} && Spans(keys, b)
    ensures Spans(keys + {p}, Widen(b, p))
  {
    var all := keys + {p};
    var w := Widen(b, p);
    var a :| a in keys && a.x == b.xmin;
    var c :| c in keys && c.x == b.xmax;
    var e :| e in keys && e.y == b.ymin;
    var f :| f in keys && f.y == b.ymax;
    assert p in all && a in all && c in all && e in all && f in all;
    assert (a.x == w.xmin || p.x == w.xmin) && (c.x == w.xmax || p.x == w.xmax);
    assert (e.y == w.ymin || p.y == w.ymin) && (f.y == w.ymax || p.y == w.ymax);
  }

  /** The bounds of a set of panels are determined by the set. */
  lemma BoundsUnique(keys: set<RobotPosition>, b: Bounds, b': Bounds)
    requires Spans(keys, b) && Spans(keys, b')
    ensures b == b'
  {
    if keys != {} {
      var a :| a in keys && a.x == b.xmin;
      var a' :| a' in keys && a'.x == b'.xmin;
      var c :| c in keys && c.x == b.xmax;
      var c' :| c' in keys && c'.x == b'.xmax;
      var e :| e in keys && e.y == b.ymin;
      var e' :| e' in keys && e'.y == b'.ymin;
      var f :| f in keys && f.y == b.ymax;
      var f' :| f' in keys && f'.y == b'.ymax;
    }
  }

  /** Every finite set of panels has bounds. */
  lemma {:induction false} BoundsExist(keys: set<RobotPosition>)
    ensures exists b :: Spans(keys, b)
    decreases |keys|
  {
    if keys == {} {
      assert Spans(keys, Bounds(0, 0, 0, 0));
    } else {
      var p :| p in keys;
      var rest := keys - {p};
      if rest == {} {
        assert keys == {p};
        SpansOne(p);
      } else {
        BoundsExist(rest);
        var b :| Spans(rest, b);
        SpansAdd(rest, b, p);
        assert rest + {p} == keys;
      }
    }
  }

  /** The bounds of `keys`. */
  ghost function BoundsOf(keys: set<RobotPosition>): (b: Bounds)
    ensures Spans(keys, b)
  {
    BoundsExist(keys);
    var b :| Spans(keys, b);
    b
  }

  /**
   * The `min`/`max` over the collected keys in `Display for HullMap`: the four extremes of the
   * panels, found in one pass over them in whatever order the map yields them.
   */
  method ComputeBounds(keys: set<RobotPosition>) returns (b: Bounds)
    ensures Spans(keys, b)
  {
    if keys == {} {
      return Bounds(0, 0, 0, 0);
    }
    var first :| first in keys;
    b := Bounds(first.x, first.x, first.y, first.y);
    SpansOne(first);
    var seen, rest := {first}, keys - {first};
    while rest != {}
      invariant seen + rest == keys && seen != {}
      invariant Spans(seen, b)
      decreases |rest|
    {
      var p :| p in rest;
      SpansAdd(seen, b, p);
      b := Bounds(Min(b.xmin, p.x), Max(b.xmax, p.x), Min(b.ymin, p.y), Max(b.ymax, p.y));
      seen, rest := seen + {p}, rest - {p};
    }
  }

  /** How a panel is drawn: '#' for White, a blank for Black. */
  function Symbol(c: Color): (s: char)
    ensures s == '#' <==> c == White
  {
    match c
    case Black => ' '
    case White => '#'
  }

  /** The `width` panels of line `y` from column `xmin` on. */
  function RowText(panels: map<RobotPosition, Color>, xmin: int, width: nat, y: int): (row: string)
    ensures |row| == width
    decreases width
  {
    if width == 0 then []
    else RowText(panels, xmin, width - 1, y) + [Symbol(ColorAt(panels, RobotPosition(xmin + width - 1, y)))]
  }

  /** Column `i` of a line shows the panel `i` columns right of where the line starts. */
  lemma {:induction false} RowTextAt(panels: map<RobotPosition, Color>, xmin: int, width: nat, y: int, i: nat)
    requires i < width
    ensures RowText(panels, xmin, width, y)[i] == Symbol(ColorAt(panels, RobotPosition(xmin + i, y)))
    decreases width
  {
    if i < width - 1 {
      RowTextAt(panels, xmin, width - 1, y, i);
    }
  }

  /** The first `count` lines from line `ytop` downwards, each ended by a newline. */
  function Rows(panels: map<RobotPosition, Color>, xmin: int, width: nat, ytop: int, count: nat): string
    decreases count
  {
    if count == 0 then []
    else Rows(panels, xmin, width, ytop, count - 1) + RowText(panels, xmin, width, ytop - (count - 1)) + "\n"
  }

  /** The number of columns `xmin..=xmax` covers. */
  function Width(b: Bounds): nat
  {
    if b.xmin <= b.xmax then b.xmax - b.xmin + 1 else 0
  }

  /** The number of lines `ymin..=ymax` covers. */
  function Height(b: Bounds): nat
  {
    if b.ymin <= b.ymax then b.ymax - b.ymin + 1 else 0
  }

  /** What `Display for HullMap` writes for bounds `b`: lines `ymax` down to `ymin`, columns `xmin..=xmax`. */
  function Picture(panels: map<RobotPosition, Color>, b: Bounds): string
  {
    Rows(panels, b.xmin, Width(b), b.ymax, Height(b))
  }

  lemma {:induction false} RowsLength(panels: map<RobotPosition, Color>, xmin: int, width: nat, ytop: int, count: nat)
    ensures |Rows(panels, xmin, width, ytop, count)| == count * (width + 1)
    decreases count
  {
    if count > 0 {
      RowsLength(panels, xmin, width, ytop, count - 1);
      assert (count - 1) * (width + 1) + width + 1 == count * (width + 1);
    }
  }

  /** Adding a line leaves the characters before it in place. */
  lemma RowsFront(panels: map<RobotPosition, Color>, xmin: int, width: nat, ytop: int, count: nat, k: nat)
    requires 0 < count && k < |Rows(panels, xmin, width, ytop, count - 1)|
    ensures k < |Rows(panels, xmin, width, ytop, count)|
    ensures Rows(panels, xmin, width, ytop, count)[k] == Rows(panels, xmin, width, ytop, count - 1)[k]
  {
  }

  /** The characters of the last line, followed by its newline. */
  lemma RowsLast(panels: map<RobotPosition, Color>, xmin: int, width: nat, ytop: int, count: nat, c: nat)
    requires 0 < count && c <= width
    ensures |Rows(panels, xmin, width, ytop, count - 1)| + c < |Rows(panels, xmin, width, ytop, count)|
    ensures Rows(panels, xmin, width, ytop, count)[|Rows(panels, xmin, width, ytop, count - 1)| + c]
      == if c == width then '\n' else RowText(panels, xmin, width, ytop - (count - 1))[c]
  {
    var front := Rows(panels, xmin, width, ytop, count - 1);
    var tail := RowText(panels, xmin, width, ytop - (count - 1)) + "\n";
    assert Rows(panels, xmin, width, ytop, count) == front + tail;
    assert (front + tail)[|front| + c] == tail[c];
  }

  /** Character `c` after the first `r` lines is column `c` of line `r`, or its newline. */
  lemma {:induction false} RowsAt(panels: map<RobotPosition, Color>, xmin: int, width: nat, ytop: int, count: nat, r: nat, c: nat)
    requires r < count && c <= width
    ensures |Rows(panels, xmin, width, ytop, r)| + c < |Rows(panels, xmin, width, ytop, count)|
    ensures Rows(panels, xmin, width, ytop, count)[|Rows(panels, xmin, width, ytop, r)| + c]
      == if c == width then '\n' else Symbol(ColorAt(panels, RobotPosition(xmin + c, ytop - r)))
    decreases count
  {
    if r < count - 1 {
      RowsAt(panels, xmin, width, ytop, count - 1, r, c);
      RowsFront(panels, xmin, width, ytop, count, |Rows(panels, xmin, width, ytop, r)| + c);
    } else {
      RowsLast(panels, xmin, width, ytop, count, c);
      if c < width {
        RowTextAt(panels, xmin, width, ytop - r, c);
      }
    }
  }

  /** Where the character for column `c` of line `r` sits in the picture. */
  lemma LineOffset(width: nat, height: nat, r: nat, c: nat)
    requires r < height && c <= width
    ensures r * (width + 1) + c < height * (width + 1)
  {
    assert r * (width + 1) + (width + 1) == (r + 1) * (width + 1) <= height * (width + 1);
  }

  /**
   * The picture is `Height(b)` lines of `Width(b)` characters and a newline; column `c` of line
   * `r` shows the panel `c` columns right of `xmin` and `r` lines below `ymax`, as '#' exactly
   * when that panel is White.
   */
  lemma PictureMeaning(panels: map<RobotPosition, Color>, b: Bounds, r: nat, c: nat)
    requires r < Height(b) && c <= Width(b)
    ensures |Picture(panels, b)| == Height(b) * (Width(b) + 1)
    ensures r * (Width(b) + 1) + c < |Picture(panels, b)|
    ensures c == Width(b) ==> Picture(panels, b)[r * (Width(b) + 1) + c] == '\n'
    ensures c < Width(b) ==>
      (Picture(panels, b)[r * (Width(b) + 1) + c] == '#' <==> ColorAt(panels, RobotPosition(b.xmin + c, b.ymax - r)) == White)
  {
    RowsLength(panels, b.xmin, Width(b), b.ymax, Height(b));
    RowsLength(panels, b.xmin, Width(b), b.ymax, r);
    LineOffset(Width(b), Height(b), r, c);
    RowsAt(panels, b.xmin, Width(b), b.ymax, Height(b), r, c);
  }

  /** Where `Display` draws panel `p` within the picture for bounds `b`. */
  function PanelIndex(b: Bounds, p: RobotPosition): int
  {
    (b.ymax - p.y) * (Width(b) + 1) + (p.x - b.xmin)
  }

  /** Every painted panel lies inside the picture, and it shows as '#' exactly when it is White. */
  lemma PaintedPanelShown(panels: map<RobotPosition, Color>, p: RobotPosition)
    requires p in panels
    ensures var b := BoundsOf(panels.Keys);
      && b.xmin <= p.x <= b.xmax && b.ymin <= p.y <= b.ymax
      && 0 <= PanelIndex(b, p) < |Picture(panels, b)|
      && (Picture(panels, b)[PanelIndex(b, p)] == '#' <==> panels[p] == White)
  {
    var b := BoundsOf(panels.Keys);
    PictureMeaning(panels, b, b.ymax - p.y, p.x - b.xmin);
  }

  /** `HullMap`: the painted panels and their colours. */
  class HullMap {
    var panels: map<RobotPosition, Color>

    /** `HullMap::default()`: nothing painted. */
    constructor ()
      ensures panels == map[]
    {
      panels := map[];
    }

    /** `get_color`. */
    function GetColor(pos: RobotPosition): (c: Color)
      reads this
      ensures c == ColorAt(panels, pos)
    {
      if pos in panels then panels[pos] else Black
    }

    /** `paint`: records the colour of one panel. */
    method Paint(pos: RobotPosition, color: Color)
      modifies this
      ensures panels == old(panels)[pos := color]
      ensures GetColor(pos) == color
      ensures forall q :: q != pos ==> GetColor(q) == old(GetColor(q))
    {
      panels := panels[pos := color];
    }

    /** `len`: the number of panels painted at least once. */
    function Len(): (n: nat)
      reads this
      ensures n == |panels.Keys|
    {
      |panels|
    }

    /** The inner loop of `Display for HullMap`: the panels of line `y`, columns `xmin` on. */
    method DrawLine(xmin: int, width: nat, y: int) returns (line: string)
      ensures line == RowText(panels, xmin, width, y)
    {
      line := [];
      for i := 0 to width
        invariant line == RowText(panels, xmin, i, y)
      {
        line := line + [Symbol(GetColor(RobotPosition(xmin + i, y)))];
      }
    }

    /** `Display for HullMap`: the picture of the painted part of the hull. */
    method Display() returns (s: string)
      ensures s == Picture(panels, BoundsOf(panels.Keys))
    {
      var b := ComputeBounds(panels.Keys);
      BoundsUnique(panels.Keys, b, BoundsOf(panels.Keys));
      var width := if b.xmin <= b.xmax then b.xmax - b.xmin + 1 else 0;
      var height := if b.ymin <= b.ymax then b.ymax - b.ymin + 1 else 0;
      assert width == Width(b) && height == Height(b);
      s := [];
      for k := 0 to height
        invariant s == Rows(panels, b.xmin, width, b.ymax, k)
      {
        var line := DrawLine(b.xmin, width, b.ymax - k);
        s := s + line + "\n";
      }
    }
  }

}
