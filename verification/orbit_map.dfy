/**
 * `p11/src/main.rs`: a map from each object to the object it directly orbits, read from lines
 * `CENTER)ORBITER`, and the total number of direct and indirect orbits: for every object, the
 * number of parent links up to an object that orbits nothing.
 */
module OrbitMap {
  import opened Util

  /** `OrbitInfo`: what an object directly orbits, if anything. */
  datatype OrbitInfo = OrbitInfo(directOrbit: Option<string>)

  /** `OrbitMap`: every object named in the input, with what it directly orbits. */
  type Orbits = map<string, OrbitInfo>

  /** Why `from_str`, a walk or `run` gives up. */
  datatype OrbitError =
    | InvalidFormat                // a non-blank line without `)`
    | MissingEntry(name: string)   // a parent link to an object the map does not hold
    | OutOfFuel                    // the walk was cut short by its step bound
    | NoCommonOrbit                // p12: the two chains share no object

  /** Every parent link names an object of the map. */
  predicate Closed(m: Orbits)
  {
    forall k :: k in m && m[k].directOrbit.Some? ==> m[k].directOrbit.value in m
  }

  // ------------------------------------------------------------------------------------
  // Parsing

  /**
   * One line, trimmed: nothing when blank, otherwise the text before the first `)` and the
   * text after it up to the next `)`.
   */
  function LineOrbit(line: string): Result<Option<(string, string)>, OrbitError>
  {
    var t := Trim(line);
    if t == [] then Ok(None)
    else
      var parts := Split(t, ')');
      if |parts| < 2 then Err(InvalidFormat) else Ok(Some((parts[0], parts[1])))
  }

  /**
   * A blank line is skipped, a non-blank line without `)` is `Invalid format`, and the names
   * read from a line hold no `)`.
   */
  lemma LineOrbitMeaning(line: string)
    ensures LineOrbit(line).Err? ==> LineOrbit(line).error == InvalidFormat
    ensures LineOrbit(line).Err? <==> Trim(line) != [] && ')' !in Trim(line)
    ensures LineOrbit(line) == Ok(None) <==> Trim(line) == []
    ensures LineOrbit(line).Ok? && LineOrbit(line).value.Some? ==>
      var (center, orbiter) := LineOrbit(line).value.value;
      ')' !in center && ')' !in orbiter
  {
  }

  /** How one line is read. */
  type LineReader = string -> Result<Option<(string, string)>, OrbitError>

  /** The orbits named by the lines, read one line after the other up to the first bad one. */
  function ReadLines(read: LineReader, lines: seq<string>): Result<seq<Option<(string, string)>>, OrbitError>
    decreases |lines|
  {
    if lines == [] then Ok([])
    else
      var orbit :- read(lines[0]);
      var rest :- ReadLines(read, lines[1..]);
      Ok([orbit] + rest)
  }

  /**
   * Reading fails exactly on a line that fails, with that line's error; otherwise it gives
   * one entry per line.
   */
  lemma {:induction false} ReadLinesMeaning(read: LineReader, lines: seq<string>)
    ensures var r := ReadLines(read, lines);
      (r.Ok? ==> |r.value| == |lines| && forall i :: 0 <= i < |lines| ==> read(lines[i]) == Ok(r.value[i]))
      && (r.Err? ==> exists i :: 0 <= i < |lines| && read(lines[i]) == Err(r.error))
    decreases |lines|
  {
    if lines != [] && read(lines[0]).Ok? {
      ReadLinesMeaning(read, lines[1..]);
      if ReadLines(read, lines[1..]).Err? {
        var i :| 0 <= i < |lines[1..]| && read(lines[1..][i]) == Err(ReadLines(read, lines[1..]).error);
        assert read(lines[i + 1]) == Err(ReadLines(read, lines).error);
      }
    }
  }

  /**
   * The two `entry` calls of `from_str`: the center gets an empty entry if it has none, and
   * the orbiter's entry, new or old, now orbits the center.
   */
  function Orbit(m: Orbits, center: string, orbiter: string): (r: Orbits)
    ensures r.Keys == m.Keys + {center, orbiter}
    ensures r[orbiter] == OrbitInfo(Some(center))
    ensures forall k :: k in m && k != orbiter ==> r[k] == m[k]
    ensures center !in m && center != orbiter ==> r[center] == OrbitInfo(None)
  {
    var withCenter := if center in m then m else m[center := OrbitInfo(None)];
    withCenter[orbiter := OrbitInfo(Some(center))]
  }

  /** The map after one line: a blank line changes nothing. */
  function Apply(m: Orbits, orbit: Option<(string, string)>): Orbits
  {
    match orbit
    case None => m
    case Some((center, orbiter)) => Orbit(m, center, orbiter)
  }

  /** The map `from_str` fills from the orbits of the lines, starting from `m`. */
  function Build(m: Orbits, orbits: seq<Option<(string, string)>>): Orbits
    decreases |orbits|
  {
    if orbits == [] then m else Build(Apply(m, orbits[0]), orbits[1..])
  }

  /** `from_str` from `m` on, for the lines still to read. */
  function Resume(read: LineReader, m: Orbits, lines: seq<string>): Result<Orbits, OrbitError>
  {
    match ReadLines(read, lines)
    case Ok(orbits) => Ok(Build(m, orbits))
    case Err(e) => Err(e)
  }

  /** One more line: its orbit goes into the map, or its error ends the reading. */
  lemma ResumeStep(read: LineReader, m: Orbits, lines: seq<string>)
    requires lines != []
    ensures Resume(read, m, lines) ==
      match read(lines[0])
      case Ok(orbit) => Resume(read, Apply(m, orbit), lines[1..])
      case Err(e) => Err(e)
  {
  }

  /** `OrbitMap::from_str`. */
  function Parse(text: string): Result<Orbits, OrbitError>
  {
    Resume(LineOrbit, map[], Lines(text))
  }

  /** The body of the loop of `from_str`: one line read into the map. */
  method AddLine(m: Orbits, text: string) returns (r: Result<Orbits, OrbitError>)
    ensures r == match LineOrbit(text) case Ok(orbit) => Ok(Apply(m, orbit)) case Err(e) => Err(e)
  {
    var line := Trim(text);
    if line == [] {
      return Ok(m);
    }
    var parts := Split(line, ')');
    if |parts| < 2 {
      return Err(InvalidFormat);
    }
    var center, orbiter := parts[0], parts[1];
    var entries := m;
    if center !in entries {
      entries := entries[center := OrbitInfo(None)];
    }
    entries := entries[orbiter := OrbitInfo(Some(center))];
    return Ok(entries);
  }

  /** The loop of `from_str` over the lines, filling the map in place. */
  method FillMap(lines: seq<string>) returns (r: Result<Orbits, OrbitError>)
    ensures r == Resume(LineOrbit, map[], lines)
  {
    var m: Orbits := map[];
    for i := 0 to |lines|
      invariant Resume(LineOrbit, map[], lines) == Resume(LineOrbit, m, lines[i..])
    {
      ResumeStep(LineOrbit, m, lines[i..]);
      assert lines[i..][1..] == lines[i + 1..];
      m :- AddLine(m, lines[i]);
    }
    assert lines[|lines|..] == [];
    return Ok(m);
  }

  /** `from_str`. */
  method FromStr(text: string) returns (r: Result<Orbits, OrbitError>)
    ensures r == Parse(text)
  {
    r := FillMap(Lines(text));
  }

  /** Entry `i` is an orbit of `center` by `orbiter`. */
  predicate Names(orbits: seq<Option<(string, string)>>, i: int, center: string, orbiter: string)
  {
    0 <= i < |orbits| && orbits[i] == Some((center, orbiter))
  }

  /** The objects already known stay, and every object an entry names gets one. */
  lemma {:induction false} BuiltKeys(m: Orbits, orbits: seq<Option<(string, string)>>)
    ensures var r := Build(m, orbits);
      m.Keys <= r.Keys && forall i, c, o :: Names(orbits, i, c, o) ==> c in r && o in r
    decreases |orbits|
  {
    if orbits != [] {
      var rest := orbits[1..];
      BuiltKeys(Apply(m, orbits[0]), rest);
      forall i, c, o | Names(orbits, i, c, o) && i > 0 ensures Names(rest, i - 1, c, o) {
      }
    }
  }

  /** When every parent link of the starting map names one of its objects, so does every link of the result. */
  lemma {:induction false} BuiltClosed(m: Orbits, orbits: seq<Option<(string, string)>>)
    requires Closed(m)
    ensures Closed(Build(m, orbits))
    decreases |orbits|
  {
    if orbits != [] {
      BuiltClosed(Apply(m, orbits[0]), orbits[1..]);
    }
  }

  /** No entry from `from` on names `o` as an orbiter. */
  ghost predicate Unnamed(orbits: seq<Option<(string, string)>>, from: int, o: string)
  {
    forall j, c :: from <= j < |orbits| ==> !Names(orbits, j, c, o)
  }

  lemma UnnamedRest(orbits: seq<Option<(string, string)>>, from: int, o: string)
    requires orbits != [] && 1 <= from && Unnamed(orbits, from, o)
    ensures Unnamed(orbits[1..], from - 1, o)
  {
    forall j, c | from - 1 <= j < |orbits[1..]| ensures !Names(orbits[1..], j, c, o) {
      assert !Names(orbits, j + 1, c, o);
    }
  }

  /** An orbiter ends up orbiting the center of the last entry that names it. */
  lemma {:induction false} BuiltLastWins(m: Orbits, orbits: seq<Option<(string, string)>>, i: int, c: string, o: string)
    requires Names(orbits, i, c, o) && Unnamed(orbits, i + 1, o)
    ensures o in Build(m, orbits) && Build(m, orbits)[o] == OrbitInfo(Some(c))
    decreases |orbits|
  {
    var m' := Apply(m, orbits[0]);
    UnnamedRest(orbits, i + 1, o);
    if i == 0 {
      BuiltUntouched(m', orbits[1..], o);
    } else {
      assert Names(orbits[1..], i - 1, c, o);
      BuiltLastWins(m', orbits[1..], i - 1, c, o);
    }
  }

  /** An object that no entry names as an orbiter keeps the entry it had. */
  lemma {:induction false} BuiltUntouched(m: Orbits, orbits: seq<Option<(string, string)>>, k: string)
    requires k in m && Unnamed(orbits, 0, k)
    ensures k in Build(m, orbits) && Build(m, orbits)[k] == m[k]
    decreases |orbits|
  {
    if orbits != [] {
      if orbits[0].Some? {
        assert !Names(orbits, 0, orbits[0].value.0, k);
      }
      UnnamedRest(orbits, 1, k);
      BuiltUntouched(Apply(m, orbits[0]), orbits[1..], k);
    }
  }

  // ------------------------------------------------------------------------------------
  // Walking up the parent links

  /**
   * The objects reached by following parent links from `parent` on, nearest first, up to an
   * object that orbits nothing; at most `fuel` links are followed.
   */
  function ChainFrom(m: Orbits, parent: Option<string>, fuel: nat): Result<seq<string>, OrbitError>
    decreases fuel
  {
    match parent
    case None => Ok([])
    case Some(center) =>
      if fuel == 0 then Err(OutOfFuel)
      else if center !in m then Err(MissingEntry(center))
      else Prepend([center], ChainFrom(m, m[center].directOrbit, fuel - 1))
  }

  /**
   * A chain is a path of parent links: it starts at `parent`, each object orbits the next
   * one, and the last one orbits nothing; a walk fails only on a link to a missing object or
   * when the bound runs out.
   */
  lemma {:induction false} ChainIsPath(m: Orbits, parent: Option<string>, fuel: nat)
    ensures var r := ChainFrom(m, parent, fuel);
      (r.Ok? ==>
        var c := r.value;
        |c| <= fuel
        && (parent.None? <==> c == [])
        && (c != [] ==> parent == Some(c[0]))
        && (forall i :: 0 <= i < |c| ==> c[i] in m)
        && (forall i :: 0 <= i < |c| - 1 ==> m[c[i]].directOrbit == Some(c[i + 1]))
        && (c != [] ==> m[c[|c| - 1]].directOrbit.None?))
      && (r.Err? ==> r.error == OutOfFuel || r.error.MissingEntry?)
    decreases fuel
  {
    if parent.Some? && fuel > 0 && parent.value in m {
      ChainIsPath(m, m[parent.value].directOrbit, fuel - 1);
    }
  }

  /** In a map whose links all name objects of the map, a walk can only run out of steps. */
  lemma {:induction false} ClosedChainNeverMisses(m: Orbits, parent: Option<string>, fuel: nat)
    requires Closed(m) && (parent.Some? ==> parent.value in m)
    ensures ChainFrom(m, parent, fuel).Err? ==> ChainFrom(m, parent, fuel).error == OutOfFuel
    decreases fuel
  {
    if parent.Some? && fuel > 0 {
      ClosedChainNeverMisses(m, m[parent.value].directOrbit, fuel - 1);
    }
  }

  /** The number of direct and indirect orbits of object `k`, when its walk succeeds. */
  function Depth(m: Orbits, k: string, fuel: nat): nat
    requires k in m
  {
    match ChainFrom(m, m[k].directOrbit, fuel)
    case Ok(chain) => |chain|
    case Err(_) => 0
  }

  /** The sum of the depths of the objects of `keys`, in no particular order. */
  ghost function TotalDepth(m: Orbits, keys: set<string>, fuel: nat): nat
    requires keys <= m.Keys
  {
    if keys == {} then 0
    else
      var k :| k in keys;
      Depth(m, k, fuel) + TotalDepth(m, keys - {k}, fuel)
  }

  /** The sum does not depend on which object is taken first. */
  lemma {:induction false} TotalDepthRemove(m: Orbits, keys: set<string>, k: string, fuel: nat)
    requires keys <= m.Keys && k in keys
    ensures TotalDepth(m, keys, fuel) == Depth(m, k, fuel) + TotalDepth(m, keys - {k}, fuel)
    decreases |keys|
  {
    var j :| j in keys && TotalDepth(m, keys, fuel) == Depth(m, j, fuel) + TotalDepth(m, keys - {j}, fuel);
    if j != k {
      TotalDepthRemove(m, keys - {j}, k, fuel);
      TotalDepthRemove(m, keys - {k}, j, fuel);
      assert keys - {j} - {k} == keys - {k} - {j};
    }
  }

  /**
   * `run` after parsing: for every entry of the map, in the map's own order, walk the parent
   * links and count them.  It succeeds exactly when every walk does, and then the count is
   * the sum of the depths of all objects; a failure is the failure of some object's walk.
   */
  method CountOrbits(m: Orbits, fuel: nat) returns (r: Result<nat, OrbitError>)
    ensures r.Ok? <==> forall k :: k in m ==> ChainFrom(m, m[k].directOrbit, fuel).Ok?
    ensures r.Ok? ==> r.value == TotalDepth(m, m.Keys, fuel)
    ensures r.Err? ==> exists k :: k in m && ChainFrom(m, m[k].directOrbit, fuel) == Err(r.error)
  {
    var sum: nat := 0;
    var remaining := m.Keys;
    while remaining != {}
      invariant remaining <= m.Keys
      invariant forall k :: k in m.Keys - remaining ==> ChainFrom(m, m[k].directOrbit, fuel).Ok?
      invariant sum + TotalDepth(m, remaining, fuel) == TotalDepth(m, m.Keys, fuel)
      decreases |remaining|
    {
      var key :| key in remaining;
      var entry := m[key].directOrbit;
      var steps: nat := 0;
      ghost var walked: seq<string> := [];
      PrependNothing(ChainFrom(m, entry, fuel));
      while entry.Some?
        invariant |walked| == steps <= fuel
        invariant ChainFrom(m, m[key].directOrbit, fuel) == Prepend(walked, ChainFrom(m, entry, fuel - steps))
        decreases fuel - steps
      {
        var next := entry.value;
        if steps == fuel {
          return Err(OutOfFuel);
        }
        if next !in m {
          return Err(MissingEntry(next));
        }
        PrependTwice(walked, [next], ChainFrom(m, m[next].directOrbit, fuel - steps - 1));
        walked, steps := walked + [next], steps + 1;
        entry := m[next].directOrbit;
      }
      assert ChainFrom(m, m[key].directOrbit, fuel) == Ok(walked) by {
        assert walked + [] == walked;
      }
      TotalDepthRemove(m, remaining, key, fuel);
      sum := sum + steps;
      remaining := remaining - {key};
    }
    return Ok(sum);
  }

  /** `run`: parse the map, then count the orbits. */
  method Run(text: string, fuel: nat) returns (r: Result<nat, OrbitError>)
    ensures Parse(text).Err? ==> r == Err(InvalidFormat)
    ensures Parse(text).Ok? && r.Ok? ==> r.value == TotalDepth(Parse(text).value, Parse(text).value.Keys, fuel)
    ensures Parse(text).Ok? ==> (r.Ok? <==> forall k :: k in Parse(text).value ==> ChainFrom(Parse(text).value, Parse(text).value[k].directOrbit, fuel).Ok?)
    ensures r.Err? ==> r.error == InvalidFormat || r.error == OutOfFuel
  {
    ReadLinesMeaning(LineOrbit, Lines(text));
    var m :- FromStr(text);
    BuiltClosed(map[], ReadLines(LineOrbit, Lines(text)).value);
    forall k | k in m
      ensures ChainFrom(m, m[k].directOrbit, fuel).Err? ==> ChainFrom(m, m[k].directOrbit, fuel).error == OutOfFuel
    {
      ClosedChainNeverMisses(m, m[k].directOrbit, fuel);
    }
    r := CountOrbits(m, fuel);
  }
}
