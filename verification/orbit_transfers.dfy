/**
 * `p12/src/main.rs`: the orbit map of `p11/src/main.rs` (module `OrbitMap`, whose `from_str`
 * the source file repeats), the chain of centers above an object, the first object two chains
 * share, and the number of orbital transfers between the objects `YOU` and `SAN` orbit.
 */
module OrbitTransfers {
  import opened Util
  import opened OrbitMap

  /**
   * What `get_centers_for` builds: the centers above `entry`, nearest first; a name on the
   * way that the map does not hold is the panic "Map must be consistent".
   */
  function Centers(m: Orbits, entry: string, fuel: nat): Result<seq<string>, OrbitError>
  {
    if entry !in m then Err(MissingEntry(entry)) else ChainFrom(m, m[entry].directOrbit, fuel)
  }

  /**
   * The centers above an object form its path to the root: the first is what it orbits, each
   * orbits the next, and the last orbits nothing.
   */
  lemma CentersArePath(m: Orbits, entry: string, fuel: nat)
    requires Centers(m, entry, fuel).Ok?
    ensures var c := Centers(m, entry, fuel).value;
      entry in m
      && (forall i :: 0 <= i < |c| ==> c[i] in m)
      && (c == [] <==> m[entry].directOrbit.None?)
      && (c != [] ==> m[entry].directOrbit == Some(c[0]) && m[c[|c| - 1]].directOrbit.None?)
      && (forall i :: 0 <= i < |c| - 1 ==> m[c[i]].directOrbit == Some(c[i + 1]))
  {
    ChainIsPath(m, m[entry].directOrbit, fuel);
  }

  /** `get_centers_for`: the loop that pushes each center and moves up to it. */
  method GetCentersFor(m: Orbits, entry: string, fuel: nat) returns (r: Result<seq<string>, OrbitError>)
    ensures r == Centers(m, entry, fuel)
  {
    var res: seq<string> := [];
    var current := entry;
    if current !in m {
      return Err(MissingEntry(current));
    }
    PrependNothing(ChainFrom(m, m[current].directOrbit, fuel));
    while m[current].directOrbit.Some?
      invariant current in m && |res| <= fuel
      invariant Centers(m, entry, fuel) == Prepend(res, ChainFrom(m, m[current].directOrbit, fuel - |res|))
      decreases fuel - |res|
    {
      var center := m[current].directOrbit.value;
      if |res| == fuel {
        return Err(OutOfFuel);
      }
      if center !in m {
        return Err(MissingEntry(center));
      }
      PrependTwice(res, [center], ChainFrom(m, m[center].directOrbit, fuel - |res| - 1));
      res := res + [center];
      current := center;
    }
    assert res + [] == res;
    return Ok(res);
  }

  /** The first position `j` on of `right` that holds `x`. */
  function IndexFrom<T(==)>(x: T, right: seq<T>, j: nat): (r: Option<nat>)
    requires j <= |right|
    ensures r.Some? ==> j <= r.value < |right| && right[r.value] == x && x !in right[j..r.value]
    ensures r.None? ==> x !in right[j..]
    decreases |right| - j
  {
    if j == |right| then None
    else if right[j] == x then Some(j)
    else IndexFrom(x, right, j + 1)
  }

  /** The first position `i` on of `left` whose element `right` holds, with its first place in `right`. */
  function CommonFrom<T(==)>(left: seq<T>, right: seq<T>, i: nat): Option<(nat, nat)>
    requires i <= |left|
    decreases |left| - i
  {
    if i == |left| then None
    else
      match IndexFrom(left[i], right, 0)
      case Some(j) => Some((i, j))
      case None => CommonFrom(left, right, i + 1)
  }

  /**
   * `find_common_ancestor`: both chains up to and including the first element of `left` that
   * `right` also holds, the cut in `right` at that element's first occurrence.
   */
  function CommonAncestor<T(==)>(left: seq<T>, right: seq<T>): Option<(seq<T>, seq<T>)>
  {
    match CommonFrom(left, right, 0)
    case None => None
    case Some((i, j)) => if i < |left| && j < |right| then Some((left[..i + 1], right[..j + 1])) else None
  }

  /** The search from `i` on finds the first element of `left` from `i` on that `right` holds. */
  lemma {:induction false} CommonFromIsFirst<T>(left: seq<T>, right: seq<T>, i: nat)
    requires i <= |left|
    ensures var r := CommonFrom(left, right, i);
      (r.None? <==> forall k :: i <= k < |left| ==> left[k] !in right)
      && (r.Some? ==>
        var (a, b) := r.value;
        i <= a < |left| && b < |right| && left[a] == right[b]
        && (forall k :: i <= k < a ==> left[k] !in right) && left[a] !in right[..b])
    decreases |left| - i
  {
    if i < |left| {
      assert right[0..] == right;
      if IndexFrom(left[i], right, 0).None? {
        CommonFromIsFirst(left, right, i + 1);
      }
    }
  }

  /**
   * The common ancestor is found exactly when the chains share an element; then the left
   * part ends at the first element of `left` that `right` holds and the right part at that
   * element's first place in `right`.
   */
  lemma CommonAncestorIsFirst<T>(left: seq<T>, right: seq<T>)
    ensures CommonAncestor(left, right).None? <==> forall i, j :: 0 <= i < |left| && 0 <= j < |right| ==> left[i] != right[j]
    ensures CommonAncestor(left, right).Some? ==>
      var (l, r) := CommonAncestor(left, right).value;
      var i, j := |l| - 1, |r| - 1;
      1 <= |l| <= |left| && 1 <= |r| <= |right| && l == left[..|l|] && r == right[..|r|]
      && left[i] == right[j]
      && (forall k :: 0 <= k < i ==> left[k] !in right) && left[i] !in right[..j]
  {
    CommonFromIsFirst(left, right, 0);
    if CommonFrom(left, right, 0).None? {
      forall i, j | 0 <= i < |left| && 0 <= j < |right| ensures left[i] != right[j] {
        assert left[i] !in right;
      }
    } else {
      var (i, j) := CommonFrom(left, right, 0).value;
      assert left[i] == right[j];
    }
  }

  /** The test of `find_common_ancestor`. */
  lemma CommonAncestorExample()
    ensures CommonAncestor(["foo", "bar", "baz"], ["b", "ba", "bar"]) == Some((["foo", "bar"], ["b", "ba", "bar"]))
  {
    var left, right := ["foo", "bar", "baz"], ["b", "ba", "bar"];
    assert IndexFrom(left[0], right, 0) == None by {
      assert "foo" != "b" && "foo" != "ba" && "foo" != "bar" by {
        assert "foo"[0] != "b"[0] && "foo"[0] != "ba"[0] && "foo"[0] != "bar"[0];
      }
    }
    assert IndexFrom(left[1], right, 0) == Some(2) by {
      assert "bar" != "b" && "bar" != "ba";
    }
    assert CommonFrom(left, right, 0) == Some((1, 2));
    assert left[..2] == ["foo", "bar"];
    assert right[..3] == right;
  }

  /** `find_common_ancestor`: the nested loops with the early return. */
  method FindCommonAncestor<T(==)>(left: seq<T>, right: seq<T>) returns (r: Option<(seq<T>, seq<T>)>)
    ensures r == CommonAncestor(left, right)
  {
    for i := 0 to |left|
      invariant CommonFrom(left, right, 0) == CommonFrom(left, right, i)
    {
      for j := 0 to |right|
        invariant IndexFrom(left[i], right, 0) == IndexFrom(left[i], right, j)
      {
        if left[i] == right[j] {
          return Some((left[..i + 1], right[..j + 1]));
        }
      }
    }
    return None;
  }

  /** What `run` computes once the map is read. */
  function Transfers(m: Orbits, fuel: nat): Result<nat, OrbitError>
  {
    var santa :- Centers(m, "SAN", fuel);
    var you :- Centers(m, "YOU", fuel);
    match CommonAncestor(santa, you)
    case None => Err(NoCommonOrbit)
    case Some((toCommonS, toCommonY)) => Ok(|toCommonS| + |toCommonY| - 2)
  }

  /**
   * The number of transfers is the number of links from what `SAN` orbits and from what `YOU`
   * orbits up to the first center their chains share, nearest to `SAN`.
   */
  lemma TransfersMeetAtFirstCommonCenter(m: Orbits, fuel: nat)
    requires Transfers(m, fuel).Ok?
    ensures Centers(m, "SAN", fuel).Ok? && Centers(m, "YOU", fuel).Ok?
    ensures var santa, you := Centers(m, "SAN", fuel).value, Centers(m, "YOU", fuel).value;
      exists i, j :: 0 <= i < |santa| && 0 <= j < |you| && santa[i] == you[j]
        && Transfers(m, fuel).value == i + j
        && (forall k :: 0 <= k < i ==> santa[k] !in you) && santa[i] !in you[..j]
  {
    var santa, you := Centers(m, "SAN", fuel).value, Centers(m, "YOU", fuel).value;
    CommonAncestorIsFirst(santa, you);
    var (l, r) := CommonAncestor(santa, you).value;
    assert santa[|l| - 1] == you[|r| - 1];
  }

  /** `run` once the map is read: the two chains and their common part. */
  method TransfersOf(m: Orbits, fuel: nat) returns (r: Result<nat, OrbitError>)
    ensures r == Transfers(m, fuel)
  {
    var santaOrbits :- GetCentersFor(m, "SAN", fuel);
    var youOrbits :- GetCentersFor(m, "YOU", fuel);
    var common := FindCommonAncestor(santaOrbits, youOrbits);
    if common.None? {
      return Err(NoCommonOrbit);
    }
    var (santaToCommon, youToCommon) := common.value;
    return Ok(|santaToCommon| + |youToCommon| - 2);
  }

  /** `run`: read the map, then count the transfers. */
  method Run(text: string, fuel: nat) returns (r: Result<nat, OrbitError>)
    ensures Parse(text).Err? ==> r == Err(Parse(text).error)
    ensures Parse(text).Ok? ==> r == Transfers(Parse(text).value, fuel)
  {
    var m :- FromStr(text);
    r := TransfersOf(m, fuel);
  }
}
