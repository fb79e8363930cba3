/**
 * `get_all_permutations` of `p13/src/main.rs` and `p14/src/main.rs`: five nested loops, each
 * over the five phase settings `lo .. lo + 5` minus the ones the outer loops chose, push every
 * ordering of the settings into a vector.  The first program uses `lo == 0`, the second
 * `lo == 5`.  Both `run` functions then keep the largest signal over these orderings, starting
 * from `isize::MIN`; that loop is written here once, over the signal an ordering yields.
 */
module PhaseOrders {
  import opened Util
  /** The number of amplifiers, and so of slots in an ordering. */
  const SLOTS: nat := 5

  /** Every value of `c` is a phase setting and none is repeated. */
  predicate Partial(lo: int, c: seq<int>)
  {
    |c| <= SLOTS
    && (forall i :: 0 <= i < |c| ==> lo <= c[i] < lo + SLOTS)
    && (forall i, j :: 0 <= i < j < |c| ==> c[i] != c[j])
  }

  /** An ordering of all five phase settings. */
  predicate Arrangement(lo: int, p: seq<int>)
  {
    Partial(lo, p) && |p| == SLOTS
  }

  /** No ordering appears twice in the list. */
  predicate Distinct(s: seq<seq<int>>)
  {
    forall i, j :: 0 <= i < j < |s| ==> s[i] != s[j]
  }

  function Factorial(n: nat): nat
  {
    if n == 0 then 1 else n * Factorial(n - 1)
  }

  /**
   * The orderings pushed once the outer loops have chosen `chosen`, in the order of the loops:
   * the innermost pushes `chosen` itself.
   */
  function Orders(lo: int, chosen: seq<int>): seq<seq<int>>
    requires |chosen| <= SLOTS
    decreases SLOTS - |chosen|, 1
  {
    if |chosen| == SLOTS then [chosen] else OrdersUpTo(lo, chosen, SLOTS)
  }

  /**
   * What the loop over the next slot pushes in its first `n` rounds; the filter skips the
   * settings already in `chosen`.
   */
  function OrdersUpTo(lo: int, chosen: seq<int>, n: nat): seq<seq<int>>
    requires |chosen| < SLOTS && n <= SLOTS
    decreases SLOTS - |chosen|, 0, n
  {
    if n == 0 then []
    else OrdersUpTo(lo, chosen, n - 1) + (if lo + n - 1 in chosen then [] else Orders(lo, chosen + [lo + n - 1]))
  }

  /** The settings among the first `n` that `c` already holds. */
  function CountTaken(lo: int, c: seq<int>, n: nat): nat
  {
    if n == 0 then 0 else CountTaken(lo, c, n - 1) + (if lo + n - 1 in c then 1 else 0)
  }

  // ------------------------------------------------------------------------------------
  // What the orderings are

  /** Every ordering pushed extends the choices of the outer loops and is an arrangement. */
  lemma {:induction false} OrdersSound(lo: int, c: seq<int>)
    requires Partial(lo, c)
    ensures forall p :: p in Orders(lo, c) ==> Arrangement(lo, p) && c <= p
    decreases SLOTS - |c|, 1
  {
    if |c| < SLOTS {
      OrdersUpToSound(lo, c, SLOTS);
    }
  }

  /** The round for setting `lo + k` pushes only orderings whose next slot holds it. */
  lemma {:induction false} OrdersUpToSound(lo: int, c: seq<int>, n: nat)
    requires Partial(lo, c) && |c| < SLOTS && n <= SLOTS
    ensures forall p :: p in OrdersUpTo(lo, c, n) ==>
      Arrangement(lo, p) && c <= p && lo <= p[|c|] < lo + n && p[|c|] !in c
    decreases SLOTS - |c|, 0, n
  {
    if n > 0 {
      OrdersUpToSound(lo, c, n - 1);
      var x := lo + n - 1;
      if x !in c {
        var c' := c + [x];
        assert Partial(lo, c');
        OrdersSound(lo, c');
        forall p | p in Orders(lo, c')
          ensures c <= p && p[|c|] == x
        {
          assert c' <= p;
          assert p[..|c|] == c'[..|c|] == c;
        }
      }
    }
  }

  /** An arrangement that extends the choices so far is among the orderings pushed from there. */
  lemma {:induction false} OrdersComplete(lo: int, c: seq<int>, p: seq<int>)
    requires Partial(lo, c) && Arrangement(lo, p) && c <= p
    ensures p in Orders(lo, c)
    decreases SLOTS - |c|
  {
    if |c| == SLOTS {
      assert p == c;
    } else {
      var x := p[|c|];
      var c' := c + [x];
      assert c' == p[..|c| + 1];
      assert x !in c;
      assert Partial(lo, c');
      OrdersComplete(lo, c', p);
      UpToIncludes(lo, c, SLOTS, x);
    }
  }

  /** Past the round for a free setting, the list holds every ordering that round pushed. */
  lemma {:induction false} UpToIncludes(lo: int, c: seq<int>, n: nat, x: int)
    requires |c| < SLOTS && n <= SLOTS && lo <= x < lo + n && x !in c
    ensures forall p :: p in Orders(lo, c + [x]) ==> p in OrdersUpTo(lo, c, n)
  {
    if x < lo + n - 1 {
      UpToIncludes(lo, c, n - 1, x);
    }
  }

  /** The orderings pushed from any point on are all different. */
  lemma {:induction false} OrdersDistinct(lo: int, c: seq<int>)
    requires Partial(lo, c)
    ensures Distinct(Orders(lo, c))
    decreases SLOTS - |c|, 1
  {
    if |c| < SLOTS {
      OrdersUpToDistinct(lo, c, SLOTS);
    }
  }

  lemma {:induction false} OrdersUpToDistinct(lo: int, c: seq<int>, n: nat)
    requires Partial(lo, c) && |c| < SLOTS && n <= SLOTS
    ensures Distinct(OrdersUpTo(lo, c, n))
    decreases SLOTS - |c|, 0, n
  {
    if n > 0 {
      var x := lo + n - 1;
      var front := OrdersUpTo(lo, c, n - 1);
      OrdersUpToDistinct(lo, c, n - 1);
      if x !in c {
        var c' := c + [x];
        assert Partial(lo, c');
        var back := Orders(lo, c');
        OrdersDistinct(lo, c');
        OrdersUpToSound(lo, c, n - 1);
        OrdersSound(lo, c');
        forall p | p in back
          ensures p[|c|] == x
        {
          assert c' <= p;
        }
        var s := front + back;
        forall i, j | 0 <= i < j < |s|
          ensures s[i] != s[j]
        {
          if j >= |front| && i < |front| {
            assert s[i] in front && s[j] in back;
          }
        }
      }
    }
  }

  /** How many orderings are pushed from a point where `|c|` slots are chosen. */
  lemma {:induction false} OrdersCount(lo: int, c: seq<int>)
    requires Partial(lo, c)
    ensures |Orders(lo, c)| == Factorial(SLOTS - |c|)
    decreases SLOTS - |c|, 1
  {
    if |c| < SLOTS {
      OrdersUpToCount(lo, c, SLOTS);
      TakenCount(lo, c);
    }
  }

  lemma {:induction false} OrdersUpToCount(lo: int, c: seq<int>, n: nat)
    requires Partial(lo, c) && |c| < SLOTS && n <= SLOTS
    ensures |OrdersUpTo(lo, c, n)| == (n - CountTaken(lo, c, n)) * Factorial(SLOTS - |c| - 1)
    decreases SLOTS - |c|, 0, n
  {
    if n > 0 {
      OrdersUpToCount(lo, c, n - 1);
      TakenBound(lo, c, n - 1);
      var x, f := lo + n - 1, Factorial(SLOTS - |c| - 1);
      var k := n - 1 - CountTaken(lo, c, n - 1);
      if x !in c {
        assert Partial(lo, c + [x]);
        OrdersCount(lo, c + [x]);
        assert (k + 1) * f == k * f + f;
      }
    }
  }

  lemma {:induction false} TakenBound(lo: int, c: seq<int>, n: nat)
    ensures CountTaken(lo, c, n) <= n
  {
    if n > 0 {
      TakenBound(lo, c, n - 1);
    }
  }

  /** Adding a setting not yet chosen adds one to the count of the settings it lies among. */
  lemma {:induction false} TakenGrows(lo: int, c: seq<int>, y: int, n: nat)
    requires y !in c
    ensures CountTaken(lo, c + [y], n) == CountTaken(lo, c, n) + (if lo <= y < lo + n then 1 else 0)
  {
    if n > 0 {
      TakenGrows(lo, c, y, n - 1);
      assert (lo + n - 1 in c + [y]) <==> (lo + n - 1 in c || lo + n - 1 == y);
    }
  }

  /** All the settings of a partial choice lie among the five. */
  lemma {:induction false} TakenCount(lo: int, c: seq<int>)
    requires Partial(lo, c)
    ensures CountTaken(lo, c, SLOTS) == |c|
    decreases |c|
  {
    if c == [] {
      TakenEmpty(lo, SLOTS);
    } else {
      var init, y := c[..|c| - 1], c[|c| - 1];
      assert c == init + [y];
      assert Partial(lo, init);
      assert y !in init;
      TakenCount(lo, init);
      TakenGrows(lo, init, y, SLOTS);
    }
  }

  lemma {:induction false} TakenEmpty(lo: int, n: nat)
    ensures CountTaken(lo, [], n) == 0
  {
    if n > 0 {
      TakenEmpty(lo, n - 1);
    }
  }

  /**
   * What the test module checks of the list, and more: 120 orderings, each an arrangement of
   * the five settings, none twice, and every arrangement among them.
   */
  lemma AllOrders(lo: int)
    ensures |Orders(lo, [])| == 120
    ensures forall p :: p in Orders(lo, []) ==> Arrangement(lo, p)
    ensures forall p :: Arrangement(lo, p) ==> p in Orders(lo, [])
    ensures Distinct(Orders(lo, []))
  {
    OrdersCount(lo, []);
    OrdersSound(lo, []);
    OrdersDistinct(lo, []);
    forall p | Arrangement(lo, p)
      ensures p in Orders(lo, [])
    {
      OrdersComplete(lo, [], p);
    }
  }

  // ------------------------------------------------------------------------------------
  // The nested loops

  /**
   * `get_all_permutations`: the five nested loops, one level of this method per slot, so that
   * `chosen` holds what the outer loops put in `init` so far.  Each level runs over the five
   * settings, skips the ones already chosen, and the innermost pushes the ordering.
   */
  method AllPhaseOrders(lo: int) returns (res: seq<seq<int>>)
    ensures res == Orders(lo, [])
  {
    res := PushOrders(lo, [], []);
  }

  /** The loop over slot `|chosen|` and the loops inside it, appending to `res`. */
  method PushOrders(lo: int, chosen: seq<int>, res: seq<seq<int>>) returns (res': seq<seq<int>>)
    requires |chosen| <= SLOTS
    ensures res' == res + Orders(lo, chosen)
    decreases SLOTS - |chosen|
  {
    if |chosen| == SLOTS {
      return res + [chosen];
    }
    res' := res;
    for x := lo to lo + SLOTS
      invariant res' == res + OrdersUpTo(lo, chosen, x - lo)
    {
      ghost var before := res';
      if !(x in chosen) {
        res' := PushOrders(lo, chosen + [x], res');
      }
      RoundDone(lo, chosen, x - lo, res, before, res');
    }
  }

  /** One round of the loop over a slot: what it pushed lies after what the earlier rounds did. */
  lemma RoundDone(lo: int, c: seq<int>, n: int, r: seq<seq<int>>, before: seq<seq<int>>, after: seq<seq<int>>)
    requires |c| < SLOTS && 0 <= n < SLOTS
    requires before == r + OrdersUpTo(lo, c, n)
    requires after == before + (if lo + n in c then [] else Orders(lo, c + [lo + n]))
    ensures after == r + OrdersUpTo(lo, c, n + 1)
  {
  }

  // ------------------------------------------------------------------------------------
  // The largest signal over the orderings

  /** The loop of `run` over `orders`: the running maximum of `signal`, or the first panic. */
  function BestOver<E>(signal: seq<int> -> Result<int, E>, orders: seq<seq<int>>, max: int): Result<int, E>
  {
    if orders == [] then Ok(max)
    else
      var s :- signal(orders[0]);
      BestOver(signal, orders[1..], if s > max then s else max)
  }

  /**
   * The loop gives the largest of the starting value and every ordering's signal, and it
   * fails exactly when some ordering panics.
   */
  lemma {:induction false} BestIsMaximum<E>(signal: seq<int> -> Result<int, E>, orders: seq<seq<int>>, max: int)
    ensures BestOver(signal, orders, max).Ok? <==> forall i :: 0 <= i < |orders| ==> signal(orders[i]).Ok?
    ensures BestOver(signal, orders, max).Ok? ==>
      var best := BestOver(signal, orders, max).value;
      max <= best
      && (forall i :: 0 <= i < |orders| ==> signal(orders[i]).value <= best)
      && (best == max || exists i :: 0 <= i < |orders| && signal(orders[i]).value == best)
  {
    if orders != [] {
      var c := signal(orders[0]);
      if c.Ok? {
        var max' := if c.value > max then c.value else max;
        BestIsMaximum(signal, orders[1..], max');
        var b := BestOver(signal, orders, max);
        assert b == BestOver(signal, orders[1..], max');
        forall i | 0 < i < |orders|
          ensures orders[i] == orders[1..][i - 1]
        {
        }
        if b.Ok? && b.value != max' {
          var i :| 0 <= i < |orders[1..]| && signal(orders[1..][i]).value == b.value;
          assert signal(orders[i + 1]).value == b.value;
        }
      }
    }
  }

  /**
   * What `run` answers: the largest signal over every arrangement of the five settings (at
   * least `isize::MIN`, where it starts), reached by one of them.
   */
  lemma BestOverAll<E>(signal: seq<int> -> Result<int, E>, lo: int)
    requires BestOver(signal, Orders(lo, []), ISIZE_MIN).Ok?
    ensures var best := BestOver(signal, Orders(lo, []), ISIZE_MIN).value;
      (forall p :: Arrangement(lo, p) ==> signal(p).Ok? && signal(p).value <= best)
      && exists p :: Arrangement(lo, p) && best == Max(ISIZE_MIN, signal(p).value)
  {
    var orders := Orders(lo, []);
    AllOrders(lo);
    BestIsMaximum(signal, orders, ISIZE_MIN);
    var best := BestOver(signal, orders, ISIZE_MIN).value;
    forall p | Arrangement(lo, p)
      ensures signal(p).Ok? && signal(p).value <= best
    {
      var i :| 0 <= i < |orders| && orders[i] == p;
    }
    if best == ISIZE_MIN {
      assert Arrangement(lo, orders[0]) && best == Max(ISIZE_MIN, signal(orders[0]).value);
    } else {
      var i :| 0 <= i < |orders| && signal(orders[i]).value == best;
      assert Arrangement(lo, orders[i]) && best == Max(ISIZE_MIN, signal(orders[i]).value);
    }
  }
}
