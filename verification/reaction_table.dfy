/**
 * `ReactionTable` of `p27/src/main.rs` and `p28/src/main.rs`: the reactions keyed by the name of
 * what they produce.  `from_iter` refuses a reaction whose requirements lead back to its own
 * result and a second reaction for the same result, so the table never holds a cycle; `next`
 * takes out a reaction whose result no remaining reaction needs.
 */
module ReactionTables {
  import opened Util
  import opened Chemicals

  /** The reactions, each under the name of the chemical it produces. */
  type Table = map<string, Reaction>

  /** The names of some items. */
  function Names(items: seq<ItemSpec>): set<string>
  {
    set i | 0 <= i < |items| :: items[i].name
  }

  /** Every reaction is stored under the name of its result. */
  ghost predicate Named(t: Table)
  {
    forall name :: name in t ==> t[name].result.name == name
  }

  // ------------------------------------------------------------------------------------
  // What a chemical is made from

  /** Making `a` consumes `b` directly. */
  ghost predicate Step(t: Table, a: string, b: string)
  {
    a in t && b in Names(t[a].requirements)
  }

  /** Each chemical of `p` is consumed in making the one before it. */
  ghost predicate IsPath(t: Table, p: seq<string>)
    decreases |p|
  {
    |p| >= 1 && (|p| == 1 || (Step(t, p[0], p[1]) && IsPath(t, p[1..])))
  }

  /** `b` is `a`, or is consumed, directly or further down, in making `a`. */
  ghost predicate Leads(t: Table, a: string, b: string)
  {
    exists p :: IsPath(t, p) && p[0] == a && p[|p| - 1] == b
  }

  /** No chemical is consumed, directly or further down, in making itself. */
  ghost predicate Acyclic(t: Table)
  {
    forall a, b :: Step(t, a, b) ==> !Leads(t, b, a)
  }

  /** Adding `spec` would close a cycle: one of its requirements leads to its own result. */
  ghost predicate ClosesCycle(t: Table, spec: Reaction)
  {
    exists i :: 0 <= i < |spec.requirements| && Leads(t, spec.requirements[i].name, spec.result.name)
  }

  lemma LeadsItself(t: Table, a: string)
    ensures Leads(t, a, a)
  {
    assert IsPath(t, [a]);
  }

  /** A step in front of a way down is a way down. */
  lemma LeadsStep(t: Table, a: string, b: string, c: string)
    requires Step(t, a, b) && Leads(t, b, c)
    ensures Leads(t, a, c)
  {
    var p :| IsPath(t, p) && p[0] == b && p[|p| - 1] == c;
    assert ([a] + p)[1..] == p;
    assert IsPath(t, [a] + p);
  }

  /** Two paths, the second starting where the first ends, make one. */
  lemma {:induction false} PathJoin(t: Table, p: seq<string>, q: seq<string>)
    requires IsPath(t, p) && IsPath(t, q) && p[|p| - 1] == q[0]
    ensures IsPath(t, p + q[1..])
    decreases |p|
  {
    if |p| == 1 {
      assert p + q[1..] == q;
    } else {
      PathJoin(t, p[1..], q);
      assert (p + q[1..])[1..] == p[1..] + q[1..];
    }
  }

  /** Two ways down, one after the other. */
  lemma LeadsTrans(t: Table, a: string, b: string, c: string)
    requires Leads(t, a, b) && Leads(t, b, c)
    ensures Leads(t, a, c)
  {
    var p :| IsPath(t, p) && p[0] == a && p[|p| - 1] == b;
    var q :| IsPath(t, q) && q[0] == b && q[|q| - 1] == c;
    PathJoin(t, p, q);
    assert (p + q[1..])[0] == a;
    assert (p + q[1..])[|p + q[1..]| - 1] == c;
  }

  /** A way down from `a` to something else starts with one of `a`'s requirements. */
  lemma FirstStep(t: Table, a: string, c: string)
    requires Leads(t, a, c) && a != c
    ensures exists b :: Step(t, a, b) && Leads(t, b, c)
  {
    var p :| IsPath(t, p) && p[0] == a && p[|p| - 1] == c;
    assert Step(t, a, p[1]) && IsPath(t, p[1..]);
    assert Leads(t, p[1], c) by {
      assert p[1..][0] == p[1] && p[1..][|p[1..]| - 1] == c;
    }
  }

  /** A piece of a path is a path. */
  lemma {:induction false} SubPath(t: Table, p: seq<string>, i: nat, j: nat)
    requires IsPath(t, p) && i <= j < |p|
    ensures IsPath(t, p[i..j + 1])
    decreases |p|
  {
    if i > 0 {
      SubPath(t, p[1..], i - 1, j - 1);
      assert p[1..][i - 1..j] == p[i..j + 1];
    } else if j > 0 {
      SubPath(t, p[1..], 0, j - 1);
      assert p[..j + 1][1..] == p[1..][0..j];
    }
  }

  /** Consecutive chemicals of a path are one step apart. */
  lemma {:induction false} PathStep(t: Table, p: seq<string>, k: nat)
    requires IsPath(t, p) && k < |p| - 1
    ensures Step(t, p[k], p[k + 1])
    decreases k
  {
    if k > 0 {
      PathStep(t, p[1..], k - 1);
    }
  }

  // ------------------------------------------------------------------------------------
  // Tables with one reaction more or less

  /** A path in a table with `x` added either avoids `x`'s reaction or passes through `x`. */
  lemma {:induction false} PathAfterInsert(t: Table, x: string, spec: Reaction, p: seq<string>)
    requires x !in t && IsPath(t[x := spec], p)
    ensures Leads(t, p[0], p[|p| - 1]) || (Leads(t, p[0], x) && Leads(t[x := spec], x, p[|p| - 1]))
    decreases |p|
  {
    var t' := t[x := spec];
    var a, c := p[0], p[|p| - 1];
    if |p| == 1 {
      LeadsItself(t, a);
    } else if a == x {
      LeadsItself(t, a);
      assert Leads(t', x, c);
    } else {
      PathAfterInsert(t, x, spec, p[1..]);
      assert Step(t, a, p[1]);
      if Leads(t, p[1], c) {
        LeadsStep(t, a, p[1], c);
      } else {
        LeadsStep(t, a, p[1], x);
      }
    }
  }

  lemma LeadsAfterInsert(t: Table, x: string, spec: Reaction, a: string, c: string)
    requires x !in t
    requires Leads(t[x := spec], a, c)
    ensures Leads(t, a, c) || (Leads(t, a, x) && Leads(t[x := spec], x, c))
  {
    var p :| IsPath(t[x := spec], p) && p[0] == a && p[|p| - 1] == c;
    PathAfterInsert(t, x, spec, p);
  }

  /** A path of a table with one reaction taken out is a path of the whole table. */
  lemma {:induction false} PathAfterRemove(t: Table, x: string, p: seq<string>)
    requires IsPath(t - {x}, p)
    ensures IsPath(t, p)
    decreases |p|
  {
    if |p| > 1 {
      PathAfterRemove(t, x, p[1..]);
    }
  }

  /** Adding a reaction that closes no cycle, for a result not yet in the table, keeps it free of cycles. */
  lemma InsertAcyclic(t: Table, spec: Reaction)
    requires Acyclic(t) && spec.result.name !in t && !ClosesCycle(t, spec)
    ensures Acyclic(t[spec.result.name := spec])
  {
    var x := spec.result.name;
    var t' := t[x := spec];
    forall a, b | Step(t', a, b)
      ensures !Leads(t', b, a)
    {
      if Leads(t', b, a) {
        if a == x {
          BackToNew(t, spec, b);
        } else {
          assert Step(t, a, b);
          LeadsAfterInsert(t, x, spec, b, a);
          if Leads(t, b, a) {
            assert false;
          } else {
            FirstStep(t', x, a);
            var c :| Step(t', x, c) && Leads(t', c, a);
            LeadsAfterInsert(t, x, spec, c, a);
            if !Leads(t, c, a) {
              NewNeedsCycle(t, spec, c);
              assert false;
            } else {
              LeadsStep(t, a, b, x);
              LeadsTrans(t, c, a, x);
              NewNeedsCycle(t, spec, c);
              assert false;
            }
          }
        }
      }
    }
  }

  /** No requirement of the new reaction leads back to its result in the old table. */
  lemma NewNeedsCycle(t: Table, spec: Reaction, c: string)
    requires !ClosesCycle(t, spec) && c in Names(spec.requirements)
    ensures !Leads(t, c, spec.result.name)
  {
    var i :| 0 <= i < |spec.requirements| && spec.requirements[i].name == c;
  }

  /** Nor does one lead back to it in the new table. */
  lemma BackToNew(t: Table, spec: Reaction, b: string)
    requires spec.result.name !in t && !ClosesCycle(t, spec)
    requires b in Names(spec.requirements)
    ensures !Leads(t[spec.result.name := spec], b, spec.result.name)
  {
    var x := spec.result.name;
    if Leads(t[x := spec], b, x) {
      LeadsAfterInsert(t, x, spec, b, x);
      NewNeedsCycle(t, spec, b);
      assert false;
    }
  }

  /** Taking a reaction out keeps the table free of cycles. */
  lemma RemoveAcyclic(t: Table, x: string)
    requires Acyclic(t)
    ensures Acyclic(t - {x})
  {
    var t' := t - {x};
    forall a, b | Step(t', a, b)
      ensures !Leads(t', b, a)
    {
      assert Step(t, a, b);
      if Leads(t', b, a) {
        var p :| IsPath(t', p) && p[0] == b && p[|p| - 1] == a;
        PathAfterRemove(t, x, p);
        assert false;
      }
    }
  }

  // ------------------------------------------------------------------------------------
  // The cycle check of `from_iter`

  /** Some requirement of `spec` leads to `n`. */
  ghost predicate Reached(t: Table, spec: Reaction, n: string)
  {
    exists j :: 0 <= j < |spec.requirements| && Leads(t, spec.requirements[j].name, n)
  }

  /** Whatever a chemical of `done` is made from is itself in `done` or in `pending`. */
  ghost predicate Closed(t: Table, done: set<string>, pending: set<string>)
  {
    forall n, b :: n in done && Step(t, n, b) ==> b in done || b in pending
  }

  /**
   * The walk of `from_iter` before inserting `spec`, with `stack` still to look at and the
   * chemicals of `popped` looked at: everything on the stack is reached from `spec`'s
   * requirements, `spec`'s result was not met, the requirements themselves are looked at or on
   * the stack, and what a looked-at chemical is made from is looked at or on the stack.
   */
  ghost predicate Searching(t: Table, spec: Reaction, stack: seq<ItemSpec>, popped: set<string>)
  {
    && (forall n :: n in Names(stack) ==> Reached(t, spec, n))
    && spec.result.name !in popped
    && Names(spec.requirements) <= popped + Names(stack)
    && Closed(t, popped, Names(stack))
  }

  lemma NamesAppend(a: seq<ItemSpec>, b: seq<ItemSpec>)
    ensures Names(a + b) == Names(a) + Names(b)
  {
    forall n | n in Names(a + b)
      ensures n in Names(a) + Names(b)
    {
      var i :| 0 <= i < |a + b| && (a + b)[i].name == n;
      if i < |a| {
        assert a[i] == (a + b)[i];
      } else {
        assert b[i - |a|] == (a + b)[i];
      }
    }
    forall n | n in Names(a) + Names(b)
      ensures n in Names(a + b)
    {
      if n in Names(a) {
        var i :| 0 <= i < |a| && a[i].name == n;
        assert (a + b)[i] == a[i];
      } else {
        var i :| 0 <= i < |b| && b[i].name == n;
        assert (a + b)[|a| + i] == b[i];
      }
    }
  }

  lemma SearchStart(t: Table, spec: Reaction)
    ensures Searching(t, spec, spec.requirements, {})
  {
    forall n | n in Names(spec.requirements)
      ensures Reached(t, spec, n)
    {
      var i :| 0 <= i < |spec.requirements| && spec.requirements[i].name == n;
      LeadsItself(t, n);
    }
  }

  /** Taking the last chemical off the stack and pushing what its reaction requires. */
  lemma SearchPop(t: Table, spec: Reaction, stack: seq<ItemSpec>, popped: set<string>)
    requires Searching(t, spec, stack, popped)
    requires |stack| > 0 && stack[|stack| - 1].name != spec.result.name
    ensures var v := stack[|stack| - 1];
      Searching(t, spec, stack[..|stack| - 1] + (if v.name in t then t[v.name].requirements else []), popped + {v.name})
  {
    var v := stack[|stack| - 1];
    var rest := stack[..|stack| - 1];
    var pushed := if v.name in t then t[v.name].requirements else [];
    assert stack == rest + [v];
    NamesAppend(rest, [v]);
    assert Names([v]) == {v.name};
    NamesAppend(rest, pushed);
    assert Reached(t, spec, v.name);
    forall n | n in Names(pushed)
      ensures Reached(t, spec, n)
    {
      var j :| 0 <= j < |spec.requirements| && Leads(t, spec.requirements[j].name, v.name);
      assert Step(t, v.name, n);
      LeadsItself(t, n);
      LeadsStep(t, v.name, n, n);
      LeadsTrans(t, spec.requirements[j].name, v.name, n);
    }
  }

  /** Meeting `spec`'s result on the stack means a requirement leads to it. */
  lemma SearchFound(t: Table, spec: Reaction, stack: seq<ItemSpec>, popped: set<string>)
    requires Searching(t, spec, stack, popped)
    requires |stack| > 0 && stack[|stack| - 1].name == spec.result.name
    ensures ClosesCycle(t, spec)
  {
    assert stack[|stack| - 1].name in Names(stack);
  }

  /** A path that starts in a set closed under making-from stays in it. */
  lemma {:induction false} ClosedPath(t: Table, done: set<string>, p: seq<string>)
    requires Closed(t, done, {}) && IsPath(t, p) && p[0] in done
    ensures p[|p| - 1] in done
    decreases |p|
  {
    if |p| > 1 {
      ClosedPath(t, done, p[1..]);
    }
  }

  /** With the stack empty and the result never met, no requirement leads to it. */
  lemma SearchDone(t: Table, spec: Reaction, popped: set<string>)
    requires Searching(t, spec, [], popped)
    ensures !ClosesCycle(t, spec)
  {
    assert Names([]) == {};
    forall j | 0 <= j < |spec.requirements|
      ensures !Leads(t, spec.requirements[j].name, spec.result.name)
    {
      assert spec.requirements[j].name in Names(spec.requirements);
      if Leads(t, spec.requirements[j].name, spec.result.name) {
        var p :| IsPath(t, p) && p[0] == spec.requirements[j].name && p[|p| - 1] == spec.result.name;
        ClosedPath(t, popped, p);
        assert false;
      }
    }
  }

  /** A result nothing in the table consumes, and not among its own requirements, closes no cycle. */
  lemma UnusedResult(t: Table, spec: Reaction)
    requires forall a :: a in t ==> spec.result.name !in Names(t[a].requirements)
    requires spec.result.name !in Names(spec.requirements)
    ensures !ClosesCycle(t, spec)
  {
    forall j | 0 <= j < |spec.requirements|
      ensures !Leads(t, spec.requirements[j].name, spec.result.name)
    {
      assert spec.requirements[j].name in Names(spec.requirements);
      if Leads(t, spec.requirements[j].name, spec.result.name) {
        var p :| IsPath(t, p) && p[0] == spec.requirements[j].name && p[|p| - 1] == spec.result.name;
        PathStep(t, p, |p| - 2);
        assert false;
      }
    }
  }

  /**
   * The check `from_iter` runs before inserting `spec`: a depth-first walk from its
   * requirements through the reactions already in the table, which panics on meeting `spec`'s
   * own result.  At most `fuel` chemicals are looked at.
   */
  method CheckCycle(t: Table, spec: Reaction, fuel: nat) returns (r: Result<(), ReactionError>)
    ensures r.Ok? ==> !ClosesCycle(t, spec)
    ensures r.Err? ==> r.error == OutOfFuel || (r.error == CycleDetected(spec.result.name) && ClosesCycle(t, spec))
  {
    var toCheck := spec.requirements;
    ghost var popped: set<string> := {};
    var steps := fuel;
    SearchStart(t, spec);
    while toCheck != []
      invariant Searching(t, spec, toCheck, popped)
      decreases steps
    {
      if steps == 0 {
        return Err(OutOfFuel);
      }
      var v := toCheck[|toCheck| - 1];
      if v.name == spec.result.name {
        SearchFound(t, spec, toCheck, popped);
        return Err(CycleDetected(spec.result.name));
      }
      SearchPop(t, spec, toCheck, popped);
      toCheck := toCheck[..|toCheck| - 1];
      if v.name in t {
        toCheck := toCheck + t[v.name].requirements;
      }
      popped := popped + {v.name};
      steps := steps - 1;
    }
    SearchDone(t, spec, popped);
    return Ok(());
  }

  // ------------------------------------------------------------------------------------
  // `from_iter`

  /**
   * The table `from_iter` builds from `specs`: each reaction in turn, refused when it closes a
   * cycle and then when its result already has a reaction.
   */
  ghost function Built(specs: seq<Reaction>): Result<Table, ReactionError>
    decreases |specs|
  {
    if specs == [] then Ok(map[])
    else
      var t :- Built(specs[..|specs| - 1]);
      var spec := specs[|specs| - 1];
      if ClosesCycle(t, spec) then Err(CycleDetected(spec.result.name))
      else if spec.result.name in t then Err(DuplicateResult(spec.result.name))
      else Ok(t[spec.result.name := spec])
  }

  /** Appending a reaction that closes no cycle and names a new result adds it to the table. */
  lemma BuiltAppend(front: seq<Reaction>, t: Table, spec: Reaction)
    requires Built(front) == Ok(t) && !ClosesCycle(t, spec) && spec.result.name !in t
    ensures Built(front + [spec]) == Ok(t[spec.result.name := spec])
  {
    assert (front + [spec])[..|front|] == front;
  }

  /** A built table stores each reaction under its result's name and holds no cycle. */
  lemma {:induction false} BuiltWellFormed(specs: seq<Reaction>)
    requires Built(specs).Ok?
    ensures Named(Built(specs).value) && Acyclic(Built(specs).value)
    decreases |specs|
  {
    if specs != [] {
      var front := specs[..|specs| - 1];
      BuiltWellFormed(front);
      InsertAcyclic(Built(front).value, specs[|specs| - 1]);
    }
  }

  /** A built table holds each listed reaction under its result's name. */
  lemma {:induction false} BuiltHas(specs: seq<Reaction>)
    requires Built(specs).Ok?
    ensures forall i :: 0 <= i < |specs| ==>
      specs[i].result.name in Built(specs).value && Built(specs).value[specs[i].result.name] == specs[i]
    decreases |specs|
  {
    if specs != [] {
      var n := |specs| - 1;
      var front := specs[..n];
      var t, x := BuiltLast(specs);
      BuiltHas(front);
      forall i | 0 <= i < n
        ensures specs[i].result.name in t[x := specs[n]] && t[x := specs[n]][specs[i].result.name] == specs[i]
      {
        assert specs[i] == front[i];
      }
    }
  }

  /** A built table holds nothing but the listed reactions, one per reaction. */
  lemma {:induction false} BuiltOnly(specs: seq<Reaction>)
    requires Built(specs).Ok?
    ensures forall name :: name in Built(specs).value ==> exists i :: 0 <= i < |specs| && specs[i].result.name == name
    ensures |Built(specs).value| == |specs|
    decreases |specs|
  {
    if specs != [] {
      var n := |specs| - 1;
      var front := specs[..n];
      var t, x := BuiltLast(specs);
      BuiltOnly(front);
      forall name | name in Built(specs).value
        ensures exists i :: 0 <= i < |specs| && specs[i].result.name == name
      {
        if name != x {
          var i :| 0 <= i < n && front[i].result.name == name;
          assert specs[i] == front[i];
        }
      }
    }
  }

  /** A built table is the table built from all but the last reaction, with the last one added. */
  lemma BuiltLast(specs: seq<Reaction>) returns (t: Table, x: string)
    requires specs != [] && Built(specs).Ok?
    ensures Built(specs[..|specs| - 1]) == Ok(t) && x == specs[|specs| - 1].result.name
    ensures x !in t && Built(specs).value == t[x := specs[|specs| - 1]]
  {
    t := Built(specs[..|specs| - 1]).value;
    x := specs[|specs| - 1].result.name;
  }

  /** Once a prefix of the list is refused, so is the whole list, for the same reason. */
  lemma {:induction false} BuiltRefused(specs: seq<Reaction>, i: nat)
    requires i <= |specs| && Built(specs[..i]).Err?
    ensures Built(specs) == Built(specs[..i])
    decreases |specs| - i
  {
    if i < |specs| {
      var s := specs[..i + 1];
      assert s[..|s| - 1] == specs[..i];
      BuiltRefused(specs, i + 1);
      assert specs[..i + 1][..i] == specs[..i];
    } else {
      assert specs[..i] == specs;
    }
  }

  /**
   * `ReactionTable::from_iter`: every reaction is checked for a cycle through those inserted
   * before it and then inserted; a second reaction for the same result panics.
   */
  method FromIter(specs: seq<Reaction>, fuel: nat) returns (r: Result<ReactionTable, ReactionError>)
    ensures r.Ok? ==> Built(specs) == Ok(r.value.inner) && r.value.Valid() && fresh(r.value)
    ensures r.Err? ==> r.error == OutOfFuel || Built(specs) == Err(r.error)
  {
    var inner: Table := map[];
    for i := 0 to |specs|
      invariant Built(specs[..i]) == Ok(inner)
    {
      var spec := specs[i];
      assert specs[..i + 1][..i] == specs[..i] && specs[..i + 1][i] == spec;
      var checked := CheckCycle(inner, spec, fuel);
      if checked.Err? {
        if checked.error != OutOfFuel {
          BuiltRefused(specs, i + 1);
        }
        return Err(checked.error);
      }
      if spec.result.name in inner {
        BuiltRefused(specs, i + 1);
        return Err(DuplicateResult(spec.result.name));
      }
      inner := inner[spec.result.name := spec];
    }
    assert specs[..|specs|] == specs;
    BuiltWellFormed(specs);
    var table := new ReactionTable(inner);
    return Ok(table);
  }

  // ------------------------------------------------------------------------------------
  // Taking reactions out

  /** Some remaining reaction consumes `name`. */
  ghost predicate Required(t: Table, name: string)
  {
    exists rx :: rx in t.Values && name in Names(rx.requirements)
  }

  /** `rx` is the reaction for `rx`'s result, no remaining reaction needs that result, and `t'` is the rest. */
  ghost predicate TakenOut(t: Table, rx: Reaction, t': Table)
  {
    && rx.result.name in t && t[rx.result.name] == rx
    && !Required(t, rx.result.name)
    && t' == t - {rx.result.name}
  }

  /**
   * `order` is an order in which `next` can hand out the reactions of `t`: each in turn has a
   * result no reaction left at that point consumes, and at the end the table is empty.
   */
  ghost predicate Drains(t: Table, order: seq<Reaction>)
    decreases |order|
  {
    if order == [] then t == map[]
    else TakenOut(t, order[0], t - {order[0].result.name}) && Drains(t - {order[0].result.name}, order[1..])
  }

  /** `done` has been handed out of `t0`, leaving `t`. */
  ghost predicate HandedOut(t0: Table, done: seq<Reaction>, t: Table)
    decreases |done|
  {
    if done == [] then t0 == t
    else TakenOut(t0, done[0], t0 - {done[0].result.name}) && HandedOut(t0 - {done[0].result.name}, done[1..], t)
  }

  lemma {:induction false} HandedOutMore(t0: Table, done: seq<Reaction>, t: Table, rx: Reaction)
    requires HandedOut(t0, done, t) && TakenOut(t, rx, t - {rx.result.name})
    ensures HandedOut(t0, done + [rx], t - {rx.result.name})
    decreases |done|
  {
    if done == [] {
      assert [rx][1..] == [];
    } else {
      HandedOutMore(t0 - {done[0].result.name}, done[1..], t, rx);
      assert (done + [rx])[1..] == done[1..] + [rx];
    }
  }

  lemma {:induction false} HandedOutAll(t0: Table, done: seq<Reaction>)
    requires HandedOut(t0, done, map[])
    ensures Drains(t0, done)
    decreases |done|
  {
    if done != [] {
      HandedOutAll(t0 - {done[0].result.name}, done[1..]);
    }
  }

  /** Handing out the reactions gives each reaction of the table exactly once. */
  lemma {:induction false} DrainsOnce(t: Table, order: seq<Reaction>)
    requires Drains(t, order)
    ensures |order| == |t|
    ensures forall i :: 0 <= i < |order| ==> order[i].result.name in t && t[order[i].result.name] == order[i]
    ensures forall i, j :: 0 <= i < j < |order| ==> order[i].result.name != order[j].result.name
    decreases |order|
  {
    if order != [] {
      var x := order[0].result.name;
      DrainsOnce(t - {x}, order[1..]);
      assert forall i :: 0 < i < |order| ==> order[i] == order[1..][i - 1];
    }
  }

  /**
   * Handing out the reactions puts every consumer before the producers of what it consumes:
   * no reaction requires the result of a reaction handed out before it, nor its own.
   */
  lemma {:induction false} DrainsConsumersFirst(t: Table, order: seq<Reaction>)
    requires Drains(t, order)
    ensures forall i, j :: 0 <= i <= j < |order| ==> order[i].result.name !in Names(order[j].requirements)
    decreases |order|
  {
    if order != [] {
      var x := order[0].result.name;
      DrainsOnce(t, order);
      DrainsConsumersFirst(t - {x}, order[1..]);
      forall i, j | 0 <= i <= j < |order|
        ensures order[i].result.name !in Names(order[j].requirements)
      {
        if i == 0 {
          assert order[j] in t.Values by {
            assert t[order[j].result.name] == order[j];
          }
        } else {
          assert order[i] == order[1..][i - 1] && order[j] == order[1..][j - 1];
        }
      }
    }
  }

  // ------------------------------------------------------------------------------------
  // Why `next` always finds a reaction to hand out

  /** A chain of at least `n` chemicals, each consumed in making the one before it, all of them with reactions. */
  lemma {:induction false} LongPath(t: Table, n: nat) returns (p: seq<string>)
    requires Named(t) && t != map[]
    requires forall name :: name in t ==> Required(t, name)
    ensures IsPath(t, p) && |p| == n + 1
    ensures forall k :: 0 <= k < |p| ==> p[k] in t
    decreases n
  {
    if n == 0 {
      var name :| name in t;
      p := [name];
    } else {
      var q := LongPath(t, n - 1);
      var a := ConsumerOf(t, q[0]);
      p := [a] + q;
      assert p[1..] == q;
      forall k | 0 <= k < |p|
        ensures p[k] in t
      {
        if k > 0 {
          assert p[k] == q[k - 1];
        }
      }
    }
  }

  /** A required chemical has a reaction that consumes it. */
  lemma ConsumerOf(t: Table, name: string) returns (a: string)
    requires Named(t) && Required(t, name)
    ensures a in t && Step(t, a, name)
  {
    var rx :| rx in t.Values && name in Names(rx.requirements);
    a := rx.result.name;
  }

  /** A sequence longer than the set its elements come from repeats an element. */
  lemma {:induction false} Pigeonhole(p: seq<string>, s: set<string>) returns (i: nat, j: nat)
    requires forall k :: 0 <= k < |p| ==> p[k] in s
    requires |p| > |s|
    ensures i < j < |p| && p[i] == p[j]
    decreases |p|
  {
    if p[0] in p[1..] {
      var k :| 0 <= k < |p[1..]| && p[1..][k] == p[0];
      i, j := 0, k + 1;
    } else {
      forall k | 0 <= k < |p[1..]|
        ensures p[1..][k] in s - {p[0]}
      {
        assert p[1..][k] != p[0];
      }
      var i', j' := Pigeonhole(p[1..], s - {p[0]});
      i, j := i' + 1, j' + 1;
    }
  }

  /** A table that is not empty and holds no cycle has a reaction whose result nothing requires. */
  lemma SourceExists(t: Table)
    requires Named(t) && Acyclic(t)
    requires forall name :: name in t ==> Required(t, name)
    ensures t == map[]
  {
    if t != map[] {
      var p := LongPath(t, |t|);
      var i, j := Pigeonhole(p, t.Keys);
      RepeatIsCycle(t, p, i, j);
      assert false;
    }
  }

  /** A path that comes back to a chemical passes through a cycle. */
  lemma RepeatIsCycle(t: Table, p: seq<string>, i: nat, j: nat)
    requires IsPath(t, p) && i < j < |p| && p[i] == p[j]
    ensures Step(t, p[i], p[i + 1]) && Leads(t, p[i + 1], p[i])
  {
    PathStep(t, p, i);
    SubPath(t, p, i + 1, j);
    var q := p[i + 1..j + 1];
    assert q[0] == p[i + 1] && q[|q| - 1] == p[i];
  }

  /** Whether `name` is among the names of `items`: the `find` in `next`. */
  method Mentions(items: seq<ItemSpec>, name: string) returns (found: bool)
    ensures found <==> name in Names(items)
  {
    for i := 0 to |items|
      invariant forall k :: 0 <= k < i ==> items[k].name != name
    {
      if items[i].name == name {
        return true;
      }
    }
    return false;
  }

  /** Whether some reaction of `t` consumes `name`: the inner loop of `next`. */
  method IsRequired(t: Table, name: string) returns (required: bool)
    ensures required <==> Required(t, name)
  {
    var values := t.Values;
    while values != {}
      invariant values <= t.Values
      invariant forall rx :: rx in t.Values - values ==> name !in Names(rx.requirements)
      decreases values
    {
      var rx :| rx in values;
      var found := Mentions(rx.requirements, name);
      if found {
        return true;
      }
      values := values - {rx};
    }
    return false;
  }

  /** The table of `p27`/`p28`, which hands its reactions out one at a time, consumers first. */
  class ReactionTable {
    var inner: Table

    /** Each reaction sits under its result's name, and no chemical is needed to make itself. */
    ghost predicate Valid()
      reads this
    {
      Named(inner) && Acyclic(inner)
    }

    constructor (inner: Table)
      requires Named(inner) && Acyclic(inner)
      ensures this.inner == inner && Valid()
    {
      this.inner := inner;
    }

    /** The `#[derive(Clone)]` of `p28`: a second table with the same reactions. */
    method Clone() returns (copy: ReactionTable)
      requires Valid()
      ensures fresh(copy) && copy.inner == inner && copy.Valid()
    {
      copy := new ReactionTable(inner);
    }

    /**
     * `Iterator::next`: the keys are tried in the map's own order, which the model leaves open,
     * and the first one no reaction requires is taken out.  The `assert_eq!` on an empty table
     * when no key qualifies always holds, since the table has no cycle.
     */
    method Next() returns (r: Option<Reaction>)
      requires Valid()
      modifies this
      ensures Valid()
      ensures r.None? <==> old(inner) == map[]
      ensures r.None? ==> inner == old(inner)
      ensures r.Some? ==> TakenOut(old(inner), r.value, inner)
    {
      var t := inner;
      var keys := t.Keys;
      var candidate: Option<string> := None;
      while keys != {}
        invariant keys <= t.Keys
        invariant forall name :: name in t.Keys - keys ==> Required(t, name)
        invariant candidate.None? && inner == t
        decreases keys
      {
        var name :| name in keys;
        var required := IsRequired(t, name);
        if !required {
          candidate := Some(name);
          break;
        }
        keys := keys - {name};
      }
      match candidate {
        case Some(name) =>
          r := Some(t[name]);
          RemoveAcyclic(t, name);
          inner := t - {name};
        case None =>
          SourceExists(t);
          r := None;
      }
    }
  }
}
