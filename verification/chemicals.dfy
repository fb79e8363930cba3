/**
 * The reaction list of `p27/src/main.rs` and `p28/src/main.rs` as text: an item is an amount and
 * a chemical's name ("7 A"), and a reaction lists the items it consumes, separated by commas,
 * then "=>" and the item it produces ("7 A, 1 E => 1 FUEL").
 */
module Chemicals {
  import opened Util

  /** An amount of one chemical. */
  datatype ItemSpec = ItemSpec(name: string, amount: nat)

  /** A reaction turns its requirements into its result. */
  datatype Reaction = Reaction(result: ItemSpec, requirements: seq<ItemSpec>)

  /**
   * Why reading the list or refining it stops: the errors `from_str` returns, and the panics
   * of `from_iter` and `run` that can happen.  The others cannot: `next`'s `assert_eq!` always
   * holds (`ReactionTables.SourceExists`), the binary search of `p28` subtracts one only from a
   * positive amount (`FuelSearch.Bisect`), and its two final `assert!`s hold
   * (`FuelSearch.Scan`).
   */
  datatype ReactionError =
    | MissingPart(item: string)       // an item without an amount or a name
    | BadAmount(token: string)        // an amount that is not a `usize`
    | MissingArrow(line: string)      // a line without "=>"
    | CycleDetected(name: string)     // a result its own requirements lead back to
    | DuplicateResult(name: string)   // two reactions with the same result
    | ZeroNeed(name: string)          // a chemical needed in amount 0
    | ZeroYield(name: string)         // a reaction producing 0 of its result: division by zero
    | NotReduced(count: nat)          // more or fewer chemicals than one left at the end
    | NoOre                           // the one chemical left is not ORE
    | OutOfFuel                       // a loop ran longer than the bound the model allows

  // ------------------------------------------------------------------------------------
  // `split_whitespace`

  /** A non-empty run of characters without whitespace. */
  predicate IsWord(w: string)
  {
    w != [] && forall i :: 0 <= i < |w| ==> !IsWhitespace(w[i])
  }

  /** The length of the run of non-whitespace characters that starts `s`. */
  function WordLength(s: string): (n: nat)
    ensures n <= |s|
    ensures s != [] && !IsWhitespace(s[0]) ==> n >= 1
  {
    if s == [] || IsWhitespace(s[0]) then 0 else 1 + WordLength(s[1..])
  }

  /** The run is as long as it can be: its characters are not whitespace, the next one is. */
  lemma {:induction false} WordLengthMeaning(s: string)
    ensures forall i :: 0 <= i < WordLength(s) ==> !IsWhitespace(s[i])
    ensures WordLength(s) < |s| ==> IsWhitespace(s[WordLength(s)])
  {
    if s != [] && !IsWhitespace(s[0]) {
      WordLengthMeaning(s[1..]);
    }
  }

  /** `str::split_whitespace`: the words of `s`, in order. */
  function Words(s: string): seq<string>
    decreases |s|
  {
    if s == [] then []
    else if IsWhitespace(s[0]) then Words(s[1..])
    else
      var n := WordLength(s);
      [s[..n]] + Words(s[n..])
  }

  /** Each piece is a word: not empty, and without whitespace. */
  lemma {:induction false} WordsAreWords(s: string)
    ensures forall i :: 0 <= i < |Words(s)| ==> IsWord(Words(s)[i])
    decreases |s|
  {
    if s != [] && IsWhitespace(s[0]) {
      WordsAreWords(s[1..]);
    } else if s != [] {
      var n := WordLength(s);
      WordLengthMeaning(s);
      assert IsWord(s[..n]) by {
        assert forall i :: 0 <= i < n ==> s[..n][i] == s[i];
      }
      WordsAreWords(s[n..]);
    }
  }

  lemma WordLengthOfWord(w: string, rest: string)
    requires IsWord(w) && (rest == [] || IsWhitespace(rest[0]))
    ensures WordLength(w + rest) == |w|
    decreases |w|
  {
    if |w| > 1 {
      WordLengthOfWord(w[1..], rest);
      assert (w + rest)[1..] == w[1..] + rest;
    }
  }

  /** A word followed by whitespace or nothing is the first word. */
  lemma WordsCons(w: string, rest: string)
    requires IsWord(w) && (rest == [] || IsWhitespace(rest[0]))
    ensures Words(w + rest) == [w] + Words(rest)
  {
    WordLengthOfWord(w, rest);
    assert (w + rest)[..|w|] == w && (w + rest)[|w|..] == rest;
  }

  /** Whitespace in front of the text does not change its words. */
  lemma WordsAfterSpace(s: string)
    ensures Words([' '] + s) == Words(s)
  {
    assert ([' '] + s)[1..] == s;
  }

  lemma HeadTail<T>(xs: seq<T>)
    requires |xs| >= 1
    ensures xs == [xs[0]] + xs[1..]
  {
  }

  /** Splitting at whitespace undoes joining words with single spaces. */
  lemma {:induction false} WordsJoin(ws: seq<string>)
    requires |ws| >= 1 && forall i :: 0 <= i < |ws| ==> IsWord(ws[i])
    ensures Words(Join(ws, ' ')) == ws
    decreases |ws|
  {
    if |ws| == 1 {
      WordsCons(ws[0], []);
      assert ws[0] + [] == ws[0];
    } else {
      var tail := Join(ws[1..], ' ');
      assert Join(ws, ' ') == ws[0] + ([' '] + tail);
      WordsCons(ws[0], [' '] + tail);
      WordsAfterSpace(tail);
      WordsJoin(ws[1..]);
      HeadTail(ws);
    }
  }

  // ------------------------------------------------------------------------------------
  // `str::split` on a string

  /** `sep` occurs in `s` starting at `i`. */
  predicate OccursAt(s: string, sep: string, i: nat)
  {
    i + |sep| <= |s| && s[i..i + |sep|] == sep
  }

  /** The first place `sep` occurs in `s`, if it does. */
  function Find(s: string, sep: string): (r: Option<nat>)
    requires sep != []
    ensures r.Some? ==> OccursAt(s, sep, r.value)
    ensures forall i: nat :: (r.None? || i < r.value) ==> !OccursAt(s, sep, i)
    decreases |s|
  {
    if |s| < |sep| then None
    else if s[..|sep|] == sep then Some(0)
    else
      var r := Find(s[1..], sep);
      assert forall i: nat :: 0 < i ==> OccursAt(s, sep, i) == OccursAt(s[1..], sep, i - 1) by {
        forall i: nat | 0 < i
          ensures OccursAt(s, sep, i) == OccursAt(s[1..], sep, i - 1)
        {
          OccursShift(s, sep, i);
        }
      }
      assert !OccursAt(s, sep, 0);
      if r.None? then None else Some(r.value + 1)
  }

  lemma OccursShift(s: string, sep: string, i: nat)
    requires 0 < i && s != []
    ensures OccursAt(s, sep, i) == OccursAt(s[1..], sep, i - 1)
  {
    if i + |sep| <= |s| {
      assert s[i..i + |sep|] == s[1..][i - 1..i - 1 + |sep|];
    }
  }

  /**
   * `str::split` on the string `sep`: the pieces between its occurrences, found from the left
   * without overlapping; there is always at least one piece.
   */
  function SplitOn(s: string, sep: string): (parts: seq<string>)
    requires sep != []
    ensures |parts| >= 1
    ensures Find(s, sep).None? <==> |parts| == 1
    decreases |s|
  {
    match Find(s, sep)
    case None => [s]
    case Some(i) => [s[..i]] + SplitOn(s[i + |sep|..], sep)
  }

  /** Glues pieces back together with `sep` between neighbours. */
  function JoinOn(parts: seq<string>, sep: string): string
    requires |parts| >= 1
  {
    if |parts| == 1 then parts[0] else parts[0] + sep + JoinOn(parts[1..], sep)
  }

  lemma Around(s: string, i: nat, k: nat)
    requires i + k <= |s|
    ensures s == s[..i] + s[i..i + k] + s[i + k..]
  {
  }

  lemma JoinOnCons(head: string, parts: seq<string>, sep: string)
    requires |parts| >= 1
    ensures JoinOn([head] + parts, sep) == head + sep + JoinOn(parts, sep)
  {
    assert ([head] + parts)[1..] == parts;
  }

  /** Joining the pieces with the separator gives the text back. */
  lemma {:induction false} SplitOnJoin(s: string, sep: string)
    requires sep != []
    ensures JoinOn(SplitOn(s, sep), sep) == s
    decreases |s|
  {
    match Find(s, sep)
    case None =>
    case Some(i) =>
      var rest := s[i + |sep|..];
      SplitOnJoin(rest, sep);
      JoinOnCons(s[..i], SplitOn(rest, sep), sep);
      Around(s, i, |sep|);
  }

  /** Where the first piece contains no `=`, the arrow after it is the first place to split. */
  lemma SplitAtArrow(p: string, q: string)
    requires '=' !in p && '=' !in q
    ensures SplitOn(p + ARROW + q, ARROW) == [p, q]
  {
    var s := p + ARROW + q;
    assert OccursAt(s, ARROW, |p|) by {
      assert s[|p|..|p| + 2] == ARROW;
    }
    forall i: nat | i < |p|
      ensures !OccursAt(s, ARROW, i)
    {
      assert s[i] == p[i] && s[i] != '=';
      assert i + 2 <= |s| ==> s[i..i + 2][0] == s[i];
    }
    var r := Find(s, ARROW);
    assert r.Some? && r.value == |p|;
    assert s[..|p|] == p && s[|p| + 2..] == q;
    NoArrow(q);
  }

  lemma NoArrow(q: string)
    requires '=' !in q
    ensures SplitOn(q, ARROW) == [q]
  {
    forall i: nat
      ensures !OccursAt(q, ARROW, i)
    {
      if i + 2 <= |q| {
        assert q[i..i + 2][0] == q[i] && q[i] != '=';
      }
    }
  }

  // ------------------------------------------------------------------------------------
  // `FromStr` for `ItemSpec` and `Reaction`

  const ARROW: string := "=>"

  /**
   * `ItemSpec::from_str`: the first word is the amount, a `usize`, and the second word the
   * name; further words are ignored.
   */
  function ParseItem(s: string): (r: Result<ItemSpec, ReactionError>)
    ensures r.Ok? ==> IsWord(r.value.name) && r.value.amount < USIZE_MODULUS
    ensures Words(s) == [] ==> r == Err(MissingPart(s))
    ensures r.Ok? ==> |Words(s)| >= 2
    ensures r.Err? ==> r.error.MissingPart? || r.error.BadAmount?
  {
    var ws := Words(s);
    WordsAreWords(s);
    if ws == [] then Err(MissingPart(s))
    else
      match ParseUsize(ws[0])
      case None => Err(BadAmount(ws[0]))
      case Some(amount) => if |ws| < 2 then Err(MissingPart(s)) else Ok(ItemSpec(ws[1], amount))
  }

  /** An item written the way the puzzle input writes it: the amount, a space, the name. */
  function ShowItem(it: ItemSpec): string
  {
    ShowNat(it.amount) + " " + it.name
  }

  /** Reading a written item gives the item back. */
  lemma ParseShowItem(it: ItemSpec)
    requires IsWord(it.name) && it.amount < USIZE_MODULUS
    ensures ParseItem(ShowItem(it)) == Ok(it)
    ensures ParseItem([' '] + ShowItem(it)) == Ok(it)
  {
    var digits := ShowNat(it.amount);
    ParseShowNat(it.amount);
    assert IsWord(digits);
    assert Join([digits, it.name], ' ') == ShowItem(it);
    WordsJoin([digits, it.name]);
    WordsAfterSpace(ShowItem(it));
  }

  /**
   * `Reaction::from_str`: the text before the first "=>" holds the requirements, separated by
   * commas, and the text after it, up to any further "=>", the result, which is read first.
   */
  function ParseReaction(s: string): (r: Result<Reaction, ReactionError>)
    ensures r == Err(MissingArrow(s)) <==> Find(s, ARROW).None?
    ensures r.Ok? ==> |r.value.requirements| >= 1
  {
    var parts := SplitOn(s, ARROW);
    if |parts| < 2 then Err(MissingArrow(s))
    else
      match ParseItem(parts[1])
      case Err(e) => Err(e)
      case Ok(result) =>
        var items := Split(parts[0], ',');
        match ParseAll(ParseItem, items)
        case Err(e) => ParseAllError(ParseItem, items); Err(e)
        case Ok(requirements) => Ok(Reaction(result, requirements))
  }

  /** A name that can be written in a reaction line. */
  predicate IsName(name: string)
  {
    IsWord(name) && ',' !in name && '=' !in name
  }

  /** The requirements written one after the other, separated by commas. */
  function ShowItems(items: seq<ItemSpec>): (texts: seq<string>)
    ensures |texts| == |items|
  {
    seq(|items|, i requires 0 <= i < |items| => ShowItem(items[i]))
  }

  /** A reaction written as a line of the puzzle input. */
  function ShowReaction(rx: Reaction): string
    requires |rx.requirements| >= 1
  {
    Join(ShowItems(rx.requirements), ',') + ARROW + ShowItem(rx.result)
  }

  lemma DigitsHaveNoMark(n: nat)
    ensures ',' !in ShowNat(n) && '=' !in ShowNat(n) && ' ' !in ShowNat(n)
  {
    var s := ShowNat(n);
    assert forall i :: 0 <= i < |s| ==> IsDigit(s[i]);
  }

  lemma ShowItemMarks(it: ItemSpec)
    requires IsName(it.name)
    ensures ',' !in ShowItem(it) && '=' !in ShowItem(it)
  {
    DigitsHaveNoMark(it.amount);
  }

  lemma {:induction false} JoinHasNoEquals(parts: seq<string>)
    requires |parts| >= 1 && forall i :: 0 <= i < |parts| ==> '=' !in parts[i]
    ensures '=' !in Join(parts, ',')
    decreases |parts|
  {
    if |parts| > 1 {
      JoinHasNoEquals(parts[1..]);
    }
  }

  /** Reading a written reaction gives the reaction back. */
  lemma ParseShowReaction(rx: Reaction)
    requires |rx.requirements| >= 1
    requires IsName(rx.result.name) && rx.result.amount < USIZE_MODULUS
    requires forall i :: 0 <= i < |rx.requirements| ==>
               IsName(rx.requirements[i].name) && rx.requirements[i].amount < USIZE_MODULUS
    ensures ParseReaction(ShowReaction(rx)) == Ok(rx)
  {
    var texts := ShowItems(rx.requirements);
    forall i | 0 <= i < |texts|
      ensures ',' !in texts[i] && '=' !in texts[i] && ParseItem(texts[i]) == Ok(rx.requirements[i])
    {
      ShowItemMarks(rx.requirements[i]);
      ParseShowItem(rx.requirements[i]);
    }
    JoinHasNoEquals(texts);
    ShowItemMarks(rx.result);
    SplitAtArrow(Join(texts, ','), ShowItem(rx.result));
    ParseShowItem(rx.result);
    JoinSplit(texts, ',');
    ParseAllOk(ParseItem, texts, rx.requirements);
  }

  /** How a line whose pieces read is put together. */
  lemma ParseReactionParts(s: string, p: string, q: string, result: ItemSpec, requirements: seq<ItemSpec>)
    requires SplitOn(s, ARROW) == [p, q]
    requires ParseItem(q) == Ok(result) && ParseAll(ParseItem, Split(p, ',')) == Ok(requirements)
    ensures ParseReaction(s) == Ok(Reaction(result, requirements))
  {
  }

  /** The line the tests read: "7 A, 1 E => 1 FUEL". */
  lemma ParseExample(line: string)
    requires line == "7 A, 1 E => 1 FUEL"
    ensures ParseReaction(line) == Ok(Reaction(ItemSpec("FUEL", 1), [ItemSpec("A", 7), ItemSpec("E", 1)]))
  {
    var p, q := "7 A, 1 E ", " 1 FUEL";
    ExampleArrow(line, p, q);
    ExampleResult();
    ExampleItems(p);
    ParseReactionParts(line, p, q, ItemSpec("FUEL", 1), [ItemSpec("A", 7), ItemSpec("E", 1)]);
  }

  lemma ExampleArrow(line: string, p: string, q: string)
    requires line == "7 A, 1 E => 1 FUEL" && p == "7 A, 1 E " && q == " 1 FUEL"
    ensures SplitOn(line, ARROW) == [p, q]
  {
    assert line == p + ARROW + q;
    assert '=' !in p && '=' !in q;
    SplitAtArrow(p, q);
  }

  lemma ExampleItems(p: string)
    requires p == "7 A, 1 E "
    ensures ParseAll(ParseItem, Split(p, ',')) == Ok([ItemSpec("A", 7), ItemSpec("E", 1)])
  {
    ExampleCommas(p);
    ExampleRequirements();
    ParseTwo(ParseItem, "7 A", " 1 E ", ItemSpec("A", 7), ItemSpec("E", 1));
  }

  lemma ParseTwo<T, E>(parse: string -> Result<T, E>, a: string, b: string, x: T, y: T)
    requires parse(a) == Ok(x) && parse(b) == Ok(y)
    ensures ParseAll(parse, [a, b]) == Ok([x, y])
  {
    assert [a][..0] == [] && ParseAll(parse, []) == Ok([]);
    assert [] + [x] == [x];
    assert ParseAll(parse, [a]) == Ok([x]);
    assert [a, b][..1] == [a];
    assert [x] + [y] == [x, y];
  }

  lemma ExampleCommas(p: string)
    requires p == "7 A, 1 E "
    ensures Split(p, ',') == ["7 A", " 1 E "]
  {
    assert p == Join(["7 A", " 1 E "], ',');
    JoinSplit(["7 A", " 1 E "], ',');
  }

  lemma TwoWords(a: string, b: string)
    requires IsWord(a) && IsWord(b)
    ensures Words(a + [' '] + b) == [a, b]
  {
    assert Join([a, b], ' ') == a + [' '] + b;
    WordsJoin([a, b]);
  }

  /** A word pair after a space, as the result of a reaction line is written. */
  lemma SpacedWords(a: string, b: string)
    requires IsWord(a) && IsWord(b)
    ensures Words([' '] + (a + [' '] + b)) == [a, b]
  {
    TwoWords(a, b);
    WordsAfterSpace(a + [' '] + b);
  }

  /** A word pair between spaces, as the last requirement of a reaction line is written. */
  lemma PaddedWords(a: string, b: string)
    requires IsWord(a) && IsWord(b)
    ensures Words([' '] + (a + ([' '] + (b + [' '])))) == [a, b]
  {
    WordsCons(b, [' ']);
    WordsAfterSpace([]);
    WordsAfterSpace(b + [' ']);
    WordsCons(a, [' '] + (b + [' ']));
    WordsAfterSpace(a + ([' '] + (b + [' '])));
  }

  lemma ExampleWords()
    ensures IsWord("1") && IsWord("7") && IsWord("A") && IsWord("E") && IsWord("FUEL")
    ensures ParseUsize("1") == Some(1) && ParseUsize("7") == Some(7)
  {
  }

  lemma ExampleResult()
    ensures ParseItem(" 1 FUEL") == Ok(ItemSpec("FUEL", 1))
  {
    ExampleWords();
    SpacedWords("1", "FUEL");
    assert " 1 FUEL" == [' '] + ("1" + [' '] + "FUEL");
  }

  lemma ExampleRequirements()
    ensures ParseItem("7 A") == Ok(ItemSpec("A", 7))
    ensures ParseItem(" 1 E ") == Ok(ItemSpec("E", 1))
  {
    ExampleWords();
    TwoWords("7", "A");
    assert "7 A" == "7" + [' '] + "A";
    PaddedWords("1", "E");
    assert " 1 E " == [' '] + ("1" + ([' '] + ("E" + [' '])));
  }
}
