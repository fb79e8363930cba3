/**
 * Helpers shared by every puzzle solution: the `Option`/`Result` wrappers that stand for
 * Rust's `Option` and for panics, Rust's signed division and remainder (which round toward
 * zero), the `as usize` cast of a negative `isize`, and the few `str` operations the
 * parsers use (`trim`, `split`, `lines`, `parse`).
 */
module Util {

  datatype Option<+T> = None | Some(value: T)

  /** `Err` stands for a panic (or an `Err` the source unwraps). */
  datatype Result<+T, +E> = Ok(value: T) | Err(error: E)
  {
    predicate IsFailure() { Err? }

    function PropagateFailure<U>(): Result<U, E>
      requires Err?
    {
      Err(error)
    }

    function Extract(): T
      requires Ok?
    {
      value
    }
  }

  /** `prefix` in front of the sequence `rest` holds, or `rest`'s error. */
  function Prepend<T, E>(prefix: seq<T>, rest: Result<seq<T>, E>): Result<seq<T>, E>
  {
    match rest
    case Ok(items) => Ok(prefix + items)
    case Err(e) => Err(e)
  }

  lemma PrependNothing<T, E>(rest: Result<seq<T>, E>)
    ensures Prepend([], rest) == rest
  {
    if rest.Ok? {
      assert [] + rest.value == rest.value;
    }
  }

  lemma PrependTwice<T, E>(first: seq<T>, second: seq<T>, rest: Result<seq<T>, E>)
    ensures Prepend(first, Prepend(second, rest)) == Prepend(first + second, rest)
  {
    if rest.Ok? {
      assert first + (second + rest.value) == (first + second) + rest.value;
    }
  }

  // ------------------------------------------------------------------------------------
  // Integer arithmetic as Rust performs it

  /** Rust's `/` on signed integers: the quotient is rounded toward zero. */
  function TruncDiv(a: int, b: int): int
    requires b > 0
  {
    if a >= 0 then a / b else -((-a) / b)
  }

  /** Rust's `%` on signed integers: the remainder has the sign of the dividend. */
  function TruncRem(a: int, b: int): int
    requires b > 0
  {
    if a >= 0 then a % b else -((-a) % b)
  }

  /** Quotient and remainder put the dividend back together, and the remainder keeps its sign. */
  lemma TruncDivision(a: int, b: int)
    requires b > 0
    ensures a == b * TruncDiv(a, b) + TruncRem(a, b)
    ensures 0 <= a ==> 0 <= TruncRem(a, b) < b
    ensures a < 0 ==> -b < TruncRem(a, b) <= 0
  {
    if a < 0 {
      assert -a == b * ((-a) / b) + (-a) % b;
    }
  }

  const USIZE_MODULUS: int := 0x1_0000_0000_0000_0000

  /** `x as usize` for an `isize` value `x`: a negative value wraps around to a huge index. */
  function AsUsize(x: int): (u: nat)
    ensures 0 <= x ==> u == x
    ensures -USIZE_MODULUS / 2 <= x < 0 ==> u >= USIZE_MODULUS / 2
  {
    if x >= 0 then x else x % USIZE_MODULUS
  }

  function Abs(x: int): nat
  {
    if x < 0 then -x else x
  }

  function Min(a: int, b: int): int
  {
    if a <= b then a else b
  }

  function Max(a: int, b: int): int
  {
    if a >= b then a else b
  }

  // ------------------------------------------------------------------------------------
  // Text

  /** The characters Rust's `char::is_whitespace` accepts among ASCII ones. */
  predicate IsWhitespace(c: char)
  {
    c == ' ' || c == '\t' || c == '\n' || c == '\r' || c == '\U{B}' || c == '\U{C}'
  }

  /** `str::trim_start`. */
  function TrimStart(s: string): (r: string)
    ensures |r| <= |s| && r == s[|s| - |r|..]
    ensures r != [] ==> !IsWhitespace(r[0])
    ensures forall i :: 0 <= i < |s| - |r| ==> IsWhitespace(s[i])
  {
    if s != [] && IsWhitespace(s[0]) then TrimStart(s[1..]) else s
  }

  /** `str::trim_end`. */
  function TrimEnd(s: string): (r: string)
    ensures |r| <= |s| && r == s[..|r|]
    ensures r != [] ==> !IsWhitespace(r[|r| - 1])
    ensures forall i :: |r| <= i < |s| ==> IsWhitespace(s[i])
  {
    if s != [] && IsWhitespace(s[|s| - 1]) then TrimEnd(s[..|s| - 1]) else s
  }

  /** `str::trim`. */
  function Trim(s: string): string
  {
    TrimEnd(TrimStart(s))
  }

  /** Position of the first occurrence of `c` in `s`. */
  function IndexOf(s: string, c: char): (i: nat)
    requires c in s
    ensures i < |s| && s[i] == c && c !in s[..i]
  {
    if s[0] == c then 0 else IndexOf(s[1..], c) + 1
  }

  /** `str::split` on one character: the pieces between the separators, always at least one. */
  function Split(s: string, sep: char): (parts: seq<string>)
    ensures |parts| >= 1
    ensures forall i :: 0 <= i < |parts| ==> sep !in parts[i]
    decreases |s|
  {
    if sep !in s then [s]
    else
      var i := IndexOf(s, sep);
      [s[..i]] + Split(s[i + 1..], sep)
  }

  /** Glues pieces back together with the separator between neighbours. */
  function Join(parts: seq<string>, sep: char): string
    requires |parts| >= 1
  {
    if |parts| == 1 then parts[0] else parts[0] + [sep] + Join(parts[1..], sep)
  }

  /** Splitting loses nothing: joining the pieces gives back the text. */
  lemma {:induction false} SplitJoin(s: string, sep: char)
    ensures Join(Split(s, sep), sep) == s
    decreases |s|
  {
    if sep in s {
      var i := IndexOf(s, sep);
      var rest := Split(s[i + 1..], sep);
      assert Split(s, sep) == [s[..i]] + rest;
      SplitJoin(s[i + 1..], sep);
      assert Join([s[..i]] + rest, sep) == s[..i] + [sep] + Join(rest, sep) by {
        assert ([s[..i]] + rest)[1..] == rest;
      }
      assert s == s[..i] + [sep] + s[i + 1..];
    }
  }

  /** The first occurrence is the one with no occurrence before it. */
  lemma FirstIndex(s: string, c: char, k: nat)
    requires k < |s| && s[k] == c && c !in s[..k]
    ensures IndexOf(s, c) == k
  {
  }

  /** Pieces free of the separator come back out of the text they were joined into. */
  lemma {:induction false} JoinSplit(parts: seq<string>, sep: char)
    requires |parts| >= 1
    requires forall i :: 0 <= i < |parts| ==> sep !in parts[i]
    ensures Split(Join(parts, sep), sep) == parts
    decreases |parts|
  {
    if |parts| == 1 {
      assert Join(parts, sep) == parts[0];
    } else {
      var head, tail := parts[0], Join(parts[1..], sep);
      var s := head + [sep] + tail;
      assert Join(parts, sep) == s;
      assert s[|head|] == sep && s[..|head|] == head && s[|head| + 1..] == tail;
      FirstIndex(s, sep, |head|);
      assert Split(s, sep) == [head] + Split(tail, sep);
      JoinSplit(parts[1..], sep);
      assert parts == [head] + parts[1..];
    }
  }

  /** Drops one trailing carriage return. */
  function StripCarriageReturn(s: string): string
  {
    if s != [] && s[|s| - 1] == '\r' then s[..|s| - 1] else s
  }

  /**
   * `str::lines`: the text is cut at each line feed, a carriage return just before a line
   * feed is dropped, and a final line feed does not start an empty last line.
   */
  function Lines(s: string): (ls: seq<string>)
    ensures forall i :: 0 <= i < |ls| ==> '\n' !in ls[i]
    ensures s == [] ==> ls == []
  {
    var parts := Split(s, '\n');
    var body := if parts[|parts| - 1] == [] then parts[..|parts| - 1] else parts;
    seq(|body|, i requires 0 <= i < |body| =>
      if i < |parts| - 1 then StripCarriageReturn(body[i]) else body[i])
  }

  predicate IsDigit(c: char)
  {
    '0' <= c <= '9'
  }

  predicate AllDigits(s: string)
  {
    forall i :: 0 <= i < |s| ==> IsDigit(s[i])
  }

  function DigitValue(c: char): nat
    requires IsDigit(c)
  {
    c as int - '0' as int
  }

  /** The number a string of decimal digits spells. */
  function DecimalValue(s: string): nat
    requires AllDigits(s)
  {
    if s == [] then 0 else 10 * DecimalValue(s[..|s| - 1]) + DigitValue(s[|s| - 1])
  }

  /** `str::parse::<usize>()`: an optional `+` and at least one decimal digit. */
  function ParseUnsigned(s: string): (r: Option<nat>)
    ensures r.Some? ==> s != [] && (IsDigit(s[0]) || s[0] == '+')
  {
    var digits := if s != [] && s[0] == '+' then s[1..] else s;
    if digits != [] && AllDigits(digits) then Some(DecimalValue(digits)) else None
  }

  /** `str::parse::<isize>()`: an optional sign and at least one decimal digit. */
  function ParseSigned(s: string): (r: Option<int>)
    ensures s != [] && s[0] == '-' && r.Some? ==> r.value <= 0
    ensures AllDigits(s) && s != [] ==> r == Some(DecimalValue(s))
  {
    if s != [] && s[0] == '-' then
      match ParseUnsigned(s[1..])
      case Some(n) => if s[1..] != [] && s[1] == '+' then None else Some(0 - n as int)
      case None => None
    else
      match ParseUnsigned(s)
      case Some(n) => Some(n)
      case None => None
  }

  const ISIZE_MIN: int := -0x8000_0000_0000_0000
  const ISIZE_MAX: int := 0x7FFF_FFFF_FFFF_FFFF

  /** `str::parse::<isize>()`, which also fails on a number outside the 64-bit range. */
  function ParseIsize(s: string): (r: Option<int>)
    ensures r.Some? ==> ISIZE_MIN <= r.value <= ISIZE_MAX && ParseSigned(s) == r
  {
    match ParseSigned(s)
    case Some(v) => if ISIZE_MIN <= v <= ISIZE_MAX then Some(v) else None
    case None => None
  }

  /** The decimal digits of a natural number, most significant first. */
  function ShowNat(n: nat): (s: string)
    ensures s != [] && AllDigits(s)
  {
    if n < 10 then [('0' as int + n) as char] else ShowNat(n / 10) + [('0' as int + n % 10) as char]
  }

  /** Printing a number and parsing it back gives the number. */
  lemma {:induction false} ParseShowNat(n: nat)
    ensures DecimalValue(ShowNat(n)) == n
    ensures ParseUnsigned(ShowNat(n)) == Some(n)
  {
    if n >= 10 {
      ParseShowNat(n / 10);
      var s := ShowNat(n);
      assert s[..|s| - 1] == ShowNat(n / 10);
    }
  }

  /** An integer in decimal, with a minus sign when negative. */
  function ShowInt(x: int): (s: string)
    ensures s != []
  {
    if x < 0 then "-" + ShowNat(-x) else ShowNat(x)
  }

  /** Printing an integer and parsing it back gives the integer. */
  lemma ParseShowInt(x: int)
    ensures ParseSigned(ShowInt(x)) == Some(x)
    ensures ISIZE_MIN <= x <= ISIZE_MAX ==> ParseIsize(ShowInt(x)) == Some(x)
  {
    var s := ShowInt(x);
    if x < 0 {
      ParseShowNat(-x);
      assert s[0] == '-' && s[1..] == ShowNat(-x);
      assert ParseUnsigned(s[1..]) == Some(-x);
      assert IsDigit(s[1..][0]) && s[1..][0] == s[1];
      assert ParseSigned(s) == Some(x);
    } else {
      ParseShowNat(x);
      assert AllDigits(s) && s != [];
    }
  }

  // ------------------------------------------------------------------------------------
  // Reading the lines of an input

  /** The non-empty lines of the input. */
  function NonEmptyLines(input: string): (ls: seq<string>)
    ensures forall i :: 0 <= i < |ls| ==> ls[i] != []
  {
    Filter(Lines(input))
  }

  function Filter(ls: seq<string>): (r: seq<string>)
    ensures forall i :: 0 <= i < |r| ==> r[i] != []
    decreases |ls|
  {
    if ls == [] then []
    else if ls[|ls| - 1] == [] then Filter(ls[..|ls| - 1])
    else Filter(ls[..|ls| - 1]) + [ls[|ls| - 1]]
  }

  /**
   * `collect::<Result<Vec<_>, _>>()` over the lines: every line read by `parse`, or the error of
   * the first line that does not read.
   */
  function ParseAll<T, E>(parse: string -> Result<T, E>, lines: seq<string>): (r: Result<seq<T>, E>)
    ensures r.Ok? ==> |r.value| == |lines|
    decreases |lines|
  {
    if lines == [] then Ok([])
    else
      var front :- ParseAll(parse, lines[..|lines| - 1]);
      var m :- parse(lines[|lines| - 1]);
      Ok(front + [m])
  }

  /** Item `i` of the parsed items is what line `i` reads as. */
  lemma {:induction false} ParseAllAt<T, E>(parse: string -> Result<T, E>, lines: seq<string>, i: nat)
    requires ParseAll(parse, lines).Ok? && i < |lines|
    ensures parse(lines[i]) == Ok(ParseAll(parse, lines).value[i])
    decreases |lines|
  {
    var n := |lines| - 1;
    if i < n {
      ParseAllAt(parse, lines[..n], i);
      assert lines[..n][i] == lines[i];
    }
  }

  /** Parsing fails only with the error of some line. */
  lemma {:induction false} ParseAllError<T, E>(parse: string -> Result<T, E>, lines: seq<string>)
    requires ParseAll(parse, lines).Err?
    ensures exists i :: 0 <= i < |lines| && parse(lines[i]) == Err(ParseAll(parse, lines).error)
    decreases |lines|
  {
    var n := |lines| - 1;
    if ParseAll(parse, lines[..n]).Err? {
      ParseAllError(parse, lines[..n]);
      var i :| 0 <= i < n && parse(lines[..n][i]) == Err(ParseAll(parse, lines[..n]).error);
      assert lines[..n][i] == lines[i];
    } else {
      assert parse(lines[n]) == Err(ParseAll(parse, lines).error);
    }
  }

  /** When every line reads, parsing gives the items line by line. */
  lemma {:induction false} ParseAllOk<T, E>(parse: string -> Result<T, E>, lines: seq<string>, items: seq<T>)
    requires |items| == |lines|
    requires forall i :: 0 <= i < |lines| ==> parse(lines[i]) == Ok(items[i])
    ensures ParseAll(parse, lines) == Ok(items)
    decreases |lines|
  {
    if lines != [] {
      var n := |lines| - 1;
      ParseAllOk(parse, lines[..n], items[..n]);
      assert items == items[..n] + [items[n]];
    }
  }

  /** `str::parse::<usize>()`, which also fails on a number that does not fit in 64 bits. */
  function ParseUsize(s: string): (r: Option<nat>)
    ensures r.Some? ==> r.value < USIZE_MODULUS && ParseUnsigned(s) == r
    ensures ParseUnsigned(s).Some? && ParseUnsigned(s).value < USIZE_MODULUS ==> r == ParseUnsigned(s)
  {
    match ParseUnsigned(s)
    case Some(n) => if n < USIZE_MODULUS then Some(n) else None
    case None => None
  }
}
