/** Java language semantics the launcher relies on: null, thrown exceptions,
    truncating integer division and `Math.min`/`Math.max`. */
module Java {

  /** A reference that may be `null`. */
  datatype Option<+T> = None | Some(value: T)

  /** The exceptions the modelled code can raise. */
  datatype Exception =
    | NullPointer
    | ClassCast
    | NumberFormat
    | Arithmetic
    | IndexOutOfBounds
    | IllegalArgument
    | XmlPullParser

  /** The outcome of a Java expression that may throw. */
  datatype Result<+T> = Ok(value: T) | Throws(error: Exception)

  function Min(a: int, b: int): (r: int)
    ensures r <= a && r <= b && (r == a || r == b)
  {
    if a <= b then a else b
  }

  function Max(a: int, b: int): (r: int)
    ensures r >= a && r >= b && (r == a || r == b)
  {
    if a >= b then a else b
  }

  function Abs(a: int): (r: nat)
    ensures r == a || r == -a
  {
    if a < 0 then -a else a
  }

  /** Java's `a / b` on `int`: the quotient truncated toward zero. */
  function Div(a: int, b: int): (q: int)
    requires b != 0
    ensures (a >= 0) == (b > 0) || a == 0 ==> q >= 0
    ensures (a >= 0) != (b > 0) ==> q <= 0
    ensures Abs(q) == Abs(a) / Abs(b)
  {
    var m := Abs(a) / Abs(b);
    if (a < 0) != (b < 0) then -m else m
  }

  /** For a non-negative dividend and a positive divisor the truncated
      quotient is the largest `q` with `q * b <= a`. */
  lemma DivBounds(a: int, b: int)
    requires a >= 0 && b > 0
    ensures Div(a, b) * b <= a < Div(a, b) * b + b
  {
    var q := Div(a, b);
    assert q == a / b;
    assert a == q * b + a % b;
  }

  /** Java's `a / b` when `b` may be zero: `ArithmeticException` on zero. */
  function CheckedDiv(a: int, b: int): (r: Result<int>)
    ensures r.Throws? <==> b == 0
    ensures r.Throws? ==> r.error == Arithmetic
    ensures r.Ok? ==> r.value == Div(a, b)
  {
    if b == 0 then Throws(Arithmetic) else Ok(Div(a, b))
  }

  const INT_MIN := -0x8000_0000
  const INT_MAX := 0x7FFF_FFFF

  /** Java's `(int) x` on a float or double, over the reals: the value
      truncated toward zero, saturated at the bounds of `int`. */
  function FloatToInt(x: real): (r: int)
    ensures INT_MIN <= r <= INT_MAX
    ensures (x >= 0.0 ==> r >= 0) && (x <= 0.0 ==> r <= 0)
    ensures x >= 0.0 && x <= INT_MAX as real ==> r as real <= x < r as real + 1.0
    ensures x <= 0.0 && x >= INT_MIN as real ==> r as real - 1.0 < x <= r as real
  {
    var t := if x >= 0.0 then x.Floor else -((-x).Floor);
    if t < INT_MIN then INT_MIN else if t > INT_MAX then INT_MAX else t
  }

  /** `s.startsWith(prefix)`. */
  predicate StartsWith(s: string, prefix: string)
  {
    |prefix| <= |s| && s[..|prefix|] == prefix
  }

  predicate IsDigit(c: char)
  {
    '0' <= c <= '9'
  }

  predicate AllDigits(s: string)
  {
    forall i :: 0 <= i < |s| ==> IsDigit(s[i])
  }

  /** The value of a string of ASCII decimal digits. */
  function DecimalValue(s: string): nat
    requires AllDigits(s)
  {
    if s == [] then 0
    else DecimalValue(s[..|s| - 1]) * 10 + (s[|s| - 1] as int - '0' as int)
  }

  /** `Integer.valueOf(String)` / `Integer.parseInt(String)`: an optional
      sign followed by at least one decimal digit, within the 32-bit range;
      anything else, `null` included, throws `NumberFormatException`. */
  function ParseInt(s: Option<string>): (r: Result<int>)
    ensures r.Ok? ==> INT_MIN <= r.value <= INT_MAX
    ensures r.Throws? ==> r.error == NumberFormat
    ensures s.None? || s.value == [] ==> r.Throws?
  {
    if s.None? || s.value == [] then Throws(NumberFormat)
    else
      var str := s.value;
      var signed := str[0] == '-' || str[0] == '+';
      var digits := if signed then str[1..] else str;
      if digits == [] || !AllDigits(digits) then Throws(NumberFormat)
      else
        var n: int := DecimalValue(digits);
        var v := if str[0] == '-' then -n else n;
        if INT_MIN <= v <= INT_MAX then Ok(v) else Throws(NumberFormat)
  }

  /** The decimal digits of a natural number, most significant first. */
  function NatToString(n: nat): (s: string)
    ensures s != [] && AllDigits(s)
  {
    var d := ['0' + (n % 10) as char];
    if n < 10 then d else NatToString(n / 10) + d
  }

  /** `Long.toString(long)` / `Integer.toString(int)`. */
  function IntToString(n: int): string
  {
    if n < 0 then "-" + NatToString(-n) else NatToString(n)
  }

  lemma {:induction false} DecimalValueOfNatToString(n: nat)
    ensures DecimalValue(NatToString(n)) == n
  {
    var s := NatToString(n);
    var d := ['0' + (n % 10) as char];
    if n >= 10 {
      DecimalValueOfNatToString(n / 10);
      assert s == NatToString(n / 10) + d;
      assert s[..|s| - 1] == NatToString(n / 10);
    }
  }

  /** `Integer.parseInt(Integer.toString(n)) == n` on the 32-bit range. */
  lemma ParseIntOfIntToString(n: int)
    requires INT_MIN <= n <= INT_MAX
    ensures ParseInt(Some(IntToString(n))) == Ok(n)
  {
    if n < 0 {
      DecimalValueOfNatToString(-n);
      var s := IntToString(n);
      assert s[1..] == NatToString(-n);
    } else {
      DecimalValueOfNatToString(n);
      var s := NatToString(n);
      assert IsDigit(s[0]);
    }
  }

  /** The index of the first `c` in `s`. */
  function IndexOf(s: string, c: char): (i: nat)
    requires c in s
    ensures i < |s| && s[i] == c && c !in s[..i]
  {
    if s[0] == c then 0 else IndexOf(s[1..], c) + 1
  }

  /** The pieces of `s` between the occurrences of `c`, empty ones included. */
  function Pieces(s: string, c: char): (r: seq<string>)
    ensures |r| >= 1
    decreases |s|
  {
    if c !in s then [s]
    else
      var i := IndexOf(s, c);
      [s[..i]] + Pieces(s[i + 1..], c)
  }

  /** `pieces` without its trailing empty strings. */
  function DropTrailingEmpty(pieces: seq<string>): (r: seq<string>)
    ensures |r| <= |pieces| && r == pieces[..|r|]
    ensures r != [] ==> r[|r| - 1] != []
  {
    if pieces != [] && pieces[|pieces| - 1] == [] then DropTrailingEmpty(pieces[..|pieces| - 1]) else pieces
  }

  /** `String.split(String.valueOf(c))` for a character that is not a
      regular-expression metacharacter (or is escaped): the whole string when
      `c` does not occur, otherwise the pieces without the trailing empty
      ones. */
  function Split(s: string, c: char): (r: seq<string>)
  {
    if c !in s then [s] else DropTrailingEmpty(Pieces(s, c))
  }

  /** An array element `a[i]`: `ArrayIndexOutOfBoundsException` past the end. */
  function Element(a: seq<string>, i: nat): (r: Result<string>)
    ensures r.Ok? <==> i < |a|
    ensures r.Ok? ==> r.value == a[i]
    ensures r.Throws? ==> r.error == IndexOutOfBounds
  {
    if i < |a| then Ok(a[i]) else Throws(IndexOutOfBounds)
  }

  /** Splitting `a + [c] + b` where `a` has no `c` gives `a` first. */
  lemma PiecesFirst(a: string, c: char, b: string)
    requires c !in a
    ensures Pieces(a + [c] + b, c) == [a] + Pieces(b, c)
  {
    var s := a + [c] + b;
    IndexOfPrefix(a, c, b);
    assert s[..|a|] == a;
    assert s[|a| + 1..] == b;
  }

  lemma {:induction false} IndexOfPrefix(a: string, c: char, b: string)
    requires c !in a
    ensures c in a + [c] + b && IndexOf(a + [c] + b, c) == |a|
  {
    var s := a + [c] + b;
    assert s[|a|] == c;
    if a != [] {
      assert s[1..] == a[1..] + [c] + b;
      IndexOfPrefix(a[1..], c, b);
    }
  }

  /** A piece that is not empty survives the removal of trailing empty strings. */
  lemma {:induction false} DropTrailingEmptyKeeps(pieces: seq<string>, j: nat)
    requires j < |pieces| && pieces[j] != []
    ensures j < |DropTrailingEmpty(pieces)| && DropTrailingEmpty(pieces)[j] == pieces[j]
  {
    if pieces[|pieces| - 1] == [] {
      DropTrailingEmptyKeeps(pieces[..|pieces| - 1], j);
    }
  }

  /** Splitting at `c` a string whose first piece `a` is not empty gives `a` first. */
  lemma SplitHead(a: string, c: char, b: string)
    requires c !in a && a != []
    ensures |Split(a + [c] + b, c)| >= 1 && Split(a + [c] + b, c)[0] == a
  {
    var s := a + [c] + b;
    assert s[|a|] == c;
    PiecesFirst(a, c, b);
    DropTrailingEmptyKeeps(Pieces(s, c), 0);
  }

  /** Splitting `a + [c] + b` where neither part has `c` and `b` is not empty. */
  lemma SplitPair(a: string, c: char, b: string)
    requires c !in a && c !in b && b != []
    ensures Split(a + [c] + b, c) == [a, b]
  {
    var s := a + [c] + b;
    assert s[|a|] == c;
    PiecesFirst(a, c, b);
  }

  /** Splitting `a + [c]` where `a` has no `c` leaves at most one piece. */
  lemma SplitTrailing(a: string, c: char)
    requires c !in a
    ensures |Split(a + [c], c)| <= 1
  {
    var s := a + [c];
    assert s[|a|] == c;
    assert s == a + [c] + [];
    PiecesFirst(a, c, []);
    assert Pieces(s, c) == [a, []];
    assert [a, []][..1] == [a];
  }
}
