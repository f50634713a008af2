/**
 * The Python built-ins the modelled code leans on, over strings as
 * sequences of characters: str(n), int(s), float(s), f"{x:.2f}",
 * str.split, str.startswith, bin(n), str.count and negative indexing.
 * int() and float() accept the subset described at each function.
 */
module Builtins {
  import opened Wrappers

  predicate IsDigit(c: char) {
    '0' <= c <= '9'
  }

  predicate AllDigits(s: string) {
    forall i :: 0 <= i < |s| ==> IsDigit(s[i])
  }

  function DigitChar(d: nat): (c: char)
    requires d < 10
    ensures IsDigit(c) && DigitValue(c) == d
  {
    (d + '0' as int) as char
  }

  function DigitValue(c: char): (d: nat)
    requires IsDigit(c)
    ensures d < 10
  {
    c as int - '0' as int
  }

  function Pow10(k: nat): (p: nat)
    ensures p >= 1
  {
    if k == 0 then 1 else 10 * Pow10(k - 1)
  }

  /** Python's str(n) for n >= 0: decimal digits, no leading zeros. */
  function NatToString(n: nat): (s: string)
    ensures |s| > 0 && AllDigits(s)
    ensures n < 10 <==> |s| == 1
  {
    if n < 10 then [DigitChar(n)] else NatToString(n / 10) + [DigitChar(n % 10)]
  }

  /** Python's str(n). */
  function IntToString(n: int): (s: string)
    ensures |s| > 0
    ensures n >= 0 ==> AllDigits(s)
    ensures n < 0 ==> s[0] == '-' && AllDigits(s[1..])
  {
    if n < 0 then "-" + NatToString(-n) else NatToString(n)
  }

  /** The value of a string of decimal digits, read most significant first. */
  function DigitsValue(s: string): nat
    requires AllDigits(s)
  {
    if |s| == 0 then 0 else DigitsValue(s[..|s| - 1]) * 10 + DigitValue(s[|s| - 1])
  }

  lemma {:induction false} NatToStringRoundTrip(n: nat)
    ensures DigitsValue(NatToString(n)) == n
  {
    if n >= 10 {
      var s := NatToString(n);
      assert s[..|s| - 1] == NatToString(n / 10);
      NatToStringRoundTrip(n / 10);
    }
  }

  /**
   * Python's int(s) for an optional sign followed by ASCII digits; None
   * stands for the ValueError int() raises on anything else. (int() also
   * accepts surrounding whitespace, digit-group underscores and non-ASCII
   * digits, which no name the program writes contains.)
   */
  function ParseInt(s: string): Option<int> {
    if |s| > 0 && (s[0] == '+' || s[0] == '-') then
      var body := s[1..];
      if |body| > 0 && AllDigits(body) then
        var v: int := DigitsValue(body);
        Some(if s[0] == '-' then -v else v)
      else None
    else if |s| > 0 && AllDigits(s) then Some(DigitsValue(s))
    else None
  }

  lemma IntToStringRoundTrip(n: int)
    ensures ParseInt(IntToString(n)) == Some(n)
  {
    var m := if n < 0 then -n else n;
    NatToStringRoundTrip(m);
    if n < 0 {
      assert IntToString(n)[1..] == NatToString(m);
    }
  }

  /** str(n) never contains a space. */
  lemma NoSpaceInInt(n: int)
    ensures ' ' !in IntToString(n)
  {
    var s := IntToString(n);
    forall k | 0 <= k < |s| ensures s[k] != ' ' {
      if n < 0 && k > 0 {
        assert s[1..][k - 1] == s[k];
      }
    }
  }

  /** The index of the first `c` in `s`, or |s| when there is none. */
  function IndexOf(s: string, c: char): (i: nat)
    ensures i <= |s|
    ensures i < |s| ==> s[i] == c
  {
    if |s| == 0 then 0
    else if s[0] == c then 0
    else 1 + IndexOf(s[1..], c)
  }

  /** Nothing before the index is `c`, and the index is |s| exactly when `c` does not occur. */
  lemma {:induction false} IndexOfSpec(s: string, c: char)
    ensures c !in s[..IndexOf(s, c)]
    ensures IndexOf(s, c) == |s| <==> c !in s
  {
    if |s| > 0 && s[0] != c {
      var j := IndexOf(s[1..], c);
      IndexOfSpec(s[1..], c);
      assert s[..1 + j] == [s[0]] + s[1..][..j];
      assert s == [s[0]] + s[1..];
    }
  }

  lemma {:induction false} IndexOfJoin(a: string, c: char, b: string)
    requires c !in a
    ensures IndexOf(a + [c] + b, c) == |a|
  {
    if |a| > 0 {
      assert (a + [c] + b)[1..] == a[1..] + [c] + b;
      IndexOfJoin(a[1..], c, b);
    }
  }

  /** Python's s.split(sep) for a one-character separator. */
  function Split(s: string, sep: char): (parts: seq<string>)
    ensures |parts| >= 1
    decreases |s|
  {
    var i := IndexOf(s, sep);
    if i == |s| then [s] else [s[..i]] + Split(s[i + 1..], sep)
  }

  /** The last field of a split: Python's s.split(sep)[-1]. */
  function LastField(s: string, sep: char): string {
    var parts := Split(s, sep);
    parts[|parts| - 1]
  }

  lemma {:induction false} SplitJoinLast(a: string, sep: char, b: string)
    requires sep !in b
    ensures LastField(a + [sep] + b, sep) == b
    decreases |a|
  {
    var s := a + [sep] + b;
    var i := IndexOf(s, sep);
    if sep in a {
      var j := IndexOf(a, sep);
      IndexOfSpec(a, sep);
      assert a[..j] + [sep] + (a[j + 1..] + [sep] + b) == s;
      IndexOfJoin(a[..j], sep, a[j + 1..] + [sep] + b);
      assert s[i + 1..] == a[i + 1..] + [sep] + b;
      SplitJoinLast(a[i + 1..], sep, b);
    } else {
      SplitJoinTwo(a, sep, b);
    }
  }

  lemma SplitJoinTwo(a: string, sep: char, b: string)
    requires sep !in a && sep !in b
    ensures Split(a + [sep] + b, sep) == [a, b]
  {
    var s := a + [sep] + b;
    IndexOfJoin(a, sep, b);
    assert s[..|a|] == a;
    assert s[|a| + 1..] == b;
  }

  /** Python's s.startswith(prefix). */
  predicate StartsWith(s: string, prefix: string) {
    |prefix| <= |s| && s[..|prefix|] == prefix
  }

  /**
   * Python's float(s) restricted to decimal notation: an optional sign,
   * then digits with at most one '.', and at least one digit. None stands
   * for the ValueError float() raises. The value is the exact decimal.
   */
  function ParseDecimal(s: string): Option<real> {
    if |s| > 0 && (s[0] == '+' || s[0] == '-') then
      match ParseUnsignedDecimal(s[1..])
      case None => None
      case Some(v) => Some(if s[0] == '-' then -v else v)
    else ParseUnsignedDecimal(s)
  }

  function ParseUnsignedDecimal(s: string): Option<real> {
    var i := IndexOf(s, '.');
    if i == |s| then
      if |s| > 0 && AllDigits(s) then Some(DigitsValue(s) as real) else None
    else
      var whole, frac := s[..i], s[i + 1..];
      if AllDigits(whole) && AllDigits(frac) && |whole| + |frac| > 0 then
        Some(DigitsValue(whole) as real + DigitsValue(frac) as real / Pow10(|frac|) as real)
      else None
  }

  /** Python's f"{x:.2f}" for the number of hundredths `h`, i.e. x = h / 100. */
  function FormatHundredths(h: int): string {
    if h < 0 then "-" + UnsignedHundredths(-h) else UnsignedHundredths(h)
  }

  function UnsignedHundredths(m: nat): string {
    NatToString(m / 100) + "." + [DigitChar(m % 100 / 10), DigitChar(m % 10)]
  }

  lemma UnsignedHundredthsShape(m: nat)
    ensures IsDigit(UnsignedHundredths(m)[0])
    ensures '_' !in UnsignedHundredths(m)
  {
    var s := UnsignedHundredths(m);
    forall k | 0 <= k < |s|
      ensures s[k] != '_'
    {
      if k < |NatToString(m / 100)| {
        assert IsDigit(s[k]);
      }
    }
  }

  lemma TwoDigitsValue(m: nat)
    ensures DigitsValue([DigitChar(m % 100 / 10), DigitChar(m % 10)]) == m % 100
  {
    var frac := [DigitChar(m % 100 / 10), DigitChar(m % 10)];
    assert frac[..1] == [frac[0]];
    assert frac[..1][..0] == [];
    assert DigitsValue(frac[..1]) == m % 100 / 10;
    assert DigitsValue(frac) == DigitsValue(frac[..1]) * 10 + m % 10;
    var t := m % 100;
    assert m == 100 * (m / 100) + t;
    assert t == 10 * (t / 10) + t % 10;
    assert m == 10 * (10 * (m / 100) + t / 10) + t % 10;
    DivBetween(m, 10, 10 * (m / 100) + t / 10);
    assert m % 10 == t % 10;
  }

  /** A digit string, a point and a digit string parse as the whole part plus the fraction. */
  lemma ParseUnsignedJoin(whole: string, frac: string)
    requires AllDigits(whole) && AllDigits(frac) && |whole| > 0 && '.' !in whole
    ensures ParseUnsignedDecimal(whole + ['.'] + frac)
      == Some(DigitsValue(whole) as real + DigitsValue(frac) as real / Pow10(|frac|) as real)
  {
    var s := whole + ['.'] + frac;
    IndexOfJoin(whole, '.', frac);
    var i := IndexOf(s, '.');
    assert i == |whole| < |s|;
    assert s[..i] == whole;
    assert s[i + 1..] == frac;
    assert AllDigits(s[..i]) && AllDigits(s[i + 1..]) && |s[..i]| + |s[i + 1..]| > 0;
    var v := DigitsValue(whole) as real + DigitsValue(frac) as real / Pow10(|frac|) as real;
    assert v == DigitsValue(s[..i]) as real + DigitsValue(s[i + 1..]) as real / Pow10(|s[i + 1..]|) as real;
  }

  lemma UnsignedHundredthsRoundTrip(m: nat)
    ensures ParseUnsignedDecimal(UnsignedHundredths(m)) == Some(m as real / 100.0)
  {
    var whole := NatToString(m / 100);
    var frac := [DigitChar(m % 100 / 10), DigitChar(m % 10)];
    assert UnsignedHundredths(m) == whole + ['.'] + frac;
    assert '.' !in whole by {
      forall k | 0 <= k < |whole| ensures whole[k] != '.' { assert IsDigit(whole[k]); }
    }
    ParseUnsignedJoin(whole, frac);
    NatToStringRoundTrip(m / 100);
    TwoDigitsValue(m);
    assert Pow10(|frac|) == 100;
    HundredthsSplit(m);
  }

  lemma HundredthsSplit(m: nat)
    ensures (m / 100) as real + (m % 100) as real / 100.0 == m as real / 100.0
  {
    var q, r := m / 100, m % 100;
    assert m == 100 * q + r;
    assert m as real == 100.0 * q as real + r as real;
  }

  lemma FormatHundredthsRoundTrip(h: int)
    ensures ParseDecimal(FormatHundredths(h)) == Some(h as real / 100.0)
    ensures '_' !in FormatHundredths(h)
  {
    var m := if h < 0 then -h else h;
    var u := UnsignedHundredths(m);
    UnsignedHundredthsShape(m);
    UnsignedHundredthsRoundTrip(m);
    if h < 0 {
      var s := "-" + u;
      assert s[0] == '-' && s[1..] == u;
      assert -(m as real / 100.0) == h as real / 100.0;
      assert ParseDecimal(s) == Some(h as real / 100.0);
    } else {
      assert u[0] != '+' && u[0] != '-';
    }
  }

  /** Python's s[i], counting from the end when i < 0; None is the IndexError. */
  function PyIndex(s: string, i: int): (r: Option<char>)
    ensures r.Some? <==> -|s| <= i < |s|
    ensures 0 <= i < |s| ==> r == Some(s[i])
    ensures -|s| <= i < 0 ==> r == Some(s[|s| + i])
  {
    if 0 <= i < |s| then Some(s[i])
    else if -|s| <= i < 0 then Some(s[|s| + i])
    else None
  }

  function Pow2(k: nat): (p: nat)
    ensures p >= 1
  {
    if k == 0 then 1 else 2 * Pow2(k - 1)
  }

  /** The binary digits of n, most significant first. */
  function NatToBinary(n: nat): (s: string)
    ensures |s| > 0
  {
    if n < 2 then [if n == 0 then '0' else '1']
    else NatToBinary(n / 2) + [if n % 2 == 0 then '0' else '1']
  }

  /** Python's bin(n). */
  function Bin(n: int): string {
    if n < 0 then "-0b" + NatToBinary(-n) else "0b" + NatToBinary(n)
  }

  /** The two kinds of Python value `+` and `bin` meet here: an int and a byte string. */
  datatype PyValue = PyInt(n: int) | PyBytes(bytes: seq<int>)

  /** Python's a + b: ints add, byte strings concatenate, and an int with a byte string raises TypeError. */
  function PyAdd(a: PyValue, b: PyValue): Result<PyValue> {
    match (a, b)
    case (PyInt(x), PyInt(y)) => Ok(PyInt(x + y))
    case (PyBytes(x), PyBytes(y)) => Ok(PyBytes(x + y))
    case (PyInt(_), PyBytes(_)) => Err(TypeError("unsupported operand type(s) for +: 'int' and 'bytes'"))
    case (PyBytes(_), PyInt(_)) => Err(TypeError("can't concat int to bytes"))
  }

  /** Python's bin(x): defined on ints only. */
  function PyBin(x: PyValue): Result<string> {
    match x
    case PyInt(n) => Ok(Bin(n))
    case PyBytes(_) => Err(TypeError("'bytes' object cannot be interpreted as an integer"))
  }

  /** Python's s.count(c) for a single character. */
  function CountChar(s: string, c: char): nat {
    if |s| == 0 then 0 else CountChar(s[..|s| - 1], c) + (if s[|s| - 1] == c then 1 else 0)
  }

  lemma {:induction false} CountCharAppend(a: string, b: string, c: char)
    ensures CountChar(a + b, c) == CountChar(a, c) + CountChar(b, c)
    decreases |b|
  {
    if |b| > 0 {
      assert (a + b)[..|a + b| - 1] == a + b[..|b| - 1];
      CountCharAppend(a, b[..|b| - 1], c);
    } else {
      assert a + b == a;
    }
  }

  /** The number of set bits of n. */
  function Popcount(n: nat): nat {
    if n == 0 then 0 else n % 2 + Popcount(n / 2)
  }

  lemma {:induction false} BinaryOnesArePopcount(n: nat)
    ensures CountChar(NatToBinary(n), '1') == Popcount(n)
  {
    if n >= 2 {
      var s := NatToBinary(n);
      assert s[..|s| - 1] == NatToBinary(n / 2);
      BinaryOnesArePopcount(n / 2);
    } else if n == 1 {
      assert Popcount(1) == 1 + Popcount(0);
    }
  }

  lemma MulLe(d: nat, x: int, y: int)
    ensures x <= y ==> d * x <= d * y
  {
    if x <= y {
      var k := y - x;
      assert d * y == d * x + d * k;
      assert d * k >= 0;
    }
  }
  
  lemma DivBetween(a: int, d: int, q: int)
    requires d > 0 && d * q <= a < d * q + d
    ensures a / d == q
  {
    var q', r := a / d, a % d;
    assert a == d * q' + r && 0 <= r < d;
    MulLe(d, q' + 1, q);
    assert d * (q' + 1) == d * q' + d;
    MulLe(d, q + 1, q');
    assert d * (q + 1) == d * q + d;
  }
  
  lemma HalfDiv(n: nat, m: nat)
    requires m >= 1
    ensures n / 2 / m == n / (2 * m)
  {
    var q, r := n / (2 * m), n % (2 * m);
    assert n == (2 * m) * q + r && 0 <= r < 2 * m;
    var h := m * q + r / 2;
    assert (2 * m) * q == 2 * (m * q);
    assert n == 2 * h + r % 2;
    assert n / 2 == h;
    assert r / 2 < m;
    DivBetween(h, m, q);
  }

  /** Digit k of bin(n), counting from the least significant end, is bit k of n. */
  lemma {:induction false} BinaryDigitAt(n: nat, k: nat)
    requires k < |NatToBinary(n)|
    ensures NatToBinary(n)[|NatToBinary(n)| - 1 - k] == if n / Pow2(k) % 2 == 1 then '1' else '0'
  {
    if k > 0 {
      assert n >= 2;
      var s := NatToBinary(n);
      assert s[..|s| - 1] == NatToBinary(n / 2);
      BinaryDigitAt(n / 2, k - 1);
      HalfDiv(n, Pow2(k - 1));
      assert s[|s| - 1 - k] == NatToBinary(n / 2)[|NatToBinary(n / 2)| - 1 - (k - 1)];
    }
  }

  lemma {:induction false} BinaryLength(n: nat, k: nat)
    requires Pow2(k) <= n < Pow2(k + 1)
    ensures |NatToBinary(n)| == k + 1
  {
    if k > 0 {
      BinaryLength(n / 2, k - 1);
    }
  }
}
