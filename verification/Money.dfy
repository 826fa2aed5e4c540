/** Canonical money text: rendering a decimal in fixed-point form without trailing zeros, and the
    parser that accepts a text only if rendering its value gives the text back. */
module Money {
  import opened Text

  /** A `decimal.Decimal` as its constructor yields it. */
  datatype Decimal =
    | NotFinite
    | Finite(negative: bool, coefficient: nat, exponent: int)

  predicate Positive(d: Decimal) {
    d.Finite? && !d.negative && d.coefficient > 0
  }

  function Pow10(n: nat): nat {
    if n == 0 then 1 else 10 * Pow10(n - 1)
  }

  /** Equality of the numbers, whatever their exponents. */
  predicate SameValue(a: Decimal, b: Decimal)
    requires Positive(a) && Positive(b)
  {
    var e := if a.exponent < b.exponent then a.exponent else b.exponent;
    a.coefficient * Pow10(a.exponent - e) == b.coefficient * Pow10(b.exponent - e)
  }

  // ---------------------------------------------------------------- digits

  function DigitChar(d: nat): char
    requires d < 10
  {
    (d + 48) as char
  }

  predicate IsDigit(c: char) {
    '0' <= c <= '9'
  }

  predicate AllDigits(s: string) {
    forall i :: 0 <= i < |s| ==> IsDigit(s[i])
  }

  function Digits(n: nat): string {
    if n < 10 then [DigitChar(n)] else Digits(n / 10) + [DigitChar(n % 10)]
  }

  function NatOf(s: string): nat
    requires AllDigits(s)
  {
    if s == [] then 0 else 10 * NatOf(s[..|s| - 1]) + (s[|s| - 1] as int - 48)
  }

  function Zeros(n: nat): string {
    seq(n, _ => '0')
  }

  lemma {:induction false} DigitsShape(n: nat)
    ensures AllDigits(Digits(n)) && Digits(n) != []
    ensures NatOf(Digits(n)) == n
    ensures n > 0 ==> Digits(n)[0] != '0'
  {
    if n >= 10 {
      DigitsShape(n / 10);
      assert Digits(n)[..|Digits(n)| - 1] == Digits(n / 10);
    }
  }

  lemma {:induction false} NatOfZeros(n: nat)
    ensures AllDigits(Zeros(n)) && NatOf(Zeros(n)) == 0
  {
    if n > 0 {
      NatOfZeros(n - 1);
      assert Zeros(n)[..n - 1] == Zeros(n - 1);
    }
  }

  lemma {:induction false} NatOfPadded(n: nat, s: string)
    requires AllDigits(s)
    ensures AllDigits(Zeros(n) + s) && NatOf(Zeros(n) + s) == NatOf(s)
    decreases |s|
  {
    if s == [] {
      assert Zeros(n) + s == Zeros(n);
      NatOfZeros(n);
    } else {
      NatOfPadded(n, s[..|s| - 1]);
      assert (Zeros(n) + s)[..n + |s| - 1] == Zeros(n) + s[..|s| - 1];
    }
  }

  /** A digit string is its number's digits behind leading zeros. */
  lemma {:induction false} DigitsOfNat(s: string)
    requires AllDigits(s) && NatOf(s) > 0
    ensures var ds := Digits(NatOf(s));
            |ds| <= |s| && s == Zeros(|s| - |ds|) + ds
    decreases |s|
  {
    var t := s[..|s| - 1];
    var d := s[|s| - 1] as int - 48;
    assert s == t + [DigitChar(d)];
    if NatOf(t) == 0 {
      ZeroDigits(t);
      assert NatOf(s) == d;
    } else {
      DigitsOfNat(t);
      assert NatOf(s) / 10 == NatOf(t) && NatOf(s) % 10 == d;
      var ds := Digits(NatOf(t));
      assert Digits(NatOf(s)) == ds + [DigitChar(d)];
      assert Zeros(|t| - |ds|) + ds + [DigitChar(d)] == Zeros(|t| - |ds|) + (ds + [DigitChar(d)]);
    }
  }

  lemma {:induction false} ZeroDigits(s: string)
    requires AllDigits(s) && NatOf(s) == 0
    ensures s == Zeros(|s|)
    decreases |s|
  {
    if s != [] {
      ZeroDigits(s[..|s| - 1]);
      assert s == s[..|s| - 1] + [s[|s| - 1]];
    }
  }

  lemma DigitsTimesTen(m: nat)
    requires m > 0
    ensures Digits(10 * m) == Digits(m) + ['0']
  {
    assert 10 * m / 10 == m && 10 * m % 10 == 0;
  }

  lemma MoveTen(n: nat, k: nat)
    requires k > 0
    ensures n * Pow10(k) == 10 * (n * Pow10(k - 1))
  {
  }

  lemma {:induction false} DigitsScaled(n: nat, k: nat)
    requires n > 0
    ensures n * Pow10(k) > 0
    ensures Digits(n * Pow10(k)) == Digits(n) + Zeros(k)
  {
    if k == 0 {
      assert Digits(n) + Zeros(0) == Digits(n);
    } else {
      DigitsScaled(n, k - 1);
      hide Digits, Pow10;
      var m := n * Pow10(k - 1);
      MoveTen(n, k);
      DigitsTimesTen(m);
      assert Digits(m) + ['0'] == Digits(n) + Zeros(k) by {
        assert Zeros(k) == Zeros(k - 1) + ['0'];
      }
    }
  }

  // ---------------------------------------------------------------- rendering

  /** The digits before and after the point when the last `k` digits are a fraction. */
  function Whole(ds: string, k: int): string
    requires k > 0
  {
    if |ds| > k then ds[..|ds| - k] else "0"
  }

  function Part(ds: string, k: int): string
    requires k > 0
  {
    if |ds| > k then ds[|ds| - k..] else Zeros(k - |ds|) + ds
  }

  /** Python's `format(value, "f")` of a number without sign. */
  function FixedPoint(coefficient: nat, exponent: int): string {
    var ds := Digits(coefficient);
    if exponent >= 0 then
      if coefficient == 0 then "0" else ds + Zeros(exponent)
    else
      Whole(ds, 0 - exponent) + "." + Part(ds, 0 - exponent)
  }

  function StripRight(s: string, c: char): string {
    if s != [] && s[|s| - 1] == c then StripRight(s[..|s| - 1], c) else s
  }

  function Tidy(rendered: string): string {
    var stripped := if '.' in rendered then StripRight(StripRight(rendered, '0'), '.') else rendered;
    if stripped == "" || stripped == "-0" then "0" else stripped
  }

  /** `_canonical_decimal`. */
  function Render(d: Decimal): string
    requires d.Finite?
  {
    Tidy((if d.negative then "-" else "") + FixedPoint(d.coefficient, d.exponent))
  }

  // ---------------------------------------------------------------- reading

  /** The number a plain numeral `digits[.digits]` denotes. */
  function Plain(s: string): Option<Decimal> {
    if '.' in s then
      var i := IndexOf(s, '.');
      var whole, part := s[..i], s[i + 1..];
      if whole != [] && part != [] && AllDigits(whole) && AllDigits(part)
      then Some(Finite(false, NatOf(whole + part), 0 - |part|))
      else None
    else if s != [] && AllDigits(s) then Some(Finite(false, NatOf(s), 0))
    else None
  }

  /** `Decimal(text)` reads plain numerals as usual; nothing is said of other spellings. */
  ghost predicate ReadsPlainNumerals(read: string -> Decimal) {
    forall s :: Plain(s).Some? ==> read(s) == Plain(s).value
  }

  /** `_parse_canonical_positive_cost`. */
  function ParseCost(read: string -> Decimal, s: string): Option<Decimal> {
    var d := read(s);
    if Positive(d) && Render(d) == s then Some(d) else None
  }

  /** A plain numeral above zero with no superfluous zero at either end. */
  predicate Canonical(s: string) {
    && Plain(s).Some?
    && Plain(s).value.coefficient > 0
    && (if '.' in s
        then (IndexOf(s, '.') == 1 || s[0] != '0') && s[|s| - 1] != '0'
        else s[0] != '0')
  }

  // ---------------------------------------------------------------- reduced numbers

  predicate Reduced(d: Decimal) {
    && Positive(d)
    && d.exponent <= 0
    && (d.exponent < 0 ==> d.coefficient % 10 != 0)
  }

  function Reduce(d: Decimal): Decimal
    requires Positive(d)
    decreases if d.exponent < 0 then 0 - d.exponent else 0
  {
    if d.exponent >= 0 then Scaled(d)
    else if d.coefficient % 10 == 0
    then Reduce(Finite(false, d.coefficient / 10, d.exponent + 1))
    else d
  }

  function Scaled(d: Decimal): Decimal
    requires Positive(d) && d.exponent >= 0
  {
    Finite(false, d.coefficient * Pow10(d.exponent), 0)
  }

  lemma Pow10Positive(n: nat)
    ensures Pow10(n) > 0
  {
  }

  lemma {:induction false} Pow10Sum(m: nat, n: nat)
    ensures Pow10(m + n) == Pow10(m) * Pow10(n)
  {
    if m > 0 { Pow10Sum(m - 1, n); }
  }

  /** Value at a common exponent below both. */
  lemma SameValueAt(a: Decimal, b: Decimal, e: int)
    requires Positive(a) && Positive(b) && e <= a.exponent && e <= b.exponent
    ensures SameValue(a, b) <==>
            a.coefficient * Pow10(a.exponent - e) == b.coefficient * Pow10(b.exponent - e)
  {
    hide Pow10;
    var m := if a.exponent < b.exponent then a.exponent else b.exponent;
    ScaledBy(a.coefficient, a.exponent - m, m - e);
    ScaledBy(b.coefficient, b.exponent - m, m - e);
    Pow10Positive(m - e);
    Cancel(a.coefficient * Pow10(a.exponent - m), b.coefficient * Pow10(b.exponent - m), Pow10(m - e));
  }

  lemma ScaledBy(c: nat, m: nat, n: nat)
    ensures c * Pow10(m + n) == c * Pow10(m) * Pow10(n)
  {
    hide Pow10;
    Pow10Sum(m, n);
    Associate(c, Pow10(m), Pow10(n));
  }

  lemma Associate(a: nat, b: nat, c: nat)
    ensures a * (b * c) == a * b * c
  {
  }

  lemma Cancel(x: nat, y: nat, p: nat)
    requires p > 0
    ensures x * p == y * p <==> x == y
  {
    if x < y { assert (y - x) * p > 0; }
    if y < x { assert (x - y) * p > 0; }
  }

  /** The number itself. */
  function Value(d: Decimal): real
    requires Positive(d)
  {
    if d.exponent >= 0 then (d.coefficient * Pow10(d.exponent)) as real
    else Pow10Positive(-d.exponent); d.coefficient as real / Pow10(-d.exponent) as real
  }

  lemma Quotient(c: real, p: real, q: real)
    requires p > 0.0 && q > 0.0
    ensures c / p * (q * p) == c * q
  {
  }

  lemma ValueAt(d: Decimal, e: int)
    requires Positive(d) && e <= d.exponent && e <= 0
    ensures (d.coefficient * Pow10(d.exponent - e)) as real == Value(d) * Pow10(-e) as real
  {
    hide Pow10;
    if d.exponent >= 0 {
      Pow10Sum(d.exponent, -e);
      assert d.coefficient * Pow10(d.exponent - e) == d.coefficient * Pow10(d.exponent) * Pow10(-e) by {
        Associate(d.coefficient, Pow10(d.exponent), Pow10(-e));
      }
    } else {
      Pow10Sum(d.exponent - e, -d.exponent);
      Pow10Positive(d.exponent - e);
      Pow10Positive(-d.exponent);
      Quotient(d.coefficient as real, Pow10(-d.exponent) as real, Pow10(d.exponent - e) as real);
    }
  }

  lemma CancelReal(x: real, y: real, p: real)
    requires p > 0.0
    ensures x * p == y * p <==> x == y
    ensures x * p <= y * p <==> x <= y
  {
  }

  lemma CompareValues(m: nat, n: nat, x: real, y: real, p: nat)
    requires p > 0 && m as real == x * p as real && n as real == y * p as real
    ensures (m == n <==> x == y) && (m <= n <==> x <= y)
  {
    CancelReal(x, y, p as real);
  }

  /** Equality of numbers is equality of their values. */
  lemma SameValueIsEquality(a: Decimal, b: Decimal)
    requires Positive(a) && Positive(b)
    ensures SameValue(a, b) <==> Value(a) == Value(b)
  {
    hide Pow10, SameValue, Value;
    var e := 0 - AbsSum(a.exponent, b.exponent, 0);
    SameValueAt(a, b, e);
    ValueAt(a, e);
    ValueAt(b, e);
    Pow10Positive(-e);
    CompareValues(a.coefficient * Pow10(a.exponent - e), b.coefficient * Pow10(b.exponent - e),
                  Value(a), Value(b), Pow10(-e));
  }

  lemma SameValueTransitive(a: Decimal, b: Decimal, c: Decimal)
    requires Positive(a) && Positive(b) && Positive(c)
    requires SameValue(a, b) && SameValue(b, c)
    ensures SameValue(a, c)
  {
    var e := 0 - AbsSum(a.exponent, b.exponent, c.exponent);
    SameValueAt(a, b, e);
    SameValueAt(b, c, e);
    SameValueAt(a, c, e);
  }

  function AbsSum(x: int, y: int, z: int): (n: nat)
    ensures 0 - n <= x && 0 - n <= y && 0 - n <= z
  {
    (if x < 0 then 0 - x else x) + (if y < 0 then 0 - y else y) + (if z < 0 then 0 - z else z)
  }

  lemma {:induction false} ReduceKeepsValue(d: Decimal)
    requires Positive(d)
    ensures Reduced(Reduce(d))
    ensures SameValue(d, Reduce(d))
    decreases if d.exponent < 0 then 0 - d.exponent else 0
  {
    if d.exponent >= 0 {
      Pow10Positive(d.exponent);
      SameValueAt(d, Scaled(d), 0);
    } else if d.coefficient % 10 == 0 {
      var t := Finite(false, d.coefficient / 10, d.exponent + 1);
      assert Pow10(1) == 10;
      SameValueAt(d, t, d.exponent);
      ReduceKeepsValue(t);
      SameValueTransitive(d, t, Reduce(t));
    }
  }

  lemma ReducedNotBelow(a: Decimal, b: Decimal)
    requires Reduced(a) && Reduced(b) && SameValue(a, b)
    ensures b.exponent <= a.exponent
    ensures a.exponent == b.exponent ==> a.coefficient == b.coefficient
  {
    if a.exponent < b.exponent {
      TenTimes(b.coefficient, b.exponent - a.exponent);
    }
  }

  lemma TenTimes(c: nat, k: nat)
    requires k > 0
    ensures c * Pow10(k) % 10 == 0
  {
    MoveTen(c, k);
  }

  /** A reduced number is the only reduced number of its value. */
  lemma ReducedUnique(a: Decimal, b: Decimal)
    requires Reduced(a) && Reduced(b) && SameValue(a, b)
    ensures a == b
  {
    ReducedNotBelow(a, b);
    SameValueSymmetric(a, b);
    ReducedNotBelow(b, a);
  }

  // ---------------------------------------------------------------- text of a reduced number

  lemma StripRightDrops(s: string, c: char)
    ensures StripRight(s + [c], c) == StripRight(s, c)
  {
    assert (s + [c])[..|s|] == s;
  }

  /** Nothing is stripped from a number that ends in a nonzero digit, or has no point. */
  lemma TidyKeeps(s: string)
    requires s != [] && IsDigit(s[0])
    requires '.' in s ==> s[|s| - 1] != '0' && s[|s| - 1] != '.'
    ensures Tidy(s) == s
  {
  }

  lemma TidyDropsZero(s: string)
    requires '.' in s
    ensures Tidy(s + ['0']) == Tidy(s)
  {
    StripRightDrops(s, '0');
  }

  lemma TidyDropsPoint(s: string)
    requires s != [] && AllDigits(s)
    ensures Tidy(s + "." + ['0']) == s == Tidy(s)
  {
    NoDotInDigits(s);
    TidyKeeps(s);
    var t := s + ".";
    assert t[|s|] == '.' && (t + ['0'])[|s|] == '.';
    StripRightDrops(t, '0');
    assert StripRight(t, '0') == t;
    StripRightDrops(s, '.');
    assert StripRight(s, '.') == s by { assert s[|s| - 1] in s; }
    assert s != "-0" by { assert IsDigit(s[0]); }
  }

  lemma NoDotInDigits(s: string)
    requires AllDigits(s)
    ensures '.' !in s
  {
  }

  lemma PiecesInside(ds: string, k: int)
    requires AllDigits(ds) && 0 < k < |ds|
    ensures Whole(ds, k) + Part(ds, k) == ds
    ensures AllDigits(Whole(ds, k)) && AllDigits(Part(ds, k))
    ensures Part(ds, k)[k - 1] == ds[|ds| - 1] && Whole(ds, k)[0] == ds[0]
  {
  }

  lemma PiecesPadded(ds: string, k: int)
    requires AllDigits(ds) && ds != [] && |ds| <= k
    ensures Whole(ds, k) + Part(ds, k) == Zeros(k - |ds| + 1) + ds
    ensures AllDigits(Part(ds, k)) && |Part(ds, k)| == k
    ensures Part(ds, k)[k - 1] == ds[|ds| - 1]
  {
  }

  lemma DigitsEnd(c: nat)
    ensures Digits(c)[|Digits(c)| - 1] == DigitChar(c % 10)
  {
  }

  lemma Pieces(c: nat, k: int)
    requires c > 0 && k > 0
    ensures var whole, part := Whole(Digits(c), k), Part(Digits(c), k);
            && whole != [] && |part| == k && AllDigits(whole) && AllDigits(part)
            && NatOf(whole + part) == c
            && part[k - 1] == DigitChar(c % 10)
            && (whole == "0" || whole[0] != '0')
  {
    hide Digits, NatOf, AllDigits, Zeros;
    var ds := Digits(c);
    DigitsShape(c);
    DigitsEnd(c);
    ZeroIsDigit();
    if |ds| > k {
      PiecesInside(ds, k);
    } else {
      PiecesPadded(ds, k);
      NatOfPadded(k - |ds| + 1, ds);
    }
  }

  lemma ZeroIsDigit()
    ensures AllDigits("0")
  {
  }

  lemma FractionText(whole: string, part: string)
    requires AllDigits(whole) && AllDigits(part) && whole != [] && part != []
    ensures var s := whole + "." + part;
            && '.' in s && IndexOf(s, '.') == |whole|
            && Plain(s) == Some(Finite(false, NatOf(whole + part), 0 - |part|))
  {
    NoDotInDigits(whole);
    IndexOfSplit(whole, '.', part);
    var s := whole + "." + part;
    assert s[..|whole|] == whole && s[|whole| + 1..] == part;
  }

  lemma RenderFraction(d: Decimal)
    requires Positive(d) && d.exponent < 0 && d.coefficient % 10 != 0
    ensures Render(d) == FixedPoint(d.coefficient, d.exponent)
  {
    hide Tidy, Whole, Part;
    var k := 0 - d.exponent;
    var s := FixedPoint(d.coefficient, d.exponent);
    Pieces(d.coefficient, k);
    var whole, part := Whole(Digits(d.coefficient), k), Part(Digits(d.coefficient), k);
    assert s == whole + "." + part;
    assert s[|s| - 1] == part[k - 1] && s[0] == whole[0];
    TidyKeeps(s);
    assert "" + s == s;
  }

  lemma RenderWhole(d: Decimal)
    requires Positive(d) && d.exponent >= 0
    ensures Render(d) == Digits(d.coefficient) + Zeros(d.exponent)
  {
    hide Tidy;
    DigitsShape(d.coefficient);
    var s := Digits(d.coefficient) + Zeros(d.exponent);
    assert AllDigits(s);
    NoDotInDigits(s);
    TidyKeeps(s);
    assert "" + s == s;
  }

  /** Reading the text of a reduced number gives the number, and the text is canonical. */
  lemma ReducedText(r: Decimal)
    requires Reduced(r)
    ensures Plain(Render(r)) == Some(r)
    ensures Canonical(Render(r))
  {
    hide Render;
    var c := r.coefficient;
    var s := Render(r);
    if r.exponent == 0 {
      RenderWhole(r);
      DigitsShape(c);
      assert s == Digits(c);
      NoDotInDigits(s);
    } else {
      var k := 0 - r.exponent;
      RenderFraction(r);
      Pieces(c, k);
      var whole, part := Whole(Digits(c), k), Part(Digits(c), k);
      FractionText(whole, part);
      assert s == whole + "." + part;
      assert s[|s| - 1] == part[k - 1] && s[0] == whole[0];
    }
  }

  lemma PiecesTrailingZero(c: nat, k: int)
    requires c > 0 && c % 10 == 0 && k > 1
    ensures Whole(Digits(c), k) == Whole(Digits(c / 10), k - 1)
    ensures Part(Digits(c), k) == Part(Digits(c / 10), k - 1) + ['0']
  {
    var ds, es := Digits(c), Digits(c / 10);
    assert ds == es + ['0'];
    if |ds| > k {
      assert ds[..|ds| - k] == es[..|es| - (k - 1)];
    } else {
      assert Zeros(k - |ds|) + ds == Zeros(k - 1 - |es|) + es + ['0'];
    }
  }

  /** A zero at the end of a fraction does not change the rendering. */
  lemma RenderTrailingZero(d: Decimal)
    requires Positive(d) && d.exponent < 0 && d.coefficient % 10 == 0
    ensures Render(d) == Render(Finite(false, d.coefficient / 10, d.exponent + 1))
  {
    hide Tidy, Digits;
    var k := 0 - d.exponent;
    var c := d.coefficient / 10;
    var s := FixedPoint(d.coefficient, d.exponent);
    var u := FixedPoint(c, d.exponent + 1);
    assert "" + s == s && "" + u == u;
    assert d.coefficient == 10 * c;
    DigitsTimesTen(c);
    if k > 1 {
      hide Whole, Part;
      PiecesTrailingZero(d.coefficient, k);
      assert s == u + ['0'];
      assert u[|Whole(Digits(c), k - 1)|] == '.';
      TidyDropsZero(u);
    } else {
      DigitsShape(c);
      assert u == Digits(c) by { assert Digits(c) + Zeros(0) == Digits(c); }
      assert s == u + "." + ['0'] by { assert |Digits(d.coefficient)| > 1; }
      TidyDropsPoint(u);
    }
  }

  /** Rendering depends on the reduced number only. */
  lemma {:induction false} RenderReduces(d: Decimal)
    requires Positive(d)
    ensures Positive(Reduce(d)) && Render(d) == Render(Reduce(d))
    decreases if d.exponent < 0 then 0 - d.exponent else 0
  {
    hide Render;
    ReduceKeepsValue(d);
    if d.exponent >= 0 {
      RenderWhole(d);
      RenderWhole(Scaled(d));
      DigitsScaled(d.coefficient, d.exponent);
      assert Digits(Scaled(d).coefficient) + Zeros(0) == Digits(Scaled(d).coefficient);
    } else if d.coefficient % 10 == 0 {
      RenderTrailingZero(d);
      RenderReduces(Finite(false, d.coefficient / 10, d.exponent + 1));
    }
  }

  // ---------------------------------------------------------------- main results

  lemma SameValueSymmetric(a: Decimal, b: Decimal)
    requires Positive(a) && Positive(b) && SameValue(a, b)
    ensures SameValue(b, a)
  {
    var e := if a.exponent < b.exponent then a.exponent else b.exponent;
    SameValueAt(a, b, e);
    SameValueAt(b, a, e);
  }

  /** Rendering keeps the value and gives canonical text. */
  lemma RenderKeepsValue(d: Decimal)
    requires Positive(d)
    ensures Canonical(Render(d))
    ensures Plain(Render(d)).Some? && Positive(Plain(Render(d)).value)
    ensures SameValue(Plain(Render(d)).value, d)
  {
    hide Render, Canonical, Plain, SameValue;
    RenderReduces(d);
    ReduceKeepsValue(d);
    ReducedText(Reduce(d));
    SameValueSymmetric(d, Reduce(d));
  }

  /** Two numbers render alike exactly when they are equal, whatever their exponents. */
  lemma RenderSeparatesValues(a: Decimal, b: Decimal)
    requires Positive(a) && Positive(b)
    ensures SameValue(a, b) <==> Render(a) == Render(b)
  {
    hide Render, Canonical, Plain, SameValue;
    RenderReduces(a);
    RenderReduces(b);
    ReduceKeepsValue(a);
    ReduceKeepsValue(b);
    ReducedText(Reduce(a));
    ReducedText(Reduce(b));
    SameValueSymmetric(a, Reduce(a));
    SameValueSymmetric(b, Reduce(b));
    if SameValue(a, b) {
      SameValueTransitive(Reduce(a), a, b);
      SameValueTransitive(Reduce(a), b, Reduce(b));
      ReducedUnique(Reduce(a), Reduce(b));
    } else if Render(a) == Render(b) {
      SameValueTransitive(a, Reduce(a), b);
    }
  }

  /** Digits that do not start with a zero are their number's digits. */
  lemma DigitsExact(s: string)
    requires AllDigits(s) && NatOf(s) > 0 && s[0] != '0'
    ensures Digits(NatOf(s)) == s
  {
    DigitsOfNat(s);
    var ds := Digits(NatOf(s));
    var pad := Zeros(|s| - |ds|);
    assert s[0] == (pad + ds)[0];
    assert pad == [];
    assert pad + ds == ds;
  }

  /** A canonical text denotes a reduced number whose text it is. */
  lemma CanonicalWhole(s: string)
    requires Canonical(s) && '.' !in s
    ensures Render(Plain(s).value) == s && Reduced(Plain(s).value)
  {
    hide Render;
    DigitsExact(s);
    RenderWhole(Finite(false, NatOf(s), 0));
    assert s + Zeros(0) == s;
  }

  lemma CanonicalPieces(whole: string, part: string)
    requires AllDigits(whole) && AllDigits(part) && whole != [] && part != []
    requires NatOf(whole + part) > 0
    requires whole == "0" || whole[0] != '0'
    ensures var ds := Digits(NatOf(whole + part));
            Whole(ds, |part|) == whole && Part(ds, |part|) == part
  {
    hide Digits;
    var all := whole + part;
    var ds := Digits(NatOf(all));
    if whole == "0" {
      assert whole + part == Zeros(1) + part;
      NatOfPadded(1, part);
      DigitsOfNat(part);
      var pad := |part| - |ds|;
      assert Zeros(pad) + ds == part;
    } else {
      DigitsExact(all);
    }
  }

  lemma CanonicalFraction(s: string)
    requires Canonical(s) && '.' in s
    ensures Render(Plain(s).value) == s && Reduced(Plain(s).value)
  {
    hide Render, Whole, Part, Digits;
    var i := IndexOf(s, '.');
    var whole, part := s[..i], s[i + 1..];
    var all := whole + part;
    assert s == whole + "." + part;
    assert all[|all| - 1] == s[|s| - 1] && whole[0] == s[0];
    assert NatOf(all) % 10 == all[|all| - 1] as int - 48;
    assert whole == "0" || whole[0] != '0' by {
      if i == 1 { assert whole == [s[0]]; }
    }
    CanonicalPieces(whole, part);
    RenderFraction(Plain(s).value);
  }

  /** The parser accepts exactly the texts that rendering produces, whatever the constructor makes
      of other spellings, and what it returns renders back to the text. */
  lemma ParserAcceptsRenderedTexts(read: string -> Decimal, s: string)
    requires ReadsPlainNumerals(read)
    ensures ParseCost(read, s).Some? <==> Canonical(s)
    ensures Canonical(s) <==> exists d: Decimal :: Positive(d) && Render(d) == s
    ensures ParseCost(read, s).Some? ==>
              Positive(ParseCost(read, s).value) && Render(ParseCost(read, s).value) == s
  {
    hide Render, Canonical, Plain;
    if Canonical(s) {
      if '.' in s { CanonicalFraction(s); } else { CanonicalWhole(s); }
      CanonicalReads(s);
    }
    forall d: Decimal | Positive(d) && Render(d) == s ensures Canonical(s) {
      RenderKeepsValue(d);
    }
  }

  lemma CanonicalReads(s: string)
    requires Canonical(s)
    ensures Plain(s).Some?
  {
  }

  /** Rendering then parsing gives an equal number. */
  lemma RenderThenParse(read: string -> Decimal, d: Decimal)
    requires ReadsPlainNumerals(read) && Positive(d)
    ensures var p := ParseCost(read, Render(d));
            p.Some? && Positive(p.value) && SameValue(p.value, d)
  {
    hide Render, Canonical, Plain, SameValue;
    RenderKeepsValue(d);
    ParserAcceptsRenderedTexts(read, Render(d));
    RenderSeparatesValues(ParseCost(read, Render(d)).value, d);
  }
}
