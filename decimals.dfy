/** Exact decimal numbers standing in for the backend's Python floats, with the
    three conversions the backend applies to them: fixed-precision formatting
    (`f"{v:.pf}"`), `str(v)` (the shortest form) and parsing with `float(s)` and
    `int(s)`. */
module Decimals {
  import opened Wrappers
  import opened PyStr
  import Seqs

  /** The number `units / 10^scale`. */
  datatype Decimal = Decimal(units: int, scale: nat)

  /** A point or vector of three numbers (a row of a coordinate array). */
  datatype Vec3 = Vec3(x: Decimal, y: Decimal, z: Decimal)

  function Pow10(n: nat): (r: nat)
    ensures r >= 1
  {
    if n == 0 then 1 else 10 * Pow10(n - 1)
  }

  lemma {:induction false} Pow10Add(a: nat, b: nat)
    ensures Pow10(a + b) == Pow10(a) * Pow10(b)
  {
    if a > 0 {
      Pow10Add(a - 1, b);
      assert Pow10(a + b) == 10 * Pow10(a - 1 + b);
    }
  }

  function Abs(x: int): nat {
    if x < 0 then -x else x
  }

  /** Two decimals denote the same number. */
  predicate SameValue(d: Decimal, e: Decimal) {
    d.units * Pow10(e.scale) == e.units * Pow10(d.scale)
  }

  function Negate(d: Decimal): (r: Decimal)
    ensures r.scale == d.scale && r.units == -d.units
  {
    Decimal(-d.units, d.scale)
  }

  // ---------------------------------------------------------------- digits

  predicate IsDigit(c: char) {
    '0' <= c <= '9'
  }

  predicate AllDigits(s: string) {
    forall i | 0 <= i < |s| :: IsDigit(s[i])
  }

  function DigitChar(d: nat): (c: char)
    requires d < 10
    ensures IsDigit(c)
  {
    (('0' as int) + d) as char
  }

  function DigitValue(c: char): (d: nat)
    requires IsDigit(c)
    ensures d < 10
  {
    c as int - '0' as int
  }

  /** The number a string of decimal digits spells (0 for the empty string). */
  function DigitsValue(s: string): nat
    requires AllDigits(s)
    decreases |s|
  {
    if s == [] then 0 else 10 * DigitsValue(s[..|s| - 1]) + DigitValue(s[|s| - 1])
  }

  /** `str(n)` for a natural number: its decimal digits without leading zeros. */
  function NatToString(n: nat): (s: string)
    ensures s != [] && AllDigits(s)
    ensures DigitsValue(s) == n
    ensures |s| > 1 ==> s[0] != '0'
  {
    if n < 10 then [DigitChar(n)]
    else
      var h := NatToString(n / 10);
      var s := h + [DigitChar(n % 10)];
      assert s[..|s| - 1] == h;
      s
  }

  /** `str(n)` for an integer. */
  function IntToString(n: int): (s: string)
    ensures s != [] && !IsSpace(s[0]) && !IsSpace(s[|s| - 1])
    ensures forall i | 0 <= i < |s| :: IsDigit(s[i]) || s[i] == '-'
  {
    if n < 0 then "-" + NatToString(-n) else NatToString(n)
  }

  function Zeros(k: nat): (s: string)
    ensures |s| == k && AllDigits(s)
  {
    if k == 0 then "" else "0" + Zeros(k - 1)
  }

  /** Leading zeros do not change the number a digit string spells. */
  lemma {:induction false} DigitsValueZeros(k: nat, s: string)
    requires AllDigits(s)
    ensures DigitsValue(Zeros(k) + s) == DigitsValue(s)
    decreases |s|
  {
    if s == [] {
      assert Zeros(k) + s == Zeros(k);
      ZerosValue(k);
    } else {
      var t := Zeros(k) + s;
      assert t[..|t| - 1] == Zeros(k) + s[..|s| - 1];
      DigitsValueZeros(k, s[..|s| - 1]);
    }
  }

  lemma {:induction false} ZerosValue(k: nat)
    ensures DigitsValue(Zeros(k)) == 0
  {
    if k > 0 {
      var z := Zeros(k);
      assert z[..|z| - 1] == Zeros(k - 1) by {
        assert z == Zeros(k - 1) + "0" by { ZerosSnoc(k); }
      }
      ZerosValue(k - 1);
    }
  }

  lemma {:induction false} ZerosSnoc(k: nat)
    requires k > 0
    ensures Zeros(k) == Zeros(k - 1) + "0"
  {
    if k > 1 {
      ZerosSnoc(k - 1);
    }
  }

  /** The digits of `s` left-padded with zeros to at least `w` characters. */
  function ZeroPad(s: string, w: nat): (r: string)
    requires AllDigits(s)
    ensures AllDigits(r) && |r| >= w && |r| >= |s|
    ensures DigitsValue(r) == DigitsValue(s)
  {
    if |s| >= w then s
    else
      DigitsValueZeros(w - |s|, s);
      Zeros(w - |s|) + s
  }

  // ---------------------------------------------------------------- rounding

  /** `a / q` rounded to the nearest whole number, a tie going to the even one. */
  function RoundDiv(a: nat, q: nat): nat
    requires q >= 1
  {
    var lo := a / q;
    var r := a % q;
    if 2 * r < q then lo else if 2 * r > q then lo + 1 else if lo % 2 == 0 then lo else lo + 1
  }

  /** `RoundDiv(a, q) * q` is within `q / 2` of `a`, and even on a tie. */
  lemma RoundDivNearest(a: nat, q: nat)
    requires q >= 1
    ensures 2 * Abs(a - RoundDiv(a, q) * q) <= q
    ensures 2 * Abs(a - RoundDiv(a, q) * q) == q ==> RoundDiv(a, q) % 2 == 0
  {
    var lo := a / q;
    var r := a % q;
    assert a == lo * q + r;
    var m := RoundDiv(a, q);
    if m == lo {
      assert a - m * q == r;
    } else {
      assert m * q == lo * q + q;
      assert a - m * q == r - q;
    }
  }

  /** `|d|` rounded to `p` decimal places, a tie going to the even neighbour: the
      magnitude `f"{d:.pf}"` prints, as a number of units of `10^-p`. */
  function RoundMagnitude(d: Decimal, p: nat): nat {
    if p >= d.scale then Abs(d.units) * Pow10(p - d.scale)
    else RoundDiv(Abs(d.units), Pow10(d.scale - p))
  }

  /** Rounding to at least the number's own scale is exact; rounding to fewer places
      gives the nearest multiple of `10^-p` (measured in units of `10^-scale`), the
      even one on a tie. */
  lemma RoundMagnitudeNearest(d: Decimal, p: nat)
    ensures p >= d.scale ==> RoundMagnitude(d, p) == Abs(d.units) * Pow10(p - d.scale)
    ensures p < d.scale ==>
      var m, q := RoundMagnitude(d, p), Pow10(d.scale - p);
      2 * Abs(Abs(d.units) - m * q) <= q && (2 * Abs(Abs(d.units) - m * q) == q ==> m % 2 == 0)
  {
    if p < d.scale {
      RoundDivNearest(Abs(d.units), Pow10(d.scale - p));
    }
  }

  lemma MulLe(P: nat, x: int, y: int)
    requires x <= y
    ensures P * x <= P * y
  {
  }

  lemma MulCancel(P: nat, x: int, y: int)
    requires P > 0 && P * x == P * y
    ensures x == y
  {
    if x < y {
      MulLe(P, x + 1, y);
    } else if y < x {
      MulLe(P, y + 1, x);
    }
  }

  /** The signed number of units of `10^-p` that `f"{d:.pf}"` prints. */
  function Rescale(d: Decimal, p: nat): int {
    var m: int := RoundMagnitude(d, p);
    if d.units < 0 then -m else m
  }

  /** Rounding a decimal to its own scale or beyond loses nothing. */
  lemma RescaleExact(d: Decimal, p: nat)
    requires p >= d.scale
    ensures Rescale(d, p) == d.units * Pow10(p - d.scale)
  {
  }

  /** `float(f"{d:.pf}")`: `d` rounded to `p` places, at scale `p`. */
  function Rounded(d: Decimal, p: nat): (r: Decimal)
    ensures r.scale == p
    ensures r.units < 0 ==> d.units < 0
  {
    Decimal(Rescale(d, p), p)
  }

  /** Rounding to at least the number's own number of places keeps its value. */
  lemma RoundedExact(d: Decimal, p: nat)
    requires p >= d.scale
    ensures SameValue(Rounded(d, p), d)
  {
    var a, b, c := d.units, Pow10(p - d.scale), Pow10(d.scale);
    RescaleExact(d, p);
    Pow10Add(p - d.scale, d.scale);
    assert (a * b) * c == a * (b * c);
  }

  /** Rounding to fewer places moves the value by at most half a unit of the last
      place kept (`10^-p`), measured in units of `10^-scale`. */
  lemma RoundedNearest(d: Decimal, p: nat)
    requires p < d.scale
    ensures 2 * Abs(d.units - Rounded(d, p).units * Pow10(d.scale - p)) <= Pow10(d.scale - p)
  {
    var m: int, q: int := RoundMagnitude(d, p), Pow10(d.scale - p);
    var e: int := Abs(d.units) - m * q;
    RoundMagnitudeNearest(d, p);
    assert 2 * Abs(e) <= q;
    if d.units < 0 {
      assert Rounded(d, p).units == -m;
      assert (-m) * q == -(m * q);
      assert d.units - Rounded(d, p).units * q == -e;
    } else {
      assert Rounded(d, p).units == m;
      assert d.units - Rounded(d, p).units * q == e;
    }
  }

  // ---------------------------------------------------------------- formatting

  /** The characters a fixed-point rendering is made of. */
  predicate NumericChar(c: char) {
    IsDigit(c) || c == '-' || c == '.'
  }

  /** Digits and points only. */
  predicate Unsigned(s: string) {
    forall i | 0 <= i < |s| :: NumericChar(s[i]) && s[i] != '-'
  }

  /** When `p > 0`, exactly `p` digits follow the last point of `s`. */
  predicate Places(s: string, p: nat) {
    p > 0 ==> |s| > p + 1 && s[|s| - p - 1] == '.' && AllDigits(s[|s| - p..])
  }

  /** The digits of `m` units of `10^-p`, with at least one integer digit and, when
      `p > 0`, a point before the last `p` digits. */
  function FixedDigits(m: nat, p: nat): (s: string)
    ensures |s| > p && IsDigit(s[0]) && IsDigit(s[|s| - 1])
    ensures Unsigned(s)
    ensures Places(s, p)
  {
    var ds := ZeroPad(NatToString(m), p + 1);
    PointAtShape(ds, p);
    PointAt(ds, p)
  }

  /** A run of digits with a point before its last `p` digits when `p > 0`. */
  function PointAt(ds: string, p: nat): string
    requires |ds| > p
  {
    var k := |ds| - p;
    if p == 0 then ds else ds[..k] + "." + ds[k..]
  }

  lemma PointAtShape(ds: string, p: nat)
    requires AllDigits(ds) && |ds| > p
    ensures var s := PointAt(ds, p);
      |s| > p && IsDigit(s[0]) && IsDigit(s[|s| - 1])
      && Unsigned(s)
      && Places(s, p)
  {
    if p == 0 {
      assert PointAt(ds, p) == ds;
    } else {
      PointAtPointed(ds, p);
    }
  }

  lemma PointAtPointed(ds: string, p: nat)
    requires AllDigits(ds) && |ds| > p > 0
    ensures var s := PointAt(ds, p);
      IsDigit(s[0]) && IsDigit(s[|s| - 1]) && Places(s, p) && Unsigned(s)
  {
    var k := |ds| - p;
    PointedShape(ds[..k], ds[k..]);
  }

  lemma PointedShape(a: string, b: string)
    requires AllDigits(a) && AllDigits(b) && a != [] && b != []
    ensures var s := a + "." + b;
      IsDigit(s[0]) && IsDigit(s[|s| - 1]) && Places(s, |b|) && Unsigned(s)
  {
    var s := a + "." + b;
    assert s[|s| - |b|..] == b;
    forall i | 0 <= i < |s|
      ensures NumericChar(s[i]) && s[i] != '-'
    {
      if i < |a| {
        assert s[i] == a[i];
      } else if i > |a| {
        assert s[i] == b[i - |a| - 1];
      }
    }
  }

  /** `f"{d:.pf}"`: a minus sign whenever `d` is negative (so a small negative
      number prints as `-0.00`), the integer digits, and when `p > 0` a point
      followed by exactly `p` digits. */
  function FormatFixed(d: Decimal, p: nat): (s: string)
    ensures s != [] && (IsDigit(s[0]) || s[0] == '-') && IsDigit(s[|s| - 1])
    ensures (s[0] == '-') == (d.units < 0)
    ensures forall i | 0 <= i < |s| :: NumericChar(s[i])
    ensures Places(s, p)
  {
    FixedText(RoundMagnitude(d, p), p, d.units < 0)
  }

  /** The digits of `m` units of `10^-p`, behind a minus sign when `neg` holds. */
  function FixedText(m: nat, p: nat, neg: bool): (s: string)
    ensures s != [] && (IsDigit(s[0]) || s[0] == '-') && IsDigit(s[|s| - 1])
    ensures (s[0] == '-') == neg
    ensures forall i | 0 <= i < |s| :: NumericChar(s[i])
    ensures Places(s, p)
  {
    var f := FixedDigits(m, p);
    SignShape(f, p, neg);
    Signed(f, neg)
  }

  /** `f` behind a minus sign when `neg` holds. */
  function Signed(f: string, neg: bool): string {
    if neg then "-" + f else f
  }

  lemma SignShape(f: string, p: nat, neg: bool)
    requires |f| > p && IsDigit(f[0]) && IsDigit(f[|f| - 1])
    requires Unsigned(f)
    requires Places(f, p)
    ensures var s := Signed(f, neg);
      && s != [] && (IsDigit(s[0]) || s[0] == '-') && IsDigit(s[|s| - 1])
      && (s[0] == '-') == neg
      && (forall i | 0 <= i < |s| :: NumericChar(s[i]))
      && Places(s, p)
  {
    if neg {
      MinusShape(f, p);
    }
  }

  /** A minus sign in front of the digits of a fixed-point rendering. */
  lemma MinusShape(f: string, p: nat)
    requires |f| > p && IsDigit(f[0]) && IsDigit(f[|f| - 1])
    requires Unsigned(f)
    requires Places(f, p)
    ensures var s := "-" + f;
      && s[0] == '-' && IsDigit(s[|s| - 1])
      && (forall i | 0 <= i < |s| :: NumericChar(s[i]))
      && Places(s, p)
  {
    var s := "-" + f;
    assert s[|s| - p..] == f[|f| - p..];
    assert forall i | 1 <= i < |s| :: s[i] == f[i - 1];
  }

  /** `split_numeric(val, precision)`: the characters of `f"{val:.pf}"`, one token each. */
  function SplitNumeric(v: Decimal, p: nat): (r: seq<string>)
    ensures |r| == |FormatFixed(v, p)|
    ensures forall i | 0 <= i < |r| :: r[i] == [FormatFixed(v, p)[i]]
    ensures Concat(r) == FormatFixed(v, p)
  {
    ConcatChars(FormatFixed(v, p));
    Chars(FormatFixed(v, p))
  }

  /** `v` with trailing zero fraction digits removed. */
  function Normalize(d: Decimal): (r: Decimal)
    ensures SameValue(r, d)
    ensures r.scale == 0 || r.units % 10 != 0
    decreases d.scale
  {
    if d.scale > 0 && d.units % 10 == 0 then
      var e := Decimal(d.units / 10, d.scale - 1);
      var r := Normalize(e);
      DropZero(d);
      SameValueTrans(r, e, d);
      r
    else d
  }

  /** Dropping a trailing zero fraction digit keeps the value. */
  lemma DropZero(d: Decimal)
    requires d.scale > 0 && d.units % 10 == 0
    ensures SameValue(Decimal(d.units / 10, d.scale - 1), d)
  {
    assert Pow10(d.scale) == 10 * Pow10(d.scale - 1);
    assert d.units == (d.units / 10) * 10;
  }

  lemma SameValueTrans(a: Decimal, b: Decimal, c: Decimal)
    requires SameValue(a, b) && SameValue(b, c)
    ensures SameValue(a, c)
  {
    var A, B, C := Pow10(a.scale), Pow10(b.scale), Pow10(c.scale);
    CrossTrans(a.units, b.units, c.units, A, B, C);
  }

  /** `x/A == y/B` and `y/B == z/C` give `x/A == z/C`, over whole numbers. */
  lemma CrossTrans(x: int, y: int, z: int, A: nat, B: nat, C: nat)
    requires B > 0 && x * B == y * A && y * C == z * B
    ensures x * C == z * A
  {
    assert x * C * B == z * A * B by {
      assert x * C * B == x * B * C;
      assert x * B * C == y * A * C;
      assert y * A * C == y * C * A;
      assert y * C * A == z * B * A;
    }
    MulCancel(B, x * C, z * A);
  }

  /** `str(v)`: the shortest fixed-point spelling with at least one fraction digit
      (`12.5`, `90.0`). */
  function Repr(d: Decimal): (s: string)
    ensures s != [] && (IsDigit(s[0]) || s[0] == '-') && IsDigit(s[|s| - 1])
    ensures forall i | 0 <= i < |s| :: NumericChar(s[i])
  {
    var n := Normalize(d);
    if n.scale == 0 then FormatFixed(n, 1) else FormatFixed(n, n.scale)
  }

  // ---------------------------------------------------------------- parsing

  /** The index of the first occurrence of `c` in `s`, or `|s|`. */
  function IndexOf(s: string, c: char): (k: nat)
    ensures k <= |s|
    ensures forall i | 0 <= i < k :: s[i] != c
    ensures k < |s| ==> s[k] == c
  {
    if s == [] || s[0] == c then 0 else 1 + IndexOf(s[1..], c)
  }

  /** The index of the first `e` or `E` of `s`, or `|s|`. */
  function IndexOfExp(s: string): (k: nat)
    ensures k <= |s|
    ensures forall i | 0 <= i < k :: s[i] != 'e' && s[i] != 'E'
    ensures k < |s| ==> s[k] == 'e' || s[k] == 'E'
  {
    if s == [] || s[0] == 'e' || s[0] == 'E' then 0 else 1 + IndexOfExp(s[1..])
  }

  /** Digits with at most one point and at least one digit: `12`, `12.5`, `.5`, `12.`. */
  function ParseMantissa(m: string): Option<Decimal> {
    var k := IndexOf(m, '.');
    var ip := m[..k];
    var fp := if k < |m| then m[k + 1..] else "";
    if AllDigits(ip) && AllDigits(fp) && |ip| + |fp| > 0 then Some(Decimal(DigitsValue(ip + fp), |fp|))
    else None
  }

  /** The text of `int(s)` after stripping: an optional sign and at least one digit. */
  function ParseSignedDigits(t: string): Option<int> {
    if t != [] && (t[0] == '-' || t[0] == '+') then
      var u := t[1..];
      if u != [] && AllDigits(u) then
        var v: int := DigitsValue(u);
        Some(if t[0] == '-' then -v else v)
      else None
    else if t != [] && AllDigits(t) then Some(DigitsValue(t))
    else None
  }

  /** `d * 10^x` */
  function ScaleBy(d: Decimal, x: int): (r: Decimal) {
    if x < 0 then Decimal(d.units, d.scale + -x)
    else if x <= d.scale then Decimal(d.units, d.scale - x)
    else Decimal(d.units * Pow10(x - d.scale), 0)
  }

  function ParseUnsignedFloat(t: string): Option<Decimal> {
    var e := IndexOfExp(t);
    var mant := ParseMantissa(t[..e]);
    if mant.None? then None
    else if e == |t| then mant
    else match ParseSignedDigits(t[e + 1..]) {
      case None => None
      case Some(x) => Some(ScaleBy(mant.value, x))
    }
  }

  /** `float(s)`: surrounding whitespace is ignored, then an optional sign, a
      mantissa and an optional exponent; anything else is a `ValueError`
      (`None`). */
  function ParseFloat(s: string): Option<Decimal> {
    ParseSignedFloat(Strip(s))
  }

  function ParseSignedFloat(t: string): Option<Decimal> {
    if t != [] && (t[0] == '-' || t[0] == '+') then
      match ParseUnsignedFloat(t[1..]) {
        case None => None
        case Some(v) => Some(if t[0] == '-' then Negate(v) else v)
      }
    else ParseUnsignedFloat(t)
  }

  /** `int(s)`: surrounding whitespace is ignored, then an optional sign and at
      least one digit; anything else is a `ValueError` (`None`). */
  function ParseInt(s: string): Option<int> {
    ParseSignedDigits(Strip(s))
  }

  /** A blank string is neither a float nor an int. */
  lemma BlankNotANumber(s: string)
    requires Strip(s) == []
    ensures ParseFloat(s).None? && ParseInt(s).None?
  {
  }

  // ---------------------------------------------------------------- round trips

  /** `int(str(n)) == n` */
  lemma ParseIntOfString(n: int)
    ensures ParseInt(IntToString(n)) == Some(n)
  {
    StripUnchanged(IntToString(n));
    SignedDigitsOfString(n);
  }

  lemma SignedDigitsOfString(n: int)
    ensures ParseSignedDigits(IntToString(n)) == Some(n)
  {
    var s := IntToString(n);
    if n < 0 {
      var u := NatToString(-n);
      assert s == "-" + u && s[1..] == u;
      var v: int := DigitsValue(u);
      assert ParseSignedDigits(s) == Some(-v);
    } else {
      assert s == NatToString(n);
      assert s[0] != '-' && s[0] != '+';
    }
  }

  /** Reading back `f"{d:.pf}"` with `float` gives `d` rounded to `p` places, at
      scale `p`. */
  lemma ParseFormatFixed(d: Decimal, p: nat)
    ensures ParseFloat(FormatFixed(d, p)) == Some(Decimal(Rescale(d, p), p))
  {
    var m := RoundMagnitude(d, p);
    var f := FixedDigits(m, p);
    var s := FormatFixed(d, p);
    UnsignedOfFixed(m, p);
    FormatFixedStripped(d, p);
    assert ParseFloat(s) == ParseSignedFloat(s);
    if d.units < 0 {
      assert s == "-" + f;
      ParseFloatNegative(f, Decimal(m, p));
      assert Negate(Decimal(m, p)) == Decimal(Rescale(d, p), p);
    } else {
      assert s == f;
      ParseFloatUnsigned(f);
    }
  }

  lemma ParseFloatUnsigned(f: string)
    requires f != [] && IsDigit(f[0])
    ensures ParseSignedFloat(f) == ParseUnsignedFloat(f)
  {
  }

  lemma FormatFixedStripped(d: Decimal, p: nat)
    ensures Strip(FormatFixed(d, p)) == FormatFixed(d, p)
  {
    StripUnchanged(FormatFixed(d, p));
  }

  lemma ParseFloatNegative(f: string, v: Decimal)
    requires ParseUnsignedFloat(f) == Some(v)
    ensures ParseSignedFloat("-" + f) == Some(Negate(v))
  {
    assert ("-" + f)[1..] == f;
  }

  lemma UnsignedOfFixed(m: nat, p: nat)
    ensures ParseUnsignedFloat(FixedDigits(m, p)) == Some(Decimal(m, p))
  {
    var ds := ZeroPad(NatToString(m), p + 1);
    UnsignedOfPointed(ds, p);
  }

  /** Reading a run of digits with a point before its last `p` digits. */
  lemma UnsignedOfPointed(ds: string, p: nat)
    requires AllDigits(ds) && |ds| > p
    ensures ParseUnsignedFloat(PointAt(ds, p)) == Some(Decimal(DigitsValue(ds), p))
  {
    if p == 0 {
      assert PointAt(ds, p) == ds;
      UnsignedPlain(ds);
    } else {
      UnsignedPointAt(ds, p);
    }
  }

  lemma UnsignedPointAt(ds: string, p: nat)
    requires AllDigits(ds) && |ds| > p > 0
    ensures ParseUnsignedFloat(PointAt(ds, p)) == Some(Decimal(DigitsValue(ds), p))
  {
    var k := |ds| - p;
    var a, c := ds[..k], ds[k..];
    Seqs.TakeDrop(ds, k);
    UnsignedPointed(a, c);
  }

  /** A run of digits reads as a whole number of units. */
  lemma UnsignedPlain(ds: string)
    requires AllDigits(ds) && ds != []
    ensures ParseUnsignedFloat(ds) == Some(Decimal(DigitsValue(ds), 0))
  {
    IndexOfExpNone(ds);
    NoExponent(ds);
    MantissaPlain(ds);
  }

  /** Digits, a point and digits read as a number with that many decimals. */
  lemma UnsignedPointed(a: string, c: string)
    requires AllDigits(a) && AllDigits(c) && a != []
    ensures ParseUnsignedFloat(a + "." + c) == Some(Decimal(DigitsValue(a + c), |c|))
  {
    var f := a + "." + c;
    assert forall i | 0 <= i < |f| :: NumericChar(f[i]) by {
      forall i | 0 <= i < |f| ensures NumericChar(f[i]) {
        if i < |a| { assert f[i] == a[i]; }
        else if i > |a| { assert f[i] == c[i - |a| - 1]; }
      }
    }
    IndexOfExpNone(f);
    NoExponent(f);
    MantissaPointed(a, c);
  }

  /** Without an exponent the number is its mantissa. */
  lemma NoExponent(t: string)
    requires IndexOfExp(t) == |t|
    ensures ParseUnsignedFloat(t) == ParseMantissa(t)
  {
    assert t[..|t|] == t;
  }

  lemma MantissaPlain(ds: string)
    requires AllDigits(ds) && ds != []
    ensures ParseMantissa(ds) == Some(Decimal(DigitsValue(ds), 0))
  {
    IndexOfNone(ds, '.');
    assert ds[..|ds|] + "" == ds;
  }

  lemma MantissaPointed(a: string, c: string)
    requires AllDigits(a) && AllDigits(c) && a != []
    ensures ParseMantissa(a + "." + c) == Some(Decimal(DigitsValue(a + c), |c|))
  {
    var b := a + "." + c;
    assert IndexOf(b, '.') == |a| by {
      IndexOfNone(a, '.');
      IndexOfFirst(a, "." + c, '.');
      assert b == a + ("." + c);
    }
    assert b[..|a|] == a;
    assert b[|a| + 1..] == c;
  }

  lemma IndexOfExpNone(s: string)
    requires forall i | 0 <= i < |s| :: NumericChar(s[i])
    ensures IndexOfExp(s) == |s|
  {
  }

  lemma IndexOfNone(s: string, c: char)
    requires forall i | 0 <= i < |s| :: s[i] != c
    ensures IndexOf(s, c) == |s|
  {
  }

  lemma {:induction false} IndexOfFirst(a: string, b: string, c: char)
    requires forall i | 0 <= i < |a| :: a[i] != c
    requires b != [] && b[0] == c
    ensures IndexOf(a + b, c) == |a|
  {
    if a != [] {
      assert (a + b)[1..] == a[1..] + b;
      IndexOfFirst(a[1..], b, c);
    }
  }

  /** Reading back `str(v)` with `float` gives a decimal of the same value. */
  lemma ParseRepr(d: Decimal)
    ensures ParseFloat(Repr(d)).Some? && SameValue(ParseFloat(Repr(d)).value, d)
  {
    var n := Normalize(d);
    if n.scale == 0 {
      ParseReprWhole(d, n);
    } else {
      ParseReprFraction(d, n);
    }
  }

  /** A number with fraction digits is printed with exactly those digits. */
  lemma ParseReprFraction(d: Decimal, n: Decimal)
    requires n == Normalize(d) && n.scale > 0
    ensures ParseFloat(FormatFixed(n, n.scale)) == Some(n)
  {
    ParseFormatFixed(n, n.scale);
    RescaleExact(n, n.scale);
  }

  /** A whole number is printed with one zero decimal, which reads back as it. */
  lemma ParseReprWhole(d: Decimal, n: Decimal)
    requires n == Normalize(d) && n.scale == 0
    ensures ParseFloat(FormatFixed(n, 1)).Some? && SameValue(ParseFloat(FormatFixed(n, 1)).value, d)
  {
    ParseFormatFixed(n, 1);
    RescaleExact(n, 1);
    var r := Decimal(Rescale(n, 1), 1);
    assert SameValue(r, n);
    SameValueTrans(r, n, d);
  }
}
