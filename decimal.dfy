/** The numeric side of one scanned pair: `Double(value)` on a run of digits
    and dots, then `Int(doubleVal)` for a whole-unit field and
    `Int((doubleVal - Double(Int(doubleVal))) * 1000000000)` for nanoseconds.
    The value is kept as an exact decimal (mantissa / 10^scale) instead of a
    binary double. */
module DecimalLiteral {
  import opened DurationComponents

  predicate IsDigit(c: char) { '0' <= c <= '9' }

  /** The scanner's number set: decimal digits and the dot. */
  predicate IsNumberChar(c: char) { IsDigit(c) || c == '.' }

  /** A run of characters the scanner took from its number set. */
  type NumberRun = s: seq<char> | forall i :: 0 <= i < |s| ==> IsNumberChar(s[i])

  predicate AllDigits(s: seq<char>) { forall i :: 0 <= i < |s| ==> IsDigit(s[i]) }

  predicate HasDigit(s: seq<char>) { exists i :: 0 <= i < |s| && IsDigit(s[i]) }

  function DotCount(s: seq<char>): nat {
    if s == [] then 0 else (if s[0] == '.' then 1 else 0) + DotCount(s[1..])
  }

  function Pow10(n: nat): (p: nat)
    ensures p >= 1
  {
    if n == 0 then 1 else 10 * Pow10(n - 1)
  }

  /** The value of a string of decimal digits, most significant first. */
  function DigitsValue(s: seq<char>): (v: nat)
    requires AllDigits(s)
    ensures v < Pow10(|s|)
  {
    if s == [] then 0 else DigitsValue(s[..|s| - 1]) * 10 + (s[|s| - 1] as int - '0' as int)
  }

  /** Position of the first dot, or |v| when there is none. */
  function DotIndex(v: seq<char>): (k: nat)
    ensures k <= |v|
    ensures forall i :: 0 <= i < k ==> v[i] != '.'
    ensures k < |v| ==> v[k] == '.'
  {
    if v == [] || v[0] == '.' then 0 else 1 + DotIndex(v[1..])
  }

  /** The digits before the dot. */
  function WholeDigits(v: seq<char>): seq<char> {
    v[..DotIndex(v)]
  }

  /** Everything after the first dot (empty when there is no dot). */
  function FractionDigits(v: seq<char>): seq<char> {
    if DotIndex(v) < |v| then v[DotIndex(v) + 1..] else []
  }

  /** An exact decimal number: mantissa / 10^scale. */
  datatype Decimal = Decimal(mantissa: nat, scale: nat)

  /** The shape `Double(value)` accepts for a run of digits and dots: no
      second dot, and at least one digit ("5", "5.", ".5", but not "." or
      "1..5"). */
  predicate IsDecimal(v: seq<char>) {
    AllDigits(FractionDigits(v)) && WholeDigits(v) + FractionDigits(v) != []
  }

  /** `Double(value)` for a run of digits and dots, as an exact decimal. It
      succeeds exactly when the run has a digit and at most one dot. */
  function ParseDecimal(v: NumberRun): (r: Option<Decimal>)
    ensures r.Some? <==> HasDigit(v) && DotCount(v) <= 1
  {
    IsDecimalIff(v);
    if !IsDecimal(v) then None
    else
      var whole, fraction := WholeDigits(v), FractionDigits(v);
      assert AllDigits(whole);
      Some(Decimal(DigitsValue(whole + fraction), |fraction|))
  }

  /** Truncating division of naturals. */
  function Quot(n: nat, p: nat): nat
    requires p > 0
  {
    n / p
  }

  function Rem(n: nat, p: nat): (r: nat)
    requires p > 0
    ensures r < p
  {
    n % p
  }

  /** `Int(doubleVal)`: truncation of a non-negative value. */
  function WholePart(d: Decimal): (w: nat)
    ensures w * Pow10(d.scale) <= d.mantissa < (w + 1) * Pow10(d.scale)
  {
    var p := Pow10(d.scale);
    var w := Quot(d.mantissa, p);
    assert d.mantissa == w * p + d.mantissa % p;
    w
  }

  /** `Int((doubleVal - Double(Int(doubleVal))) * 1000000000)`: the fractional
      part scaled to nanoseconds and truncated. */
  function Nanoseconds(d: Decimal): (n: nat)
    ensures n < NanosPerSecond
  {
    var p := Pow10(d.scale);
    var f := Rem(d.mantissa, p);
    MulLess(f, p, NanosPerSecond);
    DivBelow(f * NanosPerSecond, p, NanosPerSecond);
    Quot(f * NanosPerSecond, p)
  }

  /** n zero digits. */
  function Zeros(n: nat): (z: seq<char>)
    ensures |z| == n && AllDigits(z)
  {
    if n == 0 then [] else Zeros(n - 1) + ['0']
  }

  /** The first k digits of f, padded on the right with zeros. */
  function FirstDigits(f: seq<char>, k: nat): (r: seq<char>)
    requires AllDigits(f)
    ensures |r| == k && AllDigits(r)
  {
    if |f| >= k then f[..k] else f + Zeros(k - |f|)
  }

  // ---------------------------------------------------------------- lemmas

  lemma {:induction false} DotCountAppend(a: seq<char>, b: seq<char>)
    ensures DotCount(a + b) == DotCount(a) + DotCount(b)
  {
    if a == [] {
      assert a + b == b;
    } else {
      assert (a + b)[1..] == a[1..] + b;
      DotCountAppend(a[1..], b);
    }
  }

  lemma {:induction false} DotFreeCount(s: seq<char>)
    requires forall i :: 0 <= i < |s| ==> s[i] != '.'
    ensures DotCount(s) == 0
  {
    if s != [] {
      DotFreeCount(s[1..]);
    }
  }

  lemma {:induction false} DotCountPositive(s: seq<char>, k: nat)
    requires k < |s| && s[k] == '.'
    ensures DotCount(s) >= 1
  {
    if k > 0 {
      DotCountPositive(s[1..], k - 1);
    }
  }

  /** `Double(value)` succeeds exactly when the run has a digit and at most
      one dot. */
  lemma IsDecimalIff(v: NumberRun)
    ensures IsDecimal(v) <==> HasDigit(v) && DotCount(v) <= 1
  {
    if DotIndex(v) < |v| {
      IsDecimalWithDot(v);
    } else {
      IsDecimalWithoutDot(v);
    }
  }

  lemma IsDecimalWithoutDot(v: NumberRun)
    requires DotIndex(v) == |v|
    ensures IsDecimal(v) <==> HasDigit(v) && DotCount(v) <= 1
  {
    var whole := WholeDigits(v);
    DotFreeCount(whole);
    assert whole == v;
    assert FractionDigits(v) == [];
    if v != [] { assert IsDigit(v[0]); }
  }

  lemma IsDecimalWithDot(v: NumberRun)
    requires DotIndex(v) < |v|
    ensures IsDecimal(v) <==> HasDigit(v) && DotCount(v) <= 1
  {
    DotsAroundFirst(v);
    FractionIsNumberRun(v);
    DigitsIffNoDot(FractionDigits(v));
    HasDigitAroundDot(v);
  }

  lemma FractionIsNumberRun(v: NumberRun)
    requires DotIndex(v) < |v|
    ensures forall i :: 0 <= i < |FractionDigits(v)| ==> IsNumberChar(FractionDigits(v)[i])
  {
    var k := DotIndex(v);
    assert forall i :: 0 <= i < |FractionDigits(v)| ==> FractionDigits(v)[i] == v[k + 1 + i];
  }

  /** A run of number characters is all digits exactly when it has no dot. */
  lemma DigitsIffNoDot(f: seq<char>)
    requires forall i :: 0 <= i < |f| ==> IsNumberChar(f[i])
    ensures AllDigits(f) <==> DotCount(f) == 0
  {
    if AllDigits(f) {
      DotFreeCount(f);
    } else {
      var j :| 0 <= j < |f| && !IsDigit(f[j]);
      DotCountPositive(f, j);
    }
  }

  lemma HasDigitAroundDot(v: NumberRun)
    requires DotIndex(v) < |v|
    ensures HasDigit(v) ==> WholeDigits(v) + FractionDigits(v) != []
    ensures AllDigits(FractionDigits(v)) && WholeDigits(v) + FractionDigits(v) != [] ==> HasDigit(v)
  {
    if HasDigit(v) {
      DigitOffDot(v);
    }
    if AllDigits(FractionDigits(v)) && WholeDigits(v) + FractionDigits(v) != [] {
      DigitBesideDot(v);
    }
  }

  lemma DigitOffDot(v: NumberRun)
    requires DotIndex(v) < |v| && HasDigit(v)
    ensures WholeDigits(v) + FractionDigits(v) != []
  {
    var k := DotIndex(v);
    var i :| 0 <= i < |v| && IsDigit(v[i]);
    assert i != k;
    assert |WholeDigits(v)| == k && |FractionDigits(v)| == |v| - k - 1;
  }

  lemma DigitBesideDot(v: NumberRun)
    requires DotIndex(v) < |v|
    requires AllDigits(FractionDigits(v)) && WholeDigits(v) + FractionDigits(v) != []
    ensures HasDigit(v)
  {
    var k := DotIndex(v);
    if WholeDigits(v) != [] {
      assert v[0] == WholeDigits(v)[0];
      assert IsDigit(v[0]);
    } else {
      assert v[k + 1] == FractionDigits(v)[0];
      assert IsDigit(v[k + 1]);
    }
  }

  /** With a dot at DotIndex(v), the dots of v are that one and those of the
      fraction. */
  lemma DotsAroundFirst(v: seq<char>)
    requires DotIndex(v) < |v|
    ensures DotCount(v) == 1 + DotCount(FractionDigits(v))
  {
    var k := DotIndex(v);
    DotFreeCount(v[..k]);
    DotCountAtDot(v, k);
  }

  lemma DotCountAtDot(v: seq<char>, k: nat)
    requires k < |v| && v[k] == '.' && DotCount(v[..k]) == 0
    ensures DotCount(v) == 1 + DotCount(v[k + 1..])
  {
    assert v == v[..k] + v[k..];
    DotCountAppend(v[..k], v[k..]);
    assert v[k..][1..] == v[k + 1..];
  }

  lemma {:induction false} DotIndexOfDigits(w: seq<char>)
    requires AllDigits(w)
    ensures DotIndex(w) == |w|
  {
    if w != [] {
      DotIndexOfDigits(w[1..]);
    }
  }

  lemma {:induction false} DotIndexAfterDigits(w: seq<char>, f: seq<char>)
    requires AllDigits(w)
    ensures DotIndex(w + ['.'] + f) == |w|
  {
    if w != [] {
      assert (w + ['.'] + f)[1..] == w[1..] + ['.'] + f;
      DotIndexAfterDigits(w[1..], f);
    }
  }

  /** A run of digits alone is an integer: mantissa its value, scale 0. */
  lemma ParseInteger(w: NumberRun)
    requires w != [] && AllDigits(w)
    ensures ParseDecimal(w) == Some(Decimal(DigitsValue(w), 0))
  {
    DotIndexOfDigits(w);
    assert WholeDigits(w) == w;
    assert WholeDigits(w) + FractionDigits(w) == w;
  }

  /** Digits, a dot and digits: the mantissa reads all the digits with the
      dot removed, and the scale counts those after the dot. */
  lemma ParseWithFraction(w: seq<char>, f: seq<char>)
    requires AllDigits(w) && AllDigits(f) && w + f != []
    ensures var v := w + ['.'] + f;
      (forall i :: 0 <= i < |v| ==> IsNumberChar(v[i])) &&
      ParseDecimal(v) == Some(Decimal(DigitsValue(w + f), |f|))
  {
    var v := w + ['.'] + f;
    assert forall i :: 0 <= i < |v| ==> IsNumberChar(v[i]) by {
      forall i | 0 <= i < |v| ensures IsNumberChar(v[i]) {
        if i < |w| { assert v[i] == w[i]; }
        else if i > |w| { assert v[i] == f[i - |w| - 1]; }
      }
    }
    DotIndexAfterDigits(w, f);
    assert WholeDigits(v) == w;
    assert FractionDigits(v) == f;
  }

  lemma {:induction false} Pow10Add(a: nat, b: nat)
    ensures Pow10(a + b) == Pow10(a) * Pow10(b)
  {
    if b > 0 {
      Pow10Add(a, b - 1);
      assert Pow10(a + b) == 10 * Pow10(a + b - 1);
    }
  }

  lemma {:induction false} DigitsValueAppend(a: seq<char>, b: seq<char>)
    requires AllDigits(a) && AllDigits(b)
    ensures DigitsValue(a + b) == DigitsValue(a) * Pow10(|b|) + DigitsValue(b)
  {
    if b == [] {
      assert a + b == a;
    } else {
      var b' := b[..|b| - 1];
      assert (a + b)[..|a + b| - 1] == a + b';
      DigitsValueAppend(a, b');
      var x := b[|b| - 1] as int - '0' as int;
      assert DigitsValue(a + b) == DigitsValue(a + b') * 10 + x;
      assert DigitsValue(b) == DigitsValue(b') * 10 + x;
      assert Pow10(|b|) == Pow10(|b'|) * 10;
      ShiftDigit(DigitsValue(a), Pow10(|b'|), DigitsValue(b'), x);
    }
  }

  lemma ShiftDigit(a: int, p: int, b: int, x: int)
    ensures (a * p + b) * 10 + x == a * (p * 10) + (b * 10 + x)
  {
  }

  lemma {:induction false} ZerosValue(n: nat)
    ensures DigitsValue(Zeros(n)) == 0
  {
    if n > 0 {
      ZerosValue(n - 1);
      assert Zeros(n)[..n - 1] == Zeros(n - 1);
    }
  }

  /** Division and remainder are determined by q * p + r with 0 <= r < p. */
  lemma DivModOf(q: nat, r: nat, p: nat)
    requires p > 0 && r < p
    ensures Quot(q * p + r, p) == q && Rem(q * p + r, p) == r
  {
    var n: int := q * p + r;
    var k: int := n / p - q;
    assert p * k == r - n % p;
  }

  lemma DivBelow(x: nat, p: nat, n: nat)
    requires p > 0 && x < p * n
    ensures Quot(x, p) < n
  {
    var q := x / p;
    assert p * q <= x;
  }

  lemma MulLess(a: nat, b: nat, n: nat)
    requires a < b && n > 0
    ensures a * n < b * n
  {
  }

  lemma Pow10Nine()
    ensures Pow10(9) == NanosPerSecond
  {
    assert Pow10(3) == 1000;
    assert Pow10(6) == 1000000 by { Pow10Add(3, 3); }
    Pow10Add(6, 3);
  }

  /** Each whole-unit field gets the digits before the dot: `15.5` gives 15. */
  lemma WholePartIsLeadingDigits(v: NumberRun)
    requires ParseDecimal(v).Some?
    ensures AllDigits(WholeDigits(v))
    ensures WholePart(ParseDecimal(v).value) == DigitsValue(WholeDigits(v))
  {
    var whole, fraction := WholeDigits(v), FractionDigits(v);
    DigitsValueAppend(whole, fraction);
    DivModOf(DigitsValue(whole), DigitsValue(fraction), Pow10(|fraction|));
  }

  /** The nanosecond count is the first nine fractional digits read as an
      integer: `.5` gives 500000000, `.001` gives 1000000, and a literal without
      fractional digits gives 0. */
  lemma NanosecondsAreFirstNineDigits(v: NumberRun)
    requires ParseDecimal(v).Some?
    ensures AllDigits(FractionDigits(v))
    ensures Nanoseconds(ParseDecimal(v).value) == DigitsValue(FirstDigits(FractionDigits(v), 9))
  {
    var whole, fraction := WholeDigits(v), FractionDigits(v);
    var p := Pow10(|fraction|);
    DigitsValueAppend(whole, fraction);
    DivModOf(DigitsValue(whole), DigitsValue(fraction), p);
    assert Rem(ParseDecimal(v).value.mantissa, p) == DigitsValue(fraction);
    ScaledFraction(fraction);
  }

  /** Scaling a fraction 0.f by 10^9 and truncating keeps its first nine
      digits. */
  lemma ScaledFraction(f: seq<char>)
    requires AllDigits(f)
    ensures Quot(DigitsValue(f) * NanosPerSecond, Pow10(|f|)) == DigitsValue(FirstDigits(f, 9))
  {
    Pow10Nine();
    ScaledFractionK(f, 9);
  }

  lemma ScaledFractionK(f: seq<char>, k: nat)
    requires AllDigits(f)
    ensures Quot(DigitsValue(f) * Pow10(k), Pow10(|f|)) == DigitsValue(FirstDigits(f, k))
  {
    if |f| >= k {
      ScaledLongFraction(f, k);
    } else {
      ScaledShortFraction(f, k);
    }
  }

  lemma ScaledLongFraction(f: seq<char>, k: nat)
    requires AllDigits(f) && |f| >= k
    ensures Quot(DigitsValue(f) * Pow10(k), Pow10(|f|)) == DigitsValue(FirstDigits(f, k))
  {
    var a, b := f[..k], f[k..];
    SplitDigits(f, k);
    Pow10Sum(|f|, k, |b|);
    assert FirstDigits(f, k) == a;
    LongFraction(DigitsValue(f), DigitsValue(a), DigitsValue(b), Pow10(|b|), Pow10(k), Pow10(|f|));
  }

  lemma SplitDigits(f: seq<char>, k: nat)
    requires AllDigits(f) && k <= |f|
    ensures AllDigits(f[..k]) && AllDigits(f[k..]) && k + |f[k..]| == |f|
    ensures DigitsValue(f) == DigitsValue(f[..k]) * Pow10(|f[k..]|) + DigitsValue(f[k..])
  {
    var a, b := f[..k], f[k..];
    assert f == a + b;
    DigitsValueAppend(a, b);
  }

  lemma Pow10Sum(n: nat, k: nat, m: nat)
    requires n == k + m
    ensures Pow10(n) == Pow10(k) * Pow10(m)
  {
    Pow10Add(k, m);
  }

  lemma ScaledShortFraction(f: seq<char>, k: nat)
    requires AllDigits(f) && |f| < k
    ensures Quot(DigitsValue(f) * Pow10(k), Pow10(|f|)) == DigitsValue(FirstDigits(f, k))
  {
    var n := k - |f|;
    assert DigitsValue(FirstDigits(f, k)) == DigitsValue(f) * Pow10(n) by {
      DigitsValueAppend(f, Zeros(n));
      ZerosValue(n);
    }
    assert Pow10(k) == Pow10(|f|) * Pow10(n) by { Pow10Add(|f|, n); }
    ShortFraction(DigitsValue(f), Pow10(n), Pow10(|f|), Pow10(k));
  }

  lemma LongFraction(m: nat, a: nat, b: nat, pb: nat, pk: nat, p: nat)
    requires b < pb && pk > 0 && m == a * pb + b && p == pk * pb
    ensures Quot(m * pk, p) == a
  {
    assert m * pk == a * p + b * pk;
    MulLess(b, pb, pk);
    DivModOf(a, b * pk, p);
  }

  lemma ShortFraction(x: nat, pn: nat, p: nat, n: nat)
    requires p > 0 && n == p * pn
    ensures Quot(x * n, p) == x * pn
  {
    assert x * n == (x * pn) * p + 0;
    DivModOf(x * pn, 0, p);
  }
}
