/**
 Positional numerals: `Number.prototype.toString(radix)` for the two radices
 the transport uses (10 for automatic channel ids, 16 for `\u` escapes), and
 the digit-reading inverse that a JSON decoder applies to `\uXXXX`.
 */
module Numerals {
  import opened Utf16

  /** `0`-`9` and `a`-`f`, the digits `toString(16)` writes. */
  predicate IsLowerHexDigit(u: CodeUnit) {
    (0x30 <= u <= 0x39) || (0x61 <= u <= 0x66)
  }

  /** Any hexadecimal digit a JSON `\u` escape may carry (section 7 of RFC 8259 allows both cases). */
  predicate IsHexDigit(u: CodeUnit) {
    IsLowerHexDigit(u) || (0x41 <= u <= 0x46)
  }

  predicate IsDecimalDigit(u: CodeUnit) {
    0x30 <= u <= 0x39
  }

  /** The lower-case digit for `d`. */
  function DigitUnit(d: nat): (u: CodeUnit)
    requires d < 16
    ensures IsLowerHexDigit(u)
    ensures d < 10 ==> IsDecimalDigit(u)
  {
    if d < 10 then 0x30 + d else 0x61 + (d - 10)
  }

  /** The value of a digit unit; 0 for a unit that is no digit. */
  function DigitValue(u: CodeUnit): nat {
    if 0x30 <= u <= 0x39 then u - 0x30
    else if 0x61 <= u <= 0x66 then u - 0x61 + 10
    else if 0x41 <= u <= 0x46 then u - 0x41 + 10
    else 0
  }

  lemma DigitRoundTrip(d: nat)
    requires d < 16
    ensures DigitValue(DigitUnit(d)) == d
  {
  }

  /** `n.toString(base)`: the shortest digit string, `"0"` for zero. */
  function ToBase(n: nat, base: nat): (t: Text)
    requires 2 <= base <= 16
    ensures |t| >= 1
    ensures forall i :: 0 <= i < |t| ==> IsLowerHexDigit(t[i])
    ensures base == 10 ==> forall i :: 0 <= i < |t| ==> IsDecimalDigit(t[i])
    ensures forall i :: 0 <= i < |t| ==> DigitValue(t[i]) < base
    ensures t[0] == DigitUnit(0) <==> n == 0
    ensures n == 0 ==> t == [DigitUnit(0)]
    decreases n
  {
    if n < base then
      DigitRoundTrip(n);
      [DigitUnit(n)]
    else
      DivBounds(n, base);
      DigitRoundTrip(n % base);
      ToBase(n / base, base) + [DigitUnit(n % base)]
  }

  /** Multiplying by a positive number never shrinks. */
  lemma {:induction false} MulGrows(x: nat, k: nat)
    requires k >= 1
    ensures x * k >= x
    decreases k
  {
    if k > 1 {
      MulGrows(x, k - 1);
      assert x * k == x * (k - 1) + x;
    }
  }

  /** Dividing a number of at least two digits leaves a smaller, positive quotient. */
  lemma DivBounds(n: nat, base: nat)
    requires 2 <= base <= n
    ensures 1 <= n / base < n && n % base < base
  {
    var q, r := n / base, n % base;
    assert n == q * base + r;
    if q > 0 {
      MulGrows(q, base);
      assert q * base == q * (base - 1) + q;
      MulGrows(q, base - 1);
    }
  }

  /** `t` is written the way `toString` writes numbers: digits below `base`, no leading zero unless it is `"0"`. */
  predicate Canonical(t: Text, base: nat) {
    && |t| >= 1
    && (forall i :: 0 <= i < |t| ==> IsLowerHexDigit(t[i]) && DigitValue(t[i]) < base)
    && (|t| == 1 || t[0] != DigitUnit(0))
  }

  /** Reads a digit string most significant digit first. */
  function ValueIn(t: Text, base: nat): nat
    decreases |t|
  {
    if |t| == 0 then 0 else ValueIn(t[..|t| - 1], base) * base + DigitValue(t[|t| - 1])
  }

  /** Appending a digit multiplies by the base and adds the digit. */
  lemma AppendDigit(t: Text, d: CodeUnit, base: nat)
    ensures ValueIn(t + [d], base) == ValueIn(t, base) * base + DigitValue(d)
  {
    assert (t + [d])[..|t|] == t;
  }

  lemma DivMod(n: nat, base: nat)
    requires 2 <= base
    ensures (n / base) * base + n % base == n
  {
  }

  /** One digit more: if the leading digits read back, so does the whole numeral. */
  lemma ToBaseStep(n: nat, base: nat)
    requires 2 <= base <= 16
    requires n >= base
    requires ValueIn(ToBase(n / base, base), base) == n / base
    ensures ValueIn(ToBase(n, base), base) == n
  {
    var q, r := n / base, n % base;
    var t := ToBase(q, base);
    assert ToBase(n, base) == t + [DigitUnit(r)];
    DigitRoundTrip(r);
    AppendDigit(t, DigitUnit(r), base);
    DivMod(n, base);
  }

  /** Reading back what `toString(base)` wrote gives the number. */
  lemma {:induction false} ValueOfToBase(n: nat, base: nat)
    requires 2 <= base <= 16
    ensures ValueIn(ToBase(n, base), base) == n
    decreases n
  {
    if n < base {
      DigitRoundTrip(n);
      assert ToBase(n, base) == [DigitUnit(n)];
      assert [DigitUnit(n)][..0] == [];
    } else {
      ValueOfToBase(n / base, base);
      ToBaseStep(n, base);
    }
  }

  /** A numeral with a non-zero leading digit is worth at least that digit. */
  lemma {:induction false} LeadingDigitValue(t: Text, base: nat)
    requires |t| >= 1 && base >= 1
    ensures ValueIn(t, base) >= DigitValue(t[0])
    decreases |t|
  {
    if |t| > 1 {
      var p := t[..|t| - 1];
      assert p[0] == t[0];
      LeadingDigitValue(p, base);
      MulGrows(ValueIn(p, base), base);
    } else {
      assert t[..0] == [];
    }
  }

  /** A lower-case digit is the digit of its own value. */
  lemma DigitUnitValue(u: CodeUnit)
    requires IsLowerHexDigit(u)
    ensures DigitValue(u) < 16 && DigitUnit(DigitValue(u)) == u
  {
  }

  /**
   `toString(base)` writes the only canonical numeral of `n`: any numeral
   without a leading zero whose value is `n` is exactly `ToBase(n, base)`.
   */
  lemma {:induction false} CanonicalUnique(t: Text, n: nat, base: nat)
    requires 2 <= base <= 16
    requires Canonical(t, base) && ValueIn(t, base) == n
    ensures t == ToBase(n, base)
    decreases |t|
  {
    var d := t[|t| - 1];
    var p := t[..|t| - 1];
    DigitUnitValue(d);
    assert ValueIn(t, base) == ValueIn(p, base) * base + DigitValue(d);
    if |t| == 1 {
      assert p == [];
      assert n == DigitValue(d) < base;
      assert ToBase(n, base) == [DigitUnit(n)];
      assert t == [d];
    } else {
      assert p[0] == t[0];
      assert Canonical(p, base);
      LeadingDigitValue(p, base);
      assert DigitValue(t[0]) != 0 by {
        DigitUnitValue(t[0]);
      }
      var m := ValueIn(p, base);
      assert n / base == m && n % base == DigitValue(d) by {
        DivModUnique(n, base, m, DigitValue(d));
      }
      CanonicalUnique(p, m, base);
      MulGrows(base, m);
      assert n >= base;
      assert ToBase(n, base) == ToBase(m, base) + [DigitUnit(DigitValue(d))];
      assert t == p + [d];
    }
  }

  lemma DivModUnique(n: nat, base: nat, q: nat, r: nat)
    requires base >= 1 && r < base && n == q * base + r
    ensures n / base == q && n % base == r
  {
    var q', r' := n / base, n % base;
    assert n == q' * base + r';
    if q > q' {
      assert q * base == q' * base + (q - q') * base;
      MulGrows(base, q - q');
    } else if q < q' {
      assert q' * base == q * base + (q' - q) * base;
      MulGrows(base, q' - q);
    }
  }

  /** `'' + n`: the decimal rendering used for automatic channel ids. */
  function Decimal(n: nat): (t: Text)
    ensures Canonical(t, 10)
    ensures forall i :: 0 <= i < |t| ==> IsDecimalDigit(t[i])
    ensures ValueIn(t, 10) == n
  {
    ValueOfToBase(n, 10);
    ToBase(n, 10)
  }

  /** Any decimal numeral without a leading zero is what `'' + n` writes for its value. */
  lemma DecimalCanonical(t: Text)
    requires Canonical(t, 10)
    ensures Decimal(ValueIn(t, 10)) == t
  {
    CanonicalUnique(t, ValueIn(t, 10), 10);
  }

  /** Distinct numbers render as distinct decimal strings. */
  lemma DecimalInjective(m: nat, n: nat)
    requires Decimal(m) == Decimal(n)
    ensures m == n
  {
    ValueOfToBase(m, 10);
    ValueOfToBase(n, 10);
  }

  function Pow16(k: nat): nat {
    if k == 0 then 1 else 16 * Pow16(k - 1)
  }

  /** A number below 16^k needs at most k hexadecimal digits. */
  lemma {:induction false} HexLength(n: nat, k: nat)
    requires 1 <= k
    requires n < Pow16(k)
    ensures |ToBase(n, 16)| <= k
    decreases k
  {
    if n >= 16 {
      assert Pow16(1) == 16;
      assert k >= 2;
      assert n / 16 < Pow16(k - 1);
      HexLength(n / 16, k - 1);
    }
  }

  function Zeros(k: nat): (t: Text)
    ensures |t| == k
    ensures forall i :: 0 <= i < k ==> t[i] == 0x30
  {
    seq(k, i requires 0 <= i < k => 0x30)
  }

  /** Leading zeros do not change a numeral's value. */
  lemma {:induction false} LeadingZeros(k: nat, t: Text, base: nat)
    ensures ValueIn(Zeros(k) + t, base) == ValueIn(t, base)
    decreases |t|
  {
    if |t| == 0 {
      assert Zeros(k) + t == Zeros(k);
      ZerosValue(k, base);
    } else {
      var s := Zeros(k) + t;
      assert s[..|s| - 1] == Zeros(k) + t[..|t| - 1];
      LeadingZeros(k, t[..|t| - 1], base);
    }
  }

  lemma {:induction false} ZerosValue(k: nat, base: nat)
    ensures ValueIn(Zeros(k), base) == 0
    decreases k
  {
    if k > 0 {
      assert Zeros(k)[..k - 1] == Zeros(k - 1);
      ZerosValue(k - 1, base);
    }
  }

  /** `('0000' + u.toString(16)).slice(-4)`: always four lower-case digits whose value is `u`. */
  function Hex4(u: CodeUnit): (h: Text)
    ensures |h| == 4
    ensures forall i :: 0 <= i < 4 ==> IsLowerHexDigit(h[i])
    ensures ValueIn(h, 16) == u
  {
    var digits := ToBase(u, 16);
    var padded := Lit("0000") + digits;
    HexLength(u, 4);
    assert Lit("0000") == Zeros(4);
    assert padded[|padded| - 4..] == Zeros(4 - |digits|) + digits;
    LeadingZeros(4 - |digits|, digits, 16);
    ValueOfToBase(u, 16);
    padded[|padded| - 4..]
  }
}
