/** Positional numerals, most significant digit first, and the bit operations of the wire
    decoder expressed over natural numbers. */
module Numbers {
  import opened Basics

  function Pow(base: nat, e: nat): nat {
    if e == 0 then 1 else base * Pow(base, e - 1)
  }

  lemma {:induction false} PowAdd(base: nat, m: nat, n: nat)
    ensures Pow(base, m + n) == Pow(base, m) * Pow(base, n)
  {
    if m > 0 {
      PowAdd(base, m - 1, n);
      assert Pow(base, m + n) == base * Pow(base, m - 1 + n);
    }
  }

  lemma {:induction false} PowPositive(base: nat, e: nat)
    requires base > 0
    ensures Pow(base, e) > 0
  {
    if e > 0 { PowPositive(base, e - 1); }
  }

  // ----- numerals

  ghost predicate InBase(ds: seq<nat>, base: nat) {
    forall i | 0 <= i < |ds| :: ds[i] < base
  }

  /** The number a digit string denotes. */
  function Value(ds: seq<nat>, base: nat): nat {
    if ds == [] then 0 else Value(ds[..|ds| - 1], base) * base + ds[|ds| - 1]
  }

  /** The shortest digit string of a number; zero is the empty string. */
  function Digits(v: nat, base: nat): (ds: seq<nat>)
    requires base >= 2
    ensures InBase(ds, base)
    ensures ds == [] <==> v == 0
    ensures ds != [] ==> ds[0] != 0
  {
    if v == 0 then [] else (DivSmaller(v, base); Digits(v / base, base) + [v % base])
  }

  lemma DivSmaller(v: nat, base: nat)
    requires v > 0 && base >= 2
    ensures v / base < v
  {
  }

  lemma MulMonotone(x: nat, y: nat, b: nat)
    requires x <= y
    ensures x * b <= y * b
  {
  }

  lemma MulStrict(x: nat, y: nat, b: nat)
    requires x < y
    ensures x * b + b <= y * b
  {
    MulMonotone(x + 1, y, b);
    assert (x + 1) * b == x * b + b;
  }

  lemma DivMod(n: nat, base: nat)
    requires base > 0
    ensures n == n / base * base + n % base && 0 <= n % base < base
  {
  }

  lemma QuotientUnique(q: nat, r: nat, q': nat, r': nat, base: nat)
    requires r < base && r' < base && q * base + r == q' * base + r'
    ensures q == q' && r == r'
  {
    if q < q' {
      MulStrict(q, q', base);
    } else if q' < q {
      MulStrict(q', q, base);
    }
  }

  lemma DivModUnique(q: nat, r: nat, base: nat)
    requires r < base
    ensures (q * base + r) / base == q && (q * base + r) % base == r
  {
    var n := q * base + r;
    DivMod(n, base);
    QuotientUnique(q, r, n / base, n % base, base);
  }

  lemma {:induction false} ValueOfDigits(v: nat, base: nat)
    requires base >= 2
    ensures Value(Digits(v, base), base) == v
  {
    if v > 0 {
      DivSmaller(v, base);
      DivMod(v, base);
      ValueOfDigits(v / base, base);
      ValueSnoc(Digits(v / base, base), v % base, base);
    }
  }

  lemma ValueSnoc(ds: seq<nat>, d: nat, base: nat)
    ensures Value(ds + [d], base) == Value(ds, base) * base + d
  {
    assert (ds + [d])[..|ds|] == ds;
  }

  lemma DigitsSnoc(v: nat, d: nat, base: nat)
    requires base >= 2 && d < base && (v > 0 || d > 0)
    ensures Digits(v * base + d, base) == Digits(v, base) + [d]
  {
    DivModUnique(v, d, base);
    assert v * base + d > 0 by { MulMonotone(0, v, base); if v > 0 { MulMonotone(1, v, base); } }
  }

  /** A numeral without a leading zero is the shortest numeral of its value. */
  lemma {:induction false} DigitsOfValue(ds: seq<nat>, base: nat)
    requires base >= 2 && InBase(ds, base)
    requires ds != [] ==> ds[0] != 0
    ensures Digits(Value(ds, base), base) == ds
  {
    if ds != [] {
      var p, d := ds[..|ds| - 1], ds[|ds| - 1];
      assert ds == p + [d];
      DigitsOfValue(p, base);
      DigitsSnoc(Value(p, base), d, base);
    }
  }

  /** The number of leading zeros. */
  function Leading(ds: seq<nat>): (k: nat)
    ensures k <= |ds|
    ensures forall i | 0 <= i < k :: ds[i] == 0
    ensures k < |ds| ==> ds[k] != 0
  {
    if ds == [] || ds[0] != 0 then 0 else 1 + Leading(ds[1..])
  }

  function Zeros(k: nat): seq<nat> { seq(k, _ => 0) }

  lemma {:induction false} ValueIgnoresLeadingZeros(k: nat, ds: seq<nat>, base: nat)
    ensures Value(Zeros(k) + ds, base) == Value(ds, base)
    decreases |ds|, k
  {
    var s := Zeros(k) + ds;
    if ds != [] {
      assert s[..|s| - 1] == Zeros(k) + ds[..|ds| - 1];
      ValueIgnoresLeadingZeros(k, ds[..|ds| - 1], base);
    } else if k > 0 {
      assert s[..|s| - 1] == Zeros(k - 1) + ds;
      ValueIgnoresLeadingZeros(k - 1, ds, base);
    }
  }

  lemma {:induction false} LeadingUnique(k: nat, ds: seq<nat>)
    requires ds != [] ==> ds[0] != 0
    ensures Leading(Zeros(k) + ds) == k
  {
    var s := Zeros(k) + ds;
    if k == 0 {
      assert s == ds;
    } else {
      assert s[1..] == Zeros(k - 1) + ds;
      LeadingUnique(k - 1, ds);
    }
  }

  /** Change of base that keeps the count of leading zeros. */
  function Convert(ds: seq<nat>, from: nat, to: nat): (r: seq<nat>)
    requires to >= 2
    ensures InBase(r, to)
  {
    Zeros(Leading(ds)) + Digits(Value(ds, from), to)
  }

  /** Converting to another base and back is the identity, so conversion is a bijection
      between the digit strings of the two bases. */
  lemma ConvertInverse(ds: seq<nat>, from: nat, to: nat)
    requires from >= 2 && to >= 2 && InBase(ds, from)
    ensures Convert(Convert(ds, from, to), to, from) == ds
    ensures Leading(Convert(ds, from, to)) == Leading(ds)
    ensures Value(Convert(ds, from, to), to) == Value(ds, from)
  {
    var k := Leading(ds);
    var v := Value(ds, from);
    LeadingUnique(k, Digits(v, to));
    ValueIgnoresLeadingZeros(k, Digits(v, to), to);
    ValueOfDigits(v, to);
    assert ds == Zeros(k) + ds[k..];
    ValueIgnoresLeadingZeros(k, ds[k..], from);
    DigitsOfValue(ds[k..], from);
  }

  // ----- the size of a numeral

  lemma {:induction false} ValueBounds(ds: seq<nat>, base: nat)
    requires base >= 2 && InBase(ds, base) && ds != []
    ensures ds[0] * Pow(base, |ds| - 1) <= Value(ds, base) < (ds[0] + 1) * Pow(base, |ds| - 1)
  {
    if |ds| == 1 {
      assert ds[..0] == [];
    } else {
      var p := ds[..|ds| - 1];
      ValueBounds(p, base);
      BoundStep(ds[0], Pow(base, |p| - 1), Value(p, base), ds[|ds| - 1], base);
    }
  }

  lemma BoundStep(a: nat, q: nat, v: nat, d: nat, base: nat)
    requires a * q <= v < (a + 1) * q && d < base
    ensures a * (base * q) <= v * base + d < (a + 1) * (base * q)
  {
    MulMonotone(a * q, v, base);
    MulMonotone(v + 1, (a + 1) * q, base);
    MulSwap(a, q, base);
    MulSwap(a + 1, q, base);
    assert (v + 1) * base == v * base + base;
  }

  lemma MulSwap(a: nat, q: nat, base: nat)
    ensures a * (base * q) == a * q * base
  {
  }

  lemma {:induction false} DigitCount(v: nat, base: nat, n: nat)
    requires base >= 2 && n > 0
    requires Pow(base, n - 1) <= v < Pow(base, n)
    ensures |Digits(v, base)| == n
  {
    PowPositive(base, n - 1);
    DivMod(v, base);
    DivSmaller(v, base);
    if n == 1 {
      QuotientBounds(v / base, v % base, 0, 1, base);
    } else {
      QuotientBounds(v / base, v % base, Pow(base, n - 2), Pow(base, n - 1), base);
      DigitCount(v / base, base, n - 1);
    }
  }

  lemma QuotientBounds(q: nat, r: nat, lo: nat, hi: nat, base: nat)
    requires r < base && base * lo <= q * base + r < base * hi
    ensures lo <= q < hi
  {
    if q < lo {
      MulStrict(q, lo, base);
    } else if hi <= q {
      MulMonotone(hi, q, base);
    }
  }

  // ----- bits

  function And(a: nat, b: nat): nat {
    if a == 0 || b == 0 then 0 else 2 * And(a / 2, b / 2) + (if a % 2 == 1 && b % 2 == 1 then 1 else 0)
  }

  function Or(a: nat, b: nat): nat
    decreases a + b
  {
    if a == 0 then b else if b == 0 then a
    else 2 * Or(a / 2, b / 2) + (if a % 2 == 1 || b % 2 == 1 then 1 else 0)
  }

  function Shl(a: nat, n: nat): nat { a * Pow(2, n) }

  /** Or-ing a shifted value above the bits already present is addition. */
  lemma {:induction false} OrIsAdd(a: nat, b: nat, n: nat)
    requires a < Pow(2, n)
    ensures Or(a, Shl(b, n)) == a + Shl(b, n)
  {
    if n == 0 {
      assert a == 0 && Shl(b, 0) == b;
    } else {
      var p := Pow(2, n - 1);
      assert Shl(b, n) == 2 * Shl(b, n - 1) by { assert b * (2 * p) == 2 * (b * p); }
      OrIsAdd(a / 2, b, n - 1);
    }
  }

  lemma {:induction false} AndLow(a: nat, n: nat)
    ensures Pow(2, n) > 0 && And(a, Pow(2, n) - 1) == a % Pow(2, n)
  {
    PowPositive(2, n);
    if n > 0 {
      AndLow(a / 2, n - 1);
      ModDouble(a, Pow(2, n - 1));
    }
  }

  lemma ModDouble(a: nat, h: nat)
    requires h > 0
    ensures a % (2 * h) == 2 * (a / 2 % h) + a % 2
  {
    var q, r := a / 2 / h, a / 2 % h;
    DivMod(a / 2, h);
    assert a == q * (2 * h) + (2 * r + a % 2) by { MulSwap(q, h, 2); }
    DivModUnique(q, 2 * r + a % 2, 2 * h);
  }

  lemma AndHighBit(b: Byte)
    ensures And(b, 0x80) != 0 <==> b >= 128
    ensures And(b, 0x7f) == b % 128
  {
    AndLow(b, 7);
    assert Pow(2, 7) == 128;
    var c := b / 128;
    assert c == 0 || c == 1;
    assert And(b / 2 / 2 / 2 / 2 / 2 / 2 / 2, 1) == c;
    assert And(b / 2 / 2 / 2 / 2 / 2 / 2, 2) == 2 * c;
    assert And(b / 2 / 2 / 2 / 2 / 2, 4) == 4 * c;
    assert And(b / 2 / 2 / 2 / 2, 8) == 8 * c;
    assert And(b / 2 / 2 / 2, 16) == 16 * c;
    assert And(b / 2 / 2, 32) == 32 * c;
    assert And(b / 2, 64) == 64 * c;
  }
}
