/** The base58 decoder of solana/message.go, which keeps a little-endian byte accumulator
    and multiplies it by 58 in place for every character. */
module Base58 {
  import opened Basics
  import opened Numbers

  const RUN1: string := "123456789"
  const RUN2: string := "ABCDEFGH"
  const RUN3: string := "JKLMN"
  const RUN4: string := "PQRSTUVWXYZ"
  const RUN5: string := "abcdefghijk"
  const RUN6: string := "mnopqrstuvwxyz"

  /** Six runs of consecutive characters. */
  const ALPHABET: string := RUN1 + RUN2 + RUN3 + RUN4 + RUN5 + RUN6

  /** The character standing for a base58 digit, by code point. */
  function CodeOf(d: nat): int
    requires d < 58
  {
    if d < 9 then d + 49 else if d < 17 then d + 56 else if d < 22 then d + 57
    else if d < 33 then d + 58 else if d < 44 then d + 64 else d + 65
  }

  predicate IsBase58Char(c: char) {
    '1' <= c <= '9' || ('A' <= c <= 'Z' && c != 'I' && c != 'O') || ('a' <= c <= 'z' && c != 'l')
  }

  function DigitOf(c: char): (d: nat)
    requires IsBase58Char(c)
    ensures d < 58 && CodeOf(d) == c as int
  {
    if c <= '9' then c as int - 49 else if c <= 'H' then c as int - 56 else if c <= 'N' then c as int - 57
    else if c <= 'Z' then c as int - 58 else if c <= 'k' then c as int - 64 else c as int - 65
  }

  /** The alphabet lists each base58 character once, in the order of its digit. */
  lemma AlphabetAt(d: nat)
    requires d < 58
    ensures |ALPHABET| == 58 && ALPHABET[d] as int == CodeOf(d)
  {
    assert |RUN1| == 9 && |RUN2| == 8 && |RUN3| == 5 && |RUN4| == 11 && |RUN5| == 11 && |RUN6| == 14;
    if d < 9 {
      assert ALPHABET[d] == RUN1[d];
    } else if d < 17 {
      assert ALPHABET[d] == RUN2[d - 9];
    } else if d < 22 {
      assert ALPHABET[d] == RUN3[d - 17];
    } else if d < 33 {
      assert ALPHABET[d] == RUN4[d - 22];
    } else if d < 44 {
      assert ALPHABET[d] == RUN5[d - 33];
    } else {
      assert ALPHABET[d] == RUN6[d - 44];
    }
  }

  lemma DigitOfCode(c: char, d: nat)
    requires d < 58 && c as int == CodeOf(d)
    ensures IsBase58Char(c) && DigitOf(c) == d
  {
  }

  predicate IsBase58(s: string) { forall i | 0 <= i < |s| :: IsBase58Char(s[i]) }

  function DigitsOf(s: string): (ds: seq<nat>)
    requires IsBase58(s)
    ensures |ds| == |s| && InBase(ds, 58)
    ensures forall i | 0 <= i < |s| :: ds[i] == DigitOf(s[i])
  {
    seq(|s|, i requires 0 <= i < |s| => DigitOf(s[i]))
  }

  /** What a base58 string denotes: a zero byte per leading '1', then the shortest big-endian
      bytes of its value. */
  function Decoded(s: string): (r: seq<Byte>)
    requires IsBase58(s)
  {
    Convert(DigitsOf(s), 58, 256)
  }

  // ----- the accumulator

  /** The digits of a number in base 256, least significant first. */
  function LittleEndian(v: nat): seq<Byte> {
    if v == 0 then [] else [v % 256] + LittleEndian(v / 256)
  }

  function Reversed(s: seq<Byte>): (r: seq<Byte>)
    ensures |r| == |s|
  {
    if s == [] then [] else Reversed(s[1..]) + [s[0]]
  }

  lemma {:induction false} ReversedAt(s: seq<Byte>, k: nat)
    requires k < |s|
    ensures Reversed(s)[k] == s[|s| - 1 - k]
  {
    if k < |s| - 1 {
      ReversedAt(s[1..], k);
    }
  }

  lemma {:induction false} ReversedLittleEndian(v: nat, k: nat)
    ensures Reversed(LittleEndian(v) + Zeros(k)) == Zeros(k) + Digits(v, 256)
  {
    var s := LittleEndian(v) + Zeros(k);
    if v > 0 {
      ReversedLittleEndian(v / 256, k);
      assert s[1..] == LittleEndian(v / 256) + Zeros(k);
    } else if k > 0 {
      ReversedLittleEndian(v, k - 1);
      assert s[1..] == LittleEndian(v) + Zeros(k - 1);
      assert Zeros(k - 1) + [0] == Zeros(k);
      assert Digits(v, 256) == [];
    }
  }

  /** One character: multiply by 58 and add, byte by byte. The carry stays at most 57, so at
      most one byte is left to append. */
  function MulAdd(out: seq<Byte>, carry: nat): seq<Byte>
    requires carry <= 57
  {
    if out == [] then (if carry == 0 then [] else [carry])
    else var c: int := carry + 58 * (out[0] as int); [c % 256] + MulAdd(out[1..], c / 256)
  }

  lemma MulAddCons(out: seq<Byte>, carry: nat)
    requires carry <= 57 && out != []
    ensures var c: int := carry + 58 * (out[0] as int);
      0 <= c / 256 <= 57 && MulAdd(out, carry) == [c % 256] + MulAdd(out[1..], c / 256)
  {
  }

  lemma MulAddFlush(carry: nat)
    requires carry <= 57
    ensures MulAdd([], carry) == if carry == 0 then [] else [carry]
  {
  }

  lemma {:induction false} MulAddIsMultiplication(v: nat, d: nat)
    requires d <= 57
    ensures MulAdd(LittleEndian(v), d) == LittleEndian(58 * v + d)
  {
    if v > 0 {
      var q, r := v / 256, v % 256;
      var c := d + 58 * r;
      assert (58 * v + d) % 256 == c % 256 && (58 * v + d) / 256 == 58 * q + c / 256;
      MulAddIsMultiplication(q, c / 256);
      assert LittleEndian(v)[1..] == LittleEndian(q);
    }
  }

  datatype Base58Result = Ok(bytes: seq<Byte>) | NotBase58

  /** Linear search of the alphabet. */
  method IndexOf(c: char) returns (idx: int)
    ensures idx >= 0 <==> IsBase58Char(c)
    ensures idx >= 0 ==> idx == DigitOf(c)
    ensures idx >= -1
  {
    AlphabetAt(0);
    assert IsBase58Char(c) ==> CodeOf(DigitOf(c)) == c as int;
    var i := 0;
    while i < |ALPHABET|
      invariant 0 <= i <= |ALPHABET| == 58
      invariant forall d: nat | d < i :: CodeOf(d) != c as int
    {
      AlphabetAt(i);
      if ALPHABET[i] == c {
        DigitOfCode(c, i);
        return i;
      }
      i := i + 1;
    }
    return -1;
  }

  /** Multiplies the accumulator by 58 in place, adds a digit and flushes the carry. The
      guard on the flush, which would report a carry that never drains, cannot fire. */
  method Absorb(before: seq<Byte>, idx: nat) returns (out: seq<Byte>)
    requires idx < 58
    ensures out == MulAdd(before, idx)
    ensures |before| <= |out| <= |before| + 1
  {
    hide MulAdd;
    out := before;
    var carry: nat := idx;
    var i := 0;
    assert out[..0] == [] && before[0..] == before;
    while i < |out|
      invariant 0 <= i <= |out| == |before|
      invariant carry <= 57
      invariant out[i..] == before[i..]
      invariant out[..i] + MulAdd(before[i..], carry) == MulAdd(before, idx)
    {
      ghost var done, rest := out[..i], before[i..];
      assert rest[0] == out[i] && rest[1..] == before[i + 1..];
      MulAddCons(rest, carry);
      carry := carry + 58 * (out[i] as int);
      out := out[i := carry % 256];
      carry := carry / 256;
      assert out[..i + 1] == done + [out[i]];
      i := i + 1;
    }
    assert out[..i] == out && before[i..] == [];
    var n := 0;
    MulAddFlush(carry);
    MulAddFlush(0);
    while carry > 0
      invariant carry <= 57 && 0 <= n <= 1 && (n == 1 ==> carry == 0) && |out| == |before| + n
      invariant out + (if carry == 0 then [] else [carry]) == MulAdd(before, idx)
      decreases carry
    {
      if n >= ADDR_LEN { assert false; }
      out := out + [carry % 256];
      carry := carry / 256;
      n := n + 1;
    }
  }

  /** Accepts exactly the base58 strings and returns what they denote. */
  method Base58Decode(s: string) returns (r: Base58Result)
    ensures r.Ok? <==> IsBase58(s)
    ensures r.Ok? ==> r.bytes == Decoded(s)
  {
    hide Value, LittleEndian, MulAdd, Digits, Leading, Reversed;
    ValueOfEmpty();
    var out: seq<Byte> := [];
    var j := 0;
    while j < |s|
      invariant 0 <= j <= |s|
      invariant IsBase58(s[..j])
      invariant out == LittleEndian(Value(DigitsOf(s[..j]), 58))
    {
      var idx := IndexOf(s[j]);
      if idx < 0 { return NotBase58; }
      out := Absorb(out, idx);
      assert s[..j + 1] == s[..j] + [s[j]];
      assert DigitsOf(s[..j + 1]) == DigitsOf(s[..j]) + [idx];
      ValueSnoc(DigitsOf(s[..j]), idx, 58);
      MulAddIsMultiplication(Value(DigitsOf(s[..j]), 58), idx);
      j := j + 1;
    }
    assert s[..j] == s;
    ghost var digits := out;
    var k := 0;
    while k < |s| && s[k] == '1'
      invariant 0 <= k <= |s|
      invariant forall i | 0 <= i < k :: s[i] == '1'
      invariant out == digits + Zeros(k)
    {
      out := out + [0];
      k := k + 1;
    }
    LeadingOnes(s, k);
    ReversedLittleEndian(Value(DigitsOf(s), 58), k);
    out := Reverse(out);
    r := Ok(out);
  }

  lemma ValueOfEmpty()
    ensures LittleEndian(Value([], 58)) == []
  {
  }

  lemma LeadingOnes(s: string, k: nat)
    requires IsBase58(s) && k <= |s|
    requires forall i | 0 <= i < k :: s[i] == '1'
    requires k < |s| ==> s[k] != '1'
    ensures Leading(DigitsOf(s)) == k
  {
    var ds := DigitsOf(s);
    assert ds == Zeros(k) + ds[k..];
    LeadingUnique(k, ds[k..]);
  }

  /** The final swap loop. */
  method Reverse(s: seq<Byte>) returns (out: seq<Byte>)
    ensures out == Reversed(s)
  {
    out := s;
    var i, j := 0, |out| - 1;
    while i < j
      invariant |out| == |s| && 0 <= i && i + j == |s| - 1 && j >= i - 1
      invariant forall k | 0 <= k < i :: out[k] == s[|s| - 1 - k]
      invariant forall k | i <= k <= j :: out[k] == s[k]
      invariant forall k | j < k < |s| :: out[k] == s[|s| - 1 - k]
    {
      out := out[i := out[j]][j := out[i]];
      i, j := i + 1, j - 1;
    }
    forall k | 0 <= k < |s| ensures out[k] == Reversed(s)[k] {
      ReversedAt(s, k);
    }
  }

  // ----- what the decoding means

  /** The inverse encoder: a '1' per leading zero byte, then the shortest base58 digits. */
  function Encoded(b: seq<Byte>): (s: string)
    ensures IsBase58(s)
  {
    var ds := Convert(b, 256, 58);
    assert forall i | 0 <= i < |ds| :: ds[i] < 58;
    seq(|ds|, i requires 0 <= i < |ds| => CharOf(ds[i]))
  }

  function CharOf(d: nat): (c: char)
    requires d < 58
    ensures IsBase58Char(c) && DigitOf(c) == d
  {
    CodeOf(d) as char
  }

  /** Decoding is a bijection between the base58 strings and the byte strings; it keeps the
      number and the count of leading zeros. */
  lemma DecodedIsBijection(s: string, b: seq<Byte>)
    requires IsBase58(s)
    ensures Encoded(Decoded(s)) == s
    ensures Decoded(Encoded(b)) == b
    ensures Value(Decoded(s), 256) == Value(DigitsOf(s), 58)
    ensures Leading(Decoded(s)) == Leading(DigitsOf(s))
  {
    ConvertInverse(DigitsOf(s), 58, 256);
    ConvertInverse(b, 256, 58);
    assert DigitsOf(Encoded(b)) == Convert(b, 256, 58);
    forall i | 0 <= i < |s| ensures CharOf(DigitOf(s[i])) == s[i] {
    }
  }

  lemma DecodedInjective(s: string, t: string)
    requires IsBase58(s) && IsBase58(t) && Decoded(s) == Decoded(t)
    ensures s == t
  {
    DecodedIsBijection(s, []);
    DecodedIsBijection(t, []);
  }

  /** A base58 string of n characters whose first digit is d decodes to 32 bytes as soon as
      its range of values lies between 256^31 and 256^32. */
  lemma DecodedLength(s: string, n: nat, d: nat)
    requires IsBase58(s) && |s| == n + 1 && DigitOf(s[0]) == d != 0
    requires Pow(256, 31) <= d * Pow(58, n) && (d + 1) * Pow(58, n) <= Pow(256, 32)
    ensures |Decoded(s)| == ADDR_LEN
  {
    ValueBounds(DigitsOf(s), 58);
    DigitCount(Value(DigitsOf(s), 58), 256, 32);
  }
}
