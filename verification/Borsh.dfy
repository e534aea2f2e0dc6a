/** The Create instruction data of token/borsh.go, and a Borsh decoder for it. */
module Borsh {
  import opened Basics
  import opened Numbers
  import opened Wire

  const IX_CREATE: Byte := 42
  const TOKEN_STANDARD_FUNGIBLE: Byte := 2
  const TWO_32: nat := 0x1_0000_0000

  /** Little-endian bytes of v, truncated to n bytes as a fixed-width conversion does. */
  function LE(v: nat, n: nat): (b: seq<Byte>)
    ensures |b| == n
  {
    if n == 0 then [] else [v % 256] + LE(v / 256, n - 1)
  }

  function FromLE(b: seq<Byte>): nat {
    if b == [] then 0 else b[0] + 256 * FromLE(b[1..])
  }

  /** The i-th byte is the i-th digit in base 256, least significant first. */
  lemma {:induction false} LEAt(v: nat, n: nat, i: nat)
    requires i < n
    ensures Pow(256, i) > 0 && LE(v, n)[i] == v / Pow(256, i) % 256
    decreases n
  {
    PowPositive(256, i);
    if i > 0 {
      LEAt(v / 256, n - 1, i - 1);
      DivTwice(v, Pow(256, i - 1));
    }
  }

  lemma DivTwice(v: nat, h: nat)
    requires h > 0
    ensures v / 256 / h == v / (256 * h)
  {
    var u := v / 256;
    var q, r := u / h, u % h;
    DivMod(u, h);
    MulSwap(q, h, 256);
    assert v == q * (256 * h) + (256 * r + v % 256);
    DivModUnique(q, 256 * r + v % 256, 256 * h);
  }

  /** A fixed-width number reads back as itself exactly when it fits the width. */
  lemma {:induction false} FromLEOfLE(v: nat, n: nat)
    ensures Pow(256, n) > 0 && FromLE(LE(v, n)) == v % Pow(256, n)
  {
    PowPositive(256, n);
    if n > 0 {
      FromLEOfLE(v / 256, n - 1);
      assert LE(v, n)[1..] == LE(v / 256, n - 1);
      ModBase(v, Pow(256, n - 1));
    }
  }

  lemma ModBase(v: nat, h: nat)
    requires h > 0
    ensures v % (256 * h) == v % 256 + 256 * (v / 256 % h)
  {
    var u := v / 256;
    var q, r := u / h, u % h;
    DivMod(u, h);
    MulSwap(q, h, 256);
    var x := q * (256 * h);
    assert v == x + (256 * r + v % 256);
    DivModUnique(q, 256 * r + v % 256, 256 * h);
  }

  lemma {:induction false} LEOfFromLE(b: seq<Byte>)
    ensures LE(FromLE(b), |b|) == b
  {
    if b != [] {
      LEOfFromLE(b[1..]);
      assert FromLE(b) % 256 == b[0] && FromLE(b) / 256 == FromLE(b[1..]);
    }
  }

  // ----- encoding

  function StringBytes(s: seq<Byte>): seq<Byte> { LE(|s|, 4) + s }

  /** The fields that are not parameters: no fee, no creators, no earlier sale, immutable,
      fungible, and no collection, uses, collection details or rule set; then the decimals and
      no print supply. */
  function Tail(decimals: Byte): (t: seq<Byte>)
    ensures |t| == 13
  {
    [0, 0, 0, 0, 0, TOKEN_STANDARD_FUNGIBLE, 0, 0, 0, 0, 1, decimals, 0]
  }

  function CreateData(name: seq<Byte>, symbol: seq<Byte>, uri: seq<Byte>, decimals: Byte): seq<Byte> {
    [IX_CREATE, 0] + StringBytes(name) + StringBytes(symbol) + StringBytes(uri) + Tail(decimals)
  }

  class Buffer {
    var data: seq<Byte>

    constructor ()
      ensures data == []
    {
      data := [];
    }

    method WriteByte(b: Byte)
      modifies this
      ensures data == old(data) + [b]
    {
      data := data + [b];
    }

    method WriteLE(v: nat, n: nat)
      modifies this
      ensures data == old(data) + LE(v, n)
    {
      data := data + LE(v, n);
    }

    method BorshString(s: seq<Byte>)
      modifies this
      ensures data == old(data) + StringBytes(s)
    {
      WriteLE(|s|, 4);
      data := data + s;
    }
  }

  /** createV1Data, one write at a time. */
  method CreateV1Data(name: seq<Byte>, symbol: seq<Byte>, uri: seq<Byte>, decimals: Byte) returns (b: seq<Byte>)
    ensures b == CreateData(name, symbol, uri, decimals)
  {
    hide LE, StringBytes, Tail;
    var buf := new Buffer();
    buf.WriteByte(IX_CREATE);
    buf.WriteByte(0);
    assert buf.data == [IX_CREATE, 0];
    buf.BorshString(name);
    buf.BorshString(symbol);
    buf.BorshString(uri);
    WriteTail(buf, decimals);
    b := buf.data;
  }

  method WriteTail(buf: Buffer, decimals: Byte)
    modifies buf
    ensures buf.data == old(buf.data) + Tail(decimals)
  {
    WriteFixedFields(buf);
    buf.WriteByte(1);
    buf.WriteByte(decimals);
    buf.WriteByte(0);
    assert buf.data == old(buf.data) + ([0, 0, 0, 0, 0, TOKEN_STANDARD_FUNGIBLE, 0, 0, 0, 0] + [1, decimals, 0]);
  }

  method WriteFixedFields(buf: Buffer)
    modifies buf
    ensures buf.data == old(buf.data) + [0, 0, 0, 0, 0, TOKEN_STANDARD_FUNGIBLE, 0, 0, 0, 0]
  {
    hide LE;
    ZeroU16();
    buf.WriteLE(0, 2);
    buf.WriteByte(0);
    buf.WriteByte(0);
    buf.WriteByte(0);
    buf.WriteByte(TOKEN_STANDARD_FUNGIBLE);
    assert buf.data == old(buf.data) + [0, 0, 0, 0, 0, TOKEN_STANDARD_FUNGIBLE];
    buf.WriteByte(0);
    buf.WriteByte(0);
    buf.WriteByte(0);
    buf.WriteByte(0);
    assert buf.data == old(buf.data) + ([0, 0, 0, 0, 0, TOKEN_STANDARD_FUNGIBLE] + [0, 0, 0, 0]);
  }

  lemma ZeroU16()
    ensures LE(0, 2) == [0, 0]
  {
    assert LE(0, 1) == [0];
  }

  // ----- decoding

  datatype Creator = Creator(address: Address, verified: bool, share: Byte)

  datatype Collection = Collection(verified: bool, key: Address)

  datatype Uses = Uses(useMethod: Byte, remaining: nat, total: nat)

  datatype CollectionDetails = V1(size: nat) | V2(padding: seq<Byte>)

  datatype PrintSupply = Zero | Limited(editions: nat) | Unlimited

  /** Everything but the three strings. */
  datatype Terms = Terms(
    sellerFee: nat, creators: Option<seq<Creator>>, primarySale: bool, isMutable: bool, standard: Byte,
    collection: Option<Collection>, uses: Option<Uses>, details: Option<CollectionDetails>,
    ruleSet: Option<Address>, decimals: Option<Byte>, printSupply: Option<PrintSupply>)

  datatype CreateArgs = CreateArgs(name: seq<Byte>, symbol: seq<Byte>, uri: seq<Byte>, terms: Terms)

  /** A decoder returns what it read and the bytes after it. */
  type Decoder<!T> = seq<Byte> -> Option<(T, seq<Byte>)>

  function DecodeNumber(s: seq<Byte>, n: nat): Option<(nat, seq<Byte>)> {
    var (b, rest) :- TakeN(s, n);
    Some((FromLE(b), rest))
  }

  function DecodeByte(s: seq<Byte>): Option<(Byte, seq<Byte>)> {
    if s == [] then None else Some((s[0], s[1..]))
  }

  function DecodeBool(s: seq<Byte>): Option<(bool, seq<Byte>)> {
    var (b, rest) :- DecodeByte(s);
    if b <= 1 then Some((b == 1, rest)) else None
  }

  function DecodeAddress(s: seq<Byte>): Option<(Address, seq<Byte>)> { TakeN(s, ADDR_LEN) }

  /** A Borsh Option: a tag byte, then the value if the tag is 1. */
  function DecodeOption<T>(s: seq<Byte>, decode: Decoder<T>): Option<(Option<T>, seq<Byte>)> {
    var (some, rest) :- DecodeBool(s);
    if !some then Some((None, rest))
    else
      var (x, after) :- decode(rest);
      Some((Some(x), after))
  }

  /** A Borsh string: a four-byte length, then that many bytes. */
  function DecodeString(s: seq<Byte>): Option<(seq<Byte>, seq<Byte>)> {
    var (len, rest) :- TakeN(s, 4);
    TakeN(rest, FromLE(len))
  }

  function DecodeEach(s: seq<Byte>, n: nat): Option<(seq<Creator>, seq<Byte>)> {
    if n == 0 then Some(([], s))
    else
      var (address, s1) :- DecodeAddress(s);
      var (verified, s2) :- DecodeBool(s1);
      var (share, s3) :- DecodeByte(s2);
      var (more, rest) :- DecodeEach(s3, n - 1);
      Some(([Creator(address, verified, share)] + more, rest))
  }

  function DecodeCreators(s: seq<Byte>): Option<(seq<Creator>, seq<Byte>)> {
    var (n, rest) :- DecodeNumber(s, 4);
    DecodeEach(rest, n)
  }

  function DecodeCollection(s: seq<Byte>): Option<(Collection, seq<Byte>)> {
    var (verified, s1) :- DecodeBool(s);
    var (key, rest) :- DecodeAddress(s1);
    Some((Collection(verified, key), rest))
  }

  function DecodeUses(s: seq<Byte>): Option<(Uses, seq<Byte>)> {
    var (useMethod, s1) :- DecodeByte(s);
    var (remaining, s2) :- DecodeNumber(s1, 8);
    var (total, rest) :- DecodeNumber(s2, 8);
    if useMethod <= 2 then Some((Uses(useMethod, remaining, total), rest)) else None
  }

  function DecodeDetails(s: seq<Byte>): Option<(CollectionDetails, seq<Byte>)> {
    var (variant, s1) :- DecodeByte(s);
    var (bytes, rest) :- TakeN(s1, 8);
    if variant == 0 then Some((V1(FromLE(bytes)), rest))
    else if variant == 1 then Some((V2(bytes), rest))
    else None
  }

  function DecodePrintSupply(s: seq<Byte>): Option<(PrintSupply, seq<Byte>)> {
    var (variant, s1) :- DecodeByte(s);
    if variant == 0 then Some((Zero, s1))
    else if variant == 1 then
      var (editions, rest) :- DecodeNumber(s1, 8);
      Some((Limited(editions), rest))
    else if variant == 2 then Some((Unlimited, s1))
    else None
  }

  /** From the fee to the token standard. */
  function DecodeFlags(t: seq<Byte>): Option<((nat, Option<seq<Creator>>, bool, bool, Byte), seq<Byte>)> {
    var (fee, t1) :- DecodeNumber(t, 2);
    var (creators, t2) :- DecodeOption(t1, DecodeCreators);
    var (sale, t3) :- DecodeBool(t2);
    var (mutable, t4) :- DecodeBool(t3);
    var (standard, rest) :- DecodeByte(t4);
    Some(((fee, creators, sale, mutable, standard), rest))
  }

  /** The rest of the asset data. */
  function DecodeOptions(t: seq<Byte>):
    Option<((Option<Collection>, Option<Uses>, Option<CollectionDetails>, Option<Address>), seq<Byte>)>
  {
    var (collection, t1) :- DecodeOption(t, DecodeCollection);
    var (uses, t2) :- DecodeOption(t1, DecodeUses);
    var (details, t3) :- DecodeOption(t2, DecodeDetails);
    var (ruleSet, rest) :- DecodeOption(t3, DecodeAddress);
    Some(((collection, uses, details, ruleSet), rest))
  }

  /** The fields after the strings, one after the other. Nothing may follow. */
  function DecodeTail(t: seq<Byte>): Option<Terms> {
    var ((fee, creators, sale, mutable, standard), t1) :- DecodeFlags(t);
    var ((collection, uses, details, ruleSet), t2) :- DecodeOptions(t1);
    var (decimals, t3) :- DecodeOption(t2, DecodeByte);
    var (printSupply, t4) :- DecodeOption(t3, DecodePrintSupply);
    if t4 != [] then None
    else Some(Terms(fee, creators, sale, mutable, standard, collection, uses, details, ruleSet, decimals, printSupply))
  }

  function DecodeCreate(b: seq<Byte>): Option<CreateArgs> {
    var (tag, s0) :- TakeN(b, 2);
    if tag != [IX_CREATE, 0] then None
    else
      var (name, s1) :- DecodeString(s0);
      var (symbol, s2) :- DecodeString(s1);
      var (uri, s3) :- DecodeString(s2);
      var terms :- DecodeTail(s3);
      Some(CreateArgs(name, symbol, uri, terms))
  }

  /** No fee, no creators, no earlier sale, immutable, fungible, and every other option None. */
  function PlainTerms(decimals: Byte): Terms {
    Terms(0, None, false, false, TOKEN_STANDARD_FUNGIBLE, None, None, None, None, Some(decimals), None)
  }

  /** A string survives its encoding exactly when its length fits the four-byte prefix. */
  lemma DecodeStringOf(s: seq<Byte>, rest: seq<Byte>)
    ensures DecodeString(StringBytes(s) + rest) == Some((s, rest)) <==> |s| < TWO_32
  {
    hide LE, FromLE;
    FromLEOfLE(|s|, 4);
    assert Pow(256, 4) == TWO_32;
    var all := StringBytes(s) + rest;
    assert all == LE(|s|, 4) + (s + rest);
    TakeNOf(LE(|s|, 4), s + rest);
    TakeNOf(s, rest);
    if |s| < TWO_32 {
      assert FromLE(LE(|s|, 4)) == |s|;
    } else {
      DivMod(|s|, TWO_32);
      assert FromLE(LE(|s|, 4)) < |s|;
    }
  }

  lemma DecodeStringSound(s: seq<Byte>)
    requires DecodeString(s).Some?
    ensures var (x, rest) := DecodeString(s).value; s == StringBytes(x) + rest
  {
    hide LE, FromLE;
    var (x, rest) := DecodeString(s).value;
    LEOfFromLE(s[..4]);
    assert s == s[..4] + s[4..] && s[4..] == x + rest;
  }

  /** The decoder recovers the parameters and reads immutable, fungible, no fee and nothing
      else; and only the encoding itself decodes to them. */
  lemma CreateDataRoundTrip(name: seq<Byte>, symbol: seq<Byte>, uri: seq<Byte>, decimals: Byte, b: seq<Byte>)
    requires |name| < TWO_32 && |symbol| < TWO_32 && |uri| < TWO_32
    ensures DecodeCreate(b) == Some(CreateArgs(name, symbol, uri, PlainTerms(decimals)))
       <==> b == CreateData(name, symbol, uri, decimals)
  {
    hide CreateData, DecodeCreate;
    if b == CreateData(name, symbol, uri, decimals) {
      DecodeCreateOf(name, symbol, uri, decimals);
    }
    if DecodeCreate(b) == Some(CreateArgs(name, symbol, uri, PlainTerms(decimals))) {
      DecodeCreateSound(name, symbol, uri, decimals, b);
    }
  }

  lemma DecodeCreateOf(name: seq<Byte>, symbol: seq<Byte>, uri: seq<Byte>, decimals: Byte)
    requires |name| < TWO_32 && |symbol| < TWO_32 && |uri| < TWO_32
    ensures DecodeCreate(CreateData(name, symbol, uri, decimals))
         == Some(CreateArgs(name, symbol, uri, PlainTerms(decimals)))
  {
    var s3 := Tail(decimals);
    var s2 := StringBytes(uri) + s3;
    var s1 := StringBytes(symbol) + s2;
    var s0 := StringBytes(name) + s1;
    DecodeTailOf(decimals);
    hide DecodeString, StringBytes, Tail, DecodeTail;
    DecodeStringOf(name, s1);
    DecodeStringOf(symbol, s2);
    DecodeStringOf(uri, s3);
    TakeNOf([IX_CREATE, 0], s0);
    assert CreateData(name, symbol, uri, decimals) == [IX_CREATE, 0] + s0;
  }

  lemma DecodeTailOf(decimals: Byte)
    ensures DecodeTail(Tail(decimals)) == Some(PlainTerms(decimals))
  {
    var t2 := [1, decimals, 0];
    var t1 := [0, 0, 0, 0] + t2;
    var t := [0, 0, 0, 0, 0, TOKEN_STANDARD_FUNGIBLE] + t1;
    assert t == Tail(decimals);
    FlagsPlain(t, t1);
    OptionsPlain(t1, t2);
    OptionByte(t2);
    OptionNone([0], DecodePrintSupply);
    hide DecodeOption, DecodeFlags, DecodeOptions;
  }

  lemma FlagsPlain(t: seq<Byte>, rest: seq<Byte>)
    ensures DecodeFlags(t) == Some(((0, None, false, false, TOKEN_STANDARD_FUNGIBLE), rest))
       <==> t == [0, 0, 0, 0, 0, TOKEN_STANDARD_FUNGIBLE] + rest
  {
    if |t| >= 6 {
      NumberZero(t);
      hide DecodeOption, DecodeNumber, DecodeBool, DecodeByte;
      OptionNone(t[2..], DecodeCreators);
      BoolFalse(t[3..]);
      BoolFalse(t[4..]);
      ByteRead(t[5..]);
      assert t == [t[0], t[1], t[2], t[3], t[4], t[5]] + t[6..];
    } else if DecodeFlags(t) == Some(((0, None, false, false, TOKEN_STANDARD_FUNGIBLE), rest)) {
      FlagsLength(t);
    }
  }

  lemma FlagsLength(t: seq<Byte>)
    requires DecodeFlags(t).Some? && DecodeFlags(t).value.0.1.None?
    ensures |t| >= 6
  {
    assert |t| >= 2;
    OptionNone(t[2..], DecodeCreators);
  }

  lemma OptionsPlain(t: seq<Byte>, rest: seq<Byte>)
    ensures DecodeOptions(t) == Some(((None, None, None, None), rest)) <==> t == [0, 0, 0, 0] + rest
  {
    hide DecodeOption;
    OptionNone(t, DecodeCollection);
    if t != [] {
      var t1 := t[1..];
      OptionNone(t1, DecodeUses);
      if t1 != [] {
        var t2 := t1[1..];
        OptionNone(t2, DecodeDetails);
        if t2 != [] {
          OptionNone(t2[1..], DecodeAddress);
          if t2[1..] != [] { assert t == [t[0], t1[0], t2[0], t2[1]] + t2[1..][1..]; }
        }
      }
    }
  }

  lemma NumberZero(s: seq<Byte>)
    requires |s| >= 2
    ensures DecodeNumber(s, 2) == Some((0, s[2..])) <==> s[0] == 0 && s[1] == 0
    ensures DecodeNumber(s, 2).Some? && DecodeNumber(s, 2).value.1 == s[2..]
  {
    assert s[..2] == [s[0], s[1]] && s[..2][1..] == [s[1]];
    assert FromLE([s[1]]) == s[1] && FromLE(s[..2]) == s[0] as int + 256 * (s[1] as int);
  }

  lemma OptionNone<T>(s: seq<Byte>, decode: Decoder<T>)
    ensures DecodeOption(s, decode).Some? && DecodeOption(s, decode).value.0.None? <==> s != [] && s[0] == 0
    ensures s != [] && s[0] == 0 ==> DecodeOption(s, decode) == Some((None, s[1..]))
  {
  }

  lemma BoolFalse(s: seq<Byte>)
    ensures DecodeBool(s).Some? && !DecodeBool(s).value.0 <==> s != [] && s[0] == 0
    ensures s != [] && s[0] == 0 ==> DecodeBool(s) == Some((false, s[1..]))
  {
  }

  lemma ByteRead(s: seq<Byte>)
    ensures DecodeByte(s).Some? <==> s != []
    ensures s != [] ==> DecodeByte(s) == Some((s[0], s[1..]))
  {
  }

  lemma OptionByte(s: seq<Byte>)
    ensures DecodeOption(s, DecodeByte).Some? && DecodeOption(s, DecodeByte).value.0.Some? <==> |s| >= 2 && s[0] == 1
    ensures |s| >= 2 && s[0] == 1 ==> DecodeOption(s, DecodeByte) == Some((Some(s[1]), s[2..]))
  {
    if |s| >= 2 { assert s[1..][1..] == s[2..]; }
  }

  lemma DecodeTailSound(t: seq<Byte>, decimals: Byte)
    requires DecodeTail(t) == Some(PlainTerms(decimals))
    ensures t == Tail(decimals)
  {
    hide DecodeOption, DecodeFlags, DecodeOptions;
    var (flags, t1) := DecodeFlags(t).value;
    assert flags == (flags.0, flags.1, flags.2, flags.3, flags.4);
    FlagsPlain(t, t1);
    var (options, t2) := DecodeOptions(t1).value;
    assert options == (options.0, options.1, options.2, options.3);
    OptionsPlain(t1, t2);
    OptionByte(t2);
    OptionNone(t2[2..], DecodePrintSupply);
    assert t2[2..][1..] == [] && t2 == [1, decimals, 0];
  }

  lemma DecodeCreateSound(name: seq<Byte>, symbol: seq<Byte>, uri: seq<Byte>, decimals: Byte, b: seq<Byte>)
    requires DecodeCreate(b) == Some(CreateArgs(name, symbol, uri, PlainTerms(decimals)))
    ensures b == CreateData(name, symbol, uri, decimals)
  {
    hide DecodeString, StringBytes, Tail, DecodeTail;
    var s0 := b[2..];
    DecodeStringSound(s0);
    var s1 := DecodeString(s0).value.1;
    DecodeStringSound(s1);
    var s2 := DecodeString(s1).value.1;
    DecodeStringSound(s2);
    var s3 := DecodeString(s2).value.1;
    DecodeTailSound(s3, decimals);
    assert b == [IX_CREATE, 0] + s0;
    assert b == [IX_CREATE, 0] + (StringBytes(name) + (StringBytes(symbol) + (StringBytes(uri) + Tail(decimals))));
  }

  /** Every byte that is not a parameter. */
  lemma CreateDataBytes(name: seq<Byte>, symbol: seq<Byte>, uri: seq<Byte>, decimals: Byte)
    ensures var b := CreateData(name, symbol, uri, decimals);
      |b| >= 15 && b[..2] == [42, 0] && b[|b| - 13..] == [0, 0, 0, 0, 0, 2, 0, 0, 0, 0, 1, decimals, 0]
  {
    hide LE;
    var b := CreateData(name, symbol, uri, decimals);
    var front := [IX_CREATE, 0] + StringBytes(name) + StringBytes(symbol) + StringBytes(uri);
    assert b == front + Tail(decimals) && b[..2] == front[..2];
  }

  lemma CreateDataLength(name: seq<Byte>, symbol: seq<Byte>, uri: seq<Byte>, decimals: Byte)
    ensures |CreateData(name, symbol, uri, decimals)| == 27 + |name| + |symbol| + |uri|
  {
  }

  lemma CreateDataInjective(n: seq<Byte>, s: seq<Byte>, u: seq<Byte>, d: Byte,
                            n': seq<Byte>, s': seq<Byte>, u': seq<Byte>, d': Byte)
    requires |n| < TWO_32 && |s| < TWO_32 && |u| < TWO_32 && |n'| < TWO_32 && |s'| < TWO_32 && |u'| < TWO_32
    requires CreateData(n, s, u, d) == CreateData(n', s', u', d')
    ensures n == n' && s == s' && u == u' && d == d'
  {
    DecodeCreateOf(n, s, u, d);
    DecodeCreateOf(n', s', u', d');
  }
}
