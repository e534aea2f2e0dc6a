/** The account an SPL mint is kept in: 82 bytes, as the Token program lays them out and as the chain
    library decodes them for token/engine.go. */
module SplMint {
  import opened Basics
  import opened Numbers
  import opened Borsh

  const MINT_ACCOUNT_SIZE: nat := 82

  type Uint64 = x: nat | x <= MAX_U64

  datatype MintData = MintData(
    initialized: bool, mintAuthority: Option<Address>, freezeAuthority: Option<Address>, supply: Uint64, decimals: Byte)

  /** An optional key: a four-byte tag, then the key or zeros. */
  function EncodeAuthority(a: Option<Address>): (b: seq<Byte>)
    ensures |b| == 36
  {
    match a
    case None => Zeros(36)
    case Some(key) => [1, 0, 0, 0] + key
  }

  function DecodeAuthority(b: seq<Byte>): Option<Option<Address>>
    requires |b| == 36
  {
    if b[..4] == [1, 0, 0, 0] then Some(Some(b[4..]))
    else if b[..4] == [0, 0, 0, 0] then Some(None)
    else None
  }

  lemma DecodeAuthorityOf(a: Option<Address>)
    ensures DecodeAuthority(EncodeAuthority(a)) == Some(a)
  {
    match a {
      case None => assert Zeros(36)[..4] == [0, 0, 0, 0];
      case Some(key) => assert EncodeAuthority(a)[..4] == [1, 0, 0, 0] && EncodeAuthority(a)[4..] == key;
    }
  }

  /** Mint authority, supply, decimals, whether initialized, freeze authority. */
  function EncodeMint(m: MintData): (b: seq<Byte>)
    ensures |b| == MINT_ACCOUNT_SIZE
  {
    EncodeAuthority(m.mintAuthority) + LE(m.supply, 8) + [m.decimals, if m.initialized then 1 else 0]
    + EncodeAuthority(m.freezeAuthority)
  }

  function DecodeMint(b: seq<Byte>): Option<MintData> {
    if |b| < MINT_ACCOUNT_SIZE || b[45] > 1 then None
    else
      var mintAuthority :- DecodeAuthority(b[..36]);
      var freezeAuthority :- DecodeAuthority(b[46..82]);
      Some(MintData(b[45] == 1, mintAuthority, freezeAuthority, U64(b[36..44]), b[44]))
  }

  function U64(b: seq<Byte>): Uint64
    requires |b| == 8
  {
    FromLEBound(b);
    assert Pow(256, 8) == MAX_U64 + 1;
    FromLE(b)
  }

  lemma {:induction false} FromLEBound(b: seq<Byte>)
    ensures FromLE(b) < Pow(256, |b|)
  {
    if b != [] { FromLEBound(b[1..]); }
  }

  /** Decoding an account gives back the mint it was laid out from. */
  lemma DecodeMintOf(m: MintData)
    ensures DecodeMint(EncodeMint(m)) == Some(m)
  {
    hide LE, FromLE, EncodeAuthority, DecodeAuthority, Pow;
    var b := EncodeMint(m);
    DecodeAuthorityOf(m.mintAuthority);
    DecodeAuthorityOf(m.freezeAuthority);
    assert b[..36] == EncodeAuthority(m.mintAuthority) && b[46..82] == EncodeAuthority(m.freezeAuthority);
    assert b[36..44] == LE(m.supply, 8);
    U64Reads(m.supply);
  }

  lemma U64Reads(v: Uint64)
    ensures U64(LE(v, 8)) == v
  {
    FromLEOfLE(v, 8);
    assert Pow(256, 8) == MAX_U64 + 1;
  }
}
