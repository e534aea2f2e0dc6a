/** The four programs a mint touches (solana/solana.go) and two the engine recognises, as the
    addresses their base58 names decode to. */
module Programs {
  import opened Basics
  import opened Numbers
  import opened Base58

  const SYSTEM_ID: string := "11111111111111111111111111111111"
  const TOKEN_ID: string := "TokenkegQfeZyiNwAJbNbGKPFXCWuBvf9Ss623VQ5DA"
  const ATA_ID: string := "ATokenGPvbdGVxr1b2hvZbsi" + "qW5xWH25efTNsLJA8knL"
  const METADATA_ID: string := "metaqbxxUerdq28cj1RbAWkYQm3ybzjb6a8bt518x1s"

  const TOKEN_2022_ID: string := "TokenzQdBNbLqP5VEhdkAS6EPFLC1PHnBqCXEpPxuEb"
  const SQUADS_V4_ID: string := "SQDS4ep65T869zMMBKyuUq6aD6EgTu8psMjkvj52pCf"

  const SYSVAR_INSTRUCTIONS_ID: string := "Sysvar1nstructions" + "1111111111111111111111111"

  const SYSTEM_PROGRAM: Address := (SystemAddr(); Decoded(SYSTEM_ID))
  const TOKEN_PROGRAM: Address := (TokenAddr(); Decoded(TOKEN_ID))
  const ATA_PROGRAM: Address := (AtaAddr(); Decoded(ATA_ID))
  const METADATA_PROGRAM: Address := (MetadataAddr(); Decoded(METADATA_ID))

  /** The Token Extensions program, and the Squads multisig program. */
  const TOKEN_2022_PROGRAM: Address := (Token2022Addr(); Decoded(TOKEN_2022_ID))
  const SQUADS_V4_PROGRAM: Address := (SquadsAddr(); Decoded(SQUADS_V4_ID))

  /** The sysvar through which a program inspects the surrounding transaction. */
  const SYSVAR_INSTRUCTIONS: Address := (SysvarAddr(); Decoded(SYSVAR_INSTRUCTIONS_ID))

  lemma Powers()
    ensures Pow(58, 42) == 115871260020027757769182095419415455604368209753879122781949129969750769664
    ensures Pow(58, 43) == 58 * Pow(58, 42)
    ensures Pow(256, 31) == 452312848583266388373324160190187140051835877600158453279131187530910662656
    ensures Pow(256, 32) == 256 * Pow(256, 31)
  {
    assert Pow(58, 14) == 4875194084160298409672704;
    assert Pow(58, 28) == 23767517358231570773047645414309870043308402671616;
    assert Pow(256, 10) == 1208925819614629174706176;
    assert Pow(256, 20) == 1461501637330902918203684832716283019655932542976 by { PowAdd(256, 10, 10); }
    assert Pow(256, 30) == 1766847064778384329583297500742918515827483896875618958121606201292619776
      by { PowAdd(256, 20, 10); }
  }

  lemma SystemAddr()
    ensures IsBase58(SYSTEM_ID) && |Decoded(SYSTEM_ID)| == ADDR_LEN
  {
    var s := SYSTEM_ID;
    assert |s| == 32 && forall i | 0 <= i < |s| :: s[i] == '1';
    LeadingOnes(s, 32);
    var ds := DigitsOf(s);
    assert ds == Zeros(32) + [];
    ValueIgnoresLeadingZeros(32, [], 58);
  }

  lemma TokenAddr()
    ensures IsBase58(TOKEN_ID) && |Decoded(TOKEN_ID)| == ADDR_LEN
  {
    hide Pow;
    Powers();
    DecodedLength(TOKEN_ID, 42, 26);
  }

  lemma AtaAddr()
    ensures IsBase58(ATA_ID) && |Decoded(ATA_ID)| == ADDR_LEN
  {
    hide Pow;
    Powers();
    DecodedLength(ATA_ID, 43, 9);
  }

  lemma MetadataAddr()
    ensures IsBase58(METADATA_ID) && |Decoded(METADATA_ID)| == ADDR_LEN
  {
    hide Pow;
    Powers();
    DecodedLength(METADATA_ID, 42, 44);
  }

  lemma Token2022Addr()
    ensures IsBase58(TOKEN_2022_ID) && |Decoded(TOKEN_2022_ID)| == ADDR_LEN
  {
    hide Pow;
    Powers();
    DecodedLength(TOKEN_2022_ID, 42, 26);
  }

  lemma SquadsAddr()
    ensures IsBase58(SQUADS_V4_ID) && |Decoded(SQUADS_V4_ID)| == ADDR_LEN
  {
    hide Pow;
    Powers();
    DecodedLength(SQUADS_V4_ID, 42, 25);
  }

  lemma SysvarAddr()
    ensures IsBase58(SYSVAR_INSTRUCTIONS_ID) && |Decoded(SYSVAR_INSTRUCTIONS_ID)| == ADDR_LEN
  {
    hide Pow;
    Powers();
    DecodedLength(SYSVAR_INSTRUCTIONS_ID, 42, 25);
  }

  /** None of the four decodings panics at start-up, and no two programs share an address. */
  lemma ProgramsDistinct()
    ensures SYSTEM_PROGRAM != TOKEN_PROGRAM && SYSTEM_PROGRAM != ATA_PROGRAM
    ensures SYSTEM_PROGRAM != METADATA_PROGRAM && TOKEN_PROGRAM != ATA_PROGRAM
    ensures TOKEN_PROGRAM != METADATA_PROGRAM && ATA_PROGRAM != METADATA_PROGRAM
  {
    hide Decoded;
    SystemAddr();
    TokenAddr();
    AtaAddr();
    MetadataAddr();
    assert SYSTEM_ID[0] == '1' && TOKEN_ID[0] == 'T' && ATA_ID[0] == 'A' && METADATA_ID[0] == 'm';
    var ids := [SYSTEM_ID, TOKEN_ID, ATA_ID, METADATA_ID];
    forall i, j | 0 <= i < j < 4 ensures Decoded(ids[i]) != Decoded(ids[j]) {
      if Decoded(ids[i]) == Decoded(ids[j]) { DecodedInjective(ids[i], ids[j]); }
    }
    assert Decoded(ids[0]) != Decoded(ids[1]) && Decoded(ids[0]) != Decoded(ids[2]);
    assert Decoded(ids[0]) != Decoded(ids[3]) && Decoded(ids[1]) != Decoded(ids[2]);
    assert Decoded(ids[1]) != Decoded(ids[3]) && Decoded(ids[2]) != Decoded(ids[3]);
  }
}
