/** The worker and the signer agree: the message compiled from the mint's instruction list is
    one the signing policy approves. */
module MintMessage {
  import opened Basics
  import opened Wire
  import opened MessageReader
  import opened Base58
  import opened Programs
  import opened Borsh
  import opened Policy
  import opened AtomicMint
  import Signer

  ghost predicate Referenced(k: Address, ixs: seq<Instr>) {
    exists i | 0 <= i < |ixs| :: k == ixs[i].program || exists j | 0 <= j < |ixs[i].accounts| ::
      ixs[i].accounts[j].key == k
  }

  ghost predicate CompiledInstruction(accounts: seq<Address>, c: Instruction, ix: Instr) {
    && c.programIndex < |accounts| && accounts[c.programIndex] == ix.program && c.data == ix.data
    && |c.accountIndexes| == |ix.accounts|
    && forall j | 0 <= j < |ix.accounts| ::
         c.accountIndexes[j] < |accounts| && accounts[c.accountIndexes[j]] == ix.accounts[j].key
  }

  /** What the chain library is relied on for when it compiles an instruction list: the payer
      is account 0, each key the list refers to is listed once, the header counts signers among
      the accounts, and every instruction keeps its program, accounts and data. */
  ghost predicate CompiledFrom(m: Message, ixs: seq<Instr>, payer: Address) {
    && |m.header| == 3 && m.header[0] <= |m.accounts|
    && m.accounts != [] && m.accounts[0] == payer
    && (forall i, j | 0 <= i < j < |m.accounts| :: m.accounts[i] != m.accounts[j])
    && (forall i | 0 <= i < |m.accounts| :: m.accounts[i] == payer || Referenced(m.accounts[i], ixs))
    && |m.instructions| == |ixs|
    && (forall i | 0 <= i < |ixs| :: CompiledInstruction(m.accounts, m.instructions[i], ixs[i]))
  }

  function AllKeys(p: Parties): set<Address> {
    {p.payer, p.mint, p.treasury, p.metadata, p.dest, SYSVAR_INSTRUCTIONS,
     SYSTEM_PROGRAM, TOKEN_PROGRAM, ATA_PROGRAM, METADATA_PROGRAM}
  }

  lemma {:induction false} DistinctFits(s: seq<Address>, keys: set<Address>)
    requires forall i, j | 0 <= i < j < |s| :: s[i] != s[j]
    requires forall i | 0 <= i < |s| :: s[i] in keys
    ensures |s| <= |keys|
  {
    if s != [] {
      DistinctFits(s[1..], keys - {s[0]});
    }
  }

  lemma TenKeys(p: Parties)
    ensures |AllKeys(p)| <= 10
  {
    hide Decoded;
    CardinalityStep({p.payer, p.mint, p.treasury, p.metadata, p.dest},
                    {SYSVAR_INSTRUCTIONS, SYSTEM_PROGRAM, TOKEN_PROGRAM, ATA_PROGRAM, METADATA_PROGRAM});
    assert AllKeys(p) == {p.payer, p.mint, p.treasury, p.metadata, p.dest}
                       + {SYSVAR_INSTRUCTIONS, SYSTEM_PROGRAM, TOKEN_PROGRAM, ATA_PROGRAM, METADATA_PROGRAM};
  }

  lemma CardinalityStep(a: set<Address>, b: set<Address>)
    ensures |a + b| <= |a| + |b|
  {
    assert |a + b| == |a| + |b| - |a * b|;
  }

  lemma KeysOfMint(p: Parties, s: MintSpec, k: Address)
    requires BuildMint(p, s).Some? && Referenced(k, BuildMint(p, s).value)
    ensures k in AllKeys(p)
  {
    hide Decoded, CreateData, LE, Scaled;
    var ixs := BuildMint(p, s).value;
    var i :| 0 <= i < |ixs|
      && (k == ixs[i].program || exists j | 0 <= j < |ixs[i].accounts| :: ixs[i].accounts[j].key == k);
    if i == 0 {
    } else if i == 1 {
    } else if i == 2 {
    } else {
    }
  }

  // ----- size

  lemma InstructionLength(ix: Instruction)
    requires |ix.accountIndexes| < 128 && |ix.data| < 16384
    ensures |PrintInstruction(ix)| <= 4 + |ix.accountIndexes| + |ix.data|
    ensures |ix.data| < 128 ==> |PrintInstruction(ix)| == 3 + |ix.accountIndexes| + |ix.data|
  {
    ShortVecCases(|ix.accountIndexes|);
    ShortVecCases(|ix.data|);
  }

  lemma DataLengths(p: Parties, s: MintSpec)
    requires ValidMetadata(s) && BuildMint(p, s).Some?
    ensures var ixs := BuildMint(p, s).value;
      && |ixs| == 5 && |ixs[0].accounts| == 9 && |ixs[0].data| <= 269
      && |ixs[1].accounts| == 6 && |ixs[1].data| == 1
      && |ixs[2].accounts| == 3 && |ixs[2].data| == 9
      && |ixs[3].accounts| == 2 && |ixs[3].data| == 3
      && |ixs[4].accounts| == 2 && |ixs[4].data| == 3
  {
    hide Decoded, CreateData, Scaled;
    CreateDataLength(s.name, s.symbol, s.uri, s.decimals);
  }

  lemma MintMessageSize(p: Parties, s: MintSpec, m: Message)
    requires ValidMetadata(s) && BuildMint(p, s).Some?
    requires CompiledFrom(m, BuildMint(p, s).value, p.payer)
    ensures WellFormed(m) && |PrintMessage(m)| <= 680
  {
    hide Referenced, ShortVec, PrintAddresses, PrintInstruction, BuildMint, AllKeys, PrintMessage;
    var ixs := BuildMint(p, s).value;
    DataLengths(p, s);
    forall i | 0 <= i < |m.accounts| ensures m.accounts[i] in AllKeys(p) {
      if m.accounts[i] != p.payer { KeysOfMint(p, s, m.accounts[i]); } else { PayerListed(p); }
    }
    TenKeys(p);
    DistinctFits(m.accounts, AllKeys(p));
    var c := m.instructions;
    forall i | 0 <= i < 5 ensures CompiledInstruction(m.accounts, c[i], ixs[i]) && |c[i].data| == |ixs[i].data| {
    }
    InstructionLength(c[0]);
    InstructionLength(c[1]);
    InstructionLength(c[2]);
    InstructionLength(c[3]);
    InstructionLength(c[4]);
    FiveInstructions(c);
    MessageLength(m);
  }

  lemma PayerListed(p: Parties)
    ensures p.payer in AllKeys(p)
  {
  }

  lemma FiveInstructions(c: seq<Instruction>)
    requires |c| == 5
    ensures |PrintInstructions(c)| == |PrintInstruction(c[0])| + |PrintInstruction(c[1])| + |PrintInstruction(c[2])|
                                    + |PrintInstruction(c[3])| + |PrintInstruction(c[4])|
  {
    hide PrintInstruction;
    PrintOne(c);
    PrintOne(c[1..]);
    PrintOne(c[2..]);
    PrintOne(c[3..]);
    PrintOne(c[4..]);
    assert c[1..][1..] == c[2..] && c[2..][1..] == c[3..] && c[3..][1..] == c[4..] && c[4..][1..] == [];
  }

  lemma PrintOne(c: seq<Instruction>)
    requires c != []
    ensures |PrintInstructions(c)| == |PrintInstruction(c[0])| + |PrintInstructions(c[1..])|
  {
  }

  lemma MessageLength(m: Message)
    requires |m.accounts| < 128 && |m.instructions| < 128
    ensures |PrintMessage(m)| == |m.header| + 34 + 32 * |m.accounts| + |PrintInstructions(m.instructions)|
  {
    hide PrintInstructions;
    AddressesLength(m.accounts);
    ShortVecCases(|m.accounts|);
    ShortVecCases(|m.instructions|);
  }

  // ----- approval

  /** Whatever message the library compiles from the mint's instruction list parses, fits the
      signer's limit with room to spare, and is approved for the payer's key. */
  lemma MintMessageApproved(p: Parties, s: MintSpec, m: Message)
    requires ValidMetadata(s) && BuildMint(p, s).Some?
    requires CompiledFrom(m, BuildMint(p, s).value, p.payer)
    ensures ParseTree(PrintMessage(m)) == Some(m)
    ensures |PrintMessage(m)| <= 680 <= Signer.MAX_PAYLOAD_BYTES
    ensures Approved(PrintMessage(m), p.payer)
  {
    hide BuildMint, ParseTree, PrintMessage, RuleOn, WellFormed;
    MintMessageSize(p, s, m);
    ParseTreeExact(PrintMessage(m), m);
    ApprovedOfPrint(m, p.payer);
    MintKeepsRule(p, s, m);
  }

  lemma MintKeepsRule(p: Parties, s: MintSpec, m: Message)
    requires BuildMint(p, s).Some? && CompiledFrom(m, BuildMint(p, s).value, p.payer)
    ensures RuleOn(m.accounts, ProjectInstructions(m.instructions))
  {
    hide Decoded, CreateData, LE, Scaled, Referenced, IsBase58;
    var ixs, c := BuildMint(p, s).value, ProjectInstructions(m.instructions);
    assert |c| == 5;
    forall i | 0 <= i < 5 ensures Invokes(m.accounts, c[i], ixs[i].program) && c[i].data == ixs[i].data {
      assert CompiledInstruction(m.accounts, m.instructions[i], ixs[i]);
    }
    var a := m.accounts;
    assert Invokes(a, c[0], METADATA_PROGRAM) && Invokes(a, c[1], ATA_PROGRAM);
    assert MintsTokens(a, c[2]);
    assert c[3].data == [6, 1, 0] && c[4].data == [6, 0, 0];
    assert Revokes(a, c[3], AUTHORITY_FREEZE_ACCOUNT) && Revokes(a, c[4], AUTHORITY_MINT_TOKENS);
    hide Invokes, MintsTokens, Revokes;
    forall ix | ix in c ensures Allowed(a, ix) {
      assert ix == c[0] || ix == c[1] || ix == c[2] || ix == c[3] || ix == c[4];
    }
    assert c[3] in c && c[4] in c;
  }

  /** So a signer holding the payer's key signs it. */
  lemma SignerSignsMint(p: Parties, s: MintSpec, m: Message, key: Signer.Key)
    requires ValidMetadata(s) && BuildMint(p, s).Some? && key.public == p.payer
    requires CompiledFrom(m, BuildMint(p, s).value, p.payer)
    ensures Signer.MaySign(key, PrintMessage(m))
  {
    hide BuildMint, ParseTree, PrintMessage, Approved, Signer.MaySign;
    MintMessageApproved(p, s, m);
    PrintNonEmpty(m);
    Signer.MaySignIsApproved(key, PrintMessage(m));
  }

  lemma PrintNonEmpty(m: Message)
    ensures |PrintMessage(m)| >= 1
  {
  }
}
