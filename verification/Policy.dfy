/** The signing policy of solana/solana.go: what the key may sign, as a rule over the parsed
    message, and the loop that decides it. */
module Policy {
  import opened Basics
  import opened Wire
  import opened MessageReader
  import opened Programs
  import opened Base58
  import opened Borsh

  const SPL_MINT_TO: Byte := 7
  const SPL_SET_AUTHORITY: Byte := 6
  const AUTHORITY_MINT_TOKENS: Byte := 0
  const AUTHORITY_FREEZE_ACCOUNT: Byte := 1
  const SYSTEM_CREATE_ACCOUNT: nat := 0
  const SYSTEM_TRANSFER: nat := 2
  const SYSTEM_TRANSFER_WITH_SEED: nat := 11

  // ----- the rule

  predicate IsCreateAccount(data: seq<Byte>) { |data| >= 4 && data[..4] == [0, 0, 0, 0] }

  predicate IsMintTo(data: seq<Byte>) { |data| >= 1 && data[0] == SPL_MINT_TO }

  /** SetAuthority to nobody. */
  predicate IsRevoke(data: seq<Byte>, authority: Byte) {
    |data| >= 3 && data[..3] == [SPL_SET_AUTHORITY, authority, 0]
  }

  predicate Invokes(accounts: seq<Address>, ix: ParsedInstruction, program: Address) {
    ix.programIndex < |accounts| && accounts[ix.programIndex] == program
  }

  predicate MintsTokens(accounts: seq<Address>, ix: ParsedInstruction) {
    Invokes(accounts, ix, TOKEN_PROGRAM) && IsMintTo(ix.data)
  }

  predicate Revokes(accounts: seq<Address>, ix: ParsedInstruction, authority: Byte) {
    Invokes(accounts, ix, TOKEN_PROGRAM) && IsRevoke(ix.data, authority)
  }

  predicate Allowed(accounts: seq<Address>, ix: ParsedInstruction) {
    || (Invokes(accounts, ix, SYSTEM_PROGRAM) && IsCreateAccount(ix.data))
    || MintsTokens(accounts, ix)
    || Revokes(accounts, ix, AUTHORITY_MINT_TOKENS)
    || Revokes(accounts, ix, AUTHORITY_FREEZE_ACCOUNT)
    || Invokes(accounts, ix, ATA_PROGRAM)
    || Invokes(accounts, ix, METADATA_PROGRAM)
  }

  predicate SomeRevoke(accounts: seq<Address>, ixs: seq<ParsedInstruction>, authority: Byte) {
    exists ix | ix in ixs :: Revokes(accounts, ix, authority)
  }

  predicate RuleOn(accounts: seq<Address>, ixs: seq<ParsedInstruction>) {
    && (forall ix | ix in ixs :: Allowed(accounts, ix))
    && ((exists ix | ix in ixs :: MintsTokens(accounts, ix)) ==>
          SomeRevoke(accounts, ixs, AUTHORITY_MINT_TOKENS) && SomeRevoke(accounts, ixs, AUTHORITY_FREEZE_ACCOUNT))
  }

  /** The key pays for the message, every instruction is on the allow-list, and a message that
      mints also revokes both authorities. */
  predicate Rule(m: Parsed, payer: seq<Byte>) {
    m.accounts != [] && m.accounts[0] == payer && RuleOn(m.accounts, m.instructions)
  }

  /** A payload the policy approves: the printed form of a legacy message that keeps the rule. */
  ghost predicate Approved(payload: seq<Byte>, payer: seq<Byte>) {
    exists m: Message :: WellFormed(m) && payload == PrintMessage(m) && Rule(Project(m), payer)
  }

  lemma ApprovedIffParsed(payload: seq<Byte>, payer: seq<Byte>)
    ensures Approved(payload, payer)
       <==> ParseTree(payload).Some? && Rule(Project(ParseTree(payload).value), payer)
  {
    hide ParseTree, PrintMessage, Rule;
    if Approved(payload, payer) {
      var m: Message :| WellFormed(m) && payload == PrintMessage(m) && Rule(Project(m), payer);
      ParseTreeExact(payload, m);
    }
    if ParseTree(payload).Some? && Rule(Project(ParseTree(payload).value), payer) {
      ParseTreeExact(payload, ParseTree(payload).value);
    }
  }

  // ----- the classifiers

  function ApproveSystem(data: seq<Byte>): (ok: bool)
    ensures ok <==> IsCreateAccount(data)
  {
    if |data| < 4 then false
    else
      FourBytes(data);
      var kind := FromLE(data[..4]);
      if kind == SYSTEM_CREATE_ACCOUNT then true
      else if kind == SYSTEM_TRANSFER || kind == SYSTEM_TRANSFER_WITH_SEED then false
      else false
  }

  lemma FourBytes(data: seq<Byte>)
    requires |data| >= 4
    ensures FromLE(data[..4]) == SYSTEM_CREATE_ACCOUNT <==> IsCreateAccount(data)
  {
    LEOfFromLE(data[..4]);
    assert LE(0, 4) == [0, 0, 0, 0];
    assert FromLE([0, 0, 0, 0]) == 0 by { FromLEOfLE(0, 4); }
  }

  datatype TokenKind = MintTo | RevokeMint | RevokeFreeze

  function ApproveToken(data: seq<Byte>): (kind: Option<TokenKind>)
    ensures kind == Some(MintTo) <==> IsMintTo(data)
    ensures kind == Some(RevokeMint) <==> IsRevoke(data, AUTHORITY_MINT_TOKENS)
    ensures kind == Some(RevokeFreeze) <==> IsRevoke(data, AUTHORITY_FREEZE_ACCOUNT)
  {
    if |data| == 0 then None
    else if data[0] == SPL_MINT_TO then Some(MintTo)
    else if data[0] == SPL_SET_AUTHORITY then
      if |data| < 3 then None
      else if data[2] != 0 then None
      else if data[1] == AUTHORITY_MINT_TOKENS then Some(RevokeMint)
      else if data[1] == AUTHORITY_FREEZE_ACCOUNT then Some(RevokeFreeze)
      else None
    else None
  }

  /** The policy object; its payer is rebound when a key is unlocked. */
  class SolanaPolicy {
    var payer: seq<Byte>

    constructor ()
      ensures payer == []
    {
      payer := [];
    }

    method BindKey(pub: seq<Byte>)
      modifies this
      ensures payer == pub
    {
      payer := pub;
    }

    method Approve(payload: seq<Byte>) returns (ok: bool)
      ensures ok <==> Approved(payload, payer)
    {
      hide ParseTree, Rule;
      ApprovedIffParsed(payload, payer);
      var parsed := ParseMessage(payload);
      if parsed.None? { return false; }
      ok := Decide(parsed.value);
    }

    method Decide(msg: Parsed) returns (ok: bool)
      ensures ok <==> Rule(msg, payer)
    {
      if |msg.accounts| == 0 { return false; }
      if msg.accounts[0] != payer { return false; }
      ok := Scan(msg.accounts, msg.instructions);
    }

    /** The instruction loop with its three counters. */
    static method Scan(accounts: seq<Address>, ixs: seq<ParsedInstruction>) returns (ok: bool)
      ensures ok <==> RuleOn(accounts, ixs)
    {
      hide Allowed, MintsTokens, Revokes, Classify;
      var mints, revokedMint, revokedFreeze := 0, 0, 0;
      var i := 0;
      while i < |ixs|
        invariant 0 <= i <= |ixs| && mints >= 0 && revokedMint >= 0 && revokedFreeze >= 0
        invariant forall k | 0 <= k < i :: Allowed(accounts, ixs[k])
        invariant mints > 0 <==> exists k | 0 <= k < i :: MintsTokens(accounts, ixs[k])
        invariant revokedMint > 0 <==> exists k | 0 <= k < i :: Revokes(accounts, ixs[k], AUTHORITY_MINT_TOKENS)
        invariant revokedFreeze > 0 <==> exists k | 0 <= k < i :: Revokes(accounts, ixs[k], AUTHORITY_FREEZE_ACCOUNT)
      {
        ClassifyExact(accounts, ixs[i]);
        var kind := Classify(accounts, ixs[i]);
        if kind == Refused { return false; }
        if kind == Token(MintTo) { mints := mints + 1; }
        if kind == Token(RevokeMint) { revokedMint := revokedMint + 1; }
        if kind == Token(RevokeFreeze) { revokedFreeze := revokedFreeze + 1; }
        i := i + 1;
      }
      if mints > 0 {
        if revokedMint < 1 { return false; }
        if revokedFreeze < 1 { return false; }
      }
      return true;
    }
  }

  datatype Verdict = Refused | Token(kind: TokenKind) | Harmless

  /** One turn of the instruction loop. */
  function Classify(accounts: seq<Address>, ix: ParsedInstruction): Verdict {
    if ix.programIndex >= |accounts| then Refused
    else
      var prog := accounts[ix.programIndex];
      if prog == SYSTEM_PROGRAM then (if ApproveSystem(ix.data) then Harmless else Refused)
      else if prog == TOKEN_PROGRAM then
        match ApproveToken(ix.data) { case Some(k) => Token(k) case None => Refused }
      else if prog == ATA_PROGRAM || prog == METADATA_PROGRAM then Harmless
      else Refused
  }

  lemma ClassifyExact(accounts: seq<Address>, ix: ParsedInstruction)
    ensures Classify(accounts, ix).Refused? <==> !Allowed(accounts, ix)
    ensures Classify(accounts, ix) == Token(MintTo) <==> MintsTokens(accounts, ix)
    ensures Classify(accounts, ix) == Token(RevokeMint) <==> Revokes(accounts, ix, AUTHORITY_MINT_TOKENS)
    ensures Classify(accounts, ix) == Token(RevokeFreeze) <==> Revokes(accounts, ix, AUTHORITY_FREEZE_ACCOUNT)
  {
    hide Decoded, IsBase58, IsMintTo, IsRevoke, IsCreateAccount, ApproveToken, ApproveSystem;
    ProgramsDistinct();
    KindsDisjoint(ix.data);
    match ApproveToken(ix.data) {
      case None =>
      case Some(MintTo) =>
      case Some(RevokeMint) =>
      case Some(RevokeFreeze) =>
    }
  }

  /** The allow-list, byte by byte: the account-creating System instruction, minting, revoking to
      nobody, and the two programs that create token accounts and write metadata. */
  lemma AllowedBytes(accounts: seq<Address>, ix: ParsedInstruction)
    ensures Allowed(accounts, ix) <==>
      && ix.programIndex < |accounts|
      && var program, d := accounts[ix.programIndex], ix.data;
         || program == ATA_PROGRAM
         || program == METADATA_PROGRAM
         || (program == SYSTEM_PROGRAM && |d| >= 4 && d[0] == d[1] == d[2] == d[3] == 0)
         || (program == TOKEN_PROGRAM
             && |d| >= 1 && (d[0] == 7 || (d[0] == 6 && |d| >= 3 && (d[1] == 0 || d[1] == 1) && d[2] == 0)))
  {
    hide Decoded, IsBase58;
    var d := ix.data;
    if |d| >= 4 { assert d[..4] == [d[0], d[1], d[2], d[3]]; }
    if |d| >= 3 { assert d[..3] == [d[0], d[1], d[2]]; }
  }

  /** A versioned message is never approved, whoever pays. */
  lemma VersionedIsRefused(payload: seq<Byte>, payer: seq<Byte>)
    requires payload == [] || payload[0] >= 128
    ensures !Approved(payload, payer)
  {
    hide Rule;
    forall m: Message | WellFormed(m) ensures payload != PrintMessage(m) {
      assert PrintMessage(m)[0] == m.header[0];
    }
  }

  lemma KindsDisjoint(data: seq<Byte>)
    ensures !(IsMintTo(data) && IsRevoke(data, AUTHORITY_MINT_TOKENS))
    ensures !(IsMintTo(data) && IsRevoke(data, AUTHORITY_FREEZE_ACCOUNT))
    ensures !(IsRevoke(data, AUTHORITY_MINT_TOKENS) && IsRevoke(data, AUTHORITY_FREEZE_ACCOUNT))
  {
  }

  // ----- what the rule does and does not see

  /** The verdict does not depend on the order of the instructions. */
  lemma VerdictIgnoresOrder(m: Message, m': Message, payer: seq<Byte>)
    requires WellFormed(m) && WellFormed(m') && m.accounts == m'.accounts
    requires multiset(m.instructions) == multiset(m'.instructions)
    ensures Approved(PrintMessage(m), payer) <==> Approved(PrintMessage(m'), payer)
  {
    SameMembersSameRule(m, m');
    ApprovedOfPrint(m, payer);
    ApprovedOfPrint(m', payer);
  }

  lemma SameMembersSameRule(m: Message, m': Message)
    requires multiset(m.instructions) == multiset(m'.instructions)
    ensures RuleOn(m.accounts, ProjectInstructions(m.instructions))
       <==> RuleOn(m.accounts, ProjectInstructions(m'.instructions))
  {
    hide Allowed, MintsTokens, Revokes;
    var a, b := ProjectInstructions(m.instructions), ProjectInstructions(m'.instructions);
    ProjectedMember(m.instructions, m'.instructions);
    ProjectedMember(m'.instructions, m.instructions);
    assert forall ix :: ix in a <==> ix in b;
  }

  lemma ProjectedMember(xs: seq<Instruction>, ys: seq<Instruction>)
    requires multiset(xs) == multiset(ys)
    ensures forall ix | ix in ProjectInstructions(xs) :: ix in ProjectInstructions(ys)
  {
    var a, b := ProjectInstructions(xs), ProjectInstructions(ys);
    forall ix | ix in a ensures ix in b {
      var i :| 0 <= i < |xs| && a[i] == ix;
      assert xs[i] in multiset(ys);
      var j :| 0 <= j < |ys| && ys[j] == xs[i];
      assert b[j] == ix;
    }
  }

  lemma ApprovedOfPrint(m: Message, payer: seq<Byte>)
    requires WellFormed(m)
    ensures Approved(PrintMessage(m), payer) <==> Rule(Project(m), payer)
  {
    hide ParseTree, PrintMessage, Rule;
    ApprovedIffParsed(PrintMessage(m), payer);
    ParseTreeExact(PrintMessage(m), m);
  }

  /** Joining two approved instruction lists over the same accounts gives an approved list. */
  lemma ApprovedClosedUnderConcatenation(m: Message, m': Message, payer: seq<Byte>)
    requires WellFormed(m) && WellFormed(m') && m.accounts == m'.accounts
    requires |m.instructions| + |m'.instructions| <= MAX_LEN
    requires Approved(PrintMessage(m), payer) && Approved(PrintMessage(m'), payer)
    ensures Approved(PrintMessage(m.(instructions := m.instructions + m'.instructions)), payer)
  {
    hide RuleOn, Approved, PrintMessage;
    var j := m.(instructions := m.instructions + m'.instructions);
    ApprovedOfPrint(m, payer);
    ApprovedOfPrint(m', payer);
    ApprovedOfPrint(j, payer);
    assert ProjectInstructions(j.instructions)
        == ProjectInstructions(m.instructions) + ProjectInstructions(m'.instructions);
    RuleOnConcatenation(m.accounts, ProjectInstructions(m.instructions), ProjectInstructions(m'.instructions));
  }

  lemma RuleOnConcatenation(accounts: seq<Address>, a: seq<ParsedInstruction>, b: seq<ParsedInstruction>)
    requires RuleOn(accounts, a) && RuleOn(accounts, b)
    ensures RuleOn(accounts, a + b)
  {
    hide Allowed, MintsTokens, Revokes;
    assert forall ix :: ix in a + b <==> ix in a || ix in b;
  }

  /** The verdict reads nothing but the account list, the program indexes and the data: in
      particular it does not relate the mint being minted to the mint being revoked. */
  lemma VerdictIgnoresAccountIndexes(m: Message, m': Message, payer: seq<Byte>)
    requires WellFormed(m) && WellFormed(m') && m.accounts == m'.accounts
    requires |m.instructions| == |m'.instructions|
    requires forall i | 0 <= i < |m.instructions| ::
               && m.instructions[i].programIndex == m'.instructions[i].programIndex
               && m.instructions[i].data == m'.instructions[i].data
    ensures Approved(PrintMessage(m), payer) <==> Approved(PrintMessage(m'), payer)
  {
    assert Project(m) == Project(m');
    ApprovedOfPrint(m, payer);
    ApprovedOfPrint(m', payer);
  }
}
