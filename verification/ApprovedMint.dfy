/** What an approval is worth on the ledger: when a message the signer approves leaves what it mints
    beyond anybody's reach, and when it does not. */
module ApprovedMint {
  import opened Basics
  import opened Wire
  import opened MessageReader
  import opened Programs
  import opened Base58
  import opened Borsh
  import opened Policy
  import opened AtomicMint
  import opened MintMessage
  import L = Ledger
  import R = Revocation

  // ----- what a message does to the ledger

  function View(ix: Instruction): ParsedInstruction { ParsedInstruction(ix.programIndex, ix.data) }

  predicate InRange(m: Message, ix: Instruction) {
    ix.programIndex < |m.accounts| && forall j | 0 <= j < |ix.accountIndexes| :: ix.accountIndexes[j] < |m.accounts|
  }

  /** The instruction with its indexes looked up; the first header[0] accounts sign. */
  function Resolve(m: Message, ix: Instruction): Instr
    requires InRange(m, ix) && m.header != []
  {
    Instr(m.accounts[ix.programIndex],
          seq(|ix.accountIndexes|, j requires 0 <= j < |ix.accountIndexes| =>
            Meta(m.accounts[ix.accountIndexes[j]], ix.accountIndexes[j] < m.header[0])),
          ix.data)
  }

  /** What the Metadata and associated-token-account programs do with instructions other than Create
      and CreateIdempotent is not part of the source, which counts on one thing: that they carry no
      authority over funds. A reading gives such an instruction any operation of that kind, or none
      when it fails. */
  type Reading = Instr -> Option<L.Op>

  ghost predicate Benign(other: Reading) { forall i: Instr :: other(i).Some? ==> R.Harmless(other(i).value) }

  predicate Foreign(i: Instr) { i.program == ATA_PROGRAM || i.program == METADATA_PROGRAM }

  function OpOf(m: Message, ix: Instruction, other: Reading): Option<L.Op>
    requires m.header != []
  {
    if !InRange(m, ix) then None
    else
      var i := Resolve(m, ix);
      if Meaning(i).None? && Foreign(i) then other(i) else Meaning(i)
  }

  /** The operations of a message, if every instruction has one. */
  function OpsOf(m: Message, ixs: seq<Instruction>, other: Reading): Option<seq<L.Op>>
    requires m.header != []
  {
    if ixs == [] then Some([])
    else
      var op :- OpOf(m, ixs[0], other);
      var rest :- OpsOf(m, ixs[1..], other);
      Some([op] + rest)
  }

  lemma {:induction false} OpsEach(m: Message, ixs: seq<Instruction>, other: Reading)
    requires m.header != [] && OpsOf(m, ixs, other).Some?
    ensures var ops := OpsOf(m, ixs, other).value;
      |ops| == |ixs| && forall i | 0 <= i < |ixs| :: OpOf(m, ixs[i], other) == Some(ops[i])
    decreases |ixs|
  {
    hide OpOf;
    if ixs != [] { OpsEach(m, ixs[1..], other); }
  }

  function SignersOfMessage(m: Message): set<Address>
    requires m.header != []
  {
    set i | 0 <= i < |m.accounts| && i < m.header[0] as int :: m.accounts[i]
  }

  // ----- the condition, read off the message

  /** The first account an instruction names; for a Token instruction, the mint it is about. */
  function Subject(m: Message, ix: Instruction): Option<Address> {
    if ix.accountIndexes != []
      && ix.accountIndexes[0] < |m.accounts| then Some(m.accounts[ix.accountIndexes[0]]) else None
  }

  predicate RevokesSubject(m: Message, r: Instruction, subject: Option<Address>, authority: Byte) {
    Revokes(m.accounts, View(r), authority) && Subject(m, r) == subject
  }

  predicate SubjectRevoked(m: Message, subject: Option<Address>, authority: Byte) {
    exists r | r in m.instructions :: RevokesSubject(m, r, subject, authority)
  }

  /** Both authorities of every mint the message mints are revoked in it. */
  predicate Covered(m: Message) {
    forall ix | ix in m.instructions && MintsTokens(m.accounts, View(ix)) ::
      && SubjectRevoked(m, Subject(m, ix), AUTHORITY_MINT_TOKENS)
      && SubjectRevoked(m, Subject(m, ix), AUTHORITY_FREEZE_ACCOUNT)
  }

  /** All Token instructions are about one mint. */
  predicate OneSubject(m: Message) {
    forall x, y | x in m.instructions && y in m.instructions ::
      Invokes(m.accounts, View(x), TOKEN_PROGRAM) && Invokes(m.accounts, View(y), TOKEN_PROGRAM) ==>
        Subject(m, x) == Subject(m, y)
  }

  function KindOf(authority: Byte): L.AuthorityKind {
    if authority == AUTHORITY_MINT_TOKENS then L.MintTokens else L.FreezeAccounts
  }

  /** An allowed instruction does to the ledger what the policy takes it for. */
  lemma AllowedOp(m: Message, ix: Instruction, other: Reading)
    requires Benign(other) && m.header != [] && OpOf(m, ix, other).Some? && Allowed(m.accounts, View(ix))
    ensures var op := OpOf(m, ix, other).value;
      && R.Plain(op)
      && (MintsTokens(m.accounts, View(ix)) <==> op.MintTo?)
      && (Revokes(m.accounts, View(ix), AUTHORITY_MINT_TOKENS) <==> op.SetAuthority? && op.kind.MintTokens?)
      && (Revokes(m.accounts, View(ix), AUTHORITY_FREEZE_ACCOUNT) <==> op.SetAuthority? && op.kind.FreezeAccounts?)
      && (op.MintTo? || op.SetAuthority? ==> Subject(m, ix) == Some(op.mint))
  {
    hide Decoded, IsBase58, DecodeCreate, FromLE;
    ProgramsDistinct();
    var i := Resolve(m, ix);
    assert i.accounts != [] ==> Subject(m, ix) == Some(i.accounts[0].key);
  }

  ghost predicate AllAllowed(m: Message) { forall ix | ix in m.instructions :: Allowed(m.accounts, View(ix)) }

  lemma ApprovedIsAllowed(m: Message, payer: seq<Byte>)
    requires WellFormed(m) && Approved(PrintMessage(m), payer)
    ensures AllAllowed(m) && RuleOn(m.accounts, ProjectInstructions(m.instructions))
  {
    hide Allowed, MintsTokens, Revokes, PrintMessage, Approved;
    ApprovedOfPrint(m, payer);
    var c := ProjectInstructions(m.instructions);
    forall ix | ix in m.instructions ensures Allowed(m.accounts, View(ix)) {
      var i :| 0 <= i < |m.instructions| && m.instructions[i] == ix;
      assert c[i] == View(ix) && c[i] in c;
    }
  }

  lemma OpsArePlain(m: Message, other: Reading)
    requires Benign(other) && m.header != [] && AllAllowed(m) && OpsOf(m, m.instructions, other).Some?
    ensures R.AllPlain(OpsOf(m, m.instructions, other).value)
  {
    hide OpOf, OpsOf, Allowed, MintsTokens, Revokes, R.Plain;
    OpsEach(m, m.instructions, other);
    var ops := OpsOf(m, m.instructions, other).value;
    forall i | 0 <= i < |ops| ensures R.Plain(ops[i]) {
      AllowedOp(m, m.instructions[i], other);
    }
  }

  lemma RevokeMatches(m: Message, a: Address, authority: Byte, other: Reading)
    requires Benign(other) && m.header != [] && AllAllowed(m) && OpsOf(m, m.instructions, other).Some?
    requires authority == AUTHORITY_MINT_TOKENS || authority == AUTHORITY_FREEZE_ACCOUNT
    ensures SubjectRevoked(m, Some(a), authority)
      <==> R.SomeRevoke(OpsOf(m, m.instructions, other).value, a, KindOf(authority))
  {
    hide OpOf, OpsOf, Allowed, MintsTokens, Revokes, Subject;
    var ixs, ops := m.instructions, OpsOf(m, m.instructions, other).value;
    OpsEach(m, ixs, other);
    forall i | 0 <= i < |ixs| ensures RevokesSubject(m, ixs[i], Some(a), authority)
      <==> R.Revokes(ops[i], a, KindOf(authority)) {
      AllowedOp(m, ixs[i], other);
    }
    if SubjectRevoked(m, Some(a), authority) {
      var r :| r in ixs && RevokesSubject(m, r, Some(a), authority);
      var i :| 0 <= i < |ixs| && ixs[i] == r;
      assert R.Revokes(ops[i], a, KindOf(authority));
    }
    if R.SomeRevoke(ops, a, KindOf(authority)) {
      var i :| 0 <= i < |ops| && R.Revokes(ops[i], a, KindOf(authority));
      assert ixs[i] in ixs && RevokesSubject(m, ixs[i], Some(a), authority);
    }
  }

  lemma CoveredIffRevoked(m: Message, other: Reading)
    requires Benign(other) && m.header != [] && AllAllowed(m) && OpsOf(m, m.instructions, other).Some?
    ensures Covered(m) <==> R.AllRevoked(OpsOf(m, m.instructions, other).value)
  {
    hide OpOf, OpsOf, Allowed, MintsTokens, Revokes, SubjectRevoked, R.SomeRevoke, Subject;
    var ixs, ops := m.instructions, OpsOf(m, m.instructions, other).value;
    OpsEach(m, ixs, other);
    forall i | 0 <= i < |ixs| ensures
      && (MintsTokens(m.accounts, View(ixs[i])) <==> ops[i].MintTo?)
      && (ops[i].MintTo? ==> Subject(m, ixs[i]) == Some(ops[i].mint))
    {
      AllowedOp(m, ixs[i], other);
    }
    forall a ensures
      && (SubjectRevoked(m, Some(a), AUTHORITY_MINT_TOKENS) <==> R.SomeRevoke(ops, a, L.MintTokens))
      && (SubjectRevoked(m, Some(a), AUTHORITY_FREEZE_ACCOUNT) <==> R.SomeRevoke(ops, a, L.FreezeAccounts))
    {
      RevokeMatches(m, a, AUTHORITY_MINT_TOKENS, other);
      RevokeMatches(m, a, AUTHORITY_FREEZE_ACCOUNT, other);
    }
    if Covered(m) {
      forall a | R.SomeMint(ops, a)
        ensures R.SomeRevoke(ops, a, L.MintTokens) && R.SomeRevoke(ops, a, L.FreezeAccounts) {
        var i :| 0 <= i < |ops| && R.Mints(ops[i], a);
        assert ixs[i] in ixs && MintsTokens(m.accounts, View(ixs[i]));
      }
    }
    if R.AllRevoked(ops) {
      forall ix | ix in ixs && MintsTokens(m.accounts, View(ix)) ensures
        && SubjectRevoked(m, Subject(m, ix), AUTHORITY_MINT_TOKENS)
        && SubjectRevoked(m, Subject(m, ix), AUTHORITY_FREEZE_ACCOUNT)
      {
        var i :| 0 <= i < |ixs| && ixs[i] == ix;
        assert R.Mints(ops[i], ops[i].mint);
      }
    }
  }

  // ----- what the policy exists to stop

  /** Moving lamports or tokens, burning, delegating, freezing, closing, and handing over an
      authority or an account. */
  predicate Stopped(op: L.Op) {
    || op.PayLamports? || op.Transfer? || op.Burn? || op.Delegate? || op.SetFrozen? || op.CloseAccount? || op.SetOwner?
    || (op.SetAuthority? && op.newAuthority.Some?)
  }

  /** No approved message carries an instruction with one of these meanings, or for a fifth program. */
  lemma ApprovedNeverCarries(m: Message, payer: seq<Byte>, ix: Instruction)
    requires WellFormed(m) && Approved(PrintMessage(m), payer) && ix in m.instructions && InRange(m, ix)
    ensures m.accounts[ix.programIndex] in {SYSTEM_PROGRAM, TOKEN_PROGRAM, ATA_PROGRAM, METADATA_PROGRAM}
    ensures Meaning(Resolve(m, ix)).Some? ==> !Stopped(Meaning(Resolve(m, ix)).value)
  {
    hide PrintMessage, Approved, RuleOn;
    ApprovedIsAllowed(m, payer);
    AllowedIsHarmless(m, ix);
  }

  lemma AllowedIsHarmless(m: Message, ix: Instruction)
    requires m.header != [] && Allowed(m.accounts, View(ix)) && InRange(m, ix)
    ensures m.accounts[ix.programIndex] in {SYSTEM_PROGRAM, TOKEN_PROGRAM, ATA_PROGRAM, METADATA_PROGRAM}
    ensures Meaning(Resolve(m, ix)).Some? ==> !Stopped(Meaning(Resolve(m, ix)).value)
  {
    AllowedBytes(m.accounts, View(ix));
    hide Decoded, IsBase58, DecodeCreate, FromLE, Allowed;
    ProgramsDistinct();
    var i := Resolve(m, ix);
    if i.program == TOKEN_PROGRAM {
      TokenDataIsHarmless(i);
    } else if i.program == SYSTEM_PROGRAM {
      assert SystemMeaning(i).Some? ==> SystemMeaning(i).value.Fund?;
    }
  }

  lemma TokenDataIsHarmless(i: Instr)
    requires |i.data| >= 1
    requires i.data[0] == 7 || (i.data[0] == 6 && |i.data| >= 3 && i.data[2] == 0)
    ensures TokenMeaning(i).Some? ==> !Stopped(TokenMeaning(i).value)
  {
    hide FromLE;
  }

  /** So wherever an approved message succeeds, no token account loses tokens or changes hands, no
      mint loses supply or gets a new authority, no account that existed gains lamports, and nobody
      but a signer pays any. */
  lemma ApprovedTakesNothing(m: Message, payer: seq<Byte>, l: L.Ledger, other: Reading)
    requires Benign(other) && WellFormed(m) && Approved(PrintMessage(m), payer)
    requires OpsOf(m, m.instructions, other).Some?
    requires L.ExecAll(l, OpsOf(m, m.instructions, other).value, SignersOfMessage(m)).Some?
    ensures R.Spared(l, L.ExecAll(l, OpsOf(m, m.instructions, other).value, SignersOfMessage(m)).value,
                     SignersOfMessage(m))
  {
    hide PrintMessage, Approved, OpsOf, RuleOn, SignersOfMessage, R.Spared;
    ApprovedIsAllowed(m, payer);
    OpsArePlain(m, other);
    R.PlainListSpares(l, OpsOf(m, m.instructions, other).value, SignersOfMessage(m));
  }

  // ----- exactly when approval gives a finished token

  /** An approved message that can succeed at all leaves everything it mints without a mint or freeze
      authority, on every ledger it succeeds on, if and only if it revokes both authorities of every
      mint it mints. Approval alone does not check this. */
  lemma ApprovalSettlesIffCovered(m: Message, payer: seq<Byte>, l: L.Ledger, other: Reading)
    requires Benign(other) && WellFormed(m) && Approved(PrintMessage(m), payer) && OpsOf(m, m.instructions, other).Some?
    requires L.ExecAll(l, OpsOf(m, m.instructions, other).value, SignersOfMessage(m)).Some?
    ensures R.AlwaysSettled(OpsOf(m, m.instructions, other).value, SignersOfMessage(m)) <==> Covered(m)
  {
    hide PrintMessage, Approved, OpsOf, RuleOn, Covered, SignersOfMessage;
    ApprovedIsAllowed(m, payer);
    OpsArePlain(m, other);
    CoveredIffRevoked(m, other);
    R.SettledIffRevoked(l, OpsOf(m, m.instructions, other).value, SignersOfMessage(m));
  }

  /** When all Token instructions are about one mint, the policy's counting is enough. */
  lemma OneSubjectIsCovered(m: Message, payer: seq<Byte>)
    requires WellFormed(m) && Approved(PrintMessage(m), payer) && OneSubject(m)
    ensures Covered(m)
  {
    hide PrintMessage, Approved, Invokes, IsMintTo, IsRevoke, Subject;
    ApprovedIsAllowed(m, payer);
    forall ix | ix in m.instructions && MintsTokens(m.accounts, View(ix)) ensures
      && SubjectRevoked(m, Subject(m, ix), AUTHORITY_MINT_TOKENS)
      && SubjectRevoked(m, Subject(m, ix), AUTHORITY_FREEZE_ACCOUNT)
    {
      ViewListed(m, ix);
      RevokedSubject(m, ix, AUTHORITY_MINT_TOKENS);
      RevokedSubject(m, ix, AUTHORITY_FREEZE_ACCOUNT);
    }
  }

  lemma ViewListed(m: Message, ix: Instruction)
    requires ix in m.instructions
    ensures View(ix) in ProjectInstructions(m.instructions)
  {
    var i :| 0 <= i < |m.instructions| && m.instructions[i] == ix;
    assert ProjectInstructions(m.instructions)[i] == View(ix);
  }

  lemma RevokedSubject(m: Message, ix: Instruction, authority: Byte)
    requires OneSubject(m) && ix in m.instructions && Invokes(m.accounts, View(ix), TOKEN_PROGRAM)
    requires SomeRevoke(m.accounts, ProjectInstructions(m.instructions), authority)
    ensures SubjectRevoked(m, Subject(m, ix), authority)
  {
    hide Invokes, IsRevoke, Subject;
    var c := ProjectInstructions(m.instructions);
    var v :| v in c && Revokes(m.accounts, v, authority);
    var i :| 0 <= i < |c| && c[i] == v;
    assert m.instructions[i] in m.instructions && View(m.instructions[i]) == v;
    assert RevokesSubject(m, m.instructions[i], Subject(m, ix), authority);
  }

  /** What the signer's approval is for: if all Token instructions of an approved message are about
      one mint, or more generally if it is covered, then wherever it succeeds nobody can ever mint
      more of what it minted or freeze a holder, whatever is submitted later. */
  lemma CoveredMintIsForever(m: Message, payer: seq<Byte>, l: L.Ledger, a: Address, later: seq<L.Transaction>,
                             other: Reading)
    requires Benign(other) && WellFormed(m) && Approved(PrintMessage(m), payer) && (OneSubject(m) || Covered(m))
    requires OpsOf(m, m.instructions, other).Some? && R.SomeMint(OpsOf(m, m.instructions, other).value, a)
      && L.Conserved(l)
    requires L.ExecAll(l, OpsOf(m, m.instructions, other).value, SignersOfMessage(m)).Some?
    ensures var l' := L.ExecAll(l, OpsOf(m, m.instructions, other).value, SignersOfMessage(m)).value;
      && a in l'.mints && L.Finished(L.History(l', later), a, l'.mints[a].supply, FrozenIn(l'))
      && L.Held(L.History(l', later), a) == L.History(l', later).mints[a].supply <= l'.mints[a].supply
  {
    hide PrintMessage, Approved, OpsOf, OneSubject, Covered, SignersOfMessage, L.ExecAll, L.Conserved, L.History,
      L.Held;
    if OneSubject(m) { OneSubjectIsCovered(m, payer); }
    ApprovalSettlesIffCovered(m, payer, l, other);
    var ops, signers := OpsOf(m, m.instructions, other).value, SignersOfMessage(m);
    var l' := L.ExecAll(l, ops, signers).value;
    assert R.Settled(l', ops);
    assert R.Vacant(l', a, L.MintTokens) && R.Vacant(l', a, L.FreezeAccounts);
    L.ExecAllConserves(l, ops, signers);
    L.FinishedForever(l', later, a, l'.mints[a].supply, FrozenIn(l'));
  }

  ghost function FrozenIn(l: L.Ledger): set<Address> { set a | a in l.accounts && l.accounts[a].frozen }

  /** The message compiled from the mint's own instruction list is about one mint. */
  lemma MintMessageHasOneSubject(p: Parties, s: MintSpec, m: Message)
    requires BuildMint(p, s).Some? && CompiledFrom(m, BuildMint(p, s).value, p.payer)
    ensures OneSubject(m)
  {
    hide Decoded, IsBase58, CreateData, LE, Scaled, Referenced;
    var ixs := BuildMint(p, s).value;
    ProgramsDistinct();
    forall x | x in m.instructions && Invokes(m.accounts, View(x), TOKEN_PROGRAM)
      ensures Subject(m, x) == Some(p.mint) {
      var i :| 0 <= i < |ixs| && m.instructions[i] == x;
      assert CompiledInstruction(m.accounts, x, ixs[i]);
      assert i >= 2 && ixs[i].accounts[0].key == p.mint;
    }
  }

  // ----- the bytes that are signed are the transaction that lands

  /** The payer and the mint key, in this order, are the signing accounts. */
  predicate SignedByBoth(m: Message, p: Parties) {
    |m.header| == 3 && m.header[0] == 2 && |m.accounts| >= 2 && m.accounts[0] == p.payer && m.accounts[1] == p.mint
  }

  /** An instruction's meaning does not depend on which accounts are marked as signers. */
  lemma MeaningIgnoresFlags(x: Instr, y: Instr)
    requires x.program == y.program && x.data == y.data && |x.accounts| == |y.accounts|
    requires forall j | 0 <= j < |x.accounts| :: x.accounts[j].key == y.accounts[j].key
    ensures Meaning(x) == Meaning(y)
  {
    hide Decoded, IsBase58, DecodeCreate, FromLE;
  }

  lemma CompiledMeaning(m: Message, c: Instruction, ix: Instr, other: Reading)
    requires m.header != [] && CompiledInstruction(m.accounts, c, ix) && Meaning(ix).Some?
    ensures OpOf(m, c, other) == Meaning(ix)
  {
    hide Meaning;
    assert InRange(m, c);
    MeaningIgnoresFlags(Resolve(m, c), ix);
  }

  lemma {:induction false} MeaningsAt(ixs: seq<Instr>, ops: seq<L.Op>, i: nat)
    requires Meanings(ixs) == Some(ops) && i < |ixs|
    ensures |ops| == |ixs| && Meaning(ixs[i]) == Some(ops[i])
    decreases |ixs|
  {
    hide Meaning;
    var rest := Meanings(ixs[1..]).value;
    assert ops[1..] == rest;
    if i > 0 {
      MeaningsAt(ixs[1..], rest, i - 1);
    } else if |ixs| > 1 {
      MeaningsAt(ixs[1..], rest, 0);
    }
  }

  lemma {:induction false} OpsOfEach(m: Message, c: seq<Instruction>, ops: seq<L.Op>, other: Reading)
    requires m.header != [] && |c| == |ops| && forall i | 0 <= i < |c| :: OpOf(m, c[i], other) == Some(ops[i])
    ensures OpsOf(m, c, other) == Some(ops)
    decreases |c|
  {
    hide OpOf;
    if c != [] {
      OpsOfEach(m, c[1..], ops[1..], other);
      assert ops == [ops[0]] + ops[1..];
    }
  }

  /** The message compiled from the mint's instruction list, as the chain reads it off the signed
      bytes, is the mint transaction: the same operations under the same two signatures. So what is
      proved of LandMint is true of the payload that was approved and signed. */
  lemma SignedMessageIsTheMint(p: Parties, s: MintSpec, m: Message, l: L.Ledger, other: Reading)
    requires ValidMetadata(s) && BuildMint(p, s).Some?
    requires CompiledFrom(m, BuildMint(p, s).value, p.payer) && SignedByBoth(m, p)
    ensures ParseTree(PrintMessage(m)) == Some(m) && Approved(PrintMessage(m), p.payer)
    ensures OpsOf(m, m.instructions, other) == Some(MintOps(p, s, Scaled(s.supply, s.decimals).value))
    ensures SignersOfMessage(m) == {p.payer, p.mint}
    ensures L.Transact(l, OpsOf(m, m.instructions, other).value, SignersOfMessage(m)) == LandMint(l, p, s)
  {
    assert Scaled(s.supply, s.decimals).Some?;
    hide BuildMint, MintOps, ParseTree, PrintMessage, Approved, Meaning, OpOf, OpsOf, LandMint, L.Transact, Scaled,
         Referenced, ValidMetadata;
    MintMessageApproved(p, s, m);
    MeaningOfMint(p, s);
    var ixs, ops := BuildMint(p, s).value, MintOps(p, s, Scaled(s.supply, s.decimals).value);
    SameCount(ixs, ops);
    forall i | 0 <= i < |ixs| ensures OpOf(m, m.instructions[i], other) == Some(ops[i]) {
      MeaningsAt(ixs, ops, i);
      CompiledMeaning(m, m.instructions[i], ixs[i], other);
    }
    OpsOfEach(m, m.instructions, ops, other);
    BothSign(m, p);
    LandIsTransact(l, p, s);
  }

  lemma SameCount(ixs: seq<Instr>, ops: seq<L.Op>)
    requires Meanings(ixs) == Some(ops)
    ensures |ops| == |ixs|
  {
    hide Meaning;
    if ixs != [] { MeaningsAt(ixs, ops, 0); }
  }

  lemma BothSign(m: Message, p: Parties)
    requires SignedByBoth(m, p)
    ensures SignersOfMessage(m) == {p.payer, p.mint}
  {
  }

  // ----- the approved messages that do not

  /** Mints account i into account d and revokes both authorities of account j, all in the name of
      the payer; t is the Token program. */
  function SplitMessage(accounts: seq<Address>, t: Byte, i: Byte, j: Byte, d: Byte, amount: nat): Message {
    Message([1, 0, 0], accounts, seq(ADDR_LEN, _ => 0),
            [Instruction(t, [i, d, 0], [SPL_MINT_TO] + LE(amount, 8)),
             Instruction(t, [j, 0], [SPL_SET_AUTHORITY, AUTHORITY_FREEZE_ACCOUNT, 0]),
             Instruction(t, [j, 0], [SPL_SET_AUTHORITY, AUTHORITY_MINT_TOKENS, 0])])
  }

  ghost predicate Split(accounts: seq<Address>, t: Byte, i: Byte, j: Byte, d: Byte) {
    && t < |accounts| <= MAX_LEN && i < |accounts| && j < |accounts| && d < |accounts|
    && accounts[t] == TOKEN_PROGRAM && accounts[i] != accounts[j]
  }

  /** Over every account list that holds the Token program and two distinct addresses there is an
      approved message that mints one and revokes the other. */
  lemma SplitIsApproved(accounts: seq<Address>, t: Byte, i: Byte, j: Byte, d: Byte, amount: nat)
    requires Split(accounts, t, i, j, d)
    ensures var m := SplitMessage(accounts, t, i, j, d, amount);
      WellFormed(m) && Approved(PrintMessage(m), accounts[0]) && !Covered(m) && !OneSubject(m)
  {
    hide Decoded, IsBase58, LE, PrintMessage, Approved;
    var m := SplitMessage(accounts, t, i, j, d, amount);
    SplitKeepsRule(accounts, t, i, j, d, amount);
    ApprovedOfPrint(m, accounts[0]);
    var ix := m.instructions[0];
    assert ix in m.instructions && MintsTokens(m.accounts, View(ix)) && Subject(m, ix) == Some(accounts[i]);
    forall r | r in m.instructions ensures !RevokesSubject(m, r, Subject(m, ix), AUTHORITY_MINT_TOKENS) {
      assert r == ix || r == m.instructions[1] || r == m.instructions[2];
    }
    assert !SubjectRevoked(m, Subject(m, ix), AUTHORITY_MINT_TOKENS);
    assert m.instructions[1] in m.instructions && Invokes(m.accounts, View(m.instructions[1]), TOKEN_PROGRAM);
  }

  lemma SplitKeepsRule(accounts: seq<Address>, t: Byte, i: Byte, j: Byte, d: Byte, amount: nat)
    requires Split(accounts, t, i, j, d)
    ensures var m := SplitMessage(accounts, t, i, j, d, amount); RuleOn(accounts, ProjectInstructions(m.instructions))
  {
    hide Decoded, IsBase58, LE;
    var m := SplitMessage(accounts, t, i, j, d, amount);
    var c := ProjectInstructions(m.instructions);
    assert |c| == 3 && MintsTokens(accounts, c[0]);
    assert Revokes(accounts, c[1], AUTHORITY_FREEZE_ACCOUNT) && Revokes(accounts, c[2], AUTHORITY_MINT_TOKENS);
    assert c[0] in c && c[1] in c && c[2] in c;
    forall ix | ix in c ensures Allowed(accounts, ix) { assert ix == c[0] || ix == c[1] || ix == c[2]; }
  }

  /** The payer holds both authorities of both mints, and the destination can receive the amount. */
  ghost predicate Mintable(l: L.Ledger, payer: Address, a: Address, b: Address, dest: Address, amount: nat) {
    && a in l.mints && b in l.mints && l.mints[a].mintAuthority == l.mints[a].freezeAuthority == Some(payer)
    && l.mints[b].mintAuthority == l.mints[b].freezeAuthority == Some(payer)
    && L.Active(l, dest) && l.accounts[dest].mint == a && l.mints[a].supply + amount <= MAX_U64
  }

  /** There is always such a ledger, with its balances in order. */
  lemma MintableExists(payer: Address, a: Address, b: Address, dest: Address, amount: nat) returns (l: L.Ledger)
    requires a != b && amount <= MAX_U64
    ensures L.Conserved(l) && Mintable(l, payer, a, b, dest, amount)
  {
    var identity := L.Identity(payer, [], [], [], false, payer);
    var mint := L.Mint(Some(payer), Some(payer), 0, 0, identity);
    var h := L.Holding(a, payer, 0, false);
    var bare := L.Ledger(map[a := mint, b := mint], map[], map[]);
    l := L.Ledger(bare.mints, bare.accounts[dest := h], map[]);
    forall m ensures L.Held(l, m) == 0 { L.HeldUpdate(bare, l, dest, h, m); }
  }

  lemma SplitOps(accounts: seq<Address>, t: Byte, i: Byte, j: Byte, d: Byte, amount: nat, other: Reading)
    requires Split(accounts, t, i, j, d) && amount <= MAX_U64
    ensures var m := SplitMessage(accounts, t, i, j, d, amount);
      OpsOf(m, m.instructions, other) == Some([
        L.MintTo(accounts[i], accounts[d], amount, accounts[0]),
        L.SetAuthority(accounts[j], L.FreezeAccounts, None, accounts[0]),
        L.SetAuthority(accounts[j], L.MintTokens, None, accounts[0])])
  {
    hide Decoded, IsBase58, LE, FromLE, DecodeCreate;
    var m := SplitMessage(accounts, t, i, j, d, amount);
    var ixs := m.instructions;
    ProgramsDistinct();
    assert OpOf(m, ixs[0], other) == Some(L.MintTo(accounts[i], accounts[d], amount, accounts[0])) by {
      assert ixs[0].data[1..9] == LE(amount, 8);
      U64Fits(amount);
    }
    assert OpOf(m, ixs[1], other) == Some(L.SetAuthority(accounts[j], L.FreezeAccounts, None, accounts[0]));
    assert OpOf(m, ixs[2], other) == Some(L.SetAuthority(accounts[j], L.MintTokens, None, accounts[0]));
    hide OpOf;
    OpsOfEach(m, ixs, [
      L.MintTo(accounts[i], accounts[d], amount, accounts[0]),
      L.SetAuthority(accounts[j], L.FreezeAccounts, None, accounts[0]),
      L.SetAuthority(accounts[j], L.MintTokens, None, accounts[0])], other);
  }

  /** Such a message, signed by the payer alone, adds to the first mint and leaves the payer free to
      add to it again and to freeze its holders. */
  lemma SplitInflates(accounts: seq<Address>, t: Byte, i: Byte, j: Byte, d: Byte, amount: nat, l: L.Ledger,
                      other: Reading)
    requires Split(accounts, t, i, j, d) && Mintable(l, accounts[0], accounts[i], accounts[j], accounts[d], amount)
    ensures var m := SplitMessage(accounts, t, i, j, d, amount);
      var a := accounts[i];
      && OpsOf(m, m.instructions, other).Some?
      && var r := L.ExecAll(l, OpsOf(m, m.instructions, other).value, SignersOfMessage(m));
         r.Some? && a in r.value.mints
         && r.value.mints[a] == l.mints[a].(supply := l.mints[a].supply + amount)
  {
    hide Decoded, IsBase58, LE, OpsOf, L.ExecAll;
    var m := SplitMessage(accounts, t, i, j, d, amount);
    SplitOps(accounts, t, i, j, d, amount, other);
    var ops, signers := OpsOf(m, m.instructions, other).value, SignersOfMessage(m);
    assert accounts[0] in signers;
    var l1 := L.Exec(l, ops[0], signers).value;
    var l2 := L.Exec(l1, ops[1], signers).value;
    var l3 := L.Exec(l2, ops[2], signers).value;
    RunThree(l, ops, signers, l1, l2, l3);
  }

  lemma RunThree(l: L.Ledger, ops: seq<L.Op>, signers: set<Address>, l1: L.Ledger, l2: L.Ledger, l3: L.Ledger)
    requires |ops| == 3 && L.Exec(l, ops[0], signers) == Some(l1)
    requires L.Exec(l1, ops[1], signers) == Some(l2) && L.Exec(l2, ops[2], signers) == Some(l3)
    ensures L.ExecAll(l, ops, signers) == Some(l3)
  {
    hide L.Exec;
    assert ops[1..] == [ops[1], ops[2]] && ops[1..][1..] == [ops[2]] && [ops[2]][1..] == [];
    assert L.ExecAll(l3, [], signers) == Some(l3);
    assert L.ExecAll(l2, [ops[2]], signers) == Some(l3);
    assert L.ExecAll(l1, ops[1..], signers) == Some(l3);
  }
}
