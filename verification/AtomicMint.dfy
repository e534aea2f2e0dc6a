/** The single mint transaction of token/atomic.go: its inputs, its five instructions, and what
    they do to a ledger. */
module AtomicMint {
  import opened Basics
  import opened Numbers
  import opened Base58
  import opened Programs
  import opened Borsh
  import opened Ledger

  datatype MintSpec = MintSpec(
    name: seq<Byte>, symbol: seq<Byte>, uri: seq<Byte>, decimals: Byte, supply: nat, treasury: Address)

  const MAX_NAME_LEN: nat := 32
  const MAX_SYMBOL_LEN: nat := 10
  const MAX_URI_LEN: nat := 200

  predicate ValidMetadata(s: MintSpec) {
    && 1 <= |s.name| <= MAX_NAME_LEN && 1 <= |s.symbol| <= MAX_SYMBOL_LEN && 1 <= |s.uri| <= MAX_URI_LEN
  }

  // ----- the scaled supply

  /** whole * 10^decimals, when it fits 64 bits. */
  function Scaled(whole: nat, decimals: Byte): Option<nat> {
    var v := whole * Pow(10, decimals);
    if v <= MAX_U64 then Some(v) else None
  }

  /** The per-step overflow test neither wraps nor refuses too early. */
  method ScaledAmount(whole: nat, decimals: Byte) returns (r: Option<nat>)
    requires whole <= MAX_U64
    ensures r == Scaled(whole, decimals)
  {
    var amount := whole;
    var i := 0;
    while i < decimals
      invariant 0 <= i <= decimals
      invariant amount == whole * Pow(10, i) <= MAX_U64
    {
      TimesTen(whole, i);
      if amount > MAX_U64 / 10 {
        ScaleGrows(whole, i + 1, decimals - (i + 1));
        return None;
      }
      amount := amount * 10;
      i := i + 1;
    }
    return Some(amount);
  }

  lemma TimesTen(whole: nat, i: nat)
    ensures whole * Pow(10, i + 1) == 10 * (whole * Pow(10, i))
  {
    MulSwap(whole, Pow(10, i), 10);
  }

  lemma {:induction false} ScaleGrows(whole: nat, i: nat, n: nat)
    ensures whole * Pow(10, i) <= whole * Pow(10, i + n)
  {
    if n > 0 {
      ScaleGrows(whole, i, n - 1);
      TimesTen(whole, i + n - 1);
    }
  }

  // ----- the instruction list

  datatype Meta = Meta(key: Address, signer: bool)

  datatype Instr = Instr(program: Address, accounts: seq<Meta>, data: seq<Byte>)

  /** The addresses buildMint works with; the last two are derived by the chain library. */
  datatype Parties = Parties(payer: Address, mint: Address, treasury: Address, metadata: Address, dest: Address)

  function Create(p: Parties, s: MintSpec): Instr {
    Instr(METADATA_PROGRAM,
          [Meta(p.metadata, false), Meta(METADATA_PROGRAM, false), Meta(p.mint, true), Meta(p.payer, true),
           Meta(p.payer, true), Meta(p.treasury, false), Meta(SYSTEM_PROGRAM, false), Meta(SYSVAR_INSTRUCTIONS, false),
           Meta(TOKEN_PROGRAM, false)],
          CreateData(s.name, s.symbol, s.uri, s.decimals))
  }

  function CreateAta(p: Parties): Instr {
    Instr(ATA_PROGRAM,
          [Meta(p.payer, true), Meta(p.dest, false), Meta(p.treasury, false), Meta(p.mint, false),
           Meta(SYSTEM_PROGRAM, false), Meta(TOKEN_PROGRAM, false)],
          [1])
  }

  function MintSupply(p: Parties, amount: nat): Instr {
    Instr(TOKEN_PROGRAM, [Meta(p.mint, false), Meta(p.dest, false), Meta(p.payer, true)], [7] + LE(amount, 8))
  }

  function Revoke(p: Parties, kind: Byte): Instr {
    Instr(TOKEN_PROGRAM, [Meta(p.mint, false), Meta(p.payer, true)], [6, kind, 0])
  }

  /** buildMint: create, token account, supply, then both revocations. */
  function BuildMint(p: Parties, s: MintSpec): Option<seq<Instr>> {
    var amount :- Scaled(s.supply, s.decimals);
    Some([Create(p, s), CreateAta(p), MintSupply(p, amount), Revoke(p, 1), Revoke(p, 0)])
  }

  // ----- what the instructions mean to the ledger

  /** The operation the invoked program reads off an instruction's bytes and accounts; bytes and
      accounts beyond those it needs are ignored. None when the program refuses it, or when it is
      none of the operations of the ledger. */
  function Meaning(ix: Instr): Option<Op> {
    if ix.program == METADATA_PROGRAM then CreateMeaning(ix)
    else if ix.program == ATA_PROGRAM then AtaMeaning(ix)
    else if ix.program == SYSTEM_PROGRAM then SystemMeaning(ix)
    else if ix.program == TOKEN_PROGRAM then TokenMeaning(ix)
    else None
  }

  /** Create: metadata, edition (the program itself for none), mint, authority, payer, update
      authority, System program, instructions sysvar, Token program. */
  function CreateMeaning(ix: Instr): Option<Op> {
    var a := ix.accounts;
    if |a| < 9 || a[1].key != METADATA_PROGRAM || a[6].key != SYSTEM_PROGRAM || a[7].key != SYSVAR_INSTRUCTIONS
       || a[8].key != TOKEN_PROGRAM
    then None
    else
      var args :- DecodeCreate(ix.data);
      var decimals :- args.terms.decimals;
      var identity := Identity(a[0].key, args.name, args.symbol, args.uri, args.terms.isMutable, a[5].key);
      Some(CreateMint(a[2].key, a[3].key, a[4].key, decimals, identity))
  }

  /** CreateIdempotent: payer, token account, wallet, mint, System program, Token program. */
  function AtaMeaning(ix: Instr): Option<Op> {
    var a := ix.accounts;
    if |a| < 6 || a[4].key != SYSTEM_PROGRAM || a[5].key != TOKEN_PROGRAM || ix.data != [1] then None
    else Some(OpenAccount(a[1].key, a[2].key, a[3].key, a[0].key))
  }

  /** CreateAccount, Transfer and TransferWithSeed. */
  function SystemMeaning(ix: Instr): Option<Op> {
    var a := ix.accounts;
    if |ix.data| < 12 || |a| < 2 || ix.data[1..4] != [0, 0, 0] then None
    else
      var lamports := FromLE(ix.data[4..12]);
      if ix.data[0] == 0 && |ix.data| >= 52 then Some(Fund(a[0].key, a[1].key, lamports))
      else if ix.data[0] == 2 then Some(PayLamports(a[0].key, a[1].key, lamports, a[0].key))
      else if ix.data[0] == 11 && |a| >= 3 then Some(PayLamports(a[0].key, a[2].key, lamports, a[1].key))
      else None
  }

  function TokenMeaning(ix: Instr): Option<Op> {
    if ix.data == [] then None
    else if ix.data[0] == 6 then AuthorityMeaning(ix)
    else if ix.data[0] == 9 then CloseMeaning(ix)
    else if ix.data[0] == 10 || ix.data[0] == 11 then FreezeMeaning(ix)
    else AmountMeaning(ix)
  }

  /** SetAuthority over a mint, to nobody or to a new key, and over the owner of a token account. */
  function AuthorityMeaning(ix: Instr): Option<Op> {
    var a := ix.accounts;
    if |a| < 2 || |ix.data| < 3 then None
    else if ix.data[2] == 0 then
      if ix.data[1] == 0 then Some(SetAuthority(a[0].key, MintTokens, None, a[1].key))
      else if ix.data[1] == 1 then Some(SetAuthority(a[0].key, FreezeAccounts, None, a[1].key))
      else None
    else if ix.data[2] == 1 && |ix.data| >= 35 then
      var key: Address := ix.data[3..35];
      if ix.data[1] == 0 then Some(SetAuthority(a[0].key, MintTokens, Some(key), a[1].key))
      else if ix.data[1] == 1 then Some(SetAuthority(a[0].key, FreezeAccounts, Some(key), a[1].key))
      else if ix.data[1] == 2 then Some(SetOwner(a[0].key, key))
      else None
    else None
  }

  function CloseMeaning(ix: Instr): Option<Op> {
    if |ix.accounts| < 3 then None else Some(CloseAccount(ix.accounts[0].key))
  }

  /** FreezeAccount and ThawAccount. */
  function FreezeMeaning(ix: Instr): Option<Op>
    requires ix.data != []
  {
    if |ix.accounts| < 3 then None else Some(SetFrozen(ix.accounts[0].key, ix.data[0] == 10, ix.accounts[2].key))
  }

  /** Transfer, Approve, MintTo and Burn, and their checked forms. */
  function AmountMeaning(ix: Instr): Option<Op> {
    var a := ix.accounts;
    if |ix.data| < 9 || |a| < 3 then None
    else
      var kind, amount := ix.data[0], FromLE(ix.data[1..9]);
      if kind == 3 then Some(Transfer(a[0].key, a[1].key, amount))
      else if kind == 12 then Some(Transfer(a[0].key, a[2].key, amount))
      else if kind == 4 then Some(Delegate(a[0].key, a[1].key, amount))
      else if kind == 13 then Some(Delegate(a[0].key, a[2].key, amount))
      else if kind == 7 || kind == 14 then Some(MintTo(a[0].key, a[1].key, amount, a[2].key))
      else if kind == 8 || kind == 15 then Some(Burn(a[0].key, amount))
      else None
  }

  function Meanings(ixs: seq<Instr>): Option<seq<Op>> {
    if ixs == [] then Some([])
    else
      var op :- Meaning(ixs[0]);
      var rest :- Meanings(ixs[1..]);
      Some([op] + rest)
  }

  function SignersOf(accounts: seq<Meta>): set<Address> {
    if accounts == [] then {}
    else (if accounts[0].signer then {accounts[0].key} else {}) + SignersOf(accounts[1..])
  }

  /** The keys that must sign. */
  function Signers(ixs: seq<Instr>): set<Address> {
    if ixs == [] then {} else SignersOf(ixs[0].accounts) + Signers(ixs[1..])
  }

  /** The identity asked for: immutable, and nominally the treasury's to update. */
  function IdentityOf(p: Parties, s: MintSpec): Identity {
    Identity(p.metadata, s.name, s.symbol, s.uri, false, p.treasury)
  }

  function MintOps(p: Parties, s: MintSpec, amount: nat): seq<Op> {
    [CreateMint(p.mint, p.payer, p.payer, s.decimals, IdentityOf(p, s)),
     OpenAccount(p.dest, p.treasury, p.mint, p.payer),
     MintTo(p.mint, p.dest, amount, p.payer),
     SetAuthority(p.mint, FreezeAccounts, None, p.payer), SetAuthority(p.mint, MintTokens, None, p.payer)]
  }

  lemma MeaningOfMint(p: Parties, s: MintSpec)
    requires ValidMetadata(s) && BuildMint(p, s).Some?
    ensures Meanings(BuildMint(p, s).value) == Some(MintOps(p, s, Scaled(s.supply, s.decimals).value))
  {
    hide Decoded, IsBase58, CreateData, DecodeCreate, LE, FromLE, Pow;
    ProgramsDistinct();
    var amount := Scaled(s.supply, s.decimals).value;
    var ixs := BuildMint(p, s).value;
    var ops := MintOps(p, s, amount);
    DecodeCreateOf(s.name, s.symbol, s.uri, s.decimals);
    assert Meaning(ixs[0]) == Some(ops[0]);
    assert Meaning(ixs[1]) == Some(ops[1]);
    assert Meaning(ixs[2]) == Some(ops[2]) by {
      assert ([7] + LE(amount, 8))[1..9] == LE(amount, 8);
      U64Fits(amount);
    }
    assert Meaning(ixs[3]) == Some(ops[3]);
    assert Meaning(ixs[4]) == Some(ops[4]);
    hide Meaning;
    MeaningsEach(ixs, ops);
  }

  lemma U64Fits(amount: nat)
    requires amount <= MAX_U64
    ensures FromLE(LE(amount, 8)) == amount
  {
    FromLEOfLE(amount, 8);
    assert Pow(256, 8) == MAX_U64 + 1;
  }

  lemma MeaningsEach(ixs: seq<Instr>, ops: seq<Op>)
    requires |ixs| == |ops|
    requires forall i | 0 <= i < |ixs| :: Meaning(ixs[i]) == Some(ops[i])
    ensures Meanings(ixs) == Some(ops)
  {
    hide Meaning;
    if ixs != [] {
      MeaningsEach(ixs[1..], ops[1..]);
      assert ops == [ops[0]] + ops[1..];
    }
  }

  lemma {:induction false} SignersIn(accounts: seq<Meta>, keys: set<Address>)
    requires forall i | 0 <= i < |accounts| && accounts[i].signer :: accounts[i].key in keys
    ensures SignersOf(accounts) <= keys
    ensures forall i | 0 <= i < |accounts| && accounts[i].signer :: accounts[i].key in SignersOf(accounts)
  {
    if accounts != [] { SignersIn(accounts[1..], keys); }
  }

  lemma {:induction false} SignersAll(ixs: seq<Instr>, keys: set<Address>)
    requires forall i | 0 <= i < |ixs| :: SignersOf(ixs[i].accounts) <= keys
    requires ixs != [] && keys <= SignersOf(ixs[0].accounts)
    ensures Signers(ixs) == keys
  {
    hide SignersOf;
    if |ixs| > 1 { SignersWithin(ixs[1..], keys); }
  }

  lemma {:induction false} SignersWithin(ixs: seq<Instr>, keys: set<Address>)
    requires forall i | 0 <= i < |ixs| :: SignersOf(ixs[i].accounts) <= keys
    ensures Signers(ixs) <= keys
  {
    hide SignersOf;
    if ixs != [] { SignersWithin(ixs[1..], keys); }
  }

  lemma SignersOfMint(p: Parties, s: MintSpec)
    requires BuildMint(p, s).Some?
    ensures Signers(BuildMint(p, s).value) == {p.payer, p.mint}
  {
    hide Decoded, IsBase58, CreateData, LE, Scaled, Signers, SignersOf;
    var ixs, keys := BuildMint(p, s).value, {p.payer, p.mint};
    SignersIn(ixs[0].accounts, keys);
    assert ixs[0].accounts[2].key in SignersOf(ixs[0].accounts);
    assert ixs[0].accounts[3].key in SignersOf(ixs[0].accounts);
    SignersIn(ixs[1].accounts, keys);
    SignersIn(ixs[2].accounts, keys);
    SignersIn(ixs[3].accounts, keys);
    SignersIn(ixs[4].accounts, keys);
    SignersAll(ixs, keys);
  }

  // ----- all or nothing

  /** The transaction, as the chain runs it. */
  function LandMint(l: Ledger, p: Parties, s: MintSpec): Ledger {
    match BuildMint(p, s)
    case None => l
    case Some(ixs) =>
      match Meanings(ixs)
      case None => l
      case Some(ops) => Transact(l, ops, Signers(ixs))
  }

  lemma ExecMintOps(l: Ledger, p: Parties, s: MintSpec, amount: nat)
    requires Conserved(l) && Unused(l, p.mint) && amount <= MAX_U64
    ensures ExecAll(l, MintOps(p, s, amount), {p.payer, p.mint}).Some? <==> Unused(l, p.dest) && p.dest != p.mint
    ensures Unused(l, p.dest) && p.dest != p.mint ==>
      ExecAll(l, MintOps(p, s, amount), {p.payer, p.mint}) == Some(Ledger(
        l.mints[p.mint := Mint(None, None, amount, s.decimals, IdentityOf(p, s))],
        l.accounts[p.dest := Holding(p.mint, p.treasury, amount, false)], l.lamports))
  {
    hide Exec, ExecAll;
    var ops, signers := MintOps(p, s, amount), {p.payer, p.mint};
    var made := Ledger(l.mints[p.mint := Mint(Some(p.payer), Some(p.payer), 0, s.decimals, IdentityOf(p, s))],
      l.accounts, l.lamports);
    assert Exec(l, ops[0], signers) == Some(made) by { CreateStep(l, p, s); }
    assert ops[1..] == [ops[1], ops[2], ops[3], ops[4]];
    ExecAllCons(l, ops, signers, made);
    if Unused(l, p.dest) && p.dest != p.mint {
      var accounts := l.accounts[p.dest := Holding(p.mint, p.treasury, amount, false)];
      var l3 := Ledger(l.mints[p.mint := Mint(Some(p.payer), Some(p.payer), amount, s.decimals, IdentityOf(p, s))],
        accounts, l.lamports);
      var l4 := Ledger(l.mints[p.mint := Mint(Some(p.payer), None, amount, s.decimals, IdentityOf(p, s))],
        accounts, l.lamports);
      var l5 := Ledger(l.mints[p.mint := Mint(None, None, amount, s.decimals, IdentityOf(p, s))],
        accounts, l.lamports);
      var l2 := Ledger(made.mints, l.accounts[p.dest := Holding(p.mint, p.treasury, 0, false)], l.lamports);
      SupplySteps(l, p, s, amount, made, l2, l3);
      RevokeSteps(l, p, s, amount, l3, l4, l5);
      RunFour(made, ops[1], ops[2], ops[3], ops[4], signers, l2, l3, l4, l5);
    } else {
      assert Exec(made, ops[1], signers).None? by { OpenRefused(l, p, s, made); }
      ExecAllFails(made, ops[1..], signers);
    }
  }

  lemma CreateStep(l: Ledger, p: Parties, s: MintSpec)
    requires Unused(l, p.mint)
    ensures Exec(l, CreateMint(p.mint, p.payer, p.payer, s.decimals, IdentityOf(p, s)), {p.payer, p.mint})
         == Some(Ledger(l.mints[p.mint := Mint(Some(p.payer), Some(p.payer), 0, s.decimals, IdentityOf(p, s))],
           l.accounts, l.lamports))
  {
  }

  lemma OpenRefused(l: Ledger, p: Parties, s: MintSpec, made: Ledger)
    requires Conserved(l) && Unused(l, p.mint) && !(Unused(l, p.dest) && p.dest != p.mint)
    requires made == Ledger(l.mints[p.mint := Mint(Some(p.payer), Some(p.payer), 0, s.decimals, IdentityOf(p, s))],
      l.accounts, l.lamports)
    ensures Exec(made, OpenAccount(p.dest, p.treasury, p.mint, p.payer), {p.payer, p.mint}).None?
  {
  }

  lemma SupplySteps(l: Ledger, p: Parties, s: MintSpec, amount: nat, made: Ledger, l2: Ledger, l3: Ledger)
    requires Unused(l, p.mint) && Unused(l, p.dest) && p.dest != p.mint && amount <= MAX_U64
    requires made == Ledger(l.mints[p.mint := Mint(Some(p.payer), Some(p.payer), 0, s.decimals, IdentityOf(p, s))],
      l.accounts, l.lamports)
    requires l2 == Ledger(made.mints, l.accounts[p.dest := Holding(p.mint, p.treasury, 0, false)], l.lamports)
    requires l3 == Ledger(l.mints[p.mint := Mint(Some(p.payer), Some(p.payer), amount, s.decimals, IdentityOf(p, s))],
                          l.accounts[p.dest := Holding(p.mint, p.treasury, amount, false)], l.lamports)
    ensures Exec(made, OpenAccount(p.dest, p.treasury, p.mint, p.payer), {p.payer, p.mint}) == Some(l2)
    ensures Exec(l2, MintTo(p.mint, p.dest, amount, p.payer), {p.payer, p.mint}) == Some(l3)
  {
    var r := Exec(l2, MintTo(p.mint, p.dest, amount, p.payer), {p.payer, p.mint});
    assert r.Some? && r.value.mints == l3.mints && r.value.accounts == l3.accounts;
  }

  lemma RevokeSteps(l: Ledger, p: Parties, s: MintSpec, amount: nat, l3: Ledger, l4: Ledger, l5: Ledger)
    requires l3 == Ledger(l.mints[p.mint := Mint(Some(p.payer), Some(p.payer), amount, s.decimals, IdentityOf(p, s))],
      l3.accounts, l.lamports)
    requires l4 == Ledger(l.mints[p.mint := Mint(Some(p.payer), None, amount, s.decimals, IdentityOf(p, s))],
      l3.accounts, l.lamports)
    requires l5 == Ledger(l.mints[p.mint := Mint(None, None, amount, s.decimals, IdentityOf(p, s))],
      l3.accounts, l.lamports)
    ensures Exec(l3, SetAuthority(p.mint, FreezeAccounts, None, p.payer), {p.payer, p.mint}) == Some(l4)
    ensures Exec(l4, SetAuthority(p.mint, MintTokens, None, p.payer), {p.payer, p.mint}) == Some(l5)
  {
    var r := Exec(l3, SetAuthority(p.mint, FreezeAccounts, None, p.payer), {p.payer, p.mint});
    assert r.Some? && r.value.mints == l4.mints;
    var r' := Exec(l4, SetAuthority(p.mint, MintTokens, None, p.payer), {p.payer, p.mint});
    assert r'.Some? && r'.value.mints == l5.mints;
  }

  lemma ExecAllCons(l: Ledger, ops: seq<Op>, signers: set<Address>, l1: Ledger)
    requires ops != [] && Exec(l, ops[0], signers) == Some(l1)
    ensures ExecAll(l, ops, signers) == ExecAll(l1, ops[1..], signers)
  {
    hide Exec;
  }

  lemma ExecAllFails(l: Ledger, ops: seq<Op>, signers: set<Address>)
    requires ops != [] && Exec(l, ops[0], signers).None?
    ensures ExecAll(l, ops, signers).None?
  {
    hide Exec;
  }

  lemma RunFour(l1: Ledger, a: Op, b: Op, c: Op, d: Op, signers: set<Address>, l2: Ledger, l3: Ledger, l4: Ledger,
                l5: Ledger)
    requires Exec(l1, a, signers) == Some(l2) && Exec(l2, b, signers) == Some(l3)
    requires Exec(l3, c, signers) == Some(l4) && Exec(l4, d, signers) == Some(l5)
    ensures ExecAll(l1, [a, b, c, d], signers) == Some(l5)
  {
    hide Exec;
    assert ExecAll(l4, [d], signers) == Some(l5);
    assert [c, d][1..] == [d] && [b, c, d][1..] == [c, d] && [a, b, c, d][1..] == [b, c, d];
    assert ExecAll(l3, [c, d], signers) == Some(l5);
    assert ExecAll(l2, [b, c, d], signers) == Some(l5);
  }

  /** From any ledger where the mint address is unused, the transaction either leaves the ledger
      as it was or leaves a finished token whose whole scaled supply is in the treasury's
      account, with its identity in the metadata account. It does the latter exactly when the token
      account's address is free. */
  lemma MintIsAllOrNothing(l: Ledger, p: Parties, s: MintSpec)
    requires Conserved(l) && Unused(l, p.mint) && ValidMetadata(s)
    ensures var l' := LandMint(l, p, s);
      if Scaled(s.supply, s.decimals).Some? && Unused(l, p.dest) && p.dest != p.mint then
        var amount := Scaled(s.supply, s.decimals).value;
        && Conserved(l') && Finished(l', p.mint, amount, {}) && Locked(l', p.mint, IdentityOf(p, s))
        && l'.mints == l.mints[p.mint := Mint(None, None, amount, s.decimals,
                                              Identity(p.metadata, s.name, s.symbol, s.uri, false, p.treasury))]
        && l'.accounts == l.accounts[p.dest := Holding(p.mint, p.treasury, amount, false)]
        && Held(l', p.mint) == amount && l'.lamports == l.lamports
      else l' == l
  {
    LandIsTransact(l, p, s);
    hide LandMint, Scaled, MintOps, ExecAll, Conserved, Held, Finished, ValidMetadata;
    if Scaled(s.supply, s.decimals).Some? {
      var amount := Scaled(s.supply, s.decimals).value;
      ScaledFits(s);
      ExecMintOps(l, p, s, amount);
      if Unused(l, p.dest) && p.dest != p.mint {
        ExecAllConserves(l, MintOps(p, s, amount), {p.payer, p.mint});
        FreshMintIsFinished(l, LandMint(l, p, s), p, s, amount);
      }
    }
  }

  lemma FreshMintIsFinished(l: Ledger, l': Ledger, p: Parties, s: MintSpec, amount: nat)
    requires Conserved(l) && Unused(l, p.mint) && Conserved(l')
    requires l'.mints == l.mints[p.mint := Mint(None, None, amount, s.decimals, IdentityOf(p, s))]
    requires l'.accounts == l.accounts[p.dest := Holding(p.mint, p.treasury, amount, false)]
    ensures Finished(l', p.mint, amount, {}) && Held(l', p.mint) == amount
  {
    hide Held;
    NoHoldingYet(l, p.mint);
  }

  lemma LandIsTransact(l: Ledger, p: Parties, s: MintSpec)
    requires ValidMetadata(s)
    ensures LandMint(l, p, s) ==
      match Scaled(s.supply, s.decimals)
      case None => l
      case Some(amount) => Transact(l, MintOps(p, s, amount), {p.payer, p.mint})
  {
    hide Scaled, Meanings, Signers, MintOps, ExecAll, Create, CreateAta, MintSupply, Revoke;
    if Scaled(s.supply, s.decimals).Some? {
      MeaningOfMint(p, s);
      SignersOfMint(p, s);
    }
  }

  lemma ScaledFits(s: MintSpec)
    requires Scaled(s.supply, s.decimals).Some?
    ensures Scaled(s.supply, s.decimals).value <= MAX_U64
  {
  }

  lemma NoHoldingYet(l: Ledger, m: Address)
    requires Conserved(l) && m !in l.mints
    ensures forall a | a in l.accounts :: l.accounts[a].mint != m
  {
  }

  /** Once the transaction has landed, no later sequence of transactions by any signers can mint
      more, restore an authority, freeze a holder or change the identity; supply only falls, and
      balances sum to it. */
  lemma MintedForever(l: Ledger, p: Parties, s: MintSpec, later: seq<Transaction>)
    requires Conserved(l) && Unused(l, p.mint) && ValidMetadata(s)
    requires Scaled(s.supply, s.decimals).Some? && Unused(l, p.dest) && p.dest != p.mint
    ensures var l' := History(LandMint(l, p, s), later);
      && Finished(l', p.mint, Scaled(s.supply, s.decimals).value, {}) && Locked(l', p.mint, IdentityOf(p, s))
      && Held(l', p.mint) == l'.mints[p.mint].supply
  {
    hide LandMint, Scaled, Finished, Conserved;
    MintIsAllOrNothing(l, p, s);
    FinishedForever(LandMint(l, p, s), later, p.mint, Scaled(s.supply, s.decimals).value, {});
    LockedForever(LandMint(l, p, s), later, p.mint, IdentityOf(p, s));
  }

  lemma LandRefused(l: Ledger, p: Parties, s: MintSpec)
    requires ValidMetadata(s) && !Unused(l, p.mint)
    ensures LandMint(l, p, s) == l
  {
    hide LandMint, Scaled;
    LandIsTransact(l, p, s);
    if Scaled(s.supply, s.decimals).Some? {
      ExecAllFails(l, MintOps(p, s, Scaled(s.supply, s.decimals).value), {p.payer, p.mint});
    }
  }

  /** The mint does not exist, or it is finished with at most its scaled supply in existence and
      the identity that was asked for. */
  ghost predicate AbsentOrFinished(l: Ledger, p: Parties, s: MintSpec) {
    p.mint !in l.mints ||
    (&& Scaled(s.supply, s.decimals).Some? && Finished(l, p.mint, Scaled(s.supply, s.decimals).value, {})
     && Locked(l, p.mint, IdentityOf(p, s)))
  }

  /** There is no reachable ledger in which the mint exists with a live authority: the mint key signs
      this one transaction, anybody may submit anything before and after it, and it may land or
      not; before, right after and ever after, the mint is absent or finished. */
  lemma NeverALiveAuthority(l: Ledger, p: Parties, s: MintSpec, before: seq<Transaction>, landed: bool,
                            after: seq<Transaction>)
    requires Conserved(l) && p.mint !in l.mints && ValidMetadata(s)
    requires Unsigned(before, p.mint) && Unsigned(after, p.mint)
    ensures var l1 := History(l, before);
      var l2 := if landed then LandMint(l1, p, s) else l1;
      && AbsentOrFinished(l1, p, s) && AbsentOrFinished(l2, p, s)
      && AbsentOrFinished(History(l2, after), p, s) && Conserved(History(l2, after))
  {
    hide LandMint, Scaled, Finished, Conserved, History;
    AbsentUntilSigned(l, before, p.mint);
    var l1 := History(l, before);
    if landed && Unused(l1, p.mint) {
      MintIsAllOrNothing(l1, p, s);
    } else if landed {
      LandRefused(l1, p, s);
    }
    var l2 := if landed then LandMint(l1, p, s) else l1;
    if l2 == l1 {
      AbsentUntilSigned(l2, after, p.mint);
    } else {
      FinishedForever(l2, after, p.mint, Scaled(s.supply, s.decimals).value, {});
      LockedForever(l2, after, p.mint, IdentityOf(p, s));
    }
  }
}
