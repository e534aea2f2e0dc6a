/** A small ledger of SPL mints and token accounts, enough to say what the instructions of a
    mint transaction do and what anybody can do to the token afterwards. */
module Ledger {
  import opened Basics

  /** What the metadata program records about a mint, in which account, and who may change it while
      it is mutable. */
  datatype Identity = Identity(
    record: Address, name: seq<Byte>, symbol: seq<Byte>, uri: seq<Byte>, isMutable: bool, updateAuthority: Address)

  datatype Mint = Mint(
    mintAuthority: Option<Address>, freezeAuthority: Option<Address>, supply: nat, decimals: Byte, identity: Identity)

  datatype Holding = Holding(mint: Address, owner: Address, amount: nat, frozen: bool)

  /** lamports holds the balances of the accounts that exist; rent is not charged. */
  datatype Ledger = Ledger(mints: map<Address, Mint>, accounts: map<Address, Holding>, lamports: map<Address, nat>)

  datatype AuthorityKind = MintTokens | FreezeAccounts

  /** Operations on tokens and lamports. Who may spend from a token account (its owner, a delegate)
      is left open: moving and burning need no particular signer here, which allows more than the
      chain, and delegating changes nothing. */
  datatype Op =
    | CreateMint(mint: Address, authority: Address, payer: Address, decimals: Byte, identity: Identity)
    | OpenAccount(account: Address, owner: Address, mint: Address, payer: Address)
    | MintTo(mint: Address, dest: Address, amount: nat, authority: Address)
    | SetAuthority(mint: Address, kind: AuthorityKind, newAuthority: Option<Address>, authority: Address)
    | SetIdentity(mint: Address, identity: Identity, authority: Address)
    | SetOwner(account: Address, newOwner: Address)
    | Transfer(src: Address, dst: Address, amount: nat)
    | Burn(src: Address, amount: nat)
    | SetFrozen(account: Address, frozen: bool, authority: Address)
    | CloseAccount(account: Address)
    | Delegate(account: Address, delegate: Address, amount: nat)
    | Fund(src: Address, account: Address, amount: nat)         // for a new account
    | PayLamports(src: Address, dst: Address, amount: nat, authority: Address)

  predicate Unused(l: Ledger, a: Address) { a !in l.mints && a !in l.accounts }

  /** The current authority of a kind must be present and must sign. */
  predicate Authorized(current: Option<Address>, claimed: Address, signers: set<Address>) {
    current == Some(claimed) && claimed in signers
  }

  predicate Active(l: Ledger, a: Address) { a in l.accounts && !l.accounts[a].frozen }

  function Credit(l: Ledger, a: Address, amount: nat): Ledger
    requires a in l.accounts
  {
    l.(accounts := l.accounts[a := l.accounts[a].(amount := l.accounts[a].amount + amount)])
  }

  function Debit(l: Ledger, a: Address, amount: nat): Ledger
    requires a in l.accounts && amount <= l.accounts[a].amount
  {
    l.(accounts := l.accounts[a := l.accounts[a].(amount := l.accounts[a].amount - amount)])
  }

  function WithSupply(l: Ledger, m: Address, supply: nat): Ledger
    requires m in l.mints
  {
    l.(mints := l.mints[m := l.mints[m].(supply := supply)])
  }

  function Exec(l: Ledger, op: Op, signers: set<Address>): Option<Ledger> {
    match op
    case CreateMint(m, authority, payer, decimals, identity) =>
      if Unused(l, m) && m in signers && authority in signers && payer in signers
      then Some(l.(mints := l.mints[m := Mint(Some(authority), Some(authority), 0, decimals, identity)]))
      else None
    case OpenAccount(a, owner, m, payer) =>
      if payer !in signers then None
      else if a in l.accounts
      then (if l.accounts[a].mint == m && l.accounts[a].owner == owner then Some(l) else None)
      else if a !in l.mints && m in l.mints
      then Some(l.(accounts := l.accounts[a := Holding(m, owner, 0, false)]))
      else None
    case MintTo(m, dest, amount, authority) =>
      if m in l.mints && Authorized(l.mints[m].mintAuthority, authority, signers)
         && Active(l, dest) && l.accounts[dest].mint == m && l.mints[m].supply + amount <= MAX_U64
      then Some(Credit(WithSupply(l, m, l.mints[m].supply + amount), dest, amount))
      else None
    case SetAuthority(m, MintTokens, new', authority) =>
      if m in l.mints && Authorized(l.mints[m].mintAuthority, authority, signers)
      then Some(l.(mints := l.mints[m := l.mints[m].(mintAuthority := new')]))
      else None
    case SetAuthority(m, FreezeAccounts, new', authority) =>
      if m in l.mints && Authorized(l.mints[m].freezeAuthority, authority, signers)
      then Some(l.(mints := l.mints[m := l.mints[m].(freezeAuthority := new')]))
      else None
    case SetIdentity(m, identity, authority) =>
      if m in l.mints && l.mints[m].identity.isMutable
         && l.mints[m].identity.updateAuthority == authority && authority in signers
      then Some(l.(mints := l.mints[m := l.mints[m].(identity := identity)]))
      else None
    case SetOwner(a, newOwner) =>
      if Active(l, a) then Some(l.(accounts := l.accounts[a := l.accounts[a].(owner := newOwner)])) else None
    case Transfer(src, dst, amount) =>
      if Active(l, src) && Active(l, dst) && l.accounts[src].mint == l.accounts[dst].mint
         && amount <= l.accounts[src].amount
      then Some(Credit(Debit(l, src, amount), dst, amount))
      else None
    case Burn(src, amount) =>
      if Active(l, src) && amount <= l.accounts[src].amount
         && l.accounts[src].mint in l.mints && amount <= l.mints[l.accounts[src].mint].supply
      then
        var m := l.accounts[src].mint;
        Some(Debit(WithSupply(l, m, l.mints[m].supply - amount), src, amount))
      else None
    case SetFrozen(a, frozen, authority) =>
      if a in l.accounts && l.accounts[a].mint in l.mints
         && Authorized(l.mints[l.accounts[a].mint].freezeAuthority, authority, signers)
      then Some(l.(accounts := l.accounts[a := l.accounts[a].(frozen := frozen)]))
      else None
    case Delegate(a, delegate, amount) => if Active(l, a) then Some(l) else None
    case Fund(src, a, amount) =>
      if src in signers && a in signers && src in l.lamports && a !in l.lamports && amount <= l.lamports[src]
      then Some(l.(lamports := l.lamports[src := l.lamports[src] - amount][a := amount]))
      else None
    case PayLamports(src, dst, amount, authority) =>
      if authority in signers && src in l.lamports && amount <= l.lamports[src]
      then
        var paid := l.lamports[src := l.lamports[src] - amount];
        Some(l.(lamports := paid[dst := (if dst in paid then paid[dst] else 0) + amount]))
      else None
    case CloseAccount(a) =>
      if a in l.accounts && l.accounts[a].amount == 0
      then Some(l.(accounts := map k | k in l.accounts && k != a :: l.accounts[k]))
      else None
  }

  /** One transaction: every operation in order, or nothing at all. */
  function ExecAll(l: Ledger, ops: seq<Op>, signers: set<Address>): Option<Ledger>
    decreases |ops|
  {
    if ops == [] then Some(l)
    else
      var l1 :- Exec(l, ops[0], signers);
      ExecAll(l1, ops[1..], signers)
  }

  function Transact(l: Ledger, ops: seq<Op>, signers: set<Address>): Ledger {
    match ExecAll(l, ops, signers) case Some(l') => l' case None => l
  }

  datatype Transaction = Transaction(ops: seq<Op>, signers: set<Address>)

  function History(l: Ledger, txs: seq<Transaction>): Ledger
    decreases |txs|
  {
    if txs == [] then l else History(Transact(l, txs[0].ops, txs[0].signers), txs[1..])
  }

  // ----- conservation

  function Share(h: Holding, m: Address): nat { if h.mint == m then h.amount else 0 }

  ghost function Total(a: map<Address, Holding>, keys: set<Address>, m: Address): nat
    requires keys <= a.Keys
    decreases keys
  {
    if keys == {} then 0
    else
      var k :| k in keys;
      Share(a[k], m) + Total(a, keys - {k}, m)
  }

  lemma {:induction false} TotalPick(a: map<Address, Holding>, keys: set<Address>, k: Address, m: Address)
    requires keys <= a.Keys && k in keys
    ensures Total(a, keys, m) == Share(a[k], m) + Total(a, keys - {k}, m)
    decreases keys
  {
    var j :| j in keys && Total(a, keys, m) == Share(a[j], m) + Total(a, keys - {j}, m);
    if j != k {
      TotalPick(a, keys - {j}, k, m);
      TotalPick(a, keys - {k}, j, m);
      assert keys - {j} - {k} == keys - {k} - {j};
    }
  }

  lemma {:induction false} TotalFrame(a: map<Address, Holding>, b: map<Address, Holding>, keys: set<Address>,
                                      m: Address)
    requires keys <= a.Keys && keys <= b.Keys
    requires forall k | k in keys :: Share(a[k], m) == Share(b[k], m)
    ensures Total(a, keys, m) == Total(b, keys, m)
    decreases keys
  {
    if keys != {} {
      var k :| k in keys;
      TotalPick(a, keys, k, m);
      TotalPick(b, keys, k, m);
      TotalFrame(a, b, keys - {k}, m);
    }
  }

  ghost function Held(l: Ledger, m: Address): nat { Total(l.accounts, l.accounts.Keys, m) }

  /** Replacing one account changes the sum by the change of its share. */
  lemma HeldUpdate(l: Ledger, l': Ledger, k: Address, h: Holding, m: Address)
    requires l'.accounts == l.accounts[k := h]
    ensures Held(l', m) + (if k in l.accounts then Share(l.accounts[k], m) else 0) == Held(l, m) + Share(h, m)
  {
    var a, b := l.accounts, l'.accounts;
    TotalPick(b, b.Keys, k, m);
    TotalFrame(a, b, b.Keys - {k}, m);
    if k in a {
      TotalPick(a, a.Keys, k, m);
      assert a.Keys == b.Keys;
    } else {
      assert b.Keys - {k} == a.Keys;
    }
  }

  lemma HeldRemove(l: Ledger, l': Ledger, k: Address, m: Address)
    requires k in l.accounts && l'.accounts == map j | j in l.accounts && j != k :: l.accounts[j]
    ensures Held(l', m) + Share(l.accounts[k], m) == Held(l, m)
  {
    var a, b := l.accounts, l'.accounts;
    TotalPick(a, a.Keys, k, m);
    assert b.Keys == a.Keys - {k};
    TotalFrame(a, b, b.Keys, m);
  }

  /** Every token account belongs to a mint, and the balances of each mint sum to its supply. */
  ghost predicate Conserved(l: Ledger) {
    && (forall a | a in l.accounts :: l.accounts[a].mint in l.mints)
    && (forall m | m in l.mints :: Held(l, m) == l.mints[m].supply <= MAX_U64)
  }

  lemma {:induction false} NothingHeld(a: map<Address, Holding>, keys: set<Address>, m: Address)
    requires keys <= a.Keys && forall k | k in keys :: a[k].mint != m
    ensures Total(a, keys, m) == 0
    decreases keys
  {
    if keys != {} {
      var k :| k in keys;
      TotalPick(a, keys, k, m);
      NothingHeld(a, keys - {k}, m);
    }
  }

  lemma ExecConserves(l: Ledger, op: Op, signers: set<Address>)
    requires Conserved(l) && Exec(l, op, signers).Some?
    ensures Conserved(Exec(l, op, signers).value)
  {
    hide Conserved, Exec;
    match op {
      case MintTo(_, _, _, _) => MintToConserves(l, op, signers);
      case Transfer(_, _, _) => TransferConserves(l, op, signers);
      case Burn(_, _) => BurnConserves(l, op, signers);
      case OpenAccount(_, _, _, _) => HolderConserves(l, op, signers);
      case SetOwner(_, _) => HolderConserves(l, op, signers);
      case SetFrozen(_, _, _) => HolderConserves(l, op, signers);
      case CloseAccount(_) => HolderConserves(l, op, signers);
      case _ => ElsewhereConserves(l, op, signers);
    }
  }

  /** Operations that leave every balance as it is but touch one token account. */
  lemma HolderConserves(l: Ledger, op: Op, signers: set<Address>)
    requires op.OpenAccount? || op.SetOwner? || op.SetFrozen? || op.CloseAccount?
    requires Conserved(l) && Exec(l, op, signers).Some?
    ensures Conserved(Exec(l, op, signers).value)
  {
    hide Held;
    var l' := Exec(l, op, signers).value;
    match op {
      case OpenAccount(a, owner, n, _) =>
        if a !in l.accounts {
          forall m ensures Held(l', m) == Held(l, m) { HeldUpdate(l, l', a, Holding(n, owner, 0, false), m); }
        }
      case SetOwner(a, _) =>
        forall m ensures Held(l', m) == Held(l, m) { HeldUpdate(l, l', a, l'.accounts[a], m); }
      case SetFrozen(a, _, _) =>
        forall m ensures Held(l', m) == Held(l, m) { HeldUpdate(l, l', a, l'.accounts[a], m); }
      case CloseAccount(a) =>
        forall m ensures Held(l', m) == Held(l, m) { HeldRemove(l, l', a, m); }
    }
  }

  /** Operations that touch no token account. */
  lemma ElsewhereConserves(l: Ledger, op: Op, signers: set<Address>)
    requires op.CreateMint? || op.SetAuthority? || op.SetIdentity? || op.Delegate? || op.Fund? || op.PayLamports?
    requires Conserved(l) && Exec(l, op, signers).Some?
    ensures Conserved(Exec(l, op, signers).value)
  {
    hide Held;
    var l' := Exec(l, op, signers).value;
    if op.CreateMint? { NothingHeldOf(l, op.mint); }
    if op.SetAuthority? { assert op.kind.MintTokens? || op.kind.FreezeAccounts?; }
    assert l'.accounts == l.accounts;
    forall m ensures Held(l', m) == Held(l, m) { SameHeld(l, l', m); }
  }

  lemma SameHeld(l: Ledger, l': Ledger, m: Address)
    requires l.accounts == l'.accounts
    ensures Held(l, m) == Held(l', m)
  {
  }

  lemma NothingHeldOf(l: Ledger, m: Address)
    requires Conserved(l) && m !in l.mints
    ensures Held(l, m) == 0
  {
    NothingHeld(l.accounts, l.accounts.Keys, m);
  }

  lemma MintToConserves(l: Ledger, op: Op, signers: set<Address>)
    requires op.MintTo? && Conserved(l) && Exec(l, op, signers).Some?
    ensures Conserved(Exec(l, op, signers).value)
  {
    hide Held;
    var l' := Exec(l, op, signers).value;
    forall m | m in l'.mints ensures Held(l', m) == l'.mints[m].supply <= MAX_U64 {
      HeldUpdate(l, l', op.dest, l'.accounts[op.dest], m);
    }
  }

  lemma TransferConserves(l: Ledger, op: Op, signers: set<Address>)
    requires op.Transfer? && Conserved(l) && Exec(l, op, signers).Some?
    ensures Conserved(Exec(l, op, signers).value)
  {
    hide Held;
    var l' := Exec(l, op, signers).value;
    var mid := Debit(l, op.src, op.amount);
    forall m | m in l'.mints ensures Held(l', m) == l'.mints[m].supply <= MAX_U64 {
      HeldUpdate(l, mid, op.src, mid.accounts[op.src], m);
      HeldUpdate(mid, l', op.dst, l'.accounts[op.dst], m);
    }
  }

  lemma BurnConserves(l: Ledger, op: Op, signers: set<Address>)
    requires op.Burn? && Conserved(l) && Exec(l, op, signers).Some?
    ensures Conserved(Exec(l, op, signers).value)
  {
    hide Held;
    var l' := Exec(l, op, signers).value;
    forall m | m in l'.mints ensures Held(l', m) == l'.mints[m].supply <= MAX_U64 {
      HeldUpdate(l, l', op.src, l'.accounts[op.src], m);
    }
  }

  lemma {:induction false} ExecAllConserves(l: Ledger, ops: seq<Op>, signers: set<Address>)
    requires Conserved(l) && ExecAll(l, ops, signers).Some?
    ensures Conserved(ExecAll(l, ops, signers).value)
    decreases |ops|
  {
    hide Conserved, Exec;
    if ops != [] {
      ExecConserves(l, ops[0], signers);
      ExecAllConserves(Exec(l, ops[0], signers).value, ops[1..], signers);
    }
  }

  // ----- a finished token

  /** No key can mint more of it or freeze a holder, at most this much of it exists, and no
      account outside the given set is frozen. */
  ghost predicate Finished(l: Ledger, m: Address, supply: nat, frozen: set<Address>) {
    && m in l.mints && l.mints[m].mintAuthority == None && l.mints[m].freezeAuthority == None
    && l.mints[m].supply <= supply
    && forall a | a in l.accounts && l.accounts[a].mint == m && l.accounts[a].frozen :: a in frozen
  }

  lemma ExecKeepsFinished(l: Ledger, op: Op, signers: set<Address>, m: Address, supply: nat, frozen: set<Address>)
    requires Finished(l, m, supply, frozen) && Exec(l, op, signers).Some?
    ensures Finished(Exec(l, op, signers).value, m, supply, frozen)
  {
    match op {
      case SetAuthority(_, kind, _, _) => match kind { case MintTokens => case FreezeAccounts => }
      case _ =>
    }
  }

  lemma {:induction false} ExecAllKeepsFinished(l: Ledger, ops: seq<Op>, signers: set<Address>, m: Address,
                                                supply: nat, frozen: set<Address>)
    requires Finished(l, m, supply, frozen) && ExecAll(l, ops, signers).Some?
    ensures Finished(ExecAll(l, ops, signers).value, m, supply, frozen)
    decreases |ops|
  {
    hide Finished, Exec;
    if ops != [] {
      ExecKeepsFinished(l, ops[0], signers, m, supply, frozen);
      ExecAllKeepsFinished(Exec(l, ops[0], signers).value, ops[1..], signers, m, supply, frozen);
    }
  }

  /** Whatever anybody submits afterwards, a finished token stays finished and its balances
      keep summing to its supply. */
  lemma {:induction false} FinishedForever(l: Ledger, txs: seq<Transaction>, m: Address, supply: nat,
                                           frozen: set<Address>)
    requires Conserved(l) && Finished(l, m, supply, frozen)
    ensures var l' := History(l, txs);
      && Conserved(l') && Finished(l', m, supply, frozen)
      && Held(l', m) == l'.mints[m].supply <= supply
    decreases |txs|
  {
    if txs != [] {
      var tx := txs[0];
      if ExecAll(l, tx.ops, tx.signers).Some? {
        ExecAllConserves(l, tx.ops, tx.signers);
        ExecAllKeepsFinished(l, tx.ops, tx.signers, m, supply, frozen);
      }
      FinishedForever(Transact(l, tx.ops, tx.signers), txs[1..], m, supply, frozen);
    }
  }

  // ----- an immutable identity

  ghost predicate Locked(l: Ledger, m: Address, identity: Identity) {
    m in l.mints && l.mints[m].identity == identity && !identity.isMutable
  }

  lemma {:induction false} ExecAllKeepsLocked(l: Ledger, ops: seq<Op>, signers: set<Address>, m: Address,
                                              identity: Identity)
    requires Locked(l, m, identity) && ExecAll(l, ops, signers).Some?
    ensures Locked(ExecAll(l, ops, signers).value, m, identity)
    decreases |ops|
  {
    if ops != [] {
      ExecAllKeepsLocked(Exec(l, ops[0], signers).value, ops[1..], signers, m, identity);
    }
  }

  /** An immutable identity outlives whatever anybody submits, its update authority included. */
  lemma {:induction false} LockedForever(l: Ledger, txs: seq<Transaction>, m: Address, identity: Identity)
    requires Locked(l, m, identity)
    ensures Locked(History(l, txs), m, identity)
    decreases |txs|
  {
    if txs != [] {
      var tx := txs[0];
      if ExecAll(l, tx.ops, tx.signers).Some? { ExecAllKeepsLocked(l, tx.ops, tx.signers, m, identity); }
      LockedForever(Transact(l, tx.ops, tx.signers), txs[1..], m, identity);
    }
  }

  // ----- an address nobody signs for

  ghost predicate Unsigned(txs: seq<Transaction>, m: Address) { forall i | 0 <= i < |txs| :: m !in txs[i].signers }

  lemma {:induction false} ExecAllKeepsAbsent(l: Ledger, ops: seq<Op>, signers: set<Address>, m: Address)
    requires m !in l.mints && m !in signers && ExecAll(l, ops, signers).Some?
    ensures m !in ExecAll(l, ops, signers).value.mints
    decreases |ops|
  {
    if ops != [] {
      ExecAllKeepsAbsent(Exec(l, ops[0], signers).value, ops[1..], signers, m);
    }
  }

  /** No mint appears at an address whose key signs nothing. */
  lemma {:induction false} AbsentUntilSigned(l: Ledger, txs: seq<Transaction>, m: Address)
    requires Conserved(l) && m !in l.mints && Unsigned(txs, m)
    ensures Conserved(History(l, txs)) && m !in History(l, txs).mints
    decreases |txs|
  {
    hide Conserved;
    if txs != [] {
      var tx := txs[0];
      if ExecAll(l, tx.ops, tx.signers).Some? {
        ExecAllConserves(l, tx.ops, tx.signers);
        ExecAllKeepsAbsent(l, tx.ops, tx.signers, m);
      }
      AbsentUntilSigned(Transact(l, tx.ops, tx.signers), txs[1..], m);
    }
  }
}
