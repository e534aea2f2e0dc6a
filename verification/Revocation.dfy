/** What a list of creating, minting and revoking operations leaves of a mint's authorities, on every
    ledger it succeeds on. */
module Revocation {
  import opened Basics
  import opened Ledger

  /** The operations an approved message can carry. */
  predicate Plain(op: Op) {
    Harmless(op) || op.MintTo? || (op.SetAuthority? && op.newAuthority == None)
  }

  /** Bringing accounts into existence and writing metadata: no authority over existing funds. */
  predicate Harmless(op: Op) { op.CreateMint? || op.OpenAccount? || op.SetIdentity? || op.Fund? }

  predicate AllPlain(ops: seq<Op>) { forall i | 0 <= i < |ops| :: Plain(ops[i]) }

  function AuthorityOf(m: Mint, kind: AuthorityKind): Option<Address> {
    if kind.MintTokens? then m.mintAuthority else m.freezeAuthority
  }

  predicate Revokes(op: Op, a: Address, kind: AuthorityKind) {
    op.SetAuthority? && op.mint == a && op.kind == kind && op.newAuthority == None
  }

  predicate Mints(op: Op, a: Address) { op.MintTo? && op.mint == a }

  ghost predicate SomeMint(ops: seq<Op>, a: Address) { exists i | 0 <= i < |ops| :: Mints(ops[i], a) }

  ghost predicate SomeRevoke(ops: seq<Op>, a: Address, kind: AuthorityKind) {
    exists i | 0 <= i < |ops| :: Revokes(ops[i], a, kind)
  }

  ghost predicate Vacant(l: Ledger, a: Address, kind: AuthorityKind) {
    a in l.mints && AuthorityOf(l.mints[a], kind) == None
  }

  /** Nobody is left with an authority over anything the list mints. */
  ghost predicate Settled(l: Ledger, ops: seq<Op>) {
    forall a | SomeMint(ops, a) :: Vacant(l, a, MintTokens) && Vacant(l, a, FreezeAccounts)
  }

  ghost predicate AlwaysSettled(ops: seq<Op>, signers: set<Address>) {
    forall l: Ledger | ExecAll(l, ops, signers).Some? :: Settled(ExecAll(l, ops, signers).value, ops)
  }

  /** Whatever the list mints, it also revokes, both ways. */
  ghost predicate AllRevoked(ops: seq<Op>) {
    forall a | SomeMint(ops, a) :: SomeRevoke(ops, a, MintTokens) && SomeRevoke(ops, a, FreezeAccounts)
  }

  // ----- nothing is taken

  /** Nobody's token account loses tokens, changes hands or changes its frozen state; no mint loses
      supply or gets a new authority; no account that existed gains lamports, and only signers pay. */
  ghost predicate Spared(l: Ledger, l': Ledger, signers: set<Address>) {
    && (forall a | a in l.accounts :: a in l'.accounts
          && l'.accounts[a].amount >= l.accounts[a].amount
          && l'.accounts[a].(amount := l.accounts[a].amount) == l.accounts[a])
    && (forall m | m in l.mints :: m in l'.mints
          && l'.mints[m].supply >= l.mints[m].supply && l'.mints[m].decimals == l.mints[m].decimals
          && NoNewHolder(l.mints[m].mintAuthority, l'.mints[m].mintAuthority)
          && NoNewHolder(l.mints[m].freezeAuthority, l'.mints[m].freezeAuthority))
    && (forall x | x in l.lamports :: x in l'.lamports
          && l'.lamports[x] <= l.lamports[x] && (x !in signers ==> l'.lamports[x] == l.lamports[x]))
  }

  predicate NoNewHolder(before: Option<Address>, after: Option<Address>) { after == before || after == None }

  lemma PlainSpares(l: Ledger, op: Op, signers: set<Address>)
    requires Plain(op) && Exec(l, op, signers).Some?
    ensures Spared(l, Exec(l, op, signers).value, signers)
  {
    hide Exec, Spared;
    if Harmless(op) { HarmlessSpares(l, op, signers); } else { TokensSpared(l, op, signers); }
  }

  lemma HarmlessSpares(l: Ledger, op: Op, signers: set<Address>)
    requires Harmless(op) && Exec(l, op, signers).Some?
    ensures Spared(l, Exec(l, op, signers).value, signers)
  {
    match op {
      case CreateMint(_, _, _, _, _) =>
      case OpenAccount(_, _, _, _) =>
      case SetIdentity(_, _, _) =>
      case Fund(_, _, _) =>
    }
  }

  lemma TokensSpared(l: Ledger, op: Op, signers: set<Address>)
    requires Plain(op) && !Harmless(op) && Exec(l, op, signers).Some?
    ensures Spared(l, Exec(l, op, signers).value, signers)
  {
    match op {
      case SetAuthority(_, MintTokens, _, _) =>
      case SetAuthority(_, FreezeAccounts, _, _) =>
      case MintTo(_, _, _, _) =>
    }
  }

  lemma SparedTrans(a: Ledger, b: Ledger, c: Ledger, signers: set<Address>)
    requires Spared(a, b, signers) && Spared(b, c, signers)
    ensures Spared(a, c, signers)
  {
  }

  lemma {:induction false} PlainListSpares(l: Ledger, ops: seq<Op>, signers: set<Address>)
    requires AllPlain(ops) && ExecAll(l, ops, signers).Some?
    ensures Spared(l, ExecAll(l, ops, signers).value, signers)
    decreases |ops|
  {
    hide Exec;
    if ops != [] {
      var l1 := Exec(l, ops[0], signers).value;
      PlainSpares(l, ops[0], signers);
      PlainListSpares(l1, ops[1..], signers);
      hide Spared;
      SparedTrans(l, l1, ExecAll(l, ops, signers).value, signers);
    }
  }

  // ----- revoked is enough

  lemma ExecKeepsVacant(l: Ledger, op: Op, signers: set<Address>, a: Address, kind: AuthorityKind)
    requires Exec(l, op, signers).Some?
    requires Vacant(l, a, kind) || Revokes(op, a, kind)
    ensures Vacant(Exec(l, op, signers).value, a, kind)
  {
    match op {
      case SetAuthority(_, MintTokens, _, _) =>
      case SetAuthority(_, FreezeAccounts, _, _) =>
      case _ =>
    }
  }

  /** An authority revoked anywhere in the list is gone at its end. */
  lemma {:induction false} RevokedEnds(l: Ledger, ops: seq<Op>, signers: set<Address>, a: Address, kind: AuthorityKind)
    requires ExecAll(l, ops, signers).Some?
    requires Vacant(l, a, kind) || SomeRevoke(ops, a, kind)
    ensures Vacant(ExecAll(l, ops, signers).value, a, kind)
    decreases |ops|
  {
    hide Exec, Vacant;
    if ops != [] {
      var l1 := Exec(l, ops[0], signers).value;
      if Vacant(l, a, kind) || Revokes(ops[0], a, kind) {
        ExecKeepsVacant(l, ops[0], signers, a, kind);
      } else {
        RevokedLater(ops, a, kind);
      }
      RevokedEnds(l1, ops[1..], signers, a, kind);
    }
  }

  lemma RevokedLater(ops: seq<Op>, a: Address, kind: AuthorityKind)
    requires ops != [] && SomeRevoke(ops, a, kind) && !Revokes(ops[0], a, kind)
    ensures SomeRevoke(ops[1..], a, kind)
  {
    var i :| 0 <= i < |ops| && Revokes(ops[i], a, kind);
    assert Revokes(ops[1..][i - 1], a, kind);
  }

  // ----- not revoked is not

  /** Plain operations that do not revoke an authority leave its holder in place. */
  lemma ExecKeepsHolder(l: Ledger, op: Op, signers: set<Address>, a: Address, kind: AuthorityKind)
    requires Plain(op) && !Revokes(op, a, kind) && Exec(l, op, signers).Some?
    requires a in l.mints && AuthorityOf(l.mints[a], kind).Some?
    ensures var l' := Exec(l, op, signers).value;
      a in l'.mints && AuthorityOf(l'.mints[a], kind) == AuthorityOf(l.mints[a], kind)
  {
    match op {
      case SetAuthority(_, MintTokens, _, _) =>
      case SetAuthority(_, FreezeAccounts, _, _) =>
      case _ =>
    }
  }

  ghost predicate HasHolder(l: Ledger, a: Address, kind: AuthorityKind) {
    a in l.mints && AuthorityOf(l.mints[a], kind).Some?
  }

  /** Minting takes a mint authority; left unrevoked, it is there at the end. */
  lemma {:induction false} MinterRemains(l: Ledger, ops: seq<Op>, signers: set<Address>, a: Address)
    requires AllPlain(ops) && ExecAll(l, ops, signers).Some? && !SomeRevoke(ops, a, MintTokens)
    requires SomeMint(ops, a) || HasHolder(l, a, MintTokens)
    ensures HasHolder(ExecAll(l, ops, signers).value, a, MintTokens)
    decreases |ops|
  {
    hide Exec;
    if ops != [] {
      var l1 := Exec(l, ops[0], signers).value;
      TailUnrevoked(ops, a, MintTokens);
      if Mints(ops[0], a) { MintingTakesAuthority(l, ops[0], signers); }
      if HasHolder(l, a, MintTokens) {
        ExecKeepsHolder(l, ops[0], signers, a, MintTokens);
      } else {
        var i :| 0 <= i < |ops| && Mints(ops[i], a);
        assert Mints(ops[1..][i - 1], a);
      }
      MinterRemains(l1, ops[1..], signers, a);
    }
  }

  lemma MintingTakesAuthority(l: Ledger, op: Op, signers: set<Address>)
    requires op.MintTo? && Exec(l, op, signers).Some?
    ensures HasHolder(l, op.mint, MintTokens)
  {
  }

  lemma TailUnrevoked(ops: seq<Op>, a: Address, kind: AuthorityKind)
    requires ops != [] && !SomeRevoke(ops, a, kind)
    ensures !Revokes(ops[0], a, kind) && !SomeRevoke(ops[1..], a, kind)
  {
    forall i | 0 <= i < |ops| - 1 ensures !Revokes(ops[1..][i], a, kind) {
      assert ops[1..][i] == ops[i + 1];
    }
  }

  /** The same ledger, except that the mint, if it is there, has a freeze authority. */
  ghost predicate Freezable(l: Ledger, f: Ledger, a: Address) {
    && f.accounts == l.accounts && f.lamports == l.lamports && f.mints.Keys == l.mints.Keys
    && (forall m | m in l.mints && m != a :: f.mints[m] == l.mints[m])
    && (a in l.mints ==>
          f.mints[a].freezeAuthority.Some? && f.mints[a].(freezeAuthority := l.mints[a].freezeAuthority) == l.mints[a])
  }

  lemma ExecKeepsFreezable(l: Ledger, f: Ledger, op: Op, signers: set<Address>, a: Address)
    requires Freezable(l, f, a) && Plain(op) && !Revokes(op, a, FreezeAccounts) && Exec(l, op, signers).Some?
    ensures Exec(f, op, signers).Some? && Freezable(Exec(l, op, signers).value, Exec(f, op, signers).value, a)
  {
    hide Exec, Freezable;
    match op {
      case SetAuthority(_, _, _, _) => RevokeKeepsFreezable(l, f, op, signers, a);
      case MintTo(_, _, _, _) => MintKeepsFreezable(l, f, op, signers, a);
      case _ => HarmlessKeepsFreezable(l, f, op, signers, a);
    }
  }

  lemma RevokeKeepsFreezable(l: Ledger, f: Ledger, op: Op, signers: set<Address>, a: Address)
    requires Freezable(l, f, a) && op.SetAuthority? && !Revokes(op, a, FreezeAccounts) && Plain(op)
    requires Exec(l, op, signers).Some?
    ensures Exec(f, op, signers).Some? && Freezable(Exec(l, op, signers).value, Exec(f, op, signers).value, a)
  {
    if op.kind.MintTokens? {
    } else {
    }
  }

  lemma HarmlessKeepsFreezable(l: Ledger, f: Ledger, op: Op, signers: set<Address>, a: Address)
    requires Freezable(l, f, a) && Harmless(op) && Exec(l, op, signers).Some?
    ensures Exec(f, op, signers).Some? && Freezable(Exec(l, op, signers).value, Exec(f, op, signers).value, a)
  {
    hide Exec, Freezable;
    if op.SetIdentity? {
      IdentityKeepsFreezable(l, f, op, signers, a);
    } else {
      CreatingKeepsFreezable(l, f, op, signers, a);
    }
  }

  lemma IdentityKeepsFreezable(l: Ledger, f: Ledger, op: Op, signers: set<Address>, a: Address)
    requires Freezable(l, f, a) && op.SetIdentity? && Exec(l, op, signers).Some?
    ensures Exec(f, op, signers).Some? && Freezable(Exec(l, op, signers).value, Exec(f, op, signers).value, a)
  {
  }

  lemma CreatingKeepsFreezable(l: Ledger, f: Ledger, op: Op, signers: set<Address>, a: Address)
    requires Freezable(l, f, a) && (op.CreateMint? || op.OpenAccount? || op.Fund?) && Exec(l, op, signers).Some?
    ensures Exec(f, op, signers).Some? && Freezable(Exec(l, op, signers).value, Exec(f, op, signers).value, a)
  {
    match op {
      case CreateMint(_, _, _, _, _) =>
      case OpenAccount(_, _, _, _) =>
      case Fund(_, _, _) =>
    }
  }

  lemma MintKeepsFreezable(l: Ledger, f: Ledger, op: Op, signers: set<Address>, a: Address)
    requires Freezable(l, f, a) && op.MintTo? && Exec(l, op, signers).Some?
    ensures Exec(f, op, signers).Some? && Freezable(Exec(l, op, signers).value, Exec(f, op, signers).value, a)
  {
  }

  lemma {:induction false} FreezerRemains(l: Ledger, f: Ledger, ops: seq<Op>, signers: set<Address>, a: Address)
    requires Freezable(l, f, a) && AllPlain(ops) && !SomeRevoke(ops, a, FreezeAccounts)
      && ExecAll(l, ops, signers).Some?
    ensures ExecAll(f, ops, signers).Some?
      && Freezable(ExecAll(l, ops, signers).value, ExecAll(f, ops, signers).value, a)
    decreases |ops|
  {
    hide Exec, Freezable;
    if ops != [] {
      TailUnrevoked(ops, a, FreezeAccounts);
      ExecKeepsFreezable(l, f, ops[0], signers, a);
      FreezerRemains(Exec(l, ops[0], signers).value, Exec(f, ops[0], signers).value, ops[1..], signers, a);
    }
  }

  lemma {:induction false} MintExists(l: Ledger, ops: seq<Op>, signers: set<Address>, a: Address)
    requires ExecAll(l, ops, signers).Some? && (a in l.mints || SomeMint(ops, a))
    ensures a in ExecAll(l, ops, signers).value.mints
    decreases |ops|
  {
    if ops != [] {
      if a !in l.mints && !Mints(ops[0], a) {
        var i :| 0 <= i < |ops| && Mints(ops[i], a);
        assert Mints(ops[1..][i - 1], a);
      }
      MintExists(Exec(l, ops[0], signers).value, ops[1..], signers, a);
    }
  }

  /** If the list does not revoke the freeze authority of something it mints, there is a ledger on
      which it succeeds and leaves one. */
  lemma UnfrozenFails(l: Ledger, ops: seq<Op>, signers: set<Address>, a: Address)
    requires AllPlain(ops) && ExecAll(l, ops, signers).Some? && SomeMint(ops, a) && !SomeRevoke(ops, a, FreezeAccounts)
    ensures !AlwaysSettled(ops, signers)
  {
    var f := if a in l.mints then l.(mints := l.mints[a := l.mints[a].(freezeAuthority := Some(a))]) else l;
    assert Freezable(l, f, a);
    FreezerRemains(l, f, ops, signers, a);
    MintExists(l, ops, signers, a);
    hide ExecAll;
    assert !Vacant(ExecAll(f, ops, signers).value, a, FreezeAccounts);
  }

  lemma UnrevokedFails(l: Ledger, ops: seq<Op>, signers: set<Address>, a: Address)
    requires AllPlain(ops) && ExecAll(l, ops, signers).Some? && SomeMint(ops, a) && !SomeRevoke(ops, a, MintTokens)
    ensures !AlwaysSettled(ops, signers)
  {
    MinterRemains(l, ops, signers, a);
    hide ExecAll;
    assert !Vacant(ExecAll(l, ops, signers).value, a, MintTokens);
  }

  /** A list that succeeds on some ledger leaves everything it mints without authorities, on every
      ledger it succeeds on, if and only if it revokes both authorities of everything it mints. */
  lemma SettledIffRevoked(l: Ledger, ops: seq<Op>, signers: set<Address>)
    requires AllPlain(ops) && ExecAll(l, ops, signers).Some?
    ensures AlwaysSettled(ops, signers) <==> AllRevoked(ops)
  {
    hide ExecAll, Vacant, SomeMint, SomeRevoke, AllPlain;
    if AllRevoked(ops) {
      forall k: Ledger | ExecAll(k, ops, signers).Some? ensures Settled(ExecAll(k, ops, signers).value, ops) {
        forall a | SomeMint(ops, a)
          ensures Vacant(ExecAll(k, ops, signers).value, a, MintTokens)
               && Vacant(ExecAll(k, ops, signers).value, a, FreezeAccounts)
        {
          RevokedEnds(k, ops, signers, a, MintTokens);
          RevokedEnds(k, ops, signers, a, FreezeAccounts);
        }
      }
    } else {
      var a :| SomeMint(ops, a) && !(SomeRevoke(ops, a, MintTokens) && SomeRevoke(ops, a, FreezeAccounts));
      if !SomeRevoke(ops, a, MintTokens) {
        UnrevokedFails(l, ops, signers, a);
      } else {
        UnfrozenFails(l, ops, signers, a);
      }
    }
  }
}
