/** The mint engine of token/engine.go and token/mint.go, against a chain that keeps moving and an
    RPC endpoint that may fail on any call. */
module Engine {
  import opened Basics
  import opened Numbers
  import opened Chain
  import opened Programs
  import opened Base58
  import opened Network
  import opened AtomicMint
  import opened SplMint
  import L = Ledger

  const ZERO: Address := Zeros(ADDR_LEN)

  // ----- accounts as the endpoint reports them

  datatype Account = Account(owner: Address, data: seq<Byte>)

  datatype AccountAnswer = RpcError | NotFound | Found(account: Account)

  /** An initialized 82-byte account of the SPL Token program. */
  predicate IsSplMint(a: Account) {
    && a.owner == TOKEN_PROGRAM && |a.data| == MINT_ACCOUNT_SIZE
    && DecodeMint(a.data).Some? && DecodeMint(a.data).value.initialized
  }

  predicate ShowsMint(a: AccountAnswer) { a.Found? && IsSplMint(a.account) }

  /** The shape a mint must be read back in: no mint authority, no freeze authority, and exactly
      the requested supply. */
  predicate SafeMint(a: AccountAnswer, s: MintSpec) {
    && a.Found? && IsSplMint(a.account)
    && DecodeMint(a.account.data).value.mintAuthority == None
    && DecodeMint(a.account.data).value.freezeAuthority == None
    && DecodeMint(a.account.data).value.supply == s.supply * Pow(10, s.decimals)
  }

  /** A mint somebody could still inflate or freeze. */
  predicate LiveAuthority(a: AccountAnswer) {
    && a.Found? && IsSplMint(a.account)
    && (DecodeMint(a.account.data).value.mintAuthority.Some? || DecodeMint(a.account.data).value.freezeAuthority.Some?)
  }

  /** Not a data account of the Squads program; an account that does not exist is fine. */
  predicate Spendable(a: AccountAnswer) {
    a.NotFound? || (a.Found? && a.account.owner != SQUADS_V4_PROGRAM)
  }

  // ----- the outside world

  datatype Commitment = ConfirmedCommitment | FinalizedCommitment

  /** What the engine does to the outside world, in order. */
  datatype Entry =
    | GenesisRead(hash: Option<string>)
    | AccountRead(key: Address, commitment: Commitment, answer: AccountAnswer)
    | Signed(key: Address)
    | Submitted(ixs: seq<Instr>)
    | StatusRead(tx: Option<TxState>)
    | HeightRead(height: Option<nat>)

  /** What the outside world answers during one call; every combination is allowed. The status and
      height reads are not here: they report the moving chain or fail. A context that ends shows
      as failed reads and as the number of polls it allows. */
  datatype Env = Env(
    genesis: Option<string>,           // the genesis hash, or a failed read
    treasury: AccountAnswer,           // the treasury account before sending
    lastValid: Option<nat>,            // the blockhash's last valid block height, or a failed read
    required: Option<seq<Address>>,    // the signers of the compiled message, or a failed compilation
    refusing: set<Address>,            // the keys whose holders do not sign
    polls: nat,                        // the polling turns before the context ends
    readBack: AccountAnswer)           // the mint account at the end

  /** chain is the transaction of the call in hand; past holds those of the calls before it, which
      the chain goes on treating as it likes. */
  class World {
    var chain: Chain
    var log: seq<Entry>
    ghost var past: seq<Chain>

    /** Every transaction so far, the one in hand last. */
    ghost function Transactions(): (t: seq<Chain>)
      reads this
      ensures |t| == |past| + 1
    {
      past + [chain]
    }

    /** Any number of chain events, as happens between any two calls. */
    method Drift()
      modifies this`chain, this`past
      ensures Later(old(chain), old(past), chain, past)
    {
      hide Reaches, AllReach, Step;
      ReachesRefl(chain);
      AllReachRefl(past);
      var n: nat := *;
      while n > 0
        invariant Reaches(old(chain), chain) && AllReach(old(past), past)
      {
        var e: Event := *;
        ReachesStep(old(chain), chain, e);
        chain := Step(chain, e);
        ghost var i: nat := *;
        ghost var e': Event := *;
        if 0 <= i < |past| {
          AllReachStep(old(past), past, i, e');
          past := past[i := Step(past[i], e')];
        }
        n := n - 1;
      }
    }

    /** GetSignatureStatuses: fails, or reports the state the chain is in. */
    method SignatureStatus() returns (r: Option<TxState>)
      modifies this
      ensures Later(old(chain), old(past), chain, past) && log == old(log) + [StatusRead(r)]
      ensures r.Some? ==> r.value == chain.tx
    {
      Drift();
      var ok: bool := *;
      r := if ok then Some(chain.tx) else None;
      log := log + [StatusRead(r)];
    }

    /** GetBlockHeight: fails, or reports the height the chain is at. */
    method BlockHeight() returns (r: Option<nat>)
      modifies this
      ensures Later(old(chain), old(past), chain, past) && log == old(log) + [HeightRead(r)]
      ensures r.Some? ==> r.value == chain.height
    {
      Drift();
      var ok: bool := *;
      r := if ok then Some(chain.height) else None;
      log := log + [HeightRead(r)];
    }

    method GenesisHash(env: Env) returns (hash: Option<string>)
      modifies this
      ensures Later(old(chain), old(past), chain, past) && log == old(log) + [GenesisRead(hash)]
      ensures hash == env.genesis
    {
      Drift();
      hash := env.genesis;
      log := log + [GenesisRead(hash)];
    }

    method AccountInfo(key: Address, commitment: Commitment, answer: AccountAnswer)
      modifies this
      ensures Later(old(chain), old(past), chain, past) && log == old(log) + [AccountRead(key, commitment, answer)]
    {
      Drift();
      log := log + [AccountRead(key, commitment, answer)];
    }

    /** Asks the holder of a key for a signature; some holders refuse. */
    method Sign(key: Address, env: Env) returns (ok: bool)
      modifies this
      ensures Later(old(chain), old(past), chain, past) && log == old(log) + [Signed(key)]
      ensures ok <==> key !in env.refusing
    {
      Drift();
      ok := key !in env.refusing;
      log := log + [Signed(key)];
    }

    /** SendTransaction. The submit result plays no part: once the bytes have left, the
        transaction may land. */
    method Submit(ixs: seq<Instr>)
      modifies this
      ensures chain == old(chain).(submitted := true) && past == old(past) && log == old(log) + [Submitted(ixs)]
    {
      chain := chain.(submitted := true);
      log := log + [Submitted(ixs)];
    }

    /** A new call: its transaction does not exist yet, and the one before it joins the others. */
    method Begin()
      modifies this
      ensures chain == old(chain).(submitted := false, tx := Absent) && log == old(log) && past == old(Transactions())
    {
      past := past + [chain];
      chain := chain.(submitted := false, tx := Absent);
    }
  }

  // ----- waiting for the outcome

  datatype Outcome = Reached | Expired | FailedOnChain | ContextEnded

  predicate Satisfies(tx: TxState, commitment: Commitment) {
    || tx == Final(false)
    || (tx == Seen(Confirmed, false) && commitment.ConfirmedCommitment?)
  }

  /** The answers of one polling turn; a read that was not made or failed is None. */
  datatype Turn = Turn(first: Option<TxState>, height: Option<nat>, second: Option<TxState>)

  /** What one turn settles: a failure, a sufficient commitment, or two not-founds around a height
      past the window. A single not-found, or an unreadable status, settles nothing. */
  function Settles(t: Turn, lastValid: nat, commitment: Commitment): Option<Outcome> {
    if t.first.None? then None
    else if !t.first.value.Absent? then
      if t.first.value.failed then Some(FailedOnChain)
      else if Satisfies(t.first.value, commitment) then Some(Reached)
      else None
    else if t.height.Some? && t.height.value > lastValid && t.second == Some(Absent) then Some(Expired)
    else None
  }

  /** The same, case by case: a finalized landing settles every wait and a confirmed one only a wait
      for confirmation; a failed landing is reported; a processed one, a single not-found and an
      unreadable status settle nothing; two not-founds around a height past the window mean expiry. */
  lemma SettlesCases(t: Turn, lastValid: nat, commitment: Commitment)
    ensures t.first == Some(Final(false)) ==> Settles(t, lastValid, commitment) == Some(Reached)
    ensures t.first == Some(Seen(Confirmed, false)) ==>
      Settles(t, lastValid, commitment) == if commitment == ConfirmedCommitment then Some(Reached) else None
    ensures t.first == Some(Seen(Processed, false)) || t.first == None ==> Settles(t, lastValid, commitment) == None
    ensures t.first in {Some(Final(true)), Some(Seen(Confirmed, true)), Some(Seen(Processed, true))} ==>
      Settles(t, lastValid, commitment) == Some(FailedOnChain)
    ensures t.first == Some(Absent) ==>
      Settles(t, lastValid, commitment) ==
        if t.height.Some? && t.height.value > lastValid && t.second == Some(Absent) then Some(Expired) else None
  {
  }

  /** What a reached commitment is worth. */
  ghost predicate Worth(c: Chain, commitment: Commitment) {
    if commitment == FinalizedCommitment then LandedForGood(c)
    else !c.tx.Absent? && !c.tx.failed && (c.tx.Final? || c.tx.level == Confirmed)
  }

  /** The reads one turn makes, in order. */
  ghost function TurnReads(t: Turn, lastValid: nat): seq<Entry> {
    [StatusRead(t.first)]
    + if t.first != Some(Absent) then []
      else [HeightRead(t.height)]
           + if t.height.Some? && t.height.value > lastValid then [StatusRead(t.second)] else []
  }

  ghost function AllReads(turns: seq<Turn>, lastValid: nat): seq<Entry> {
    if turns == [] then [] else AllReads(turns[..|turns| - 1], lastValid) + TurnReads(turns[|turns| - 1], lastValid)
  }

  lemma AllReadsSnoc(turns: seq<Turn>, t: Turn, lastValid: nat)
    ensures AllReads(turns + [t], lastValid) == AllReads(turns, lastValid) + TurnReads(t, lastValid)
  {
    assert (turns + [t])[..|turns|] == turns;
  }

  lemma {:induction false} ReadsAreReads(turns: seq<Turn>, lastValid: nat)
    ensures Quiet(AllReads(turns, lastValid))
  {
    if turns != [] { ReadsAreReads(turns[..|turns| - 1], lastValid); }
  }

  /** The outcome is what the last turn settles, and no earlier turn settled anything; the context
      ends only after the given number of turns, none of which settled anything. */
  ghost predicate Decided(turns: seq<Turn>, lastValid: nat, commitment: Commitment, polls: nat, r: Outcome) {
    && |turns| <= polls
    && (forall i | 0 <= i < |turns| - 1 :: Settles(turns[i], lastValid, commitment) == None)
    && if r == ContextEnded then
         |turns| == polls && (turns != [] ==> Settles(turns[|turns| - 1], lastValid, commitment) == None)
       else
         turns != [] && Settles(turns[|turns| - 1], lastValid, commitment) == Some(r)
  }

  /** Polls until the transaction's fate is settled or the context ends, after `polls` turns. The
      reads it makes are exactly those of its turns, and these decide the outcome; and whatever the
      chain did between the reads, an outcome is true of it: reached and failed are what it shows,
      and expired means that the transaction is not there and never will be. */
  method ConfirmOrExpire(w: World, commitment: Commitment, polls: nat) returns (r: Outcome, ghost turns: seq<Turn>)
    modifies w
    ensures Later(old(w.chain), old(w.past), w.chain, w.past)
    ensures w.log == old(w.log) + AllReads(turns, old(w.chain).lastValid)
    ensures Decided(turns, old(w.chain).lastValid, commitment, polls, r)
    ensures r == Reached ==> Worth(w.chain, commitment)
    ensures r == Expired ==> NeverLands(w.chain)
    ensures r == FailedOnChain ==> !w.chain.tx.Absent? && w.chain.tx.failed
  {
    hide Later, NeverLands, AllReads, Settles, Worth;
    ghost var c0, p0 := w.chain, w.past;
    LaterRefl(c0, p0);
    var lastValid := w.chain.lastValid;
    turns := [];
    AllReadsEmpty(lastValid);
    var n := polls;
    while n > 0
      invariant 0 <= n && |turns| == polls - n
      invariant Later(c0, p0, w.chain, w.past) && lastValid == w.chain.lastValid
      invariant w.log == old(w.log) + AllReads(turns, lastValid)
      invariant forall i | 0 <= i < |turns| :: Settles(turns[i], lastValid, commitment) == None
      decreases n
    {
      n := n - 1;
      ghost var c1, p1 := w.chain, w.past;
      var settled;
      ghost var turn;
      settled, turn := PollOnce(w, lastValid, commitment);
      LaterTrans(c0, p0, c1, p1, w.chain, w.past);
      LaterKeeps(c0, p0, w.chain, w.past);
      AllReadsSnoc(turns, turn, lastValid);
      turns := turns + [turn];
      if settled.Some? { r := settled.value; return; }
    }
    r := ContextEnded;
  }

  lemma AllReadsEmpty(lastValid: nat)
    ensures AllReads([], lastValid) == []
  {
  }

  /** One turn of the loop, after the wait. */
  method PollOnce(w: World, lastValid: nat, commitment: Commitment) returns (r: Option<Outcome>, ghost turn: Turn)
    requires lastValid == w.chain.lastValid
    modifies w
    ensures Later(old(w.chain), old(w.past), w.chain, w.past)
    ensures w.log == old(w.log) + TurnReads(turn, lastValid)
    ensures r == Settles(turn, lastValid, commitment) && r != Some(ContextEnded)
    ensures r == Some(Reached) ==> Worth(w.chain, commitment)
    ensures r == Some(Expired) ==> NeverLands(w.chain)
    ensures r == Some(FailedOnChain) ==> !w.chain.tx.Absent? && w.chain.tx.failed
  {
    hide Later, NeverLands, Reaches, AllReach, LandedForGood;
    ghost var c0, p0 := w.chain, w.past;
    var st := w.SignatureStatus();
    LandedForGoodIff(w.chain);
    turn := Turn(st, None, None);
    if st.None? { return None, turn; }
    if !st.value.Absent? {
      if st.value.failed { return Some(FailedOnChain), turn; }
      if st.value.Final? { return Some(Reached), turn; }
      if st.value.level == Confirmed && commitment != FinalizedCommitment { return Some(Reached), turn; }
      return None, turn;
    }
    ghost var c1, p1 := w.chain, w.past;
    LaterKeeps(c0, p0, c1, p1);
    var height := w.BlockHeight();
    ghost var c2, p2 := w.chain, w.past;
    LaterTrans(c0, p0, c1, p1, c2, p2);
    LaterKeeps(c1, p1, c2, p2);
    turn := Turn(st, height, None);
    if height.None? || height.value <= lastValid { return None, turn; }
    var st2 := w.SignatureStatus();
    LaterTrans(c0, p0, c2, p2, w.chain, w.past);
    turn := Turn(st, height, st2);
    if st2.Some? && st2.value.Absent? {
      AbsentWhenLater(c2, p2, w.chain, w.past);
      return Some(Expired), turn;
    }
    return None, turn;
  }

  lemma AbsentWhenLater(atHeight: Chain, p: seq<Chain>, atStatus: Chain, p': seq<Chain>)
    requires Later(atHeight, p, atStatus, p') && atHeight.height > atHeight.lastValid && atStatus.tx.Absent?
    ensures NeverLands(atStatus)
  {
    hide Reaches, AllReach, NeverLands;
    AbsentAfterWindow(atHeight, atStatus);
  }

  // ----- the engine

  datatype Failure =
    | BadMetadata | ZeroSupply | SupplyOverflows | Refused | TreasuryUnproven | NotBuilt
    | DidNotLand | Unresolved | Unsafe | WrongSupply | Unverified

  /** address is None for the zero public key. */
  datatype MintResult = MintResult(address: Option<Address>, failure: Option<Failure>)

  datatype VerifyResult = Verified(state: MintData) | Token2022 | Unreadable

  predicate SpendableAnswer(e: Entry, treasury: Address) {
    e.AccountRead? && e.key == treasury && e.commitment.FinalizedCommitment? && Spendable(e.answer)
  }

  predicate TestGenesis(e: Entry) { e.GenesisRead? && e.hash.Some? && TestCluster(e.hash.value) }

  ghost predicate SpendableBefore(t: seq<Entry>, i: int, treasury: Address)
    requires i <= |t|
  {
    exists j | 0 <= j < i :: SpendableAnswer(t[j], treasury)
  }

  ghost predicate TestGenesisBefore(t: seq<Entry>, i: int)
    requires i <= |t|
  {
    exists j | 0 <= j < i :: TestGenesis(t[j])
  }

  /** Every signature and every submission comes after an answer that shows the treasury can
      spend, and, when the supply goes to the payer on an unpinned engine, after this call's own
      genesis read named a test cluster. At most one transaction is submitted, and it is the given
      instruction list. */
  ghost predicate Disciplined(t: seq<Entry>, treasury: Address, hotKey: bool, bundle: Option<seq<Instr>>) {
    && (forall i | 0 <= i < |t| :: t[i].Signed? || t[i].Submitted? ==> SpendableBefore(t, i, treasury))
    && (forall i | 0 <= i < |t| :: hotKey && (t[i].Signed? || t[i].Submitted?) ==> TestGenesisBefore(t, i))
    && (forall i, j | 0 <= i < |t| && 0 <= j < |t| :: t[i].Submitted? && t[j].Submitted? ==> i == j)
    && (forall i | 0 <= i < |t| :: t[i].Submitted? ==> bundle == Some(t[i].ixs))
  }

  /** Signatures, then at most one submission of the bundle, then account reads. */
  ghost predicate SendsOnce(t: seq<Entry>, ixs: seq<Instr>) {
    && (forall i | 0 <= i < |t| :: t[i].Submitted? ==> t[i].ixs == ixs)
    && (forall i, j | 0 <= i < |t| && 0 <= j < |t| :: t[i].Submitted? && t[j].Submitted? ==> i == j)
  }

  /** The log of a call that got as far as sending. */
  lemma CallIsDisciplined(genesis: seq<Entry>, read: Entry, rest: seq<Entry>, treasury: Address, hotKey: bool,
                          ixs: seq<Instr>)
    requires |genesis| <= 1 && (genesis != [] ==> genesis[0].GenesisRead?)
    requires hotKey ==> genesis != [] && TestGenesis(genesis[0])
    requires SpendableAnswer(read, treasury) && SendsOnce(rest, ixs)
    ensures Disciplined(genesis + [read] + rest, treasury, hotKey, Some(ixs))
  {
    hide Spendable, TestCluster;
    var n := |genesis|;
    var t := genesis + [read] + rest;
    assert t[n] == read && (hotKey ==> t[0] == genesis[0]);
    forall i | 0 <= i < |t| ensures
      && (t[i].Signed? || t[i].Submitted? ==> i > n)
      && (i > n ==> t[i] == rest[i - n - 1])
    {
    }
    forall i | n < i < |t| ensures SpendableBefore(t, i, treasury) && (hotKey ==> TestGenesisBefore(t, i)) {
      assert SpendableAnswer(t[n], treasury) && (hotKey ==> TestGenesis(t[0]));
    }
  }

  /** Nothing is signed and nothing submitted. */
  ghost predicate Quiet(t: seq<Entry>) { forall i | 0 <= i < |t| :: !t[i].Signed? && !t[i].Submitted? }

  lemma QuietIsDisciplined(t: seq<Entry>, treasury: Address, hotKey: bool, bundle: Option<seq<Instr>>)
    requires Quiet(t)
    ensures Disciplined(t, treasury, hotKey, bundle)
  {
  }

  /** What the chain library derives: the metadata account, the treasury's token account for the
      mint, and the instructions sysvar. */
  datatype Derived = Derived(metadata: Address, dest: Address)

  predicate Signable(required: seq<Address>, signers: seq<Address>, env: Env) {
    forall i | 0 <= i < |required| :: required[i] in signers && required[i] !in env.refusing
  }

  predicate Sendable(signers: seq<Address>, env: Env) {
    env.lastValid.Some? && env.required.Some? && Signable(env.required.value, signers, env)
  }

  datatype SendResult = Landed | NeverLanded | Unknown

  class Engine {
    const payer: Address
    const pinned: bool
    var net: Network

    constructor (payer: Address)
      ensures this.payer == payer && !pinned && net == MAINNET
    {
      this.payer, pinned, net := payer, false, MAINNET;
    }

    constructor OnNetwork(payer: Address, n: Network)
      ensures this.payer == payer && pinned && net == n
    {
      this.payer, pinned, net := payer, true, n;
    }

    /** Anything but a recognised test cluster leaves the strict setting in force. */
    method ResolveNetwork(w: World, env: Env) returns (ghost read: seq<Entry>)
      modifies this`net, w
      ensures Later(old(w.chain), old(w.past), w.chain, w.past)
      ensures w.log == old(w.log) + read
      ensures pinned ==> net == old(net) && read == []
      ensures !pinned ==> read == [GenesisRead(env.genesis)] && (Live(net) <==> !TestGenesis(read[0]))
    {
      if pinned {
        LaterRefl(w.chain, w.past);
        return [];
      }
      var h := w.GenesisHash(env);
      read := [GenesisRead(h)];
      if h.None? {
        net := MAINNET;
        MainnetIsLive();
        return;
      }
      RelaxedOnlyByTestGenesis(h.value);
      net := ClassifyGenesis(h.value);
    }

    method CheckTreasurySpendable(w: World, treasury: Address, answer: AccountAnswer) returns (ok: bool)
      modifies w
      ensures Later(old(w.chain), old(w.past), w.chain, w.past)
      ensures w.log == old(w.log) + [AccountRead(treasury, FinalizedCommitment, answer)]
      ensures ok <==> Spendable(answer)
    {
      w.AccountInfo(treasury, FinalizedCommitment, answer);
      match answer {
        case NotFound => ok := true;
        case RpcError => ok := false;
        case Found(account) => ok := account.owner != SQUADS_V4_PROGRAM;
      }
    }

    /** A mint is verified exactly when it is an initialized 82-byte account of the SPL Token
        program; a Token-2022 account is its own class. */
    method Verify(w: World, mint: Address, answer: AccountAnswer) returns (r: VerifyResult)
      modifies w
      ensures Later(old(w.chain), old(w.past), w.chain, w.past)
      ensures w.log == old(w.log) + [AccountRead(mint, FinalizedCommitment, answer)]
      ensures r.Verified? <==> answer.Found? && IsSplMint(answer.account)
      ensures r.Verified? ==> r.state == DecodeMint(answer.account.data).value
      ensures r.Token2022? <==> answer.Found? && answer.account.owner == TOKEN_2022_PROGRAM
    {
      Token2022IsAnotherProgram();
      w.AccountInfo(mint, FinalizedCommitment, answer);
      if !answer.Found? { return Unreadable; }
      var a := answer.account;
      if a.owner == TOKEN_2022_PROGRAM { return Token2022; }
      if a.owner != TOKEN_PROGRAM || |a.data| != MINT_ACCOUNT_SIZE { return Unreadable; }
      var m := DecodeMint(a.data);
      if m.None? { return Unreadable; }
      if !m.value.initialized { return Unreadable; }
      return Verified(m.value);
    }

    /** The signature loop: each required key is signed for by the first signer that has it; it
        succeeds exactly when every required key has a signer and no holder refuses. */
    static method SignAll(w: World, required: seq<Address>, signers: seq<Address>, env: Env)
      returns (ok: bool, ghost n: nat)
      modifies w
      ensures Later(old(w.chain), old(w.past), w.chain, w.past)
      ensures n <= |required| && w.log == old(w.log) + Signatures(required[..n])
      ensures ok <==> Signable(required, signers, env)
      ensures ok ==> n == |required|
    {
      hide Later;
      LaterRefl(w.chain, w.past);
      n := 0;
      var i := 0;
      while i < |required|
        invariant 0 <= i == n <= |required|
        invariant Later(old(w.chain), old(w.past), w.chain, w.past)
        invariant w.log == old(w.log) + Signatures(required[..i])
        invariant forall k | 0 <= k < i :: required[k] in signers && required[k] !in env.refusing
      {
        var j := 0;
        while j < |signers| && signers[j] != required[i]
          invariant 0 <= j <= |signers|
          invariant forall k | 0 <= k < j :: signers[k] != required[i]
        {
          j := j + 1;
        }
        if j == |signers| { ok := false; return; }
        ghost var c, p := w.chain, w.past;
        var signed := w.Sign(signers[j], env);
        LaterTrans(old(w.chain), old(w.past), c, p, w.chain, w.past);
        assert Signatures(required[..i + 1]) == Signatures(required[..i]) + [Signed(required[i])];
        i, n := i + 1, n + 1;
        if !signed { ok := false; return; }
      }
      ok := true;
    }

    /** send: blockhash, compile, sign, submit, and wait for the given commitment. The transaction
        is submitted exactly when the blockhash is read, the message compiles and everybody signs;
        the polling reads follow. */
    method Send(w: World, ixs: seq<Instr>, commitment: Commitment, signers: seq<Address>, env: Env)
      returns (r: SendResult, ghost signed: seq<Entry>, ghost polled: seq<Entry>)
      requires !w.chain.submitted && w.chain.tx.Absent?
      modifies w
      ensures AllReach(old(w.past), w.past)
      ensures (forall i | 0 <= i < |signed| :: signed[i].Signed?) && Quiet(polled)
      ensures w.log == old(w.log) + signed + (if w.chain.submitted then [Submitted(ixs)] + polled else [])
      ensures w.chain.submitted <==> Sendable(signers, env)
      ensures !w.chain.submitted ==> r == Unknown && w.chain.tx.Absent?
      ensures r == NeverLanded ==> NeverLands(w.chain)
      ensures r == Landed ==> Worth(w.chain, commitment)
    {
      hide NeverLands, Signable, Later, AllReach, AllReads, Decided, Worth;
      AllReachRefl(w.past);
      signed, polled := [], [];
      if env.lastValid.None? { r := Unknown; return; }
      w.chain := w.chain.(lastValid := env.lastValid.value);
      if env.required.None? { r := Unknown; return; }
      var required := env.required.value;
      ghost var c0, p0 := w.chain, w.past;
      var ok;
      ghost var n;
      ok, n := SignAll(w, required, signers, env);
      LaterKeeps(c0, p0, w.chain, w.past);
      signed := Signatures(required[..n]);
      if !ok { r := Unknown; return; }
      w.Submit(ixs);
      ghost var c1, p1 := w.chain, w.past;
      var outcome;
      ghost var turns;
      outcome, turns := ConfirmOrExpire(w, commitment, env.polls);
      LaterKeeps(c1, p1, w.chain, w.past);
      AllReachTrans(p0, p1, w.past);
      polled := AllReads(turns, c1.lastValid);
      ReadsAreReads(turns, c1.lastValid);
      match outcome {
        case Reached => r := Landed;
        case Expired => r := NeverLanded;
        case _ => r := Unknown;
      }
    }

    function Treasury(s: MintSpec): Address { if s.treasury == ZERO then payer else s.treasury }

    /** checkSupply: the decimals are not compared. */
    static method CheckSupply(st: MintData, s: MintSpec) returns (ok: bool)
      requires s.supply <= MAX_U64
      ensures ok <==> Scaled(s.supply, s.decimals) == Some(st.supply)
    {
      var expected := ScaledAmount(s.supply, s.decimals);
      return expected.Some? && st.supply == expected.value;
    }

    /** The read-back after a confirmed landing. */
    method VerifySafe(w: World, mint: Address, s: MintSpec, answer: AccountAnswer) returns (failure: Option<Failure>)
      requires s.supply <= MAX_U64
      modifies w
      ensures Later(old(w.chain), old(w.past), w.chain, w.past)
      ensures w.log == old(w.log) + [AccountRead(mint, FinalizedCommitment, answer)]
      ensures failure.None? <==> SafeMint(answer, s)
      ensures !(answer.Found? && IsSplMint(answer.account)) <==> failure == Some(Unverified)
      ensures failure != Some(Unresolved)
      ensures failure == Some(Unsafe) <==> LiveAuthority(answer)
    {
      hide IsSplMint, Pow;
      var v := Verify(w, mint, answer);
      if !v.Verified? { return Some(Unverified); }
      if v.state.freezeAuthority.Some? { return Some(Unsafe); }
      if v.state.mintAuthority.Some? { return Some(Unsafe); }
      var ok := CheckSupply(v.state, s);
      ScaledExact(s, v.state.supply);
      return if ok then None else Some(WrongSupply);
    }

    /** The read-back when the outcome of the send is not known. An account that cannot be read
        leaves the mint unresolved, even when the endpoint says it is absent. */
    method ResolveUnconfirmed(w: World, mint: Address, s: MintSpec, answer: AccountAnswer)
      returns (failure: Option<Failure>)
      requires s.supply <= MAX_U64
      modifies w
      ensures Later(old(w.chain), old(w.past), w.chain, w.past)
      ensures w.log == old(w.log) + [AccountRead(mint, FinalizedCommitment, answer)]
      ensures failure.None? <==> SafeMint(answer, s)
      ensures !(answer.Found? && IsSplMint(answer.account)) <==> failure == Some(Unresolved)
      ensures failure != Some(Unverified)
      ensures failure == Some(Unsafe) <==> LiveAuthority(answer)
    {
      hide IsSplMint, Pow;
      var v := Verify(w, mint, answer);
      if !v.Verified? { return Some(Unresolved); }
      if v.state.mintAuthority.Some? || v.state.freezeAuthority.Some? { return Some(Unsafe); }
      var ok := CheckSupply(v.state, s);
      ScaledExact(s, v.state.supply);
      return if ok then None else Some(WrongSupply);
    }

    method ReadBack(w: World, landed: bool, mint: Address, s: MintSpec, answer: AccountAnswer)
      returns (failure: Option<Failure>)
      requires s.supply <= MAX_U64
      modifies w
      ensures Later(old(w.chain), old(w.past), w.chain, w.past)
      ensures w.log == old(w.log) + [AccountRead(mint, FinalizedCommitment, answer)]
      ensures failure.None? <==> SafeMint(answer, s)
      ensures failure == Some(Unsafe) <==> LiveAuthority(answer)
      ensures failure == Some(Unverified) <==> landed && !ShowsMint(answer)
      ensures failure == Some(Unresolved) <==> !landed && !ShowsMint(answer)
    {
      hide SafeMint, LiveAuthority, IsSplMint;
      if landed {
        failure := VerifySafe(w, mint, s, answer);
      } else {
        failure := ResolveUnconfirmed(w, mint, s, answer);
      }
    }

    /** The addresses of the call's transaction. */
    function PartiesOf(j: Job): (p: Parties)
      requires j.derived.Some?
      ensures p.payer == payer && p.mint == j.mintKey
      ensures p.metadata == j.derived.value.metadata && p.dest == j.derived.value.dest
    {
      Parties(payer, j.mintKey, Treasury(j.spec), j.derived.value.metadata, j.derived.value.dest)
    }

    /** The bundle a call may submit, once the addresses it derives are known. */
    function Bundle(j: Job): Option<seq<Instr>> {
      if j.derived.None? then None else BuildMint(PartiesOf(j), j.spec)
    }

    /** Whether the rules for real money hold: as the pinned network n says, or else unless the
        genesis read of this very call names a test cluster. */
    predicate Strict(n: Network, env: Env) {
      if pinned then Live(n) else !TestGenesis(GenesisRead(env.genesis))
    }

    /** What a request must pass before anything is signed. */
    predicate Cleared(j: Job, n: Network) {
      && ValidMetadata(j.spec) && j.spec.supply > 0 && !j.impersonates
      && !(Strict(n, j.env) && Treasury(j.spec) == payer)
      && Spendable(j.env.treasury) && Bundle(j).Some?
    }

    /** What every call promises: r is its result, trace what it did, tx its transaction then or at
        any later time, and n the network the engine was built with. */
    ghost predicate Kept(j: Job, r: MintResult, trace: seq<Entry>, tx: Chain, n: Network) {
      // Nothing is signed before the checks it needs, and a refused request never reaches signing.
      && Disciplined(trace, Treasury(j.spec), !pinned
        && Treasury(j.spec) == payer, Bundle(j))
      && (!Cleared(j, n) ==> Quiet(trace))
      // The transaction leaves exactly when the request is cleared and can be sent.
      && (tx.submitted <==> Cleared(j, n) && Sendable([payer, j.mintKey], j.env))
      && (tx.submitted <==> Submits(trace))
      // Success follows the chain: the last thing done is to read the mint back, and the call
      // succeeds exactly when that answer shows the safe shape.
      && (r.address.Some? ==>
            && Cleared(j, n) && r.address == Some(j.mintKey) && j.spec.supply * Pow(10, j.spec.decimals) > 0
            && EndsWith(trace, AccountRead(j.mintKey, FinalizedCommitment, j.env.readBack)))
      && (r.failure.None? <==> r.address.Some? && SafeMint(j.env.readBack, j.spec))
      && (r.failure == Some(Unsafe) <==> r.address.Some? && LiveAuthority(j.env.readBack))
      && (r.address.Some? ==> Blames(r.failure, j.env.readBack, tx))
      // The zero address means that nothing exists and nothing ever will.
      && (r.address.None? ==> NeverLands(tx))
      && (r.address.None? && Cleared(j, n) ==> tx.submitted && r.failure == Some(DidNotLand))
    }

    /** One Mint call. The fresh mint key, the derived addresses (None when a derivation fails) and
        the impersonation verdict are inputs, and so are the answers of the outside world. Over every
        ledger, OnLedger says what the result means there. */
    method Mint(w: World, j: Job) returns (r: MintResult, ghost trace: seq<Entry>)
      requires j.spec.supply <= MAX_U64
      modifies this`net, w
      ensures w.log == old(w.log) + trace && AllReach(old(w.Transactions()), w.past)
      ensures pinned ==> net == old(net)
      ensures Kept(j, r, trace, w.chain, old(net))
      ensures j.derived.Some? ==> forall l :: OnLedger(l, PartiesOf(j), j.spec, r, w.chain, j.env.readBack)
    {
      hide Kept, AllReach, OnLedger;
      r, trace := Attempt(w, j);
      if j.derived.Some? {
        forall l ensures OnLedger(l, PartiesOf(j), j.spec, r, w.chain, j.env.readBack) {
          MintOnLedger(this, j, r, trace, w.chain, old(net), l);
        }
      }
    }

    /** The checks, in order, and then the transaction. */
    method Attempt(w: World, j: Job) returns (r: MintResult, ghost trace: seq<Entry>)
      requires j.spec.supply <= MAX_U64
      modifies this`net, w
      ensures w.log == old(w.log) + trace && AllReach(old(w.Transactions()), w.past)
      ensures pinned ==> net == old(net)
      ensures Kept(j, r, trace, w.chain, old(net))
    {
      hide Disciplined, Bundle, SafeMint, LiveAuthority, Scaled, ValidMetadata, Live, NeverLands, Pow, Spendable,
           Sendable, Later, AllReach, EndsWith, Blames;
      w.Begin();
      ghost var c0, p0 := w.chain, w.past;
      AllReachRefl(p0);
      NeverLandsIff(c0);
      var s, treasury := j.spec, Treasury(j.spec);
      var ixs := Bundle(j);
      ghost var hotKey := !pinned && treasury == payer;
      trace := [];
      QuietIsDisciplined(trace, treasury, hotKey, ixs);
      if !ValidMetadata(s) { r := MintResult(None, Some(BadMetadata)); return; }
      if s.supply == 0 { r := MintResult(None, Some(ZeroSupply)); return; }
      ghost var genesis := ResolveNetwork(w, j.env);
      ghost var c1, p1 := w.chain, w.past;
      LaterKeeps(c0, p0, c1, p1);
      NeverLandsIff(c1);
      trace := genesis;
      QuietIsDisciplined(trace, treasury, hotKey, ixs);
      var amount := ScaledAmount(s.supply, s.decimals);
      if amount.None? {
        NoBundle(this, j);
        r := MintResult(None, Some(SupplyOverflows));
        return;
      }
      if j.impersonates || (Live(net) && treasury == payer) { r := MintResult(None, Some(Refused)); return; }
      var spendable := CheckTreasurySpendable(w, treasury, j.env.treasury);
      LaterKeeps(c1, p1, w.chain, w.past);
      AllReachTrans(p0, p1, w.past);
      NeverLandsIff(w.chain);
      ghost var read := AccountRead(treasury, FinalizedCommitment, j.env.treasury);
      trace := genesis + [read];
      QuietIsDisciplined(trace, treasury, hotKey, ixs);
      if !spendable { r := MintResult(None, Some(TreasuryUnproven)); return; }
      if ixs.None? { r := MintResult(None, Some(NotBuilt)); return; }
      ghost var rest;
      ghost var p2 := w.past;
      r, rest := SendAndReadBack(w, s, j.mintKey, ixs.value, j.env);
      AllReachTrans(p0, p2, w.past);
      SubmitsSuffix(trace, rest);
      EndsSuffix(trace, rest, AccountRead(j.mintKey, FinalizedCommitment, j.env.readBack));
      trace := trace + rest;
      CallIsDisciplined(genesis, read, rest, treasury, hotKey, ixs.value);
    }

    /** The second half of Mint: one transaction, and the read-back unless it is known never to land. */
    method SendAndReadBack(w: World, s: MintSpec, mintKey: Address, ixs: seq<Instr>, env: Env)
      returns (r: MintResult, ghost rest: seq<Entry>)
      requires s.supply <= MAX_U64 && s.supply > 0 && !w.chain.submitted && w.chain.tx.Absent?
      modifies w
      ensures AllReach(old(w.past), w.past)
      ensures w.log == old(w.log) + rest && SendsOnce(rest, ixs)
      ensures w.chain.submitted <==> Sendable([payer, mintKey], env)
      ensures w.chain.submitted <==> Submits(rest)
      ensures r.address.None? ==> NeverLands(w.chain) && w.chain.submitted && r.failure == Some(DidNotLand)
      ensures r.address.Some? ==>
        && r.address == Some(mintKey) && s.supply * Pow(10, s.decimals) > 0
        && EndsWith(rest, AccountRead(mintKey, FinalizedCommitment, env.readBack))
        && (r.failure.None? <==> SafeMint(env.readBack, s))
        && (r.failure == Some(Unsafe) <==> LiveAuthority(env.readBack))
        && Blames(r.failure, env.readBack, w.chain)
    {
      hide SafeMint, LiveAuthority, NeverLands, LandedForGood, ShowsMint, Pow, Sendable, Later, AllReach, SendsOnce,
           Submits;
      var sent;
      ghost var signed, polled;
      sent, signed, polled := Send(w, ixs, FinalizedCommitment, [payer, mintKey], env);
      ghost var c, p := w.chain, w.past;
      rest := signed + if w.chain.submitted then [Submitted(ixs)] + polled else [];
      if sent == NeverLanded {
        SentOnce(signed, polled, [], ixs, w.chain.submitted);
        assert rest + [] == rest;
        r := MintResult(None, Some(DidNotLand));
        return;
      }
      ScaledPositive(s);
      ghost var read := AccountRead(mintKey, FinalizedCommitment, env.readBack);
      SentOnce(signed, polled, [read], ixs, w.chain.submitted);
      var failure := ReadBack(w, sent == Landed, mintKey, s, env.readBack);
      LaterKeeps(c, p, w.chain, w.past);
      assert sent == Landed ==> LandedForGood(c);
      LandedForGoodIff(c);
      LandedForGoodIff(w.chain);
      AllReachTrans(old(w.past), p, w.past);
      rest := rest + [read];
      r := MintResult(Some(mintKey), failure);
    }

    /** Any number of calls on one engine: at the end of the run, after everything the chain has done
        in the meantime, each has kept its promises by what that same call read, with nothing carried
        over from the calls before it. */
    method MintAll(w: World, jobs: seq<Job>) returns (results: seq<MintResult>, ghost traces: seq<seq<Entry>>)
      requires forall k | 0 <= k < |jobs| :: jobs[k].spec.supply <= MAX_U64
      modifies this`net, w
      ensures |results| == |traces| == |jobs|
      ensures w.log == old(w.log) + Concat(traces)
      ensures |w.Transactions()| == |old(w.Transactions())| + |jobs|
      ensures forall k | 0 <= k < |jobs| ::
        Kept(jobs[k], results[k], traces[k], w.Transactions()[|old(w.Transactions())| + k], old(net))
    {
      ConcatEmpty();
      hide Kept, Concat, AllReach, OnLedger;
      results, traces := [], [];
      ghost var base := |w.Transactions()|;
      var k := 0;
      while k < |jobs|
        invariant 0 <= k <= |jobs| && |results| == |traces| == k
        invariant pinned ==> net == old(net)
        invariant w.log == old(w.log) + Concat(traces) && |w.Transactions()| == base + k
        invariant forall i | 0 <= i < k :: Kept(jobs[i], results[i], traces[i], w.Transactions()[base + i], old(net))
      {
        ghost var n, txs := net, w.Transactions();
        var r;
        ghost var trace;
        r, trace := Mint(w, jobs[k]);
        KeptIgnoresNetwork(jobs[k], r, trace, w.chain, n, old(net));
        SameLength(txs, w.past);
        forall i | 0 <= i < k ensures Kept(jobs[i], results[i], traces[i], w.Transactions()[base + i], old(net)) {
          KeptLater(jobs[i], results[i], traces[i], txs, w.past, base + i, old(net));
        }
        ConcatSnoc(traces, trace);
        results, traces := results + [r], traces + [trace];
        k := k + 1;
      }
    }

    /** A network that is not pinned plays no part in what a call promises. */
    lemma KeptIgnoresNetwork(j: Job, r: MintResult, trace: seq<Entry>, tx: Chain, n: Network, n': Network)
      requires Kept(j, r, trace, tx, n) && (pinned ==> n == n')
      ensures Kept(j, r, trace, tx, n')
    {
      hide Disciplined, Bundle, Treasury, SafeMint, LiveAuthority, ValidMetadata, Spendable, Sendable, NeverLands,
           Quiet, Submits, EndsWith, Pow, Blames;
    }

    /** Nothing the chain does later breaks a promise. */
    lemma KeptLater(j: Job, r: MintResult, trace: seq<Entry>, txs: seq<Chain>, txs': seq<Chain>, i: nat, n: Network)
      requires AllReach(txs, txs') && i < |txs| && Kept(j, r, trace, txs[i], n)
      ensures |txs| == |txs'| && Kept(j, r, trace, txs'[i], n)
    {
      hide Disciplined, Cleared, SafeMint, LiveAuthority, Sendable, NeverLands, Quiet, Submits, EndsWith, Pow, Reaches,
           LandedForGood, ShowsMint;
      ReachesKeeps(txs[i], txs'[i]);
      LandedForGoodIff(txs[i]);
      LandedForGoodIff(txs'[i]);
      if NeverLands(txs[i]) { NeverLandsStays(txs[i], txs'[i]); }
    }
  }

  lemma SameLength(a: seq<Chain>, b: seq<Chain>)
    requires AllReach(a, b)
    ensures |a| == |b|
  {
  }

  /** The failure named when the answer shows no mint: unresolved, or unverified if the transaction is
      known to have landed for good. */
  ghost predicate Blames(failure: Option<Failure>, answer: AccountAnswer, tx: Chain) {
    && (failure == Some(Unverified) || failure == Some(Unresolved) <==> !ShowsMint(answer))
    && (failure == Some(Unverified) ==> LandedForGood(tx))
  }

  ghost predicate Submits(t: seq<Entry>) { exists i | 0 <= i < |t| :: t[i].Submitted? }

  ghost predicate EndsWith(t: seq<Entry>, e: Entry) { t != [] && t[|t| - 1] == e }

  lemma EndsSuffix(t: seq<Entry>, u: seq<Entry>, e: Entry)
    ensures EndsWith(u, e) ==> EndsWith(t + u, e)
  {
  }

  lemma SubmitsSuffix(t: seq<Entry>, u: seq<Entry>)
    requires Quiet(t)
    ensures Submits(t + u) <==> Submits(u)
  {
    if Submits(u) {
      var i :| 0 <= i < |u| && u[i].Submitted?;
      assert (t + u)[|t| + i].Submitted?;
    }
    if Submits(t + u) {
      var i :| 0 <= i < |t + u| && (t + u)[i].Submitted?;
      assert u[i - |t|].Submitted?;
    }
  }

  /** Signatures, perhaps the submission with its polling, and reads. */
  lemma SentOnce(signed: seq<Entry>, polled: seq<Entry>, end: seq<Entry>, ixs: seq<Instr>, submitted: bool)
    requires (forall i | 0 <= i < |signed| :: signed[i].Signed?) && Quiet(polled) && Quiet(end)
    ensures var t := signed + (if submitted then [Submitted(ixs)] + polled else []) + end;
      SendsOnce(t, ixs) && (Submits(t) <==> submitted)
  {
    var t := signed + (if submitted then [Submitted(ixs)] + polled else []) + end;
    var n := |signed|;
    forall i | 0 <= i < |t| ensures t[i].Submitted? ==> submitted && i == n && t[i] == Submitted(ixs) {
      if submitted && n < i <= n + |polled| { assert t[i] == polled[i - n - 1]; }
    }
    if submitted { assert t[n].Submitted?; }
  }

  datatype Job = Job(spec: MintSpec, mintKey: Address, derived: Option<Derived>, impersonates: bool, env: Env)

  ghost function Concat(traces: seq<seq<Entry>>): seq<Entry> {
    if traces == [] then [] else Concat(traces[..|traces| - 1]) + traces[|traces| - 1]
  }

  lemma ConcatEmpty()
    ensures Concat([]) == []
  {
  }

  lemma ConcatSnoc(traces: seq<seq<Entry>>, t: seq<Entry>)
    ensures Concat(traces + [t]) == Concat(traces) + t
  {
    assert (traces + [t])[..|traces|] == traces;
  }

  lemma NoBundle(e: Engine, j: Job)
    requires Scaled(j.spec.supply, j.spec.decimals).None?
    ensures e.Bundle(j).None?
  {
  }

  lemma ScaledExact(s: MintSpec, supply: nat)
    requires supply <= MAX_U64
    ensures Scaled(s.supply, s.decimals) == Some(supply) <==> supply == s.supply * Pow(10, s.decimals)
  {
    hide Pow;
  }

  lemma ScaledPositive(s: MintSpec)
    requires s.supply > 0
    ensures s.supply * Pow(10, s.decimals) > 0
  {
    PowPositive(10, s.decimals);
  }

  // ----- what a result means on the ledger

  function DataOf(m: L.Mint): MintData
    requires m.supply <= MAX_U64
  {
    MintData(true, m.mintAuthority, m.freezeAuthority, m.supply, m.decimals)
  }

  /** The account a mint of the ledger is kept in. */
  function LedgerAccount(m: L.Mint): Account
    requires m.supply <= MAX_U64
  {
    Account(TOKEN_PROGRAM, EncodeMint(DataOf(m)))
  }

  /** An account answer that is true of a ledger: a mint that exists is shown by its account, and
      where there is none, whatever is shown does not belong to the Token program or has another
      size. A failed read and a not-found say nothing. */
  ghost predicate Truthful(l: L.Ledger, mint: Address, answer: AccountAnswer) {
    answer.Found? ==>
      if mint in l.mints then l.mints[mint].supply <= MAX_U64 && answer.account == LedgerAccount(l.mints[mint])
      else answer.account.owner != TOKEN_PROGRAM || |answer.account.data| != MINT_ACCOUNT_SIZE
  }

  /** Verify inverts the layout: a true answer passes its checks exactly when the mint exists, and then
      decodes to what the ledger holds. */
  lemma TrueAnswerDecodes(l: L.Ledger, mint: Address, answer: AccountAnswer)
    requires answer.Found? && Truthful(l, mint, answer)
    ensures IsSplMint(answer.account) <==> mint in l.mints
    ensures mint in l.mints ==> DecodeMint(answer.account.data) == Some(DataOf(l.mints[mint]))
  {
    hide DecodeMint, EncodeMint, Decoded;
    if mint in l.mints { DecodeMintOf(DataOf(l.mints[mint])); }
  }

  /** The two shapes, on the account of a mint: live if anybody can still mint or freeze, and safe if
      nobody can and the supply is exactly the one asked for. */
  lemma ShapesOfAccount(m: L.Mint, s: MintSpec)
    requires m.supply <= MAX_U64
    ensures var shown := Found(LedgerAccount(m));
      && (LiveAuthority(shown) <==> !(m.mintAuthority == None && m.freezeAuthority == None))
      && (SafeMint(shown, s) <==>
            m.mintAuthority == None && m.freezeAuthority == None && m.supply == s.supply * Pow(10, s.decimals))
  {
    hide DecodeMint, EncodeMint, Decoded, Pow;
    DecodeMintOf(DataOf(m));
  }

  /** What success is worth: if the answer a mint succeeded on was true of the ledger, then after
      any later transactions by anybody the token still has neither authority, no more of it
      exists than was asked for, and the balances account for all of it. */
  lemma SafeReadIsPermanent(answer: AccountAnswer, s: MintSpec, mint: Address, l: L.Ledger, later: seq<L.Transaction>)
    requires SafeMint(answer, s) && L.Conserved(l) && Truthful(l, mint, answer)
    ensures var l' := L.History(l, later);
      && mint in l'.mints && l'.mints[mint].mintAuthority == None && l'.mints[mint].freezeAuthority == None
      && L.Held(l', mint) == l'.mints[mint].supply <= s.supply * Pow(10, s.decimals)
  {
    hide Pow, L.Conserved, Truthful, DecodeMint, IsSplMint;
    TrueAnswerDecodes(l, mint, answer);
    var frozen := set a | a in l.accounts && l.accounts[a].frozen;
    L.FinishedForever(l, later, mint, s.supply * Pow(10, s.decimals), frozen);
  }

  /** The read-back can report a live authority only if the endpoint lies: whatever else happened
      on the chain before and after, and whether or not the transaction landed, a true answer
      shows no mint at all or one that is finished. */
  lemma UnsafeIsUnreachable(l: L.Ledger, p: Parties, s: MintSpec, before: seq<L.Transaction>, landed: bool,
                            after: seq<L.Transaction>, answer: AccountAnswer)
    requires L.Conserved(l) && p.mint !in l.mints && ValidMetadata(s)
    requires L.Unsigned(before, p.mint) && L.Unsigned(after, p.mint)
    requires var l1 := L.History(l, before);
      Truthful(L.History(if landed then LandMint(l1, p, s) else l1, after), p.mint, answer)
    ensures !LiveAuthority(answer)
  {
    hide LandMint, L.History, L.Conserved, ValidMetadata, L.Unsigned, Truthful, DecodeMint, IsSplMint;
    NeverALiveAuthority(l, p, s, before, landed, after);
    var l1 := L.History(l, before);
    var l3 := L.History(if landed then LandMint(l1, p, s) else l1, after);
    if answer.Found? { TrueAnswerDecodes(l3, p.mint, answer); }
  }

  /** The ledger a chain stands for: with the mint transaction's effect once it has landed and not
      failed. */
  ghost function LedgerAt(c: Chain, l: L.Ledger, p: Parties, s: MintSpec): L.Ledger {
    if HasLanded(c) then LandMint(l, p, s) else l
  }

  predicate HasLanded(c: Chain) { !c.tx.Absent? && !c.tx.failed }

  /** A transaction that landed without failing had its effect. */
  ghost predicate Effective(c: Chain, l: L.Ledger, p: Parties, s: MintSpec) {
    HasLanded(c) ==> LandMint(l, p, s) != l
  }

  /** The true answer right after the landing is the safe shape, with the decimals asked for. */
  lemma LandedShowsSafe(l: L.Ledger, p: Parties, s: MintSpec, answer: AccountAnswer)
    requires L.Conserved(l) && L.Unused(l, p.mint) && ValidMetadata(s) && LandMint(l, p, s) != l
    requires answer.Found? && Truthful(LandMint(l, p, s), p.mint, answer)
    ensures SafeMint(answer, s) && DecodeMint(answer.account.data).value.decimals == s.decimals
  {
    hide LandMint, L.Conserved, L.Finished, L.Locked, L.Held, Pow, ValidMetadata, Truthful, DecodeMint, IsSplMint;
    MintIsAllOrNothing(l, p, s);
    TrueAnswerDecodes(LandMint(l, p, s), p.mint, answer);
  }

  /** What a result r means on a ledger l that does not hold the mint yet, when c is the chain as the
      call left it. With the zero address the mint exists on no later ledger, whatever the chain does
      and whoever submits what, since its key signs nothing else. Once the transaction has landed the
      whole supply belongs to the treasury asked for, or to the payer when none was. And if the answer
      is true of the ledger, success means exactly that the transaction has landed and the endpoint
      showed the account. */
  ghost predicate OnLedger(l: L.Ledger, p: Parties, s: MintSpec, r: MintResult, c: Chain, answer: AccountAnswer) {
    L.Conserved(l) && L.Unused(l, p.mint) && ValidMetadata(s) ==>
      && (r.address.None? ==>
            forall es, later | L.Unsigned(later, p.mint) ::
              p.mint !in L.History(LedgerAt(Run(c, es), l, p, s), later).mints)
      && (HasLanded(c) && Effective(c, l, p, s) ==>
            SupplyBelongsTo(LedgerAt(c, l, p, s), p, s, if s.treasury == ZERO then p.payer else s.treasury))
      && (Effective(c, l, p, s) && Truthful(LedgerAt(c, l, p, s), p.mint, answer) ==>
            (r.failure.None? <==> HasLanded(c) && answer.Found?))
  }

  ghost predicate SupplyBelongsTo(l: L.Ledger, p: Parties, s: MintSpec, owner: Address) {
    && p.dest in l.accounts
    && l.accounts[p.dest] == L.Holding(p.mint, owner, s.supply * Pow(10, s.decimals), false)
  }

  lemma MintOnLedger(e: Engine, j: Job, r: MintResult, trace: seq<Entry>, c: Chain, n: Network, l: L.Ledger)
    requires e.Kept(j, r, trace, c, n) && j.derived.Some?
    ensures OnLedger(l, e.PartiesOf(j), j.spec, r, c, j.env.readBack)
  {
    hide L.Conserved, L.Unused, ValidMetadata, L.Unsigned, NeverLands, Effective, Truthful, Disciplined, SafeMint,
         LedgerAt, L.History, LiveAuthority, EndsWith, Pow, Quiet, Submits, e.Cleared, e.Bundle, Sendable, IsSplMint,
         SupplyBelongsTo, Blames;
    var p, s, answer := e.PartiesOf(j), j.spec, j.env.readBack;
    if L.Conserved(l) && L.Unused(l, p.mint) && ValidMetadata(s) {
      if r.address.None? {
        forall es, later | L.Unsigned(later, p.mint)
          ensures p.mint !in L.History(LedgerAt(Run(c, es), l, p, s), later).mints
        {
          NothingEver(l, p, s, c, es, later);
        }
      }
      if HasLanded(c) && Effective(c, l, p, s) { SupplyArrives(l, p, s, c); }
      if Effective(c, l, p, s) && Truthful(LedgerAt(c, l, p, s), p.mint, answer) {
        SuccessIsLanding(l, p, s, r, c, answer);
      }
    }
  }

  lemma NothingEver(l: L.Ledger, p: Parties, s: MintSpec, c: Chain, es: seq<Event>, later: seq<L.Transaction>)
    requires L.Conserved(l) && L.Unused(l, p.mint) && NeverLands(c) && L.Unsigned(later, p.mint)
    ensures p.mint !in L.History(LedgerAt(Run(c, es), l, p, s), later).mints
  {
    hide L.Conserved, L.Unsigned, LandMint, L.History;
    assert Run(c, es).tx.Absent?;
    L.AbsentUntilSigned(l, later, p.mint);
  }

  lemma SupplyArrives(l: L.Ledger, p: Parties, s: MintSpec, c: Chain)
    requires L.Conserved(l) && L.Unused(l, p.mint) && ValidMetadata(s) && HasLanded(c) && Effective(c, l, p, s)
    ensures SupplyBelongsTo(LedgerAt(c, l, p, s), p, s, p.treasury)
  {
    hide LandMint, L.Conserved, L.Finished, L.Locked, L.Held, Pow, ValidMetadata;
    MintIsAllOrNothing(l, p, s);
  }

  lemma SuccessIsLanding(l: L.Ledger, p: Parties, s: MintSpec, r: MintResult, c: Chain, answer: AccountAnswer)
    requires L.Conserved(l) && L.Unused(l, p.mint) && ValidMetadata(s)
    requires r.failure.None? <==> r.address.Some? && SafeMint(answer, s)
    requires r.address.None? ==> NeverLands(c)
    requires Effective(c, l, p, s) && Truthful(LedgerAt(c, l, p, s), p.mint, answer)
    ensures r.failure.None? <==> HasLanded(c) && answer.Found?
  {
    hide L.Conserved, ValidMetadata, LandMint, NeverLands, IsSplMint, Pow, Truthful, DecodeMint;
    NeverLandsIff(c);
    if answer.Found? {
      TrueAnswerDecodes(LedgerAt(c, l, p, s), p.mint, answer);
      if HasLanded(c) { LandedShowsSafe(l, p, s, answer); }
    }
  }

  // ----- what a signature and a submission mean

  /** Every check, in its own terms: sizes, supply, identity, treasury, a test network if the payer is
      to keep the supply, and the derived addresses. */
  lemma ClearedIff(e: Engine, j: Job, n: Network)
    ensures e.Cleared(j, n) <==>
      && 1 <= |j.spec.name| <= 32 && 1 <= |j.spec.symbol| <= 10 && 1 <= |j.spec.uri| <= 200
      && 0 < j.spec.supply * Pow(10, j.spec.decimals) <= MAX_U64 && !j.impersonates
      && (j.env.treasury.NotFound? || (j.env.treasury.Found? && j.env.treasury.account.owner != SQUADS_V4_PROGRAM))
      && (j.spec.treasury == ZERO || j.spec.treasury == e.payer ==>
            if e.pinned then n == "devnet" || n == "testnet" || n == "localnet"
            else j.env.genesis.Some? && TrimSpace(j.env.genesis.value) in {DEVNET_GENESIS, TESTNET_GENESIS})
      && j.derived.Some?
  {
    hide Pow, TrimSpace, Decoded, Create, CreateAta, MintSupply, Revoke;
    if j.spec.supply > 0 { ScaledPositive(j.spec); }
  }

  lemma SendableIff(payer: Address, mintKey: Address, env: Env)
    ensures Sendable([payer, mintKey], env) <==>
      && env.lastValid.Some? && env.required.Some?
      && forall i | 0 <= i < |env.required.value| ::
           && (env.required.value[i] == payer || env.required.value[i] == mintKey)
           && env.required.value[i] !in env.refusing
  {
  }

  /** A call that asks for any signature has passed every check. */
  lemma SigningMeansCleared(e: Engine, j: Job, r: MintResult, trace: seq<Entry>, tx: Chain, n: Network)
    requires e.Kept(j, r, trace, tx, n) && !Quiet(trace)
    ensures e.Cleared(j, n)
  {
  }

  /** A transaction leaves exactly when every check passes, the blockhash is read, the message
      compiles, and each key it needs is the payer's or the mint's and is not refused. */
  lemma SubmittedIff(e: Engine, j: Job, r: MintResult, trace: seq<Entry>, tx: Chain, n: Network)
    requires e.Kept(j, r, trace, tx, n)
    ensures Submits(trace) <==>
      && e.Cleared(j, n) && j.env.lastValid.Some? && j.env.required.Some?
      && forall i | 0 <= i < |j.env.required.value| ::
           && (j.env.required.value[i] == e.payer || j.env.required.value[i] == j.mintKey)
           && j.env.required.value[i] !in j.env.refusing
  {
    hide Disciplined, SafeMint, LiveAuthority, NeverLands, Pow, EndsWith, Submits, Quiet, Sendable, e.Cleared, e.Bundle;
    SendableIff(e.payer, j.mintKey, j.env);
  }

  ghost function Signatures(keys: seq<Address>): seq<Entry> {
    seq(|keys|, i requires 0 <= i < |keys| => Signed(keys[i]))
  }

  lemma MainnetIsLive()
    ensures Live(MAINNET)
  {
    assert |DEVNET| == 6 && |LOCALNET| == 8 && |MAINNET| == 7 && TESTNET[0] == 't' && MAINNET[0] == 'm';
  }

  lemma Token2022IsAnotherProgram()
    ensures TOKEN_2022_PROGRAM != TOKEN_PROGRAM
  {
    hide Decoded;
    TokenAddr();
    Token2022Addr();
    assert TOKEN_ID[5] == 'k' && TOKEN_2022_ID[5] == 'z';
    if Decoded(TOKEN_2022_ID) == Decoded(TOKEN_ID) { DecodedInjective(TOKEN_2022_ID, TOKEN_ID); }
  }
}
