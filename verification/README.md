# A verified model of the flynn token and signer extensions

flynn-extensions ships two programs that together issue fixed-supply Solana tokens. The token
extension builds a mint transaction and watches the chain; the signer extension holds the key,
parses the exact bytes it is asked to sign and refuses everything its policy does not allow. This
project models the parts of both on which that arrangement rests and proves what they promise, for
every input, every run and every interleaving.

`dafny verify dfyconfig.toml` checks all of it (Dafny 4.11).

## What is proved

1. **Bytes.** The cursor-based reader accepts exactly the printed forms of well-formed legacy
   messages, reads them back unambiguously and leaves no byte over. A length is read exactly when it
   is the shortest ShortVec encoding of a number up to 65535. The in-place base58 decoder computes a
   bijection between base58 strings and byte strings. (`Numbers`, `Base58`, `Programs`, `Wire`,
   `MessageReader`)
2. **The key.** The policy's counting loop decides a declarative rule. Over any sequence of unlock
   and sign requests, a signature is returned exactly when the last key unlocked may sign the
   payload, and it is that key's signature over it. An approved message leaves what it mints without
   authorities, on every ledger it succeeds on, exactly when it revokes both authorities of every mint
   it mints; this counts on the source's own premise that other Metadata and token-account
   instructions carry no authority over tokens. Covered or not, no approved message carries a
   transfer, burn, delegation, freeze, closure or change of hands, or a fifth program, and none takes
   anything from anybody. (`Policy`, `Signer`, `Revocation`,
   `ApprovedMint`)
3. **The transaction.** The Create data round-trips through a Borsh decoder. The five instructions,
   read back from their own bytes, leave the ledger untouched or leave a finished token: whole
   supply in the treasury, no authority, immutable identity. No later transaction by anybody changes
   that, and in no reachable ledger does the mint exist with a live authority. Whatever message the
   chain library compiles from the list is one the signer approves, and read off the signed bytes it
   is that same transaction. (`Borsh`, `Ledger`, `AtomicMint`,
   `MintMessage`)
4. **The engine.** Against a chain that moves between any two reads and an endpoint that may fail on
   any of them: "expired" means that the transaction never lands, and a reached finalized commitment
   that nothing can undo it; success is equivalent to the final
   read-back showing the safe shape; the zero address means that nothing exists and nothing will; and
   a request that fails any check of that same call (metadata, supply, impersonation, custody,
   treasury) is never signed. Over any sequence of calls on one engine each call has kept all of this
   at the end of the run, whatever the chain did to its transaction in the meantime. On a ledger, and
   given a true answer, success means exactly that the transaction landed and the account was shown;
   and the whole supply then belongs to the treasury asked for. (`Chain`, `Network`, `SplMint`,
   `Engine`)
5. **The session.** Two processes that meet on unbuffered channels, under every schedule, show what
   the lifecycle shows when it is run directly; no public call gets stuck. Over any sequence of tool
   calls the registry answers as direct runs of the lifecycles do. (`Session`, `Registry`,
   `RegistryRun`)
6. **The manual clock.** Over any sequence of operations pending timers are distinct, ahead of the
   clock and have empty channels, so no fire is dropped; every arming ends in exactly one way, and one
   that fires does so at the first clock position that reaches its deadline and delivers that
   position, once. (`Clock`)

Three results say where the code promises less than a reader might expect.

- The policy counts revokes without asking what they revoke, so approval alone does not give what
  solana/solana.go:79-83 says of it. `ApprovedMint.SplitIsApproved` and `ApprovedMint.SplitInflates` give,
  over every account list with the Token program and two distinct addresses among the 256 accounts an
  index can name, an approved message that mints one and revokes the other, after which the payer can mint more. The exact condition is
  `ApprovedMint.ApprovalSettlesIffCovered`: every mint named by a MintTo is named by a revoke of each
  kind. A message all of whose Token instructions are about one mint meets it, and the engine's own
  message is one (`ApprovedMint.OneSubjectIsCovered`, `ApprovedMint.MintMessageHasOneSubject`).
- When a request's context ends while its call is outstanding, the session still lists the call as
  pending and Advance never returns (`Session.AbandonedCallIsReachable`, `Session.LostForever`). The exact
  condition, which a caller reads off the pending call before it answers, is
  `Session.AdvanceIsSafeIffSigning`: with contexts ending anywhere, Advance can always still return if and
  only if the pending call is a signature request. The remaining session results are about runs in
  which no context ends during an outstanding call.
- A single not-found answer taken before the height read proves nothing
  (`Chain.AbsentBeforeWindowProvesNothing`), which is why the second read is needed.

Where the code and its comments disagree the model follows the code. The comment on
`resolveUnconfirmed` says that an absent mint account means that nothing happened; the code reports
the mint as unresolved, with its address. Its message says that the transaction was submitted, which
is not so when the blockhash, the compilation or a signature failed: a non-zero address does not
imply a submission, and `Engine.Engine.Mint` says exactly when there is one.

## Model

| member | source | states |
|---|---|---|
| Base58.Base58Decode | solana/message.go:178-219 | accepts exactly the base58 strings and returns the bytes they denote |
| Base58.Absorb | solana/message.go:191-208 | the in-place pass is multiply-by-58-and-add on the accumulator; the carry stays at most 57, so at most one byte is appended and the "does not terminate" guard cannot fire |
| Base58.MulAddIsMultiplication | solana/message.go:191-208 | byte-wise multiply-and-carry on a little-endian number is arithmetic multiplication |
| Base58.IndexOf | solana/message.go:181-190 | the search finds a digit exactly for the alphabet's characters, and finds the right one |
| Base58.AlphabetAt | solana/message.go:174 | the alphabet lists the 58 characters in digit order |
| Base58.Reverse | solana/message.go:215-217 | the swap loop reverses the buffer |
| Base58.ReversedLittleEndian | solana/message.go:210-217 | padding and reversing a little-endian number gives its big-endian digits behind as many zeros |
| Base58.DecodedIsBijection | solana/message.go:178-219 | decoding has a two-sided inverse, keeps the number, and keeps leading zeros as leading '1's |
| Base58.DecodedInjective | solana/message.go:178-219 | distinct base58 strings decode to distinct byte strings |
| Base58.DecodedLength | solana/message.go:166-172 | when a string's range of values makes it a 32-byte address |
| Programs.SystemAddr | solana/solana.go:42 | the System program id is 32 bytes, so start-up does not panic on it |
| Programs.TokenAddr | solana/solana.go:43 | the same of the SPL Token program id |
| Programs.AtaAddr | solana/solana.go:44 | the same of the associated token account program id |
| Programs.MetadataAddr | solana/solana.go:45 | the same of the Token Metadata program id |
| Programs.ProgramsDistinct | solana/solana.go:41-46 | no two of the four programs share an address, so the policy's cases exclude each other |
| Programs.Token2022Addr | token/engine.go:68 | the Token-2022 program id is a 32-byte address |
| Programs.SquadsAddr | token/network.go:57 | the Squads program id is a 32-byte address |
| Programs.SysvarAddr | token/atomic.go:13 | the instructions sysvar id is a 32-byte address |
| Wire.DecodeLenExact | solana/message.go:140-162 | a length is read exactly when the input starts with the shortest encoding of some n up to 65535, and exactly those bytes are consumed |
| Wire.ShortVecPrefixFree | solana/message.go:140-162 | no length encoding is a prefix of another |
| Wire.ParseTreeExact | solana/message.go:8-113 | a payload parses to a message tree if and only if the tree is well-formed and the payload is its printed form |
| Wire.PrintInjective | solana/message.go:8-16 | no payload is the printed form of two messages |
| Wire.MessageLayout | solana/message.go:10-13 | header, account count, 32 bytes an account, blockhash and instruction count stand at these positions |
| Wire.InstructionLayout | solana/message.go:14-16 | program index, account indexes and data of an instruction stand at these positions |
| MessageReader.OrNext | solana/message.go:149-150 | shifting and or-ing in seven bits is adding them in base 128, and the mask test is the continuation test |
| MessageReader.Reader.Take | solana/message.go:123-130 | takes n bytes exactly when they are there, and otherwise moves nothing |
| MessageReader.Reader.NextByte | solana/message.go:132-138 | reads one byte exactly when there is one |
| MessageReader.Reader.Round | solana/message.go:145-159 | one turn either settles the length or leaves a partial sum of the bytes read |
| MessageReader.Reader.CompactU16 | solana/message.go:142-162 | the loop reads exactly what the length decoder reads and stops where it stops |
| MessageReader.ReadAddresses | solana/message.go:68-74 | the account loop computes the address parser |
| MessageReader.ReadInstruction | solana/message.go:85-104 | one instruction is read with its account indexes skipped |
| MessageReader.ReadInstructions | solana/message.go:84-105 | the instruction loop computes the instruction parser |
| MessageReader.ReadBody | solana/message.go:63-105 | everything between the header and the end is read as the parser reads it |
| MessageReader.ParseMessage | solana/message.go:49-113 | the result is the projection of the unique message tree the payload prints, or a refusal when there is none |
| Policy.ApproveSystem | solana/solana.go:146-160 | of the System instructions exactly CreateAccount is allowed |
| Policy.ApproveToken | solana/solana.go:171-199 | exactly MintTo and SetAuthority-to-None over the mint and freeze authorities are recognised |
| Policy.ClassifyExact | solana/solana.go:99-128 | one turn of the loop refuses exactly what is off the allow-list and counts exactly mints and revokes |
| Policy.AllowedBytes | solana/solana.go:103-128 | the allow-list byte by byte: nothing but CreateAccount, MintTo, SetAuthority-to-None over mint and freeze, and the two account-creating programs |
| Policy.SolanaPolicy.Scan | solana/solana.go:98-143 | the three counters decide the declarative rule on the instruction list |
| Policy.SolanaPolicy.Decide | solana/solana.go:90-143 | a parsed message is accepted exactly when account 0 is the payer and the rule holds |
| Policy.SolanaPolicy.Approve | solana/solana.go:84-144 | a payload is approved exactly when it is the printed form of a legacy message that keeps the rule for this payer |
| Policy.SolanaPolicy.BindKey | solana/solana.go:205 | the payer becomes the bound key |
| Policy.ApprovedIffParsed | solana/solana.go:84-144 | approval said through the parser and through the printer are the same |
| Policy.VersionedIsRefused | solana/message.go:52-57 | an empty or versioned payload is approved for nobody |
| Policy.VerdictIgnoresOrder | solana/solana.go:98-143 | permuting the instructions does not change the verdict |
| Policy.ApprovedClosedUnderConcatenation | solana/solana.go:98-143 | joining two approved lists over the same accounts gives an approved list |
| Policy.VerdictIgnoresAccountIndexes | solana/message.go:93 | the verdict reads no account index |
| ApprovedMint.ApprovalSettlesIffCovered | solana/solana.go:79-83 | given that Metadata and token-account instructions carry no authority over tokens (solana/solana.go:123-124), an approved message that can succeed leaves everything it mints without mint and freeze authority, on every ledger it succeeds on, if and only if it revokes both authorities of every mint it mints |
| ApprovedMint.OneSubjectIsCovered | solana/solana.go:130-142 | when all Token instructions name one mint, the counted revokes are revokes of what is minted |
| ApprovedMint.CoveredMintIsForever | solana/solana.go:130-132 | wherever such a message succeeds, no later history by anybody mints more of what it minted, restores an authority or freezes a holder |
| ApprovedMint.MintMessageHasOneSubject | token/atomic.go:78-117 | the engine's own message is about one mint |
| ApprovedMint.SignedMessageIsTheMint | token/atomic.go:25-33 | the compiled message, read off the approved bytes, is the mint transaction: same operations, the same two signatures, the same effect on every ledger |
| ApprovedMint.SplitIsApproved | solana/solana.go:98-142 | over every account list with the Token program and two distinct addresses at positions a one-byte index can name, an approved message mints one and revokes the other |
| ApprovedMint.SplitInflates | solana/solana.go:79-83 | on any ledger where the payer holds the authorities that message succeeds, adds to the first mint and leaves its authorities with the payer |
| ApprovedMint.MintableExists | solana/solana.go:79-83 | such a ledger, with balances in order, exists for every payer, pair of mints and destination |
| ApprovedMint.AllowedOp | solana/solana.go:171-199 | an allowed instruction does to the ledger what the policy takes it for, to the mint it names first |
| ApprovedMint.ApprovedNeverCarries | solana/solana.go:70-78 | no approved message carries a System transfer, or a Token transfer, burn, delegation, freeze, closure or handing-over, or an instruction for a fifth program |
| ApprovedMint.ApprovedTakesNothing | solana/solana.go:74-78 | wherever an approved message succeeds no token account loses tokens or changes hands, no mint loses supply or gets a new authority, no account that existed gains lamports and nobody but a signer pays any |
| Revocation.PlainListSpares | solana/solana.go:146-199 | creating, minting and revoking take nothing from anybody |
| Revocation.SettledIffRevoked | solana/solana.go:130-132 | for every list of creating, minting and revoking operations that can succeed: no authority over a minted mint is ever left if and only if both are revoked in the list |
| Revocation.RevokedEnds | token/atomic.go:103-107 | an authority revoked anywhere in a transaction is gone at its end, whatever follows |
| Revocation.MinterRemains | solana/solana.go:136-138 | a mint authority that is used and not revoked is there at the end |
| Signer.SignerProcess.constructor | signer/signer.go:127-136 | a fresh process is locked |
| Signer.SignerProcess.HandleUnlock | signer/signer.go:144-179 | a key that opens replaces the held one and rebinds the policy; a failed unlock changes nothing |
| Signer.SignerProcess.HandleSign | signer/signer.go:196-245 | a signature is returned exactly when a key is held, it may sign the payload, and signing succeeds |
| Signer.MaySignIsApproved | signer/signer.go:218-230 | the size limits and the policy together are exactly "this key may sign this payload" |
| Signer.Serve | signer/signer.go:122-136 | over any sequence of requests every response is the one the earlier requests call for: an unlock answers with the public half or fails, and a sign request fails or returns a signature that is due |
| Signer.SignedIffDue | signer/signer.go:196-235 | a signature is returned if and only if an earlier unlock succeeded with no later one between, and its key pays for an approved message of 1 to 65536 bytes and signs it |
| Signer.HeldFrom | signer/signer.go:103-120 | the key of a successful unlock is held until the next one succeeds |
| Borsh.Buffer.BorshString | token/borsh.go:22-27 | appends the four-byte length, truncated as uint32 does, and the bytes |
| Borsh.CreateV1Data | token/borsh.go:45-72 | the step-by-step writes produce the encoding |
| Borsh.DecodeStringOf | token/borsh.go:22-27 | a string survives its encoding if and only if it is shorter than 2^32 bytes |
| Borsh.CreateDataRoundTrip | token/borsh.go:29-72 | a sequential Borsh decoder, which can read every optional structure, reads these fields, immutable, fungible and None in every other option from exactly their encoding |
| Borsh.CreateDataBytes | token/borsh.go:46-70 | every byte that is not a parameter has this value |
| Borsh.LEAt | token/borsh.go:25 | fixed-width numbers are little-endian |
| Borsh.CreateDataLength | token/borsh.go:45-72 | the length is 27 plus the three string lengths |
| Borsh.CreateDataInjective | token/borsh.go:45-72 | different parameters have different encodings |
| AtomicMint.ScaledAmount | token/engine.go:175-184 | succeeds exactly when whole times 10^decimals is at most 2^64-1, and returns exactly that product |
| AtomicMint.MeaningOfMint | token/atomic.go:48-117 | each with every account in the slot its program expects and read back from its bytes, the five instructions are create with the identity in the metadata account, open, mint the scaled supply, revoke freeze, revoke mint |
| AtomicMint.SignersOfMint | token/atomic.go:48-117 | exactly the payer and the fresh mint key must sign |
| AtomicMint.MintIsAllOrNothing | token/atomic.go:15-33 | from any ledger with the mint address unused the transaction changes nothing, or leaves both authorities None, the whole scaled supply in the treasury's account and an immutable identity in the metadata account; which of the two is decided by the token account's address being free |
| AtomicMint.MintedForever | token/atomic.go:85-107 | afterwards, whatever anybody submits, no authority returns, supply never rises, balances sum to it, no holder is frozen and the identity stays |
| AtomicMint.NeverALiveAuthority | token/atomic.go:25-33 | with any transactions before and after it, landed or not, the mint is absent or finished at every point |
| Ledger.ExecConserves | token/atomic.go:25-28 | every token operation keeps balances summing to supply |
| Ledger.FinishedForever | token/atomic.go:103-107 | a token without authorities stays finished under every later history |
| Ledger.LockedForever | token/atomic.go:42-44 | an immutable identity survives every later history |
| Ledger.AbsentUntilSigned | token/mint.go:142-145 | no mint appears at an address whose key signs nothing |
| MintMessage.MintMessageSize | token/mint.go:241-251 | for metadata within the limits the compiled message is well-formed and at most 680 bytes |
| MintMessage.MintMessageApproved | token/atomic.go:34-118 | every message compiled from the list parses back to itself and is approved for the payer |
| MintMessage.SignerSignsMint | signer/signer.go:218-235 | a signer holding the payer's key may sign it |
| Chain.NeverLandsIff | token/engine.go:300-308 | a transaction never lands exactly when it is absent and was never submitted or its window is over |
| Chain.AbsentAfterWindow | token/engine.go:346-353 | a not-found answer taken after a height past the window is final, however the chain moved in between |
| Chain.AbsentBeforeWindowProvesNothing | token/engine.go:340-345 | for every window there is a run in which the transaction lands and is finalized after a not-found answer |
| Chain.LandedForGoodIff | token/engine.go:224-229 | a landing is permanent exactly when it is finalized and not failed |
| Chain.ConfirmedProvesNothing | token/engine.go:304-307 | from every landing that is only confirmed there is a run after which the transaction never lands |
| Network.RelaxedOnlyByTestGenesis | token/network.go:65-110 | only the devnet and testnet hashes give a network that is not live, and each names its own cluster |
| Network.TrimSpaceExact | token/network.go:100 | trimming leaves the part between the first and the last character that is not white space |
| Network.LiveNames | token/network.go:65-72 | exactly three names are not live; the empty name is |
| SplMint.DecodeMintOf | token/engine.go:203-217 | decoding the 82-byte account of a mint gives back that mint |
| Engine.ConfirmOrExpire | token/engine.go:309-355 | the reads made are exactly those of its turns, the outcome is what the last turn settles and no earlier turn settled anything; whatever the chain does between the reads, a reached finalized commitment is permanent, a failure is what the chain shows, and expired means that the transaction never lands |
| Engine.PollOnce | token/engine.go:316-353 | one turn settles exactly what its reads allow: a single not-found or an unreadable status settles nothing |
| Engine.SettlesCases | token/engine.go:316-353 | case by case: finalized settles every wait, confirmed only a wait for confirmation, a failed landing is reported, two not-founds around a height past the window mean expiry, anything else settles nothing |
| Engine.Engine.constructor | token/engine.go:120-126 | an engine built without naming its network is held to the mainnet rules |
| Engine.Engine.OnNetwork | token/engine.go:133-135 | a named network is pinned |
| Engine.Engine.ResolveNetwork | token/engine.go:145-155 | an unpinned engine is live unless this call's own genesis read names a test cluster; a pinned one asks nothing |
| Engine.Engine.CheckTreasurySpendable | token/mint.go:60-79 | passes exactly when the account is absent or not owned by Squads |
| Engine.Engine.Verify | token/engine.go:189-222 | a mint is read at finalized commitment and verified exactly when the answer shows an initialized 82-byte account of the SPL Token program; a Token-2022 account is its own class |
| Engine.Engine.SignAll | token/engine.go:255-271 | succeeds exactly when every required key has a signer and nobody refuses, and asks for no other signature |
| Engine.Engine.Send | token/engine.go:230-298 | submits exactly when blockhash, compilation and signatures succeed; landed at finalized commitment is permanent, never-landed is proven, anything else is unknown |
| Engine.Engine.CheckSupply | token/mint.go:220-229 | passes exactly when the supply read is the exact scaled amount; decimals play no part |
| Engine.Engine.VerifySafe | token/mint.go:205-217 | no failure exactly when the answer shows the safe shape, unsafe exactly when it shows a live authority |
| Engine.Engine.ResolveUnconfirmed | token/mint.go:182-202 | the same after a lost confirmation; an account that cannot be read stays unresolved |
| Engine.Engine.SendAndReadBack | token/mint.go:151-175 | at most one submission, then the read-back unless the transaction is proven never to land |
| Engine.Engine.Mint | token/mint.go:87-175 | succeeds exactly when the final read-back shows an initialized SPL mint with no authority and the exact positive scaled supply; a request that fails a check asks for no signature; submits exactly when cleared and sendable; the zero address means that the transaction never lands; every signature follows the treasury check and, for a hot-key treasury on an unpinned engine, a test genesis read in that call; only buildMint's list is ever submitted; and on every ledger what OnLedger states |
| Engine.MintOnLedger | token/mint.go:155-174 | with the zero address the mint is on no later ledger; once landed the whole supply belongs to the treasury asked for, or to the payer when none was; and given a true answer, success means exactly that the transaction landed and the endpoint showed the account |
| Engine.ClearedIff | token/mint.go:92-149 | what a request must pass before anything is signed, each check in its own terms |
| Engine.SigningMeansCleared | token/mint.go:81-86 | a call that asks for any signature has passed every check |
| Engine.SubmittedIff | token/engine.go:239-282 | a transaction leaves exactly when every check passes, the blockhash is read, the message compiles, and each key it needs is the payer's or the mint's and is not refused |
| Engine.TrueAnswerDecodes | token/engine.go:189-222 | the checks of Verify invert the account layout: a true answer passes them exactly when the mint exists and decodes to what the ledger holds |
| Engine.ShapesOfAccount | token/mint.go:205-229 | on the account of a mint, live means that somebody can still mint or freeze, and safe that nobody can and the supply is exact |
| Engine.Engine.MintAll | token/mint.go:102-127 | over any sequence of calls on one engine at the end of the run each call has kept the whole contract of a single call about its own transaction, which the chain has gone on moving: nothing signed unless its own checks passed, success exactly on its own final read-back, the zero address only if its transaction never lands; nothing is carried over |
| Engine.Engine.KeptIgnoresNetwork | token/engine.go:145-155 | on an unpinned engine the network an earlier call left behind plays no part |
| Engine.Engine.KeptLater | token/mint.go:87-175 | nothing the chain does later breaks what a call promised |
| Engine.CallIsDisciplined | token/mint.go:125-135 | a log of genesis read, treasury read, then sending has every signature after the checks it needs |
| Engine.SafeReadIsPermanent | token/mint.go:168-174 | if the answer a mint succeeded on is true of the ledger, the token keeps that shape under every later history |
| Engine.UnsafeIsUnreachable | token/mint.go:193-197 | a truthful endpoint never shows this mint with a live authority |
| Engine.LandedShowsSafe | token/atomic.go:25-33 | the true answer right after the landing is the safe shape with the decimals asked for |
| Engine.SuccessIsLanding | token/mint.go:168-174 | for a ledger that did not hold the mint and a true answer: success if and only if the transaction landed and the answer shows the account |
| Session.DrivenRefinesDirect | token/session.go:226-274 | in every schedule in which no context ends during an outstanding call, between public calls exactly one of pending and outcome is set: the outcome the lifecycle finishes with, or the very message it wants signed or body it wants sent, on the replies given, in order |
| Session.ScheduleDoesNotMatter | token/session.go:226-274 | two schedules that gave the same replies show the same pending call and outcome |
| Session.AdvanceIsHeard | token/session.go:263-274 | an accepted reply is heard next, exactly once |
| Session.PublicCallsReturn | token/session.go:223-234 | in runs where no context ends during an outstanding call, while a public call is in progress some internal step is enabled and every internal step brings its return nearer |
| Session.OutcomeIsFinal | token/session.go:263-269 | once the outcome is set no step changes the session |
| Session.AdvanceReturnsIffAwaited | token/hostrpc.go:76-84 | some continuation of Advance returns exactly when the goroutine still waits for the pending call's reply |
| Session.AdvanceIsSafeIffSigning | token/session.go:263-274 | in every run, contexts ending anywhere, Advance can always still return if and only if the pending call is a signature request |
| Session.CanReturnIffNotLost | token/session.go:270-272 | a public call can still return exactly when its reply has not been orphaned |
| Session.LostForever | token/session.go:270-272 | a reply nobody waits for is never taken, whatever happens next |
| Session.AbandonedCallIsReachable | token/hostrpc.go:66-85 | every lifecycle that begins with a fetch can reach the state in which the pending call has been given up |
| Registry.FormatUintInjective | cmd/token/main.go:87 | distinct counters print differently |
| Registry.FormatUintIsDecimal | cmd/token/main.go:87 | the id ends in the decimal numeral of the counter |
| Registry.IdsRepeatExactly | cmd/token/main.go:83-90 | two ids coincide exactly when their counters agree modulo 2^64 |
| Registry.SequentialSession | token/session.go:223-274 | between public calls a session, in any schedule, has the fields the sequential one computes, and an accepted reply moves both alike |
| Registry.ReplyOf | cmd/token/main.go:119-138 | a host error is always delivered into the lifecycle, the signing error first; otherwise the reply is the decoded body or the decoded 64-byte signature, and it is refused exactly when there is none |
| Registry.Service.Store | cmd/token/main.go:83-90 | the id is the prefix and the counter in decimal; until the counter wraps it was never issued before |
| Registry.Service.Render | cmd/token/main.go:337-358 | a finished session is dropped and its outcome returned; an awaiting one shows its call |
| Registry.Service.Open | cmd/token/main.go:291-318 | a new session is registered at its lifecycle's first call under a new id, or not at all when it finishes at once |
| Registry.Service.Continue | cmd/token/main.go:320-333 | an unknown id and an undecodable answer change nothing; otherwise the session is where its lifecycle is after the reply, and is gone once finished |
| Registry.Service.Handle | cmd/token/main.go:275-333 | every registered session stays one that awaits the host on a one-sided call with no outcome; the failed-Advance, neither-done-nor-awaiting and empty-call responses are never given |
| RegistryRun.ServeCalls | cmd/token/main.go:67-102 | over any sequence of tool calls no broken response is ever given; below 2^64 calls no id is handed out twice and every response shows the result, message or body that running that session's lifecycle directly on the answers given to it calls for |
| RegistryRun.TrackedNext | cmd/token/main.go:275-358 | after each call the registry holds exactly the sessions begun and not completed, each where its direct run is |
| Clock.Manual.constructor | clock/clock.go:40-42 | a new clock has nothing pending |
| Clock.Manual.FireLocked | clock/timer.go:83-88 | delivers into an empty channel and never blocks on a full one |
| Clock.Manual.RemoveLocked | clock/timer.go:109-117 | the in-place splice is plain remove-one, and reports whether the timer was there |
| Clock.Manual.FireDueLocked | clock/timer.go:121-131 | the compaction over the array being read is a plain filter, and every timer it drops has the time in its channel |
| Clock.Manual.NewTimer | clock/timer.go:92-102 | one new arming, pending or fired at once |
| Clock.Manual.Stop | clock/timer.go:57-61 | reports whether the timer was pending; if so that arming ends as stopped |
| Clock.Manual.Reset | clock/timer.go:63-79 | a pending arming ends as superseded, and the new one starts with a clean channel |
| Clock.Manual.Rearm | clock/timer.go:67-77 | a timer that is not pending is armed anew with nothing stale in its channel |
| Clock.Manual.Set | clock/clock.go:60-65 | exactly the pending timers whose deadline is reached fire, each into an empty channel; the others are untouched |
| Clock.Manual.Advance | clock/clock.go:52-57 | the same for a relative move |
| Clock.Manual.PendingTimers | clock/clock.go:71-75 | the number of timers armed and not yet fired |
| Clock.KeptMembers | clock/timer.go:121-131 | filtering keeps exactly the timers ahead of the clock, and keeps them distinct |
| Clock.WithoutMembers | clock/timer.go:109-117 | removing one of distinct timers removes it and nothing else |
| Clock.StoryNew | clock/timer.go:92-102 | creating a timer keeps the account of every arming |
| Clock.StoryRearm | clock/timer.go:63-79 | arming a timer again keeps it |
| Clock.StoryEnd | clock/timer.go:109-117 | stopping or superseding ends exactly the live arming of that timer |
| Clock.StoryMove | clock/timer.go:119-131 | a move fires exactly the live armings whose deadline is reached, at the first position that reaches them |
| Clock.ChannelsMove | clock/timer.go:83-88 | a timer whose latest arming fired has delivered exactly one value, the clock position at which it fired; any other has delivered nothing |
| Clock.ChannelsNew | clock/timer.go:95-97 | a timer that fires at once delivers the current time |
| Clock.Manual.Receive | clock/timer.go:55 | a receive takes the waiting value and nothing else |

## Left out

- Engine.ConfirmOrExpire: the loop ends after a given number of turns, any number, standing for the end of the context; in the source only the context and the chain end it. Status and height reads fail or report the chain as it is at that moment, with one height for the whole cluster; a lagging node that answers not-found after the window closed is not modelled.
- Engine.Engine.Mint: the fresh key, the derived addresses, the impersonation verdict and the account answers are inputs. Each call watches its own transaction; the transactions of earlier calls move on independently of it. Disclosures are not returned.
- Engine.Engine.Send: the submit error, which the source only folds into a message, has no effect.
- Base58.Base58Decode: the growing byte slice is a sequence updated element by element, so slice capacity and aliasing are not captured; a character stands for a byte, and no byte outside ASCII is a base58 digit.
- Ledger: the meaning of the instructions is the model's own, read off the programs' account order and data. Moving and burning tokens need no particular signer, which allows more than the chain does, so delegation changes nothing; rent is not charged. Create sets both authorities to the payer, as the source reports of the chain (token/atomic.go:85-93).
- Library assumptions: a compiled message lists the payer first and each key once and keeps every instruction (`MintMessage.CompiledFrom`), and counts the payer and the mint key, in this order, as its signers (`ApprovedMint.SignedByBoth`); SetAuthority to nobody is [6, type, 0]; idempotent account creation is [1]; the 82-byte layout of a mint account is the Token program's; the metadata and token account addresses are derived by the library; writable flags are not modelled.
- Borsh.CreateDataRoundTrip: the layout of the optional structures, which the source never writes, is that of the Token Metadata program's published types.
- ApprovedMint.ApprovalSettlesIffCovered: what the Metadata and associated-token-account programs do with instructions other than Create and CreateIdempotent is any function that creates accounts or writes metadata, or fails; that they do no more is the premise of solana/solana.go:123-124, not proved.
- Session.DrivenRefinesDirect: a lifecycle is a function of what it has heard, so clock reads between calls are not separate events; Close is a context that ends.
- Registry.Service.Handle: sessions are values in the map rather than shared objects; argument parsing and base64 are inputs, and the verify service's own wording of its result is left out.
- Clock.Manual.Set: time is an unbounded integer; a timer is named by the order of its creation, with its deadline and channel held by the clock; mutexes are not modelled because every operation holds one throughout.
- Signer.Serve: requests arrive parsed and one at a time, as the message loop delivers them; a policy that is not bound to a key is not modelled.
- Ed25519, Argon2id, AES-GCM and the sealed key file: foreign cryptography; a key is a public half and a signing function.
- JSON, base64 and the stdio message loop, request numbering in the host transport, error texts.
- The rest of the safety rules, brand matching, metadata URI heuristics and supply parsing: each is settled by reading one branch.
- The system clock and wall-clock timers.
