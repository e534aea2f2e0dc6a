/** The signer process of signer/signer.go around the Solana policy: a vault that starts
    locked, and one request handled at a time. */
module Signer {
  import opened Basics
  import opened Wire
  import opened MessageReader
  import opened Policy

  const MAX_PAYLOAD_BYTES: nat := 65536

  /** Custody of a private key: its public half and its signing operation, which may fail. */
  datatype Key = Key(public: seq<Byte>, sign: seq<Byte> -> Option<seq<Byte>>)

  /** A request as it reaches a handler. Unlock carries what the opener made of the passphrase
      (nothing when the request is malformed or the key does not open); Sign carries the
      decoded payload (nothing when the request is malformed or not base64). */
  datatype Request = Unlock(unsealed: Option<Key>) | Sign(payload: Option<seq<Byte>>)

  datatype Response = Failure | PublicKey(public: seq<Byte>) | Signature(sig: seq<Byte>)

  // ----- what a run of requests must answer

  /** The key of the last unlock that succeeded. */
  ghost function Held(requests: seq<Request>): Option<Key> {
    if requests == [] then None
    else
      var last := requests[|requests| - 1];
      if last.Unlock? && last.unsealed.Some? then last.unsealed else Held(requests[..|requests| - 1])
  }

  /** A payload this key may sign: the printed form of a legacy message, 1 to 65536 bytes long,
      that this key pays for and that keeps the rule. */
  ghost predicate MaySign(key: Key, payload: seq<Byte>) {
    && 1 <= |payload| <= MAX_PAYLOAD_BYTES
    && exists m: Message ::
         && WellFormed(m) && payload == PrintMessage(m)
         && m.accounts != [] && m.accounts[0] == key.public
         && RuleOn(m.accounts, ProjectInstructions(m.instructions))
  }

  ghost function Answer(earlier: seq<Request>, r: Request): Response {
    match r
    case Unlock(None) => Failure
    case Unlock(Some(k)) => PublicKey(k.public)
    case Sign(None) => Failure
    case Sign(Some(p)) =>
      match Held(earlier)
      case None => Failure
      case Some(k) => if MaySign(k, p) && k.sign(p).Some? then Signature(k.sign(p).value) else Failure
  }

  lemma MaySignIsApproved(key: Key, payload: seq<Byte>)
    ensures MaySign(key, payload) <==> 1 <= |payload| <= MAX_PAYLOAD_BYTES && Approved(payload, key.public)
  {
    if MaySign(key, payload) {
      var m: Message :|
        && WellFormed(m) && payload == PrintMessage(m)
        && m.accounts != [] && m.accounts[0] == key.public
        && RuleOn(m.accounts, ProjectInstructions(m.instructions));
      assert Rule(Project(m), key.public);
    }
    if 1 <= |payload| <= MAX_PAYLOAD_BYTES && Approved(payload, key.public) {
      var m: Message :| WellFormed(m) && payload == PrintMessage(m) && Rule(Project(m), key.public);
      assert m.accounts != [] && m.accounts[0] == key.public;
    }
  }

  class SignerProcess {
    var key: Option<Key>
    const policy: SolanaPolicy
    ghost var handled: seq<Request>

    /** The key is the one last unlocked, and whenever a key is held the policy is bound to its
        public half. */
    ghost predicate Valid()
      reads this, policy
    {
      && key == Held(handled)
      && (key.Some? ==> policy.payer == key.value.public)
    }

    constructor ()
      ensures Valid() && handled == [] && key == None && fresh(policy)
    {
      policy := new SolanaPolicy();
      key := None;
      handled := [];
    }

    method HandleUnlock(unsealed: Option<Key>) returns (resp: Response)
      requires Valid()
      modifies this, policy
      ensures Valid() && handled == old(handled) + [Unlock(unsealed)]
      ensures resp == Answer(old(handled), Unlock(unsealed))
    {
      handled := handled + [Unlock(unsealed)];
      assert handled[..|handled| - 1] == old(handled);
      if unsealed.None? { return Failure; }
      policy.BindKey(unsealed.value.public);
      key := unsealed;
      return PublicKey(unsealed.value.public);
    }

    method HandleSign(payload: Option<seq<Byte>>) returns (resp: Response)
      requires Valid()
      modifies this
      ensures Valid() && handled == old(handled) + [Sign(payload)] && key == old(key)
      ensures resp == Answer(old(handled), Sign(payload))
    {
      hide MaySign, Approved;
      handled := handled + [Sign(payload)];
      assert handled[..|handled| - 1] == old(handled);
      if key.None? { return Failure; }
      if payload.None? { return Failure; }
      MaySignIsApproved(key.value, payload.value);
      if |payload.value| == 0 { return Failure; }
      if |payload.value| > MAX_PAYLOAD_BYTES { return Failure; }
      var approved := policy.Approve(payload.value);
      if !approved { return Failure; }
      var sig := key.value.sign(payload.value);
      if sig.None? { return Failure; }
      return Signature(sig.value);
    }
  }

  /** A whole run of the process from its locked start: every response is the one the earlier
      requests call for, so a signature is returned exactly when the last key unlocked may
      sign the payload, and it is that key's signature over it. */
  method Serve(requests: seq<Request>) returns (responses: seq<Response>)
    ensures |responses| == |requests|
    ensures forall i | 0 <= i < |requests| :: responses[i] == Answer(requests[..i], requests[i])
    ensures forall i | 0 <= i < |requests| && requests[i].Unlock? ::
      responses[i] == match requests[i].unsealed case None => Failure case Some(key) => PublicKey(key.public)
    ensures forall i | 0 <= i < |requests| && requests[i].Sign? ::
      responses[i].Failure? || (responses[i].Signature? && exists j :: Due(requests, i, j, responses[i].sig))
  {
    hide Held, Due, MaySign;
    var s := new SignerProcess();
    responses := [];
    var i := 0;
    while i < |requests|
      invariant 0 <= i <= |requests| && |responses| == i
      invariant s.Valid() && s.handled == requests[..i] && fresh(s) && fresh(s.policy)
      invariant forall j | 0 <= j < i :: responses[j] == Answer(requests[..j], requests[j])
      invariant forall j | 0 <= j < i && requests[j].Sign? ::
        responses[j].Failure? || (responses[j].Signature? && exists k :: Due(requests, j, k, responses[j].sig))
    {
      var resp;
      match requests[i] {
        case Unlock(unsealed) => resp := s.HandleUnlock(unsealed);
        case Sign(payload) => resp := s.HandleSign(payload);
      }
      if resp.Signature? { SignedIffDue(requests, i, resp.sig); }
      responses := responses + [resp];
      assert requests[..i + 1] == requests[..i] + [requests[i]];
      i := i + 1;
    }
  }

  /** At request i a signature sig is due to the unlock at j: it succeeded, no later one did, and its
      key pays for a legacy message of 1 to 65536 bytes that keeps the rule. */
  ghost predicate Due(requests: seq<Request>, i: nat, j: nat, sig: seq<Byte>)
    requires i < |requests|
  {
    && j < i && requests[j].Unlock? && requests[j].unsealed.Some?
    && (forall k | j < k < i :: !(requests[k].Unlock? && requests[k].unsealed.Some?))
    && requests[i].Sign? && requests[i].payload.Some?
    && var key, p := requests[j].unsealed.value, requests[i].payload.value;
       1 <= |p| <= 65536 && Approved(p, key.public) && key.sign(p) == Some(sig)
  }

  /** A signature is returned exactly when it is due to the last unlock that succeeded. */
  lemma {:induction false} SignedIffDue(requests: seq<Request>, i: nat, sig: seq<Byte>)
    requires i < |requests|
    ensures Answer(requests[..i], requests[i]) == Signature(sig) <==> exists j :: Due(requests, i, j, sig)
  {
    hide MaySign, Approved;
    var earlier, r := requests[..i], requests[i];
    if r.Sign? && r.payload.Some? && Held(earlier).Some? { MaySignIsApproved(Held(earlier).value, r.payload.value); }
    if Answer(earlier, r) == Signature(sig) {
      var j := HeldSince(earlier);
      assert Due(requests, i, j, sig);
    }
    if j :| Due(requests, i, j, sig) {
      HeldFrom(earlier, j);
    }
  }

  /** The key of a successful unlock is held until the next one succeeds. */
  lemma {:induction false} HeldFrom(requests: seq<Request>, j: nat)
    requires j < |requests| && requests[j].Unlock? && requests[j].unsealed.Some?
    requires forall k | j < k < |requests| :: !(requests[k].Unlock? && requests[k].unsealed.Some?)
    ensures Held(requests) == requests[j].unsealed
  {
    if j < |requests| - 1 { HeldFrom(requests[..|requests| - 1], j); }
  }

  lemma {:induction false} HeldSince(requests: seq<Request>) returns (j: nat)
    requires Held(requests).Some?
    ensures j < |requests| && requests[j].Unlock? && requests[j].unsealed == Held(requests)
    ensures forall k | j < k < |requests| :: !(requests[k].Unlock? && requests[k].unsealed.Some?)
  {
    j := |requests| - 1;
    if !(requests[j].Unlock? && requests[j].unsealed.Some?) {
      j := HeldSince(requests[..|requests| - 1]);
    }
  }
}
