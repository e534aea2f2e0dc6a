/** The session registry and tool handler of cmd/token/main.go. A session between two public calls
    is what Session shows it to be: its lifecycle, the replies given so far, and the pending call
    or the outcome these determine. */
module Registry {
  import opened Basics
  import opened Numbers
  import opened Session

  const TWO_64: nat := 0x1_0000_0000_0000_0000
  const SIGNATURE_LEN: nat := 64

  // ----- session ids

  /** strconv.FormatUint in base ten. */
  function FormatUint(n: nat): string {
    if n == 0 then "0" else var ds := Digits(n, 10); seq(|ds|, i requires 0 <= i < |ds| => DigitChar(ds[i]))
  }

  function DigitChar(d: nat): char { (48 + d % 10) as char }

  /** It is the decimal numeral of n: its digits denote n, and it has no leading zero. */
  lemma FormatUintIsDecimal(n: nat)
    ensures var s := FormatUint(n);
      && s != [] && (forall i | 0 <= i < |s| :: '0' <= s[i] <= '9') && (|s| > 1 ==> s[0] != '0')
      && Value(seq(|s|, i requires 0 <= i < |s| => s[i] as int - '0' as int), 10) == n
  {
    var s := FormatUint(n);
    var vs := seq(|s|, i requires 0 <= i < |s| => s[i] as int - '0' as int);
    if n == 0 {
      assert vs == [0] && Value(vs[..0], 10) == 0;
    } else {
      var ds := Digits(n, 10);
      assert vs == ds;
      ValueOfDigits(n, 10);
      NonZeroFormat(n);
    }
  }

  lemma FormatUintInjective(m: nat, n: nat)
    requires FormatUint(m) == FormatUint(n)
    ensures m == n
  {
    if m > 0 && n > 0 {
      var a, b := Digits(m, 10), Digits(n, 10);
      assert |a| == |FormatUint(m)| == |FormatUint(n)| == |b|;
      forall i | 0 <= i < |a| ensures a[i] == b[i] {
        assert FormatUint(m)[i] == DigitChar(a[i]) && FormatUint(n)[i] == DigitChar(b[i]);
      }
      assert a == b;
      ValueOfDigits(m, 10);
      ValueOfDigits(n, 10);
    } else {
      NonZeroFormat(m);
      NonZeroFormat(n);
    }
  }

  lemma NonZeroFormat(n: nat)
    ensures n > 0 <==> FormatUint(n)[0] != '0'
  {
    if n > 0 {
      var ds := Digits(n, 10);
      assert ds[0] < 10 && ds[0] != 0;
      assert FormatUint(n)[0] == DigitChar(ds[0]);
    }
  }

  function SessionId(prefix: string, n: nat): string { prefix + FormatUint(n) }

  lemma SessionIdIs(prefix: string, n: nat)
    ensures SessionId(prefix, n) == prefix + FormatUint(n)
  {
  }

  lemma SessionIdInjective(prefix: string, m: nat, n: nat)
    requires SessionId(prefix, m) == SessionId(prefix, n)
    ensures m == n
  {
    var a, b := SessionId(prefix, m), SessionId(prefix, n);
    assert a[|prefix|..] == FormatUint(m) && b[|prefix|..] == FormatUint(n);
    FormatUintInjective(m, n);
  }

  /** Ids of two stores coincide exactly when a multiple of 2^64 stores lies between them. */
  lemma IdsRepeatExactly(prefix: string, j: nat, k: nat)
    ensures SessionId(prefix, j % TWO_64) == SessionId(prefix, k % TWO_64) <==> j % TWO_64 == k % TWO_64
  {
    if SessionId(prefix, j % TWO_64) == SessionId(prefix, k % TWO_64) {
      SessionIdInjective(prefix, j % TWO_64, k % TWO_64);
    }
  }

  // ----- one session

  datatype Driven<!T> = Driven(life: Lifecycle<T>, heard: seq<Heard>, pending: Option<HostCall>, outcome: Option<T>)

  /** Run the lifecycle to its next host call or to its end. */
  function Park<T>(life: Lifecycle<T>, heard: seq<Heard>): Driven<T> {
    match life(heard)
    case Finish(out) => Driven(life, heard, None, Some(out))
    case a => Driven(life, heard, Some(CallOf(a)), None)
  }

  /** None: a completed session, or one with nothing pending. */
  function AdvanceSession<T>(d: Driven<T>, r: HostReply): Option<Driven<T>> {
    if d.outcome.Some? then None
    else if d.pending.None? then None
    else Some(Park(d.life, d.heard + [Reply(r)]))
  }

  /** The session as its fields show it between public calls. */
  ghost function Shown<T>(life: Lifecycle<T>, s: State<T>): Driven<T> {
    Driven(life, s.heard, s.pending, s.outcome)
  }

  /** The sequential session of this module is the concurrent one: whenever the driver is idle,
      in any schedule in which no context ends during an outstanding call, the fields are those
      Park computes; and an accepted reply takes them to those AdvanceSession computes. */
  lemma SequentialSession<T>(life: Lifecycle<T>, ls: seq<Label>, r: HostReply, more: seq<Label>)
    requires Schedule(life, Start(), ls) && Abandon !in ls
    requires var s := After(life, Start(), ls);
      && s.driver.Idle? && s.pending.Some? && s.outcome.None?
      && Schedule(life, Next(life, s, Advance(r)), more) && (forall i | 0 <= i < |more| :: Internal(more[i]))
      && After(life, Next(life, s, Advance(r)), more).driver.Idle?
    ensures var s := After(life, Start(), ls);
      && Shown(life, s) == Park(life, s.heard)
      && AdvanceSession(Shown(life, s), r) == Some(Shown(life, After(life, Next(life, s, Advance(r)), more)))
  {
    hide Schedule, After, Inv;
    assert Inv(life, Start()) by { InvStart(life); }
    InvAfter(life, Start(), ls);
    var s := After(life, Start(), ls);
    var s1 := Next(life, s, Advance(r));
    InvNext(life, s, Advance(r));
    assert Abandon !in more;
    InvAfter(life, s1, more);
    AdvanceIsHeard(life, s, r, more);
    IdleIsParked(life, s);
    IdleIsParked(life, After(life, s1, more));
  }

  lemma InvStart<T>(life: Lifecycle<T>)
    ensures Inv(life, Start())
  {
  }

  lemma IdleIsParked<T>(life: Lifecycle<T>, s: State<T>)
    requires Inv(life, s) && s.driver.Idle?
    ensures Shown(life, s) == Park(life, s.heard)
  {
  }

  // ----- one tool call

  /** The half of the input that answers a host call; empty strings are absent fields. */
  datatype ResumeArgs = ResumeArgs(signature: string, signError: string, response: string, fetchError: string)

  predicate IsSignature(sig: seq<Byte>, a: ResumeArgs, base64: string -> Option<seq<Byte>>) {
    base64(a.signature) == Some(sig) && |sig| == SIGNATURE_LEN
  }

  /** The answer as a reply: an error of either kind first, then a response body, and a signature
      otherwise. None when the body or the signature cannot be decoded. */
  function ReplyOf(a: ResumeArgs, base64: string -> Option<seq<Byte>>): (r: Option<HostReply>)
    ensures a.signError != "" || a.fetchError != "" <==> r.Some? && r.value.err.Some?
    ensures a.signError != "" ==> r.value.err == Some(a.signError)
    ensures a.signError == "" && a.fetchError != "" ==> r.value.err == Some(a.fetchError)
    ensures r.Some? && r.value.err.None? && a.response != "" ==>
      r.value.signature == [] && base64(a.response) == Some(r.value.body)
    ensures r.Some? && r.value.err.None? && a.response == "" ==>
      r.value.body == [] && IsSignature(r.value.signature, a, base64) && |r.value.signature| == 64
    ensures r.None? <==>
      && a.signError == "" && a.fetchError == ""
      && if a.response != "" then base64(a.response).None? else forall sig :: !IsSignature(sig, a, base64)
  {
    assert base64(a.signature).Some? && |base64(a.signature).value| == SIGNATURE_LEN ==>
      IsSignature(base64(a.signature).value, a, base64);
    if a.signError != "" then Some(HostReply([], [], Some(a.signError)))
    else if a.fetchError != "" then Some(HostReply([], [], Some(a.fetchError)))
    else if a.response != "" then
      var body :- base64(a.response);
      Some(HostReply([], body, None))
    else
      var sig :- base64(a.signature);
      if |sig| != SIGNATURE_LEN then None else Some(HostReply(sig, [], None))
  }

  /** A tool call: input that does not parse, a new session (None when its arguments are bad), or
      an answer to a session. */
  datatype Request<!T> =
    | Malformed
    | Begin(life: Option<Lifecycle<T>>)
    | Resume(id: string, args: ResumeArgs)

  datatype Response<T> =
    | AwaitHost(id: string, call: HostCall)
    | Completed(out: T)
    | BadInput | UnknownSession | BadAnswer
    | AdvanceFailed | NeitherDoneNorAwaiting | EmptyHostCall

  /** What a caller is told about a session: the result, the very message to sign, or the very body
      to send, as its lifecycle has it after what it has heard. */
  ghost predicate Shows<T>(resp: Response<T>, d: Driven<T>) {
    match d.life(d.heard)
    case Finish(out) => resp == Completed(out)
    case Sign(message) => resp.AwaitHost? && resp.call == HostCall(Some(message), None)
    case Fetch(body) => resp.AwaitHost? && resp.call == HostCall(None, Some(body))
  }

  /** One tool call: input that does not parse, an unknown id and an undecodable answer change
      nothing; a new session and an answered one are where their lifecycle is, and a finished one
      is not registered. */
  ghost predicate Stepped<T>(q: Request<T>, base64: string -> Option<seq<Byte>>,
                             before: map<string, Driven<T>>, after: map<string, Driven<T>>, resp: Response<T>)
  {
    match q
    case Malformed => resp == BadInput && after == before
    case Begin(None) => resp == BadInput && after == before
    case Begin(Some(life)) =>
      var d := Park(life, []);
      && Shows(resp, d)
      && if resp.AwaitHost? then resp.id !in before && after == before[resp.id := d] else after == before
    case Resume(id, args) =>
      if id !in before then resp == UnknownSession && after == before
      else if ReplyOf(args, base64) == None then resp == BadAnswer && after == before
      else
        var d := Park(before[id].life, before[id].heard + [Reply(ReplyOf(args, base64).value)]);
        && Shows(resp, d)
        && if resp.AwaitHost? then resp.id == id && after == before[id := d] else after == before - {id}
  }

  class Service<!T> {
    const prefix: string
    var seqNo: nat
    var sessions: map<string, Driven<T>>
    ghost var stores: nat

    /** Every registered session is awaiting the host on a one-sided call, with no outcome, at the
        point its lifecycle is at; and its id was issued by one of the stores so far. */
    ghost predicate Valid()
      reads this
    {
      IdsValid() && forall id | id in sessions :: Awaiting(sessions[id])
    }

    ghost predicate IdsValid()
      reads this
    {
      && seqNo < TWO_64
      && (stores < TWO_64 ==> seqNo == stores)
      && seqNo == stores % TWO_64
      && forall id | id in sessions :: Issued(id)
    }

    ghost predicate Awaiting(d: Driven<T>) {
      d == Park(d.life, d.heard) && d.pending.Some? && d.outcome.None? && OneSided(d.pending.value)
    }

    ghost predicate Issued(id: string)
      reads this
    {
      exists k | 1 <= k <= stores :: id == SessionId(prefix, k % TWO_64)
    }

    constructor (prefix: string)
      ensures this.prefix == prefix && Valid() && sessions == map[] && stores == 0
    {
      this.prefix, seqNo, sessions, stores := prefix, 0, map[], 0;
    }

    /** The counter wraps at 2^64. Until it does, the id is one that was never issued before. */
    method Store(d: Driven<T>) returns (id: string)
      requires IdsValid()
      modifies this
      ensures IdsValid() && stores == old(stores) + 1
      ensures sessions == old(sessions)[id := d] && id == prefix + FormatUint(stores % TWO_64)
      ensures stores < TWO_64 ==> !old(Issued(id)) && id !in old(sessions)
    {
      hide SessionId, FormatUint;
      ghost var before := stores;
      stores := stores + 1;
      seqNo := (seqNo + 1) % TWO_64;
      id := SessionId(prefix, seqNo);
      SessionIdIs(prefix, seqNo);
      if stores < TWO_64 {
        forall k | 1 <= k <= before ensures id != SessionId(prefix, k % TWO_64) {
          if id == SessionId(prefix, k % TWO_64) { SessionIdInjective(prefix, seqNo, k % TWO_64); }
        }
        assert !old(Issued(id));
      }
      sessions := sessions[id := d];
    }

    method Render(id: string, d: Driven<T>) returns (resp: Response<T>)
      modifies this
      ensures stores == old(stores) && seqNo == old(seqNo)
      ensures sessions == if d.outcome.Some? then old(sessions) - {id} else old(sessions)
      ensures d.outcome.Some? ==> resp == Completed(d.outcome.value)
      ensures d.outcome.None? && d.pending.Some? && OneSided(d.pending.value) ==> resp == AwaitHost(id, d.pending.value)
    {
      if d.outcome.Some? {
        sessions := sessions - {id};
        return Completed(d.outcome.value);
      }
      if d.pending.None? { return NeitherDoneNorAwaiting; }
      var call := d.pending.value;
      if call.sign.None? && call.fetch.None? { return EmptyHostCall; }
      return AwaitHost(id, call);
    }

    /** The first call of a session. Until the counter wraps, its id was never issued before; after
        that it may take over the id of an older session. */
    method Open(life: Lifecycle<T>, base64: string -> Option<seq<Byte>>) returns (resp: Response<T>)
      requires Valid()
      modifies this
      ensures Valid() && stores == old(stores) + 1
      ensures Shows(resp, Park(life, []))
      ensures stores < TWO_64 ==> Stepped(Begin(Some(life)), base64, old(sessions), sessions, resp)
      ensures resp.AwaitHost? ==> Issued(resp.id) && (stores < TWO_64 ==> !old(Issued(resp.id)))
      ensures resp.AwaitHost? ==> sessions == old(sessions)[resp.id := Park(life, [])]
    {
      hide SessionId;
      var d := Park(life, []);
      var id := Store(d);
      resp := Render(id, d);
      assert d.outcome.Some? && id !in old(sessions) ==> old(sessions)[id := d] - {id} == old(sessions);
    }

    /** A later call, with the host's answer. */
    method Continue(id: string, args: ResumeArgs, base64: string -> Option<seq<Byte>>) returns (resp: Response<T>)
      requires Valid()
      modifies this
      ensures Valid() && stores == old(stores)
      ensures !resp.AdvanceFailed? && !resp.NeitherDoneNorAwaiting? && !resp.EmptyHostCall?
      ensures Stepped(Resume(id, args), base64, old(sessions), sessions, resp)
    {
      hide SessionId, ReplyOf;
      if id !in sessions { return UnknownSession; }
      var r := ReplyOf(args, base64);
      if r.None? { return BadAnswer; }
      var d := AdvanceSession(sessions[id], r.value);
      // Where the source would drop the session and report the failed Advance.
      if d.None? { assert false; }
      sessions := sessions[id := d.value];
      resp := Render(id, d.value);
      assert d.value.outcome.Some? ==> old(sessions)[id := d.value] - {id} == old(sessions) - {id};
    }

    /** One tool call. The three responses that report a broken session are never given. */
    method Handle(q: Request<T>, base64: string -> Option<seq<Byte>>) returns (resp: Response<T>)
      requires Valid()
      modifies this
      ensures Valid()
      ensures !resp.AdvanceFailed? && !resp.NeitherDoneNorAwaiting? && !resp.EmptyHostCall?
      ensures stores == old(stores) + (if q.Begin? && q.life.Some? then 1 else 0)
      ensures stores < TWO_64 || !(q.Begin? && q.life.Some?) ==> Stepped(q, base64, old(sessions), sessions, resp)
      ensures forall id | old(Issued(id)) :: Issued(id)
      ensures q.Begin? && resp.AwaitHost? ==> Issued(resp.id) && (stores < TWO_64 ==> !old(Issued(resp.id)))
      ensures q.Begin? && q.life.Some? ==> Shows(resp, Park(q.life.value, []))
      ensures q.Begin? && resp.AwaitHost? ==>
        q.life.Some? && sessions == old(sessions)[resp.id := Park(q.life.value, [])]
    {
      hide Valid, IdsValid, Park, ReplyOf;
      match q {
        case Malformed => resp := BadInput;
        case Begin(life) =>
          if life.None? { return BadInput; }
          resp := Open(life.value, base64);
        case Resume(id, args) =>
          resp := Continue(id, args, base64);
      }
    }
  }
}
