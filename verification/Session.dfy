/** The resumable session of token/session.go and token/hostrpc.go: a lifecycle on its own
    goroutine and a driver, meeting on unbuffered channels. The steps of both processes are
    interleaved in every possible way. */
module Session {
  import opened Basics

  // ----- what crosses the boundary

  /** A host call; the source builds it with exactly one side set. */
  datatype HostCall = HostCall(sign: Option<seq<Byte>>, fetch: Option<seq<Byte>>)

  predicate OneSided(c: HostCall) { c.sign.Some? <==> c.fetch.None? }

  datatype HostReply = HostReply(signature: seq<Byte>, body: seq<Byte>, err: Option<string>)

  // ----- lifecycles

  /** What the lifecycle hears back from a request: the driver's reply, or the end of the
      request's context. */
  datatype Heard = Reply(r: HostReply) | CtxEnded

  datatype Action<T> = Sign(message: seq<Byte>) | Fetch(body: seq<Byte>) | Finish(out: T)

  /** A lifecycle is given by what it does next after everything it has heard so far; running it
      directly is applying this function to a growing list of answers. */
  type Lifecycle<!T> = seq<Heard> -> Action<T>

  function CallOf<T>(a: Action<T>): (c: HostCall)
    requires !a.Finish?
    ensures OneSided(c)
  {
    if a.Sign? then HostCall(Some(a.message), None) else HostCall(None, Some(a.body))
  }

  // ----- the two processes

  /** The goroutine: computing, blocked sending a call on reqCh, blocked receiving on repCh, or
      finished with its result in the one-slot doneCh. */
  datatype Proc = Computing | Offering(call: HostCall) | Awaiting(call: HostCall) | Exited

  /** The driver: between public calls, blocked sending a reply on repCh, or in park's select. */
  datatype Driver = Idle | Delivering(r: HostReply) | Parked

  datatype State<T> = State(
    proc: Proc, heard: seq<Heard>, doneCh: Option<T>,
    driver: Driver, pending: Option<HostCall>, outcome: Option<T>,
    given: seq<HostReply>)

  datatype Label =
    | Compute            // the goroutine runs to its next channel operation
    | Meet               // reqCh: the call is handed to the parked driver
    | Collect            // doneCh: the parked driver takes the result
    | Deliver            // repCh: the reply is handed to the waiting goroutine
    | Advance(r: HostReply)
    | Withdraw           // a fetch not yet handed over gives up because its context ended
    | Abandon            // a fetch already handed over gives up because its context ended

  function Start<T>(): State<T> { State(Computing, [], None, Parked, None, None, []) }

  predicate Enabled<T>(s: State<T>, l: Label) {
    match l
    case Compute => s.proc.Computing?
    case Meet => s.proc.Offering? && s.driver.Parked?
    case Collect => s.doneCh.Some? && s.driver.Parked?
    case Deliver => s.proc.Awaiting? && s.driver.Delivering?
    case Advance(_) => s.driver.Idle?
    case Withdraw => s.proc.Offering? && s.proc.call.fetch.Some?
    case Abandon => s.proc.Awaiting? && s.proc.call.fetch.Some?
  }

  function Next<T>(life: Lifecycle<T>, s: State<T>, l: Label): State<T>
    requires Enabled(s, l)
  {
    match l
    case Compute =>
      var a := life(s.heard);
      if a.Finish? then s.(proc := Exited, doneCh := Some(a.out)) else s.(proc := Offering(CallOf(a)))
    case Meet => s.(proc := Awaiting(s.proc.call), driver := Idle, pending := Some(s.proc.call))
    case Collect => s.(doneCh := None, driver := Idle, outcome := s.doneCh)
    case Deliver => s.(proc := Computing, heard := s.heard + [Reply(s.driver.r)], driver := Parked)
    case Advance(r) =>
      // A completed session, or one with no pending call, answers with an error.
      if s.outcome.Some? || s.pending.None? then s
      else s.(driver := Delivering(r), pending := None, given := s.given + [r])
    case Withdraw => s.(proc := Computing, heard := s.heard + [CtxEnded])
    case Abandon => s.(proc := Computing, heard := s.heard + [CtxEnded])
  }

  /** Every schedule: at each point any enabled step of either process may come next. */
  ghost predicate Schedule<T>(life: Lifecycle<T>, s: State<T>, ls: seq<Label>)
    decreases |ls|
  {
    ls == [] || (Enabled(s, ls[0]) && Schedule(life, Next(life, s, ls[0]), ls[1..]))
  }

  ghost function After<T>(life: Lifecycle<T>, s: State<T>, ls: seq<Label>): State<T>
    requires Schedule(life, s, ls)
    decreases |ls|
  {
    if ls == [] then s else After(life, Next(life, s, ls[0]), ls[1..])
  }

  // ----- the invariant

  /** The replies among what was heard. */
  function Replies(h: seq<Heard>): seq<HostReply> {
    if h == [] then []
    else Replies(h[..|h| - 1]) + (match h[|h| - 1] case Reply(r) => [r] case CtxEnded => [])
  }

  ghost predicate Inv<T>(life: Lifecycle<T>, s: State<T>) {
    && s.given == Replies(s.heard) + (if s.driver.Delivering? then [s.driver.r] else [])
    && (s.proc.Offering? || s.proc.Awaiting? ==>
          !life(s.heard).Finish? && s.proc.call == CallOf(life(s.heard)))
    && (s.proc.Exited? <==> s.doneCh.Some? || s.outcome.Some?)
    && (s.proc.Exited? ==> life(s.heard).Finish? && !s.driver.Delivering?)
    && (s.doneCh.Some? ==> s.driver.Parked? && s.outcome.None? && s.doneCh.value == life(s.heard).out)
    && (s.outcome.Some? ==> s.driver.Idle? && s.outcome.value == life(s.heard).out)
    && (s.driver.Idle? <==> s.pending.Some? || s.outcome.Some?)
    && (s.pending.Some? ==> s.outcome.None? && s.proc.Awaiting? && s.pending == Some(s.proc.call))
    && (s.driver.Delivering? ==> s.proc.Awaiting?)
    && (s.driver.Parked? ==> !s.proc.Awaiting?)
  }

  lemma RepliesSnoc(h: seq<Heard>, x: Heard)
    ensures Replies(h + [x]) == Replies(h) + (match x case Reply(r) => [r] case CtxEnded => [])
  {
    assert (h + [x])[..|h|] == h;
  }

  lemma InvNext<T>(life: Lifecycle<T>, s: State<T>, l: Label)
    requires Inv(life, s) && Enabled(s, l) && l != Abandon
    ensures Inv(life, Next(life, s, l))
  {
    hide Replies;
    match l {
      case Deliver => RepliesSnoc(s.heard, Reply(s.driver.r));
      case Withdraw => RepliesSnoc(s.heard, CtxEnded);
      case _ =>
    }
  }

  lemma {:induction false} InvAfter<T>(life: Lifecycle<T>, s: State<T>, ls: seq<Label>)
    requires Inv(life, s) && Schedule(life, s, ls) && Abandon !in ls
    ensures Inv(life, After(life, s, ls))
    decreases |ls|
  {
    hide Inv, Enabled, Next;
    if ls != [] {
      InvNext(life, s, ls[0]);
      InvAfter(life, Next(life, s, ls[0]), ls[1..]);
    }
  }

  // ----- driving the session equals running the lifecycle

  /** In every schedule in which no context ends during an outstanding call, whenever the driver
      is between public calls exactly one of pending and outcome is set, the pending call or the
      outcome is the one the lifecycle itself produces after what it has heard, and the replies
      it has heard are the ones the driver gave, in order. */
  lemma DrivenRefinesDirect<T>(life: Lifecycle<T>, ls: seq<Label>)
    requires Schedule(life, Start(), ls) && Abandon !in ls
    ensures var s := After(life, Start(), ls);
      s.driver.Idle? ==>
        && s.given == Replies(s.heard)
        && match life(s.heard)
           case Finish(out) => s.outcome == Some(out) && s.pending == None
           case Sign(message) => s.outcome == None && s.pending == Some(HostCall(Some(message), None))
           case Fetch(body) => s.outcome == None && s.pending == Some(HostCall(None, Some(body)))
  {
    assert Inv(life, Start());
    InvAfter(life, Start(), ls);
  }

  /** With no context ending at all, what was heard is exactly what was given: the session is a
      function of the replies, whatever the schedule. */
  lemma {:induction false} HeardIsGiven<T>(life: Lifecycle<T>, s: State<T>, ls: seq<Label>)
    requires Schedule(life, s, ls) && Abandon !in ls && Withdraw !in ls
    requires CtxEnded !in s.heard
    ensures CtxEnded !in After(life, s, ls).heard
    decreases |ls|
  {
    if ls != [] { HeardIsGiven(life, Next(life, s, ls[0]), ls[1..]); }
  }

  lemma {:induction false} RepliesDetermine(h: seq<Heard>, h': seq<Heard>)
    requires CtxEnded !in h && CtxEnded !in h' && Replies(h) == Replies(h')
    ensures h == h'
  {
    RepliesCount(h);
    RepliesCount(h');
    if h != [] {
      var p, p', n := h[..|h| - 1], h'[..|h'| - 1], |h| - 1;
      RepliesCount(p);
      RepliesCount(p');
      assert Replies(h)[..n] == Replies(p) && Replies(h')[..n] == Replies(p');
      RepliesDetermine(p, p');
      assert Replies(h)[n] == h[n].r && Replies(h')[n] == h'[n].r;
      assert h == p + [h[n]] && h' == p' + [h'[n]];
    }
  }

  lemma {:induction false} RepliesCount(h: seq<Heard>)
    requires CtxEnded !in h
    ensures |Replies(h)| == |h|
    ensures h != [] ==> Replies(h) == Replies(h[..|h| - 1]) + [h[|h| - 1].r]
  {
    if h != [] { RepliesCount(h[..|h| - 1]); }
  }

  /** Two schedules that gave the same replies leave the session showing the same thing. */
  lemma ScheduleDoesNotMatter<T>(life: Lifecycle<T>, ls: seq<Label>, ls': seq<Label>)
    requires Schedule(life, Start(), ls) && Abandon !in ls && Withdraw !in ls
    requires Schedule(life, Start(), ls') && Abandon !in ls' && Withdraw !in ls'
    requires After(life, Start(), ls).driver.Idle? && After(life, Start(), ls').driver.Idle?
    requires After(life, Start(), ls).given == After(life, Start(), ls').given
    ensures After(life, Start(), ls).pending == After(life, Start(), ls').pending
    ensures After(life, Start(), ls).outcome == After(life, Start(), ls').outcome
  {
    hide Replies;
    DrivenRefinesDirect(life, ls);
    DrivenRefinesDirect(life, ls');
    HeardIsGiven(life, Start(), ls);
    HeardIsGiven(life, Start(), ls');
    RepliesDetermine(After(life, Start(), ls).heard, After(life, Start(), ls').heard);
  }

  /** A reply that is accepted is heard next, exactly once: when the driver is idle again the
      lifecycle has heard what it had heard before, and then the reply. */
  lemma AdvanceIsHeard<T>(life: Lifecycle<T>, s: State<T>, r: HostReply, ls: seq<Label>)
    requires s.driver.Idle? && s.pending.Some? && s.outcome.None?
    requires Schedule(life, Next(life, s, Advance(r)), ls) && forall i | 0 <= i < |ls| :: Internal(ls[i])
    requires After(life, Next(life, s, Advance(r)), ls).driver.Idle?
    ensures After(life, Next(life, s, Advance(r)), ls).heard == s.heard + [Reply(r)]
  {
    HeardOnce(life, Next(life, s, Advance(r)), ls, s.heard, r);
  }

  ghost predicate HearsOnce<T>(s: State<T>, h: seq<Heard>, r: HostReply) {
    if s.driver.Delivering? then s.driver.r == r && s.heard == h else s.heard == h + [Reply(r)]
  }

  lemma {:induction false} HeardOnce<T>(life: Lifecycle<T>, s: State<T>, ls: seq<Label>, h: seq<Heard>, r: HostReply)
    requires HearsOnce(s, h, r)
    requires Schedule(life, s, ls) && forall i | 0 <= i < |ls| :: Internal(ls[i])
    ensures HearsOnce(After(life, s, ls), h, r)
    decreases |ls|
  {
    if ls != [] {
      assert Internal(ls[0]);
      HeardOnce(life, Next(life, s, ls[0]), ls[1..], h, r);
    }
  }

  // ----- neither process gets stuck

  /** Steps left until the driver's public call returns. */
  function Remaining<T>(s: State<T>): nat {
    if s.driver.Idle? then 0
    else if s.driver.Delivering? then 3
    else if s.proc.Computing? then 2 else 1
  }

  predicate Internal(l: Label) { l.Compute? || l.Meet? || l.Collect? || l.Deliver? }

  /** While a public call is in progress some internal step is enabled, and every internal step
      brings its return one step nearer: it returns after at most three. */
  lemma PublicCallsReturn<T>(life: Lifecycle<T>, s: State<T>)
    requires Inv(life, s) && !s.driver.Idle?
    ensures exists l :: Internal(l) && Enabled(s, l)
    ensures forall l | Internal(l) && Enabled(s, l) :: Remaining(Next(life, s, l)) == Remaining(s) - 1
  {
    assert Internal(Compute) && Internal(Meet) && Internal(Collect) && Internal(Deliver);
    if s.driver.Delivering? {
      assert Enabled(s, Deliver);
    } else if s.proc.Computing? {
      assert Enabled(s, Compute);
    } else if s.proc.Offering? {
      assert Enabled(s, Meet);
    } else {
      assert Enabled(s, Collect);
    }
  }

  /** A set outcome is final. */
  lemma OutcomeIsFinal<T>(life: Lifecycle<T>, s: State<T>, l: Label)
    requires Inv(life, s) && s.outcome.Some? && Enabled(s, l)
    ensures Next(life, s, l) == s
  {
  }

  // ----- when a context ends during an outstanding call

  /** The regime the claims above exclude: the goroutine has given up on a call the session still
      lists as pending. Then Advance never returns, whatever happens next. */
  ghost predicate Lost<T>(s: State<T>) { s.driver.Delivering? && !s.proc.Awaiting? }

  lemma {:induction false} LostForever<T>(life: Lifecycle<T>, s: State<T>, ls: seq<Label>)
    requires Lost(s) && Schedule(life, s, ls)
    ensures Lost(After(life, s, ls))
    decreases |ls|
  {
    if ls != [] { LostForever(life, Next(life, s, ls[0]), ls[1..]); }
  }

  /** The public call in progress can still return. */
  ghost predicate CanReturn<T>(life: Lifecycle<T>, s: State<T>) {
    exists ms :: Schedule(life, s, ms) && (forall i | 0 <= i < |ms| :: Internal(ms[i]))
      && After(life, s, ms).driver.Idle?
  }

  lemma CanReturnStep<T>(life: Lifecycle<T>, s: State<T>, l: Label)
    requires Internal(l) && Enabled(s, l) && CanReturn(life, Next(life, s, l))
    ensures CanReturn(life, s)
  {
    var s' := Next(life, s, l);
    var ms :| Schedule(life, s', ms) && (forall i | 0 <= i < |ms| :: Internal(ms[i]))
      && After(life, s', ms).driver.Idle?;
    var all := [l] + ms;
    assert all[1..] == ms;
    assert Schedule(life, s, all) && After(life, s, all) == After(life, s', ms);
  }

  lemma IdleReturns<T>(life: Lifecycle<T>, s: State<T>)
    requires s.driver.Idle?
    ensures CanReturn(life, s)
  {
    assert Schedule(life, s, []) && After(life, s, []) == s;
  }

  /** A parked driver gets its call or its result. */
  lemma ParkedReturns<T>(life: Lifecycle<T>, s: State<T>)
    requires s.driver.Parked? && (s.proc.Computing? || s.proc.Offering? || s.doneCh.Some?)
    ensures CanReturn(life, s)
    decreases s.proc.Computing?
  {
    hide CanReturn;
    if s.doneCh.Some? {
      IdleReturns(life, Next(life, s, Collect));
      CanReturnStep(life, s, Collect);
    } else if s.proc.Offering? {
      IdleReturns(life, Next(life, s, Meet));
      CanReturnStep(life, s, Meet);
    } else {
      ParkedReturns(life, Next(life, s, Compute));
      CanReturnStep(life, s, Compute);
    }
  }

  /** From any state with a pending call, some continuation of Advance returns exactly when the
      goroutine is still waiting for that call's reply. */
  lemma AdvanceReturnsIffAwaited<T>(life: Lifecycle<T>, s: State<T>, r: HostReply)
    requires s.driver.Idle? && s.pending.Some? && s.outcome.None?
    ensures CanReturn(life, Next(life, s, Advance(r))) <==> s.proc.Awaiting?
  {
    var s1 := Next(life, s, Advance(r));
    if s.proc.Awaiting? {
      ParkedReturns(life, Next(life, s1, Deliver));
      CanReturnStep(life, s1, Deliver);
    } else {
      forall ms | Schedule(life, s1, ms) ensures !After(life, s1, ms).driver.Idle? {
        LostForever(life, s1, ms);
      }
    }
  }

  // ----- what every run keeps, with contexts ending anywhere

  /** A pending call is the one the goroutine waits on, unless it was a fetch and has been given up. */
  ghost predicate Loose<T>(s: State<T>) {
    && (s.proc.Offering? || s.proc.Awaiting? ==> OneSided(s.proc.call))
    && (s.pending.Some? ==> s.driver.Idle? && s.outcome.None? && OneSided(s.pending.value))
    && (s.pending.Some? && s.proc.Awaiting? ==> s.pending == Some(s.proc.call))
    && (s.pending.Some? && s.pending.value.sign.Some? ==> s.proc.Awaiting?)
    && (s.driver.Idle? ==> s.pending.Some? || s.outcome.Some?)
    && (s.driver.Parked? ==> !s.proc.Awaiting? && (s.proc.Exited? ==> s.doneCh.Some?))
    && (s.doneCh.Some? || s.outcome.Some? ==> s.proc.Exited?)
  }

  lemma {:induction false} LooseAfter<T>(life: Lifecycle<T>, s: State<T>, ls: seq<Label>)
    requires Loose(s) && Schedule(life, s, ls)
    ensures Loose(After(life, s, ls))
    decreases |ls|
  {
    if ls != [] { LooseAfter(life, Next(life, s, ls[0]), ls[1..]); }
  }

  /** The call in progress can still return exactly when its reply has not been orphaned. */
  lemma CanReturnIffNotLost<T>(life: Lifecycle<T>, s: State<T>)
    requires Loose(s)
    ensures CanReturn(life, s) <==> !Lost(s)
  {
    if Lost(s) {
      forall ms | Schedule(life, s, ms) ensures !After(life, s, ms).driver.Idle? { LostForever(life, s, ms); }
    } else if s.driver.Idle? {
      IdleReturns(life, s);
    } else if s.driver.Parked? {
      ParkedReturns(life, s);
    } else {
      ParkedReturns(life, Next(life, s, Deliver));
      CanReturnStep(life, s, Deliver);
    }
  }

  ghost predicate NoAdvance(ms: seq<Label>) { forall i | 0 <= i < |ms| :: !ms[i].Advance? }

  /** An accepted signature: nothing can keep it from being delivered. */
  ghost predicate SignInHand<T>(s: State<T>) {
    if s.driver.Delivering? then s.proc.Awaiting? && s.proc.call.fetch.None? else true
  }

  lemma {:induction false} SignIsNeverLost<T>(life: Lifecycle<T>, s: State<T>, ms: seq<Label>)
    requires SignInHand(s) && Schedule(life, s, ms) && NoAdvance(ms)
    ensures !Lost(After(life, s, ms))
    decreases |ms|
  {
    if ms != [] {
      assert !ms[0].Advance?;
      SignIsNeverLost(life, Next(life, s, ms[0]), ms[1..]);
    }
  }

  /** The exact condition, which a caller reads off Pending before it calls Advance. In every run,
      with contexts ending anywhere: Advance can always still return, whatever happens meanwhile, if
      and only if the pending call is a signature request. A pending fetch can be given up before or
      during the call. */
  lemma AdvanceIsSafeIffSigning<T>(life: Lifecycle<T>, ls: seq<Label>, r: HostReply)
    requires Schedule(life, Start(), ls)
    requires After(life, Start(), ls).driver.Idle? && After(life, Start(), ls).pending.Some?
    ensures var s := After(life, Start(), ls);
      var s1 := Next(life, s, Advance(r));
      (forall ms | Schedule(life, s1, ms) && NoAdvance(ms) :: CanReturn(life, After(life, s1, ms)))
      <==> s.pending.value.sign.Some?
  {
    hide CanReturn;
    LooseAfter(life, Start(), ls);
    var s := After(life, Start(), ls);
    var s1 := Next(life, s, Advance(r));
    if s.pending.value.sign.Some? {
      forall ms | Schedule(life, s1, ms) && NoAdvance(ms) ensures CanReturn(life, After(life, s1, ms)) {
        SignIsNeverLost(life, s1, ms);
        LooseAfter(life, s1, ms);
        CanReturnIffNotLost(life, After(life, s1, ms));
      }
    } else {
      FetchCanBeLost(life, s1);
    }
  }

  /** A reply to a fetch, still on its way, can be orphaned in at most one step. */
  lemma FetchCanBeLost<T>(life: Lifecycle<T>, s: State<T>)
    requires Loose(s) && s.driver.Delivering? && (s.proc.Awaiting? ==> s.proc.call.fetch.Some?)
    ensures exists ms :: Schedule(life, s, ms) && NoAdvance(ms) && !CanReturn(life, After(life, s, ms))
  {
    hide CanReturn;
    if s.proc.Awaiting? {
      var s' := Next(life, s, Abandon);
      assert [Abandon][1..] == [];
      assert Schedule(life, s', []) && After(life, s', []) == s';
      assert Schedule(life, s, [Abandon]) && After(life, s, [Abandon]) == s';
      CanReturnIffNotLost(life, s');
    } else {
      assert Schedule(life, s, []) && After(life, s, []) == s;
      CanReturnIffNotLost(life, s);
    }
  }

  /** Such a state is reachable for every lifecycle that begins with a fetch. */
  lemma AbandonedCallIsReachable<T>(life: Lifecycle<T>)
    requires life([]).Fetch?
    ensures var ls := [Compute, Meet, Abandon];
      Schedule(life, Start(), ls)
      && var s := After(life, Start(), ls);
         s.driver.Idle? && s.pending.Some? && s.outcome.None? && !s.proc.Awaiting?
  {
    var ls := [Compute, Meet, Abandon];
    var s0: State<T> := Start();
    var s1 := Next(life, s0, Compute);
    var s2 := Next(life, s1, Meet);
    var s3 := Next(life, s2, Abandon);
    assert ls[1..] == [Meet, Abandon] && ls[1..][1..] == [Abandon] && [Abandon][1..] == [];
    assert Schedule(life, s3, []) && After(life, s3, []) == s3;
    assert Schedule(life, s2, [Abandon]) && After(life, s2, [Abandon]) == s3;
    assert Schedule(life, s1, [Meet, Abandon]) && After(life, s1, [Meet, Abandon]) == s3;
  }
}
