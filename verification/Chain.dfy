/** The chain as one transaction experiences it. The block height only rises; the transaction can
    land only while the height has not passed its last valid block height; a landing that is not
    finalized may be forked out; finality is permanent. */
module Chain {
  datatype Level = Processed | Confirmed

  datatype TxState = Absent | Seen(level: Level, failed: bool) | Final(failed: bool)

  /** submitted: the signed transaction has left the process, so it may land at any time the
      window allows, whatever the submit call reported. */
  datatype Chain = Chain(height: nat, lastValid: nat, submitted: bool, tx: TxState)

  datatype Event = Rise(blocks: nat) | Land(failed: bool) | Confirm | Finalize | ForkOut

  function Step(c: Chain, e: Event): Chain {
    match e
    case Rise(n) => c.(height := c.height + n)
    case Land(failed) =>
      if c.tx.Absent? && c.submitted && c.height <= c.lastValid then c.(tx := Seen(Processed, failed)) else c
    case Confirm => if c.tx.Seen? then c.(tx := Seen(Confirmed, c.tx.failed)) else c
    case Finalize => if c.tx.Seen? then c.(tx := Final(c.tx.failed)) else c
    case ForkOut => if c.tx.Seen? then c.(tx := Absent) else c
  }

  function Run(c: Chain, es: seq<Event>): Chain
    decreases |es|
  {
    if es == [] then c else Run(Step(c, es[0]), es[1..])
  }

  ghost predicate Reaches(c: Chain, c': Chain) { exists es :: Run(c, es) == c' }

  lemma {:induction false} RunConcat(c: Chain, es: seq<Event>, fs: seq<Event>)
    ensures Run(c, es + fs) == Run(Run(c, es), fs)
    decreases |es|
  {
    if es == [] {
      assert es + fs == fs;
    } else {
      assert (es + fs)[0] == es[0] && (es + fs)[1..] == es[1..] + fs;
      RunConcat(Step(c, es[0]), es[1..], fs);
    }
  }

  lemma ReachesRefl(c: Chain)
    ensures Reaches(c, c)
  {
    assert Run(c, []) == c;
  }

  lemma ReachesTrans(a: Chain, b: Chain, c: Chain)
    requires Reaches(a, b) && Reaches(b, c)
    ensures Reaches(a, c)
  {
    var es :| Run(a, es) == b;
    var fs :| Run(b, fs) == c;
    RunConcat(a, es, fs);
  }

  lemma ReachesStep(a: Chain, b: Chain, e: Event)
    requires Reaches(a, b)
    ensures Reaches(a, Step(b, e))
  {
    assert Run(b, [e]) == Step(b, e);
    ReachesTrans(a, b, Step(b, e));
  }

  /** What every run keeps. */
  lemma {:induction false} RunKeeps(c: Chain, es: seq<Event>)
    ensures var d := Run(c, es);
      && d.height >= c.height && d.lastValid == c.lastValid && d.submitted == c.submitted
      && (c.tx.Final? ==> d.tx == c.tx)
      && (c.tx.Absent? && (!c.submitted || c.height > c.lastValid) ==> d.tx.Absent?)
    decreases |es|
  {
    if es != [] { RunKeeps(Step(c, es[0]), es[1..]); }
  }

  lemma ReachesKeeps(c: Chain, d: Chain)
    requires Reaches(c, d)
    ensures d.height >= c.height && d.lastValid == c.lastValid && d.submitted == c.submitted
    ensures c.tx.Final? ==> d.tx == c.tx
    ensures c.tx.Absent? && !c.submitted ==> d.tx.Absent?
  {
    var es :| Run(c, es) == d;
    RunKeeps(c, es);
  }

  /** Several transactions, each moving on. */
  ghost predicate AllReach(a: seq<Chain>, b: seq<Chain>) {
    |a| == |b| && forall i | 0 <= i < |a| :: Reaches(a[i], b[i])
  }

  lemma AllReachRefl(a: seq<Chain>)
    ensures AllReach(a, a)
  {
    hide Reaches;
    forall i | 0 <= i < |a| ensures Reaches(a[i], a[i]) { ReachesRefl(a[i]); }
  }

  lemma AllReachTrans(a: seq<Chain>, b: seq<Chain>, c: seq<Chain>)
    requires AllReach(a, b) && AllReach(b, c)
    ensures AllReach(a, c)
  {
    hide Reaches;
    forall i | 0 <= i < |a| ensures Reaches(a[i], c[i]) { ReachesTrans(a[i], b[i], c[i]); }
  }

  lemma AllReachStep(a: seq<Chain>, b: seq<Chain>, i: nat, e: Event)
    requires AllReach(a, b) && i < |b|
    ensures AllReach(a, b[i := Step(b[i], e)])
  {
    hide Reaches, Step;
    ReachesStep(a[i], b[i], e);
  }

  /** The transaction in hand, and the ones before it, at a later time. */
  ghost predicate Later(c: Chain, past: seq<Chain>, c': Chain, past': seq<Chain>) {
    Reaches(c, c') && AllReach(past, past')
  }

  lemma LaterRefl(c: Chain, past: seq<Chain>)
    ensures Later(c, past, c, past)
  {
    ReachesRefl(c);
    AllReachRefl(past);
  }

  lemma LaterTrans(a: Chain, pa: seq<Chain>, b: Chain, pb: seq<Chain>, c: Chain, pc: seq<Chain>)
    requires Later(a, pa, b, pb) && Later(b, pb, c, pc)
    ensures Later(a, pa, c, pc)
  {
    hide Reaches, AllReach;
    ReachesTrans(a, b, c);
    AllReachTrans(pa, pb, pc);
  }

  lemma LaterKeeps(c: Chain, past: seq<Chain>, d: Chain, past': seq<Chain>)
    requires Later(c, past, d, past')
    ensures d.height >= c.height && d.lastValid == c.lastValid && d.submitted == c.submitted && AllReach(past, past')
    ensures c.tx.Final? ==> d.tx == c.tx
    ensures c.tx.Absent? && !c.submitted ==> d.tx.Absent?
  {
    hide Reaches, AllReach;
    ReachesKeeps(c, d);
  }

  /** The transaction is not on the chain and never will be. */
  ghost predicate NeverLands(c: Chain) { forall es :: Run(c, es).tx.Absent? }

  /** Exactly when: it is absent now, and either it was never submitted or its window is over. */
  lemma NeverLandsIff(c: Chain)
    ensures NeverLands(c) <==> c.tx.Absent? && (!c.submitted || c.height > c.lastValid)
  {
    assert Run(c, []).tx == c.tx;
    assert Run(c, [Land(false)]) == Step(c, Land(false));
    if c.tx.Absent? && (!c.submitted || c.height > c.lastValid) {
      forall es ensures Run(c, es).tx.Absent? { RunKeeps(c, es); }
    }
  }

  /** The transaction is on the chain, unfailed, and nothing can undo it. */
  ghost predicate LandedForGood(c: Chain) { forall es :: Run(c, es).tx == Final(false) }

  /** Exactly when: it is finalized. A landing that is only confirmed can still be forked out. */
  lemma LandedForGoodIff(c: Chain)
    ensures LandedForGood(c) <==> c.tx == Final(false)
  {
    assert Run(c, []) == c;
    if c.tx == Final(false) {
      forall es ensures Run(c, es).tx == Final(false) { RunKeeps(c, es); }
    }
  }

  /** Taking a confirmed landing for a permanent one would be wrong: from every one of them there is a
      run after which the transaction never lands. */
  lemma ConfirmedProvesNothing(c: Chain)
    requires c.tx.Seen?
    ensures exists d :: Reaches(c, d) && NeverLands(d)
  {
    var c1 := Step(c, ForkOut);
    var c2 := Step(c1, Rise(c.lastValid + 1));
    ReachesRefl(c);
    ReachesStep(c, c, ForkOut);
    ReachesStep(c, c1, Rise(c.lastValid + 1));
    NeverLandsIff(c2);
  }

  lemma NeverLandsStays(c: Chain, d: Chain)
    requires NeverLands(c) && Reaches(c, d)
    ensures NeverLands(d)
  {
    var es :| Run(c, es) == d;
    forall fs ensures Run(d, fs).tx.Absent? { RunConcat(c, es, fs); }
  }

  /** A not-found answer taken after a height past the window settles the matter, however the
      chain moved between the two reads. */
  lemma AbsentAfterWindow(atHeight: Chain, atStatus: Chain)
    requires Reaches(atHeight, atStatus) && atHeight.height > atHeight.lastValid && atStatus.tx.Absent?
    ensures NeverLands(atStatus)
  {
    ReachesKeeps(atHeight, atStatus);
    NeverLandsIff(atStatus);
  }

  /** A not-found answer taken before the height read does not: for every window there is a run
      in which the transaction lands, and is finalized, between the two. */
  lemma AbsentBeforeWindowProvesNothing(lastValid: nat)
    ensures exists atStatus: Chain, atHeight: Chain ::
      && atStatus.tx.Absent? && atStatus.submitted && atStatus.lastValid == lastValid
      && Reaches(atStatus, atHeight) && atHeight.height > lastValid && atHeight.tx == Final(false)
  {
    var c := Chain(0, lastValid, true, Absent);
    var es := [Land(false), Finalize, Rise(lastValid + 1)];
    var c1 := Step(c, es[0]);
    var c2 := Step(c1, es[1]);
    var c3 := Step(c2, es[2]);
    assert Run(c2, [es[2]]) == c3;
    assert es[1..] == [es[1], es[2]] && [es[1], es[2]][1..] == [es[2]];
    assert Run(c1, es[1..]) == c3;
    assert Run(c, es) == c3;
    assert Reaches(c, c3);
  }
}
