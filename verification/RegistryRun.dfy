/** Whole runs of a tool service of cmd/token/main.go: any sequence of tool calls against a registry
    that starts empty. */
module RegistryRun {
  import opened Basics
  import opened Session
  import opened Registry

  type Base64 = string -> Option<seq<Byte>>

  /** The replies among these calls that answer one session, in order. */
  ghost function Given<T>(calls: seq<Request<T>>, id: string, base64: Base64): seq<Heard> {
    if calls == [] then []
    else
      var last := calls[|calls| - 1];
      Given(calls[..|calls| - 1], id, base64)
      + if last.Resume? && last.id == id && ReplyOf(last.args, base64).Some?
        then [Reply(ReplyOf(last.args, base64).value)] else []
  }

  /** The first n responses contain the completion of a session begun at call k. */
  ghost predicate Ended<T>(calls: seq<Request<T>>, responses: seq<Response<T>>, k: nat, n: nat, id: string)
    requires n <= |calls| && n <= |responses|
  {
    exists j | k < j < n :: calls[j].Resume? && calls[j].id == id && responses[j].Completed?
  }

  /** After n calls, the session that call k began has been handed out under this id and has not
      completed. */
  ghost predicate Running<T>(calls: seq<Request<T>>, responses: seq<Response<T>>, k: nat, n: nat, id: string)
    requires n <= |calls| && n <= |responses|
  {
    && k < n && calls[k].Begin? && calls[k].life.Some? && responses[k].AwaitHost? && responses[k].id == id
    && !Ended(calls, responses, k, n, id)
  }

  /** Running its lifecycle directly on the answers given to it so far. */
  ghost function Direct<T>(calls: seq<Request<T>>, k: nat, n: nat, id: string, base64: Base64): Driven<T>
    requires k < n <= |calls| && calls[k].Begin? && calls[k].life.Some?
  {
    Park(calls[k].life.value, Given(calls[k + 1..n], id, base64))
  }

  /** What call i must be answered, said without a registry: a call for a running session shows
      where that session's lifecycle is when run directly on all the answers given to it. */
  ghost predicate Right<T>(calls: seq<Request<T>>, responses: seq<Response<T>>, i: nat, base64: Base64)
    requires i < |calls| && i < |responses|
  {
    match calls[i]
    case Malformed => responses[i] == BadInput
    case Begin(None) => responses[i] == BadInput
    case Begin(Some(life)) => Shows(responses[i], Park(life, []))
    case Resume(id, args) =>
      if !exists k :: Running(calls, responses, k, i, id) then responses[i] == UnknownSession
      else if ReplyOf(args, base64) == None then responses[i] == BadAnswer
      else exists k :: Running(calls, responses, k, i, id) && Shows(responses[i], Direct(calls, k, i + 1, id, base64))
                       && (responses[i].AwaitHost? ==> responses[i].id == id)
  }

  /** The registry holds exactly the running sessions, each where its direct run is. */
  ghost predicate Tracked<T>(calls: seq<Request<T>>, responses: seq<Response<T>>, n: nat,
                             sessions: map<string, Driven<T>>, base64: Base64)
    requires n <= |calls| && n <= |responses|
  {
    && (forall id | id in sessions :: exists k :: Running(calls, responses, k, n, id))
    && (forall k: nat, id | Running(calls, responses, k, n, id) :: Placed(calls, k, n, id, sessions, base64))
  }

  ghost predicate Placed<T>(calls: seq<Request<T>>, k: nat, n: nat, id: string, sessions: map<string, Driven<T>>,
                            base64: Base64)
    requires n <= |calls|
  {
    && k < n && calls[k].Begin? && calls[k].life.Some?
    && id in sessions && sessions[id] == Direct(calls, k, n, id, base64)
  }

  lemma GivenNext<T>(calls: seq<Request<T>>, k: nat, n: nat, id: string, base64: Base64)
    requires k < n < |calls|
    ensures var q := calls[n];
      Given(calls[k + 1..n + 1], id, base64) == Given(calls[k + 1..n], id, base64)
      + if q.Resume? && q.id == id && ReplyOf(q.args, base64).Some? then [Reply(ReplyOf(q.args, base64).value)] else []
  {
    hide ReplyOf;
    var s := calls[k + 1..n + 1];
    assert s[..|s| - 1] == calls[k + 1..n] && s[|s| - 1] == calls[n];
  }

  /** A session is running after one more call exactly when it was before and this call did not
      complete it, or this call began it. */
  lemma RunningNext<T>(calls: seq<Request<T>>, responses: seq<Response<T>>, resp: Response<T>, k: nat, n: nat,
                       id: string)
    requires n == |responses| < |calls|
    ensures Running(calls, responses + [resp], k, n + 1, id) <==>
      if k == n then calls[n].Begin? && calls[n].life.Some? && resp.AwaitHost? && resp.id == id
      else Running(calls, responses, k, n, id) && !(calls[n].Resume? && calls[n].id == id && resp.Completed?)
  {
    var all := responses + [resp];
    if k < n {
      if Ended(calls, all, k, n + 1, id) {
        var j :| k < j < n + 1 && calls[j].Resume? && calls[j].id == id && all[j].Completed?;
        assert j == n || Ended(calls, responses, k, n, id);
      }
      if Ended(calls, responses, k, n, id) {
        var j :| k < j < n && calls[j].Resume? && calls[j].id == id && responses[j].Completed?;
        assert all[j].Completed?;
      }
      if calls[n].Resume? && calls[n].id == id && resp.Completed? { assert all[n].Completed?; }
    }
  }

  lemma PlacedNext<T>(calls: seq<Request<T>>, responses: seq<Response<T>>, resp: Response<T>, k: nat, id: string,
                      before: map<string, Driven<T>>, after: map<string, Driven<T>>, base64: Base64)
    requires |responses| < |calls| && Tracked(calls, responses, |responses|, before, base64)
    requires Stepped(calls[|responses|], base64, before, after, resp)
    requires Running(calls, responses + [resp], k, |responses| + 1, id)
    ensures Placed(calls, k, |responses| + 1, id, after, base64)
  {
    hide ReplyOf, Given, Running;
    var n := |responses|;
    RunningNext(calls, responses, resp, k, n, id);
    RunningBegan(calls, responses + [resp], k, n + 1, id);
    if k < n {
      assert Placed(calls, k, n, id, before, base64);
      GivenNext(calls, k, n, id, base64);
      var was := Given(calls[k + 1..n], id, base64);
      assert before[id].heard == was && was + [] == was;
      match calls[n] {
        case Resume(other, args) =>
          if other == id && ReplyOf(args, base64).Some? {
            assert after[id] == Direct(calls, k, n + 1, id, base64);
          } else {
            assert after[id] == before[id];
          }
        case _ => assert after[id] == before[id];
      }
    } else {
      assert calls[n + 1..n + 1] == [];
      GivenNothing<T>(id, base64);
    }
  }

  lemma StillRunning<T>(calls: seq<Request<T>>, responses: seq<Response<T>>, resp: Response<T>, id: string,
                        before: map<string, Driven<T>>, after: map<string, Driven<T>>, base64: Base64)
    returns (k: nat)
    requires |responses| < |calls| && Tracked(calls, responses, |responses|, before, base64)
    requires Stepped(calls[|responses|], base64, before, after, resp) && id in after
    ensures Running(calls, responses + [resp], k, |responses| + 1, id)
  {
    hide ReplyOf, Given, Running;
    var n := |responses|;
    k := n;
    if id in before {
      k :| Running(calls, responses, k, n, id);
      RunningBegan(calls, responses, k, n, id);
    }
    RunningNext(calls, responses, resp, k, n, id);
  }

  /** The registry after one call, from the registry before it. */
  lemma TrackedNext<T>(calls: seq<Request<T>>, responses: seq<Response<T>>, resp: Response<T>,
                       before: map<string, Driven<T>>, after: map<string, Driven<T>>, base64: Base64)
    requires |responses| < |calls| && Tracked(calls, responses, |responses|, before, base64)
    requires Stepped(calls[|responses|], base64, before, after, resp)
    ensures Tracked(calls, responses + [resp], |responses| + 1, after, base64)
  {
    hide Stepped, Running, Placed;
    var n, all := |responses| + 1, responses + [resp];
    forall k: nat, id | Running(calls, all, k, n, id) ensures Placed(calls, k, n, id, after, base64) {
      PlacedNext(calls, responses, resp, k, id, before, after, base64);
    }
    forall id | id in after ensures exists k: nat :: Running(calls, all, k, n, id) {
      var k := StillRunning(calls, responses, resp, id, before, after, base64);
    }
  }

  lemma GivenNothing<T>(id: string, base64: Base64)
    ensures Given<T>([], id, base64) == []
  {
  }

  lemma RunningBegan<T>(calls: seq<Request<T>>, responses: seq<Response<T>>, k: nat, n: nat, id: string)
    requires n <= |calls| && n <= |responses| && Running(calls, responses, k, n, id)
    ensures k < n && calls[k].Begin? && calls[k].life.Some?
  {
  }

  /** Later responses do not change what was running earlier. */
  lemma RunningStable<T>(calls: seq<Request<T>>, responses: seq<Response<T>>, more: seq<Response<T>>, k: nat, n: nat,
                         id: string)
    requires n <= |calls| && n <= |responses|
    ensures Running(calls, responses, k, n, id) <==> Running(calls, responses + more, k, n, id)
  {
    var all := responses + more;
    if k < n {
      if Ended(calls, all, k, n, id) {
        var j :| k < j < n && calls[j].Resume? && calls[j].id == id && all[j].Completed?;
        assert responses[j].Completed?;
      }
      if Ended(calls, responses, k, n, id) {
        var j :| k < j < n && calls[j].Resume? && calls[j].id == id && responses[j].Completed?;
        assert all[j].Completed?;
      }
    }
  }

  lemma RightStable<T>(calls: seq<Request<T>>, responses: seq<Response<T>>, resp: Response<T>, i: nat, base64: Base64)
    requires i < |calls| && i < |responses| && Right(calls, responses, i, base64)
    ensures Right(calls, responses + [resp], i, base64)
  {
    hide ReplyOf, Running, Given, Shows;
    var all := responses + [resp];
    if calls[i].Resume? {
      var id := calls[i].id;
      forall k ensures Running(calls, responses, k, i, id) <==> Running(calls, all, k, i, id) {
        RunningStable(calls, responses, [resp], k, i, id);
      }
    }
  }

  lemma RightNext<T>(calls: seq<Request<T>>, responses: seq<Response<T>>, resp: Response<T>,
                     before: map<string, Driven<T>>, after: map<string, Driven<T>>, base64: Base64)
    requires |responses| < |calls| && Tracked(calls, responses, |responses|, before, base64)
    requires Stepped(calls[|responses|], base64, before, after, resp)
    ensures Right(calls, responses + [resp], |responses|, base64)
  {
    hide ReplyOf, Running, Given;
    var n, all := |responses|, responses + [resp];
    var q := calls[n];
    if q.Resume? {
      forall k ensures Running(calls, responses, k, n, q.id) <==> Running(calls, all, k, n, q.id) {
        RunningStable(calls, responses, [resp], k, n, q.id);
      }
      if q.id in before && ReplyOf(q.args, base64).Some? {
        var k :| Running(calls, responses, k, n, q.id);
        assert Placed(calls, k, n, q.id, before, base64);
        GivenNext(calls, k, n, q.id, base64);
        assert Running(calls, all, k, n, q.id);
        assert Shows(all[n], Direct(calls, k, n + 1, q.id, base64));
      }
    }
  }

  // ----- the run

  ghost predicate Unbroken<T>(resp: Response<T>) {
    !resp.AdvanceFailed? && !resp.NeitherDoneNorAwaiting? && !resp.EmptyHostCall?
  }

  ghost predicate Sound<T>(calls: seq<Request<T>>, responses: seq<Response<T>>, base64: Base64) {
    && |responses| <= |calls|
    && (forall i | 0 <= i < |responses| :: Unbroken(responses[i]))
    && (|calls| < TWO_64 ==> forall i, j | 0 <= i < j < |responses| :: !SameId(calls, responses, i, j))
    && (|calls| < TWO_64 ==> forall i | 0 <= i < |responses| :: Right(calls, responses, i, base64))
  }

  lemma SoundNext<T>(calls: seq<Request<T>>, responses: seq<Response<T>>, resp: Response<T>, base64: Base64)
    requires |responses| < |calls| && Sound(calls, responses, base64) && Unbroken(resp)
    requires |calls| < TWO_64 ==> Right(calls, responses + [resp], |responses|, base64)
    requires |calls| < TWO_64 ==> forall i | 0 <= i < |responses| :: !SameId(calls, responses + [resp], i, |responses|)
    ensures Sound(calls, responses + [resp], base64)
  {
    hide Right;
    var all := responses + [resp];
    if |calls| < TWO_64 {
      forall i | 0 <= i < |responses|
        ensures Right(calls, all, i, base64) { RightStable(calls, responses, resp, i, base64); }
      forall i, j | 0 <= i < j < |all| ensures !SameId(calls, all, i, j) {
        if j < |responses| { assert !SameId(calls, responses, i, j); }
      }
    }
  }

  ghost predicate Handed<T>(svc: Service<T>, calls: seq<Request<T>>, responses: seq<Response<T>>)
    requires |responses| <= |calls|
    reads svc
  {
    forall i | 0 <= i < |responses| && calls[i].Begin? && responses[i].AwaitHost? :: svc.Issued(responses[i].id)
  }

  /** One turn of the message loop. */
  method ServeOne<T>(svc: Service<T>, calls: seq<Request<T>>, responses: seq<Response<T>>, base64: Base64)
    returns (resp: Response<T>)
    requires |responses| < |calls| && svc.Valid() && svc.stores <= |responses|
    requires Sound(calls, responses, base64) && Handed(svc, calls, responses)
    requires |calls| < TWO_64 ==> Tracked(calls, responses, |responses|, svc.sessions, base64)
    modifies svc
    ensures svc.Valid() && svc.stores <= |responses| + 1
    ensures Sound(calls, responses + [resp], base64) && Handed(svc, calls, responses + [resp])
    ensures |calls| < TWO_64 ==> Tracked(calls, responses + [resp], |responses| + 1, svc.sessions, base64)
  {
    hide Right, Tracked, Stepped, Shows, Park, Sound, svc.Valid, svc.Issued;
    ghost var before := svc.sessions;
    resp := svc.Handle(calls[|responses|], base64);
    if |calls| < TWO_64 {
      TrackedNext(calls, responses, resp, before, svc.sessions, base64);
      RightNext(calls, responses, resp, before, svc.sessions, base64);
    }
    SoundNext(calls, responses, resp, base64);
  }

  /** Any sequence of tool calls. No response ever reports a broken session; and until 2^64 sessions
      have been begun, no two are handed out under the same id and every response is the one a
      direct run of the lifecycle calls for. */
  method ServeCalls<T>(prefix: string, calls: seq<Request<T>>, base64: Base64) returns (responses: seq<Response<T>>)
    ensures |responses| == |calls|
    ensures forall i | 0 <= i < |calls| :: Unbroken(responses[i])
    ensures |calls| < TWO_64 ==> forall i, j | 0 <= i < j < |calls| :: !SameId(calls, responses, i, j)
    ensures |calls| < TWO_64 ==> forall i | 0 <= i < |calls| :: Right(calls, responses, i, base64)
  {
    var svc := new Service<T>(prefix);
    responses := [];
    assert Tracked(calls, responses, 0, svc.sessions, base64) by { NothingRuns(calls, base64); }
    hide Right, Tracked, svc.Valid, svc.Issued;
    while |responses| < |calls|
      invariant |responses| <= |calls| && fresh(svc) && svc.Valid() && svc.stores <= |responses|
      invariant Sound(calls, responses, base64) && Handed(svc, calls, responses)
      invariant |calls| < TWO_64 ==> Tracked(calls, responses, |responses|, svc.sessions, base64)
    {
      var resp := ServeOne(svc, calls, responses, base64);
      responses := responses + [resp];
    }
  }

  /** Two sessions handed out under one id. */
  ghost predicate SameId<T>(calls: seq<Request<T>>, responses: seq<Response<T>>, i: nat, j: nat)
    requires i < |calls| && i < |responses| && j < |calls| && j < |responses|
  {
    && calls[i].Begin? && calls[j].Begin? && responses[i].AwaitHost? && responses[j].AwaitHost?
    && responses[i].id == responses[j].id
  }

  lemma NothingRuns<T>(calls: seq<Request<T>>, base64: Base64)
    ensures Tracked(calls, [], 0, map[], base64)
  {
  }
}
