/** Nobody is ever stuck: from every state a run can reach, some further moves serve a published request
    and bring its caller back. */
module EmbedProgress {
  import opened EmbedProtocol

  lemma {:induction false} AfterMore(e: Engine, s: State, a: seq<Move>, b: seq<Move>)
    ensures After(e, s, a + b) == After(e, After(e, s, a), b)
  {
    if b == [] {
      assert a + b == a;
    } else {
      AfterMore(e, s, a, b[..|b| - 1]);
      assert (a + b)[..|a + b| - 1] == a + b[..|b| - 1];
    }
  }

  lemma AfterOne(e: Engine, s: State, m: Move)
    ensures After(e, s, [m]) == Apply(e, s, m)
  {
    assert After(e, s, []) == s;
  }

  // ---------- a stronger invariant ----------

  /** Locks are held by callers that exist; and once something was published, an empty request slot means that the
      answer is there, unless the worker or a caller is just about to say otherwise. */
  ghost predicate Live(e: Engine, s: State) {
    && Inv(e, s) && OwnerOk(s.mutex, |s.clients|) && OwnerOk(s.pool, |s.clients|)
    && (|s.log.published| > 0 && !s.slot.hasReq && !s.wpc.RaiseDone? && Nobody(s) ==> s.slot.done)
  }

  predicate OwnerOk(o: Owner, n: nat) {
    o.Caller? ==> o.c < n
  }

  /** No caller has cleared the flag without raising its request yet. */
  ghost predicate Nobody(s: State) {
    forall c :: 0 <= c < |s.clients| ==> !s.clients[c].pc.RaiseReq?
  }

  lemma ClientStaysLive(e: Engine, s: State, c: nat, text: Text)
    requires Live(e, s) && c < |s.clients|
    ensures Live(e, ClientStep(s, c, text))
  {
    var r := ClientStep(s, c, text);
    ClientKeeps(e, s, c, text);
    assert ClientOk(e, s, c);
    assert |r.clients| == |s.clients| && forall d :: 0 <= d < |s.clients| && d != c ==> r.clients[d] == s.clients[d];
    if s.clients[c].pc.ClearDone? {
      assert r.clients[c].pc.RaiseReq?;
    } else if Nobody(r) && !s.clients[c].pc.RaiseReq? {
      assert forall d :: 0 <= d < |s.clients| ==> !s.clients[d].pc.RaiseReq?;
    }
  }

  lemma WorkerStaysLive(e: Engine, s: State)
    requires Live(e, s)
    ensures Live(e, WorkerStep(e, s))
  {
    WorkerKeeps(e, s);
    assert WorkerStep(e, s).clients == s.clients;
  }

  lemma StaysLive(e: Engine, s: State, m: Move)
    requires Live(e, s)
    ensures Live(e, Apply(e, s, m))
  {
    match m {
      case ByWorker => WorkerStaysLive(e, s);
      case ByClient(c, text) => if c < |s.clients| { ClientStaysLive(e, s, c, text); }
    }
  }

  lemma {:induction false} RunsStayLive(e: Engine, s: State, run: seq<Move>)
    requires Start(s)
    ensures Live(e, After(e, s, run))
  {
    if run != [] {
      RunsStayLive(e, s, run[..|run| - 1]);
      StaysLive(e, After(e, s, run[..|run| - 1]), run[|run| - 1]);
    }
  }

  // ---------- the mutex becomes free ----------

  function MutexRank(s: State): nat {
    match s.mutex
    case Free => 0
    case Worker => (match s.wpc case Outside => 0 case CheckReq => if s.slot.hasReq then 5 else 1 case Infer => 4 case LowerReq => 3 case RaiseDone => 2)
    case Caller(d) => if d < |s.clients| then CallerRank(s.clients[d].pc) else 0
  }

  function CallerRank(pc: Pc): nat {
    match pc
    case UnlockWorker => 1 case ReadResult => 2 case Check => 3 case RaiseReq => 4 case ClearDone => 5
    case WriteOut => 6 case WriteInput => 7 case UnlockPool => 8 case Look => 9
    case _ => 0
  }

  /** The move of whoever holds the mutex. */
  function HolderMove(s: State): Move {
    if s.mutex.Caller? then ByClient(s.mutex.c, 0) else ByWorker
  }

  /** The holder gets closer to giving it up, and moves nobody else. */
  lemma HolderMoves(e: Engine, s: State, c: nat)
    requires Live(e, s) && !s.mutex.Free? && c < |s.clients| && !HoldsMutex(s.clients[c].pc)
    ensures var r := Apply(e, s, HolderMove(s));
            && |r.clients| == |s.clients| && r.clients[c] == s.clients[c]
            && (r.mutex.Free? || MutexRank(r) < MutexRank(s))
            && (s.pool.Free? ==> r.pool.Free?)
  {
    assert ClientOk(e, s, c);
    if s.mutex.Caller? {
      assert ClientOk(e, s, s.mutex.c);
      CallerHolderMoves(s, s.mutex.c, c);
    }
  }

  lemma CallerHolderMoves(s: State, d: nat, c: nat)
    requires d < |s.clients| && c < |s.clients| && c != d && s.mutex == Caller(d) && HoldsMutex(s.clients[d].pc)
    ensures var r := ClientStep(s, d, 0);
            && |r.clients| == |s.clients| && r.clients[c] == s.clients[c]
            && (r.mutex.Free? || (r.mutex == s.mutex && CallerRank(r.clients[d].pc) < CallerRank(s.clients[d].pc)))
            && (s.pool.Free? ==> r.pool.Free?)
  {
  }

  lemma {:induction false} MutexCanBeFree(e: Engine, s: State, c: nat) returns (run: seq<Move>)
    requires Live(e, s) && c < |s.clients| && !HoldsMutex(s.clients[c].pc)
    ensures var r := After(e, s, run);
            && Live(e, r) && r.mutex.Free? && |r.clients| == |s.clients| && r.clients[c] == s.clients[c]
            && (s.pool.Free? ==> r.pool.Free?)
    decreases MutexRank(s)
  {
    if s.mutex.Free? {
      return [];
    }
    var m := HolderMove(s);
    HolderMoves(e, s, c);
    StaysLive(e, s, m);
    AfterOne(e, s, m);
    var r := Apply(e, s, m);
    if r.mutex.Free? {
      return [m];
    }
    var more := MutexCanBeFree(e, r, c);
    AfterMore(e, s, [m], more);
    run := [m] + more;
  }

  // ---------- the pool becomes free ----------

  function PoolRank(s: State): nat {
    if s.pool.Caller? && s.pool.c < |s.clients| then
      (match s.clients[s.pool.c].pc case LockWorker => 3 case Look => 2 case _ => 1)
    else 0
  }

  lemma PoolHolderMoves(e: Engine, s: State, c: nat)
    requires Live(e, s) && s.mutex.Free? && !s.pool.Free? && c < |s.clients| && !HoldsPool(s.clients[c].pc)
    ensures s.pool.Caller? && s.pool.c < |s.clients| && s.pool.c != c
    ensures var r := ClientStep(s, s.pool.c, 0);
            && |r.clients| == |s.clients| && r.clients[c] == s.clients[c]
            && (r.pool.Free? || (r.pool == s.pool && r.clients[s.pool.c].pc.Look? && r.mutex == Caller(s.pool.c)))
  {
    assert ClientOk(e, s, c) && ClientOk(e, s, s.pool.c);
  }

  lemma LookerMoves(e: Engine, s: State, d: nat, c: nat)
    requires Live(e, s) && d < |s.clients| && c < |s.clients| && c != d && s.pool == Caller(d)
    requires s.clients[d].pc.Look? || s.clients[d].pc.UnlockPool? || s.clients[d].pc.GoToSleep?
    ensures var r := ClientStep(s, d, 0);
            && |r.clients| == |s.clients| && r.clients[c] == s.clients[c]
            && (r.pool.Free? || (s.clients[d].pc.Look? && r.pool == s.pool && (r.clients[d].pc.UnlockPool? || r.clients[d].pc.GoToSleep?)))
  {
  }

  /** Runs that end with caller `c` where it was and the pool free. */
  lemma PoolCanBeFree(e: Engine, s: State, c: nat) returns (run: seq<Move>)
    requires Live(e, s) && c < |s.clients| && !HoldsMutex(s.clients[c].pc) && !HoldsPool(s.clients[c].pc)
    ensures var r := After(e, s, run);
            Live(e, r) && r.pool.Free? && |r.clients| == |s.clients| && r.clients[c] == s.clients[c]
  {
    run := MutexCanBeFree(e, s, c);
    var s1 := After(e, s, run);
    if !s1.pool.Free? {
      PoolHolderMoves(e, s1, c);
      var d := s1.pool.c;
      var s2;
      run, s2 := Go(e, s, run, ByClient(d, 0));
      if !s2.pool.Free? {
        LookerMoves(e, s2, d, c);
        var s3;
        run, s3 := Go(e, s, run, ByClient(d, 0));
        if !s3.pool.Free? {
          LookerMoves(e, s3, d, c);
          var s4;
          run, s4 := Go(e, s, run, ByClient(d, 0));
        }
      }
    }
  }

  /** One move more. */
  lemma Go(e: Engine, s: State, run: seq<Move>, m: Move) returns (more: seq<Move>, r: State)
    requires Live(e, After(e, s, run))
    ensures more == run + [m] && r == After(e, s, more) == Apply(e, After(e, s, run), m) && Live(e, r)
  {
    more := run + [m];
    AfterMore(e, s, run, [m]);
    AfterOne(e, After(e, s, run), m);
    StaysLive(e, After(e, s, run), m);
    r := After(e, s, more);
  }

  // ---------- the answer comes ----------

  /** With the mutex free the worker's next round leaves an answered slot. */
  lemma AnswerCanCome(e: Engine, s: State, c: nat) returns (run: seq<Move>)
    requires Live(e, s) && s.mutex.Free? && c < |s.clients| && |s.log.published| > 0
    ensures var r := After(e, s, run);
            Live(e, r) && r.mutex.Free? && r.slot.done && |r.clients| == |s.clients| && r.clients[c] == s.clients[c]
  {
    NobodyWrites(e, s);
    run := [];
    var r := s;
    if s.slot.hasReq {
      run, r := Go(e, s, run, ByWorker);
      run, r := Go(e, s, run, ByWorker);
      run, r := Go(e, s, run, ByWorker);
      run, r := Go(e, s, run, ByWorker);
      run, r := Go(e, s, run, ByWorker);
      run, r := Go(e, s, run, ByWorker);
    }
  }

  lemma NobodyWrites(e: Engine, s: State)
    requires Live(e, s) && s.mutex.Free?
    ensures Nobody(s) && s.wpc.Outside?
  {
    forall d | 0 <= d < |s.clients|
      ensures !s.clients[d].pc.RaiseReq?
    {
      assert ClientOk(e, s, d);
    }
  }

  // ---------- the caller comes back ----------

  /** A caller that has its answer takes the pool lock once more and returns. */
  lemma LeaverReturns(e: Engine, s: State, c: nat) returns (run: seq<Move>)
    requires Live(e, s) && c < |s.clients| && s.clients[c].pc.LockPoolAgain?
    ensures Returned(e, s, c, run)
  {
    run := PoolCanBeFree(e, s, c);
    var r := After(e, s, run);
    run, r := Go(e, s, run, ByClient(c, 0));
    var last := LastStepReturns(e, r, c);
    AfterMore(e, s, run, last);
    run := run + last;
  }

  /** After the run the last thing that happened is the return of the call that caller `c` is in. */
  ghost predicate Returned(e: Engine, s: State, c: nat, run: seq<Move>)
    requires c < |s.clients|
  {
    var l := After(e, s, run).log.returned;
    |l| > 0 && l[|l| - 1].client == c && l[|l| - 1].req == s.clients[c].req
  }

  lemma ThenReturns(e: Engine, s: State, c: nat, before: seq<Move>) returns (run: seq<Move>)
    requires c < |s.clients| && Live(e, After(e, s, before))
    requires var r := After(e, s, before);
             c < |r.clients| && r.clients[c].req == s.clients[c].req && (r.clients[c].pc.LockPoolAgain? || r.clients[c].pc.UnlockWorker? || r.clients[c].pc.ReadResult?)
    ensures Returned(e, s, c, run)
  {
    run := before;
    var r := After(e, s, run);
    if r.clients[c].pc.ReadResult? {
      run, r := Go(e, s, run, ByClient(c, 0));
    }
    if r.clients[c].pc.UnlockWorker? {
      run, r := Go(e, s, run, ByClient(c, 0));
    }
    var more := LeaverReturns(e, r, c);
    AfterMore(e, s, run, more);
    run := run + more;
  }

  lemma SleeperReturns(e: Engine, s: State, c: nat, before: seq<Move>) returns (run: seq<Move>)
    requires c < |s.clients| && Live(e, After(e, s, before))
    requires var r := After(e, s, before); c < |r.clients| && r.clients[c].req == s.clients[c].req && r.clients[c].pc.ResAsleep?
    ensures Returned(e, s, c, run)
  {
    var r := After(e, s, before);
    var more := SleeperFinds(e, r, c);
    AfterMore(e, s, before, more);
    run := before + more;
    run, r := Go(e, s, run, ByClient(c, 0));
    run, r := Go(e, s, run, ByClient(c, 0));
    run := ThenReturns(e, s, c, run);
  }

  /** A sleeping caller's answer comes, and the mutex is free. */
  lemma SleeperFinds(e: Engine, s: State, c: nat) returns (run: seq<Move>)
    requires Live(e, s) && c < |s.clients| && s.clients[c].pc.ResAsleep?
    ensures var r := After(e, s, run);
            Live(e, r) && r.mutex.Free? && r.slot.done && |r.clients| == |s.clients| && r.clients[c] == s.clients[c]
  {
    var a := MutexCanBeFree(e, s, c);
    var r := After(e, s, a);
    assert ClientOk(e, r, c);
    var b := AnswerCanCome(e, r, c);
    AfterMore(e, s, a, b);
    run := a + b;
  }

  lemma CheckerReturns(e: Engine, s: State, c: nat) returns (run: seq<Move>)
    requires Live(e, s) && c < |s.clients| && s.clients[c].pc.Check?
    ensures Returned(e, s, c, run)
  {
    var r;
    assert After(e, s, []) == s;
    run, r := Go(e, s, [], ByClient(c, 0));
    if r.clients[c].pc.ResAsleep? {
      run := SleeperReturns(e, s, c, run);
    } else {
      run := ThenReturns(e, s, c, run);
    }
  }

  lemma LastStepReturns(e: Engine, s: State, c: nat) returns (run: seq<Move>)
    requires c < |s.clients| && s.clients[c].pc.UnlockPoolAgain?
    ensures Returned(e, s, c, run)
  {
    run := [ByClient(c, 0)];
    AfterOne(e, s, ByClient(c, 0));
    LastStepLogs(s, c);
  }

  lemma LastStepLogs(s: State, c: nat)
    requires c < |s.clients| && s.clients[c].pc.UnlockPoolAgain?
    ensures ClientStep(s, c, 0).log.returned == s.log.returned + [Return(c, s.clients[c].req, s.clients[c].code)]
  {
  }

  lemma AskedReturns(e: Engine, s: State, c: nat) returns (run: seq<Move>)
    requires Live(e, s) && c < |s.clients| && Asked(s.clients[c].pc)
    ensures Returned(e, s, c, run)
  {
    assert After(e, s, []) == s;
    if s.clients[c].pc.UnlockPoolAgain? {
      run := LastStepReturns(e, s, c);
    } else if s.clients[c].pc.Check? {
      run := CheckerReturns(e, s, c);
    } else if s.clients[c].pc.ResAsleep? {
      run := SleeperReturns(e, s, c, []);
    } else {
      run := ThenReturns(e, s, c, []);
    }
  }

  /** Every published request can be served, and its caller can return, whatever has happened so far. */
  lemma EveryCallCanReturn(e: Engine, start: State, past: seq<Move>, c: nat) returns (run: seq<Move>)
    requires Start(start) && c < |After(e, start, past).clients| && Asked(After(e, start, past).clients[c].pc)
    ensures Returned(e, After(e, start, past), c, run)
    ensures After(e, start, past + run) == After(e, After(e, start, past), run)
  {
    RunsStayLive(e, start, past);
    run := AskedReturns(e, After(e, start, past), c);
    AfterMore(e, start, past, run);
  }
}
