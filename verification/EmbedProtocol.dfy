/** The hand-over between callers of `kc_emb_exec` and the one worker thread, step by step. Waiting on
    a condition is: release the mutex, and take it again at any later time. */
module EmbedProtocol {

  type Text = int
  type Vector = seq<real>

  /** What inference makes of a text. */
  datatype Engine = Engine(code: Text -> int, vec: Text -> Vector)

  datatype Owner = Free | Worker | Caller(c: nat)

  /** Where a caller is; each value names its next step. */
  datatype Pc =
    | Idle | LockPool | LockWorker | Look | GoToSleep | PoolAsleep | UnlockPool
    | WriteInput | WriteOut | ClearDone | RaiseReq
    | Check | ResAsleep | ReadResult | UnlockWorker | LockPoolAgain | UnlockPoolAgain

  datatype Client = Client(pc: Pc, text: Text, req: nat, code: int)

  datatype WorkerPc = Outside | CheckReq | Infer | LowerReq | RaiseDone

  /** Who asked, and for what. A caller's output buffer has the caller's number. */
  datatype Request = Request(client: nat, text: Text)

  datatype Return = Return(client: nat, req: nat, code: int)

  /** The fields that callers and worker share under the mutex. */
  datatype Slot = Slot(hasReq: bool, done: bool, input: Text, out: nat, result: int)

  /** What happened so far. */
  datatype Log = Log(published: seq<Request>, ran: seq<Request>, returned: seq<Return>)

  datatype State = State(mutex: Owner, pool: Owner, slot: Slot, bufs: seq<Vector>, wpc: WorkerPc, clients: seq<Client>, log: Log)

  predicate HoldsPool(pc: Pc) {
    pc.LockWorker? || pc.Look? || pc.GoToSleep? || pc.UnlockPool? || pc.UnlockPoolAgain?
  }

  predicate Writing(pc: Pc) {
    pc.UnlockPool? || pc.WriteInput? || pc.WriteOut? || pc.ClearDone? || pc.RaiseReq?
  }

  predicate HoldsMutex(pc: Pc) {
    pc.Look? || Writing(pc) || pc.Check? || pc.ReadResult? || pc.UnlockWorker?
  }

  predicate Asked(pc: Pc) {
    pc.Check? || pc.ResAsleep? || Served(pc)
  }

  predicate Served(pc: Pc) {
    pc.ReadResult? || pc.UnlockWorker? || pc.LockPoolAgain? || pc.UnlockPoolAgain?
  }

  // ---------- the steps ----------

  function Moved(s: State, c: nat, pc: Pc): State
    requires c < |s.clients|
  {
    s.(clients := s.clients[c := s.clients[c].(pc := pc)])
  }

  predicate Seeking(pc: Pc) {
    pc.Idle? || pc.LockPool? || pc.LockWorker? || pc.PoolAsleep?
  }

  /** On the way to the worker; `text` is what a new call asks for. */
  function SeekStep(s: State, c: nat, text: Text): State
    requires c < |s.clients|
  {
    match s.clients[c].pc
    case Idle => s.(clients := s.clients[c := s.clients[c].(pc := LockPool, text := text)])
    case LockPool => if s.pool.Free? then Moved(s, c, LockWorker).(pool := Caller(c)) else s
    case LockWorker => if s.mutex.Free? then Moved(s, c, Look).(mutex := Caller(c)) else s
    case PoolAsleep => if s.pool.Free? then Moved(s, c, LockWorker).(pool := Caller(c)) else s
    case _ => s
  }

  predicate Choosing(pc: Pc) {
    pc.Look? || pc.GoToSleep? || pc.UnlockPool?
  }

  /** Taking the worker if it has no request. */
  function ChooseStep(s: State, c: nat): State
    requires c < |s.clients|
  {
    match s.clients[c].pc
    case Look => if !s.slot.hasReq then Moved(s, c, UnlockPool) else Moved(s, c, GoToSleep).(mutex := Free)
    case GoToSleep => Moved(s, c, PoolAsleep).(pool := Free)
    case UnlockPool => Moved(s, c, WriteInput).(pool := Free)
    case _ => s
  }

  predicate Publishing(pc: Pc) {
    pc.WriteInput? || pc.WriteOut? || pc.ClearDone? || pc.RaiseReq?
  }

  function PublishStep(s: State, c: nat): State
    requires c < |s.clients|
  {
    match s.clients[c].pc
    case WriteInput => Moved(s, c, WriteOut).(slot := s.slot.(input := s.clients[c].text))
    case WriteOut => Moved(s, c, ClearDone).(slot := s.slot.(out := c))
    case ClearDone => Moved(s, c, RaiseReq).(slot := s.slot.(done := false))
    case RaiseReq =>
      s.(slot := s.slot.(hasReq := true),
         log := s.log.(published := s.log.published + [Request(c, s.clients[c].text)]),
         clients := s.clients[c := s.clients[c].(pc := Check, req := |s.log.published|)])
    case _ => s
  }

  function AwaitStep(s: State, c: nat): State
    requires c < |s.clients|
  {
    match s.clients[c].pc
    case Check => if s.slot.done then Moved(s, c, ReadResult) else Moved(s, c, ResAsleep).(mutex := Free)
    case ResAsleep => if s.mutex.Free? then Moved(s, c, Check).(mutex := Caller(c)) else s
    case _ => s
  }

  function LeaveStep(s: State, c: nat): State
    requires c < |s.clients|
  {
    match s.clients[c].pc
    case ReadResult => s.(clients := s.clients[c := s.clients[c].(pc := UnlockWorker, code := s.slot.result)])
    case UnlockWorker => Moved(s, c, LockPoolAgain).(mutex := Free)
    case LockPoolAgain => if s.pool.Free? then Moved(s, c, UnlockPoolAgain).(pool := Caller(c)) else s
    case UnlockPoolAgain =>
      Moved(s, c, Idle).(pool := Free, log := s.log.(returned := s.log.returned + [Return(c, s.clients[c].req, s.clients[c].code)]))
    case _ => s
  }

  /** One step of caller `c`. A caller that cannot go on stays where it is. */
  function ClientStep(s: State, c: nat, text: Text): State
    requires c < |s.clients|
  {
    var pc := s.clients[c].pc;
    if Seeking(pc) then SeekStep(s, c, text)
    else if Choosing(pc) then ChooseStep(s, c)
    else if Publishing(pc) then PublishStep(s, c)
    else if Served(pc) then LeaveStep(s, c)
    else AwaitStep(s, c)
  }

  function WorkerStep(e: Engine, s: State): State {
    match s.wpc
    case Outside => if s.mutex.Free? then s.(mutex := Worker, wpc := CheckReq) else s
    case CheckReq => if s.slot.hasReq then s.(wpc := Infer) else s.(mutex := Free, wpc := Outside)
    case Infer =>
      s.(wpc := LowerReq, slot := s.slot.(result := e.code(s.slot.input)),
         log := s.log.(ran := s.log.ran + [Request(s.slot.out, s.slot.input)]),
         bufs := if s.slot.out < |s.bufs| then s.bufs[s.slot.out := e.vec(s.slot.input)] else s.bufs)
    case LowerReq => s.(slot := s.slot.(hasReq := false), wpc := RaiseDone)
    case RaiseDone => s.(slot := s.slot.(done := true), wpc := CheckReq)
  }

  datatype Move = ByWorker | ByClient(c: nat, text: Text)

  function Apply(e: Engine, s: State, m: Move): State {
    match m
    case ByWorker => WorkerStep(e, s)
    case ByClient(c, text) => if c < |s.clients| then ClientStep(s, c, text) else s
  }

  ghost predicate Start(s: State) {
    && s.mutex.Free? && s.pool.Free? && !s.slot.hasReq && !s.slot.done && s.wpc.Outside?
    && s.log == Log([], [], []) && |s.bufs| == |s.clients|
    && forall c :: 0 <= c < |s.clients| ==> s.clients[c].pc.Idle?
  }

  function After(e: Engine, s: State, run: seq<Move>): State {
    if run == [] then s else Apply(e, After(e, s, run[..|run| - 1]), run[|run| - 1])
  }

  // ---------- the invariant ----------

  /** Everything asked for was run, in order, but perhaps for the last request. */
  ghost predicate RecordOk(x: Slot, w: WorkerPc, l: Log) {
    && |l.ran| <= |l.published| <= |l.ran| + 1 && l.ran == l.published[..|l.ran|]
    && (x.hasReq <==> |l.ran| < |l.published| || w.LowerReq?)
    && (w.LowerReq? || w.RaiseDone? ==> |l.ran| == |l.published|)
    && (w.Infer? ==> x.hasReq)
    && (x.hasReq ==> !x.done)
  }

  /** The request that waits is the one in the shared fields. */
  ghost predicate PendingOk(x: Slot, l: Log, clients: seq<Client>) {
    |l.ran| < |l.published| ==>
      var r := l.published[|l.ran|];
      x.input == r.text && x.out == r.client < |clients| && Asked(clients[r.client].pc) && clients[r.client].req == |l.ran|
  }

  /** The shared result belongs to the last request that ran. */
  ghost predicate ResultOk(e: Engine, x: Slot, l: Log) {
    |l.ran| > 0 ==> x.result == e.code(l.ran[|l.ran| - 1].text)
  }

  /** Every call that came back was served before. */
  ghost predicate ReturnedOk(l: Log) {
    forall k :: 0 <= k < |l.returned| ==>
      l.returned[k].req < |l.ran| && l.ran[l.returned[k].req].client == l.returned[k].client
  }

  ghost predicate LocksOk(x: Client, c: nat, mutex: Owner, pool: Owner) {
    (HoldsMutex(x.pc) <==> mutex == Caller(c)) && (HoldsPool(x.pc) <==> pool == Caller(c))
  }

  /** What a caller that holds the mutex has written already. */
  ghost predicate WritingOk(x: Client, c: nat, t: Slot) {
    && (Writing(x.pc) ==> !t.hasReq)
    && (x.pc.WriteOut? || x.pc.ClearDone? || x.pc.RaiseReq? ==> t.input == x.text)
    && (x.pc.ClearDone? || x.pc.RaiseReq? ==> t.out == c)
    && (x.pc.RaiseReq? ==> !t.done)
  }

  ghost predicate AskedOk(e: Engine, x: Client, c: nat, l: Log, buf: Vector) {
    && (Asked(x.pc) ==> x.req < |l.published| && l.published[x.req] == Request(c, x.text))
    && (Served(x.pc) ==> x.req < |l.ran|)
    && (Asked(x.pc) && x.req < |l.ran| ==> buf == e.vec(x.text))
  }

  ghost predicate ClientOk(e: Engine, s: State, c: nat)
    requires c < |s.clients| == |s.bufs|
  {
    var x := s.clients[c];
    LocksOk(x, c, s.mutex, s.pool) && WritingOk(x, c, s.slot) && AskedOk(e, x, c, s.log, s.bufs[c])
  }

  ghost predicate SharedOk(e: Engine, s: State) {
    && RecordOk(s.slot, s.wpc, s.log) && PendingOk(s.slot, s.log, s.clients) && ResultOk(e, s.slot, s.log) && ReturnedOk(s.log)
    && (s.mutex.Worker? <==> !s.wpc.Outside?) && !s.pool.Worker?
  }

  ghost predicate Inv(e: Engine, s: State) {
    |s.bufs| == |s.clients| && SharedOk(e, s) && forall c :: 0 <= c < |s.clients| ==> ClientOk(e, s, c)
  }

  // ---------- every step keeps it ----------

  /** A step of caller `c` leaves the other callers and the worker alone. */
  ghost predicate LeavesOthers(s: State, r: State, c: nat) {
    && |r.clients| == |s.clients| && c < |s.clients| && r.clients == s.clients[c := r.clients[c]]
    && r.bufs == s.bufs && r.log.ran == s.log.ran && s.log.published <= r.log.published
    && (r.mutex == s.mutex || (s.mutex.Free? && r.mutex == Caller(c)) || (s.mutex == Caller(c) && r.mutex.Free?))
    && (r.pool == s.pool || (s.pool.Free? && r.pool == Caller(c)) || (s.pool == Caller(c) && r.pool.Free?))
    && (r.slot == s.slot || s.mutex == Caller(c))
  }

  lemma OtherKeeps(e: Engine, s: State, r: State, c: nat, d: nat)
    requires |s.bufs| == |s.clients| && LeavesOthers(s, r, c) && d < |s.clients| && d != c && ClientOk(e, s, d)
    requires RecordOk(s.slot, s.wpc, s.log)
    ensures ClientOk(e, r, d)
  {
    var x := s.clients[d];
    assert r.clients[d] == x;
    assert LocksOk(x, d, r.mutex, r.pool);
  }

  /** What has to be shown for a step of caller `c`. */
  ghost predicate GoodStep(e: Engine, s: State, r: State, c: nat)
  {
    |s.bufs| == |s.clients| && LeavesOthers(s, r, c) && SharedOk(e, r) && ClientOk(e, r, c)
  }

  /** What a step of caller `c` starts from. */
  ghost predicate Before(e: Engine, s: State, c: nat) {
    |s.bufs| == |s.clients| && c < |s.clients| && SharedOk(e, s) && ClientOk(e, s, c)
  }

  lemma SeekKeeps(e: Engine, s: State, c: nat, text: Text)
    requires Before(e, s, c) && Seeking(s.clients[c].pc)
    ensures GoodStep(e, s, SeekStep(s, c, text), c)
  {
  }

  lemma ChooseKeeps(e: Engine, s: State, c: nat)
    requires Before(e, s, c) && Choosing(s.clients[c].pc)
    ensures GoodStep(e, s, ChooseStep(s, c), c)
  {
  }

  lemma PublishKeeps(e: Engine, s: State, c: nat)
    requires Before(e, s, c) && Publishing(s.clients[c].pc)
    ensures GoodStep(e, s, PublishStep(s, c), c)
  {
  }

  lemma AwaitKeeps(e: Engine, s: State, c: nat)
    requires Before(e, s, c) && (s.clients[c].pc.Check? || s.clients[c].pc.ResAsleep?)
    ensures GoodStep(e, s, AwaitStep(s, c), c)
  {
  }

  lemma LeaveKeeps(e: Engine, s: State, c: nat)
    requires Before(e, s, c) && Served(s.clients[c].pc)
    ensures GoodStep(e, s, LeaveStep(s, c), c)
  {
  }

  lemma ClientStepGood(e: Engine, s: State, c: nat, text: Text)
    requires Before(e, s, c)
    ensures GoodStep(e, s, ClientStep(s, c, text), c)
  {
    var pc := s.clients[c].pc;
    if Seeking(pc) {
      SeekKeeps(e, s, c, text);
    } else if Choosing(pc) {
      ChooseKeeps(e, s, c);
    } else if Publishing(pc) {
      PublishKeeps(e, s, c);
    } else if Served(pc) {
      LeaveKeeps(e, s, c);
    } else {
      AwaitKeeps(e, s, c);
    }
  }

  lemma GoodStepKeeps(e: Engine, s: State, r: State, c: nat)
    requires Inv(e, s) && GoodStep(e, s, r, c)
    ensures Inv(e, r)
  {
    forall d | 0 <= d < |r.clients|
      ensures ClientOk(e, r, d)
    {
      if d != c {
        assert ClientOk(e, s, d);
        OtherKeeps(e, s, r, c, d);
      }
    }
  }

  lemma ClientKeeps(e: Engine, s: State, c: nat, text: Text)
    requires Inv(e, s) && c < |s.clients|
    ensures Inv(e, ClientStep(s, c, text))
  {
    assert ClientOk(e, s, c);
    ClientStepGood(e, s, c, text);
    GoodStepKeeps(e, s, ClientStep(s, c, text), c);
  }

  lemma WorkerKeepsClient(e: Engine, s: State, c: nat)
    requires Inv(e, s) && c < |s.clients|
    ensures ClientOk(e, WorkerStep(e, s), c)
  {
    assert ClientOk(e, s, c);
  }

  lemma WorkerKeepsShared(e: Engine, s: State)
    requires Inv(e, s)
    ensures SharedOk(e, WorkerStep(e, s))
  {
  }

  lemma WorkerKeeps(e: Engine, s: State)
    requires Inv(e, s)
    ensures Inv(e, WorkerStep(e, s))
  {
    WorkerKeepsShared(e, s);
    forall c | 0 <= c < |s.clients|
      ensures ClientOk(e, WorkerStep(e, s), c)
    {
      WorkerKeepsClient(e, s, c);
    }
  }

  /** The invariant holds after every interleaving of every number of callers. */
  lemma {:induction false} RunsKeep(e: Engine, s: State, run: seq<Move>)
    requires Start(s)
    ensures Inv(e, After(e, s, run))
  {
    if run != [] {
      RunsKeep(e, s, run[..|run| - 1]);
      var t := After(e, s, run[..|run| - 1]);
      match run[|run| - 1] {
        case ByWorker => WorkerKeeps(e, t);
        case ByClient(c, text) => if c < |t.clients| { ClientKeeps(e, t, c, text); }
      }
    }
  }

  // ---------- what follows for every run ----------

  /** Requests run in the order in which they were published, each once, on the text and for the
      buffer of its caller, and no request is accepted before the one before it ran. */
  lemma RequestsRunOnce(e: Engine, s: State, run: seq<Move>)
    requires Start(s)
    ensures var l := After(e, s, run).log;
            |l.ran| <= |l.published| <= |l.ran| + 1 && forall i :: 0 <= i < |l.ran| ==> l.ran[i] == l.published[i]
  {
    RunsKeep(e, s, run);
  }

  /** A caller about to return has been served: its own request ran and its buffer holds the answer. */
  lemma ServedBeforeReturn(e: Engine, s: State, run: seq<Move>, c: nat)
    requires Start(s) && c < |After(e, s, run).clients| && Served(After(e, s, run).clients[c].pc)
    ensures var r := After(e, s, run); var x := r.clients[c];
            && x.req < |r.log.ran| && r.log.ran[x.req] == Request(c, x.text)
            && c < |r.bufs| && r.bufs[c] == e.vec(x.text)
  {
    RunsKeep(e, s, run);
    assert ClientOk(e, After(e, s, run), c);
  }

  lemma CallsReturnedWereServed(e: Engine, s: State, run: seq<Move>, k: nat)
    requires Start(s) && k < |After(e, s, run).log.returned|
    ensures var l := After(e, s, run).log; var x := l.returned[k];
            x.req < |l.ran| && l.ran[x.req].client == x.client
  {
    RunsKeep(e, s, run);
  }

  // ---------- callers behind one lock ----------

  /** The schema lock that `kc_ipa_parse` holds around all its calls. */
  datatype Locked = Locked(lock: Owner, s: State)

  datatype LockedMove = Enter(c: nat) | Leave(c: nat) | Inner(m: Move)

  predicate Idling(s: State, c: nat) {
    c < |s.clients| ==> s.clients[c].pc.Idle?
  }

  function LockedStep(e: Engine, x: Locked, m: LockedMove): Locked {
    match m
    case Enter(c) => if x.lock.Free? then x.(lock := Caller(c)) else x
    case Leave(c) => if x.lock == Caller(c) && Idling(x.s, c) then x.(lock := Free) else x
    case Inner(ByWorker) => x.(s := WorkerStep(e, x.s))
    case Inner(ByClient(c, text)) =>
      if c < |x.s.clients| && (x.s.clients[c].pc.Idle? ==> x.lock == Caller(c)) then x.(s := ClientStep(x.s, c, text)) else x
  }

  function LockedAfter(e: Engine, x: Locked, run: seq<LockedMove>): Locked {
    if run == [] then x else LockedStep(e, LockedAfter(e, x, run[..|run| - 1]), run[|run| - 1])
  }

  predicate GotCode(pc: Pc) {
    pc.UnlockWorker? || pc.LockPoolAgain? || pc.UnlockPoolAgain?
  }

  /** The caller at work asked last, and the code it read is its own. */
  ghost predicate OwnCode(e: Engine, x: Client, l: Log) {
    && (Asked(x.pc) ==> x.req + 1 == |l.published|)
    && (GotCode(x.pc) ==> x.code == e.code(x.text))
  }

  ghost predicate OwnCodes(e: Engine, l: Log) {
    forall k :: 0 <= k < |l.returned| ==>
      l.returned[k].req < |l.published| && l.returned[k].code == e.code(l.published[l.returned[k].req].text)
  }

  ghost predicate LockedInv(e: Engine, x: Locked) {
    && Inv(e, x.s) && OwnCodes(e, x.s.log)
    && forall c :: 0 <= c < |x.s.clients| ==>
         (x.s.clients[c].pc.Idle? || x.lock == Caller(c)) && OwnCode(e, x.s.clients[c], x.s.log)
  }

  ghost predicate Own(e: Engine, s: State, c: nat) {
    c < |s.clients| && OwnCode(e, s.clients[c], s.log) && OwnCodes(e, s.log)
  }

  lemma OwnStep(e: Engine, s: State, c: nat, text: Text)
    requires Before(e, s, c) && Own(e, s, c)
    ensures Own(e, ClientStep(s, c, text), c)
  {
    var pc := s.clients[c].pc;
    if Seeking(pc) {
      OwnSeek(e, s, c, text);
    } else if Choosing(pc) {
      OwnChoose(e, s, c);
    } else if Publishing(pc) {
      OwnPublish(e, s, c);
    } else if Served(pc) {
      OwnLeave(e, s, c);
    } else {
      OwnAwait(e, s, c);
    }
  }

  lemma OwnSeek(e: Engine, s: State, c: nat, text: Text)
    requires Own(e, s, c) && Seeking(s.clients[c].pc)
    ensures Own(e, SeekStep(s, c, text), c)
  {
  }

  lemma OwnChoose(e: Engine, s: State, c: nat)
    requires Own(e, s, c) && Choosing(s.clients[c].pc)
    ensures Own(e, ChooseStep(s, c), c)
  {
  }

  lemma OwnPublish(e: Engine, s: State, c: nat)
    requires Own(e, s, c) && Publishing(s.clients[c].pc)
    ensures Own(e, PublishStep(s, c), c)
  {
  }

  lemma OwnAwait(e: Engine, s: State, c: nat)
    requires Own(e, s, c)
    ensures Own(e, AwaitStep(s, c), c)
  {
  }

  lemma OwnLeave(e: Engine, s: State, c: nat)
    requires Before(e, s, c) && Own(e, s, c) && Served(s.clients[c].pc)
    ensures Own(e, LeaveStep(s, c), c)
  {
    var x := s.clients[c];
    assert x.req < |s.log.ran| && s.log.published[x.req].text == x.text;
    assert s.log.ran[|s.log.ran| - 1] == s.log.published[x.req];
  }

  /** Under the lock a step of one caller finds all others idle. */
  lemma LockedClientKeeps(e: Engine, x: Locked, c: nat, text: Text)
    requires LockedInv(e, x) && c < |x.s.clients| && (x.s.clients[c].pc.Idle? ==> x.lock == Caller(c))
    ensures LockedInv(e, x.(s := ClientStep(x.s, c, text)))
  {
    var s, r := x.s, ClientStep(x.s, c, text);
    assert Before(e, s, c) by {
      assert ClientOk(e, s, c);
    }
    ClientStepGood(e, s, c, text);
    GoodStepKeeps(e, s, r, c);
    OwnStep(e, s, c, text);
    OthersIdle(e, x, r, c);
  }

  lemma OthersIdle(e: Engine, x: Locked, r: State, c: nat)
    requires LockedInv(e, x) && c < |x.s.clients| && x.lock == Caller(c) && LeavesOthers(x.s, r, c) && Own(e, r, c)
    ensures forall d :: 0 <= d < |r.clients| ==> (r.clients[d].pc.Idle? || x.lock == Caller(d)) && OwnCode(e, r.clients[d], r.log)
  {
    forall d | 0 <= d < |r.clients|
      ensures (r.clients[d].pc.Idle? || x.lock == Caller(d)) && OwnCode(e, r.clients[d], r.log)
    {
      if d != c {
        assert r.clients[d] == x.s.clients[d];
        assert x.s.clients[d].pc.Idle?;
      }
    }
  }

  lemma LockedWorkerKeeps(e: Engine, x: Locked)
    requires LockedInv(e, x)
    ensures LockedInv(e, x.(s := WorkerStep(e, x.s)))
  {
    WorkerKeeps(e, x.s);
    var r := WorkerStep(e, x.s);
    assert r.clients == x.s.clients && r.log.published == x.s.log.published && r.log.returned == x.s.log.returned;
  }

  lemma {:induction false} LockedRunsKeep(e: Engine, x: Locked, run: seq<LockedMove>)
    requires x.lock.Free? && Start(x.s)
    ensures LockedInv(e, LockedAfter(e, x, run))
  {
    if run != [] {
      LockedRunsKeep(e, x, run[..|run| - 1]);
      var y := LockedAfter(e, x, run[..|run| - 1]);
      match run[|run| - 1] {
        case Enter(c) =>
        case Leave(c) =>
        case Inner(ByWorker) => LockedWorkerKeeps(e, y);
        case Inner(ByClient(c, text)) =>
          if c < |y.s.clients| && (y.s.clients[c].pc.Idle? ==> y.lock == Caller(c)) {
            LockedClientKeeps(e, y, c, text);
          }
      }
    }
  }

  /** With callers behind one lock, every call returns the code of its own request. */
  lemma CodesAreOwn(e: Engine, x: Locked, run: seq<LockedMove>, k: nat)
    requires x.lock.Free? && Start(x.s) && k < |LockedAfter(e, x, run).s.log.returned|
    ensures var l := LockedAfter(e, x, run).s.log; var r := l.returned[k];
            r.req < |l.published| && l.published[r.req].client == r.client && r.code == e.code(l.published[r.req].text)
  {
    LockedRunsKeep(e, x, run);
  }
}
