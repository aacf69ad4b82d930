/** Thread-safe function: one mutex, a queue, a four-state lifecycle and a thread ledger.
    Every transition below is one critical section of `mutex_` (or one step of the loop thread that
    takes no lock), so a run of transitions is one interleaving of any number of client threads with
    the loop thread. */
module SafeAsyncWork {

  // A `void*` handed through the queue; only its identity matters.
  type Pointer = nat

  datatype Status = Unknow | Inte | Closing | Closed
  datatype Code = QueueFull | InvalidArgs | CodeClosed | Failed | Ok
  datatype CallMode = NonBlocking | Blocking
  datatype ReleaseMode = Plain | Abort

  // A client call either returns a code or, in blocking mode on a full queue, sleeps on the condition.
  datatype Outcome = Returned(code: Code) | Waits

  // What ValidEngineCheck finds: the engine, no engine, or another engine at the same address.
  datatype EngineCheck = Alive | Dead | Replaced

  function CheckCode(check: EngineCheck): Code {
    match check
    case Alive => Ok
    case Dead => Failed
    case Replaced => CodeClosed
  }

  /** Where the loop thread is with respect to this object. */
  datatype Phase =
    | Idle                     // elsewhere in the loop
    | Dispatched               // libuv cleared the wake-up and is about to enter ProcessAsyncHandle
    | InCallback(size: nat)    // lock dropped around the user callback on queue[0]; `size` is the loop variable
    | ClosePending             // uv_close was called, its callback has not run
    | Draining                 // in CleanUp, past the finalizer
    | Gone                     // deleted

  datatype Work = Work(status: Status, maxQueueSize: nat, threadCount: nat, queue: seq<Pointer>,
                       wake: bool, phase: Phase)

  /** What an observer of the calls can count. */
  datatype Log = Log(enqueued: seq<Pointer>, delivered: seq<Pointer>, drained: seq<Pointer>,
                     initial: nat, acquires: nat, releases: nat, closedSends: nat,
                     aborted: bool, uvCloses: nat, finalizers: nat)

  datatype State = State(w: Work, log: Log)

  datatype Step =
    | Send(data: Pointer, mode: CallMode, check: EngineCheck, uvOk: bool)
    | Acquire
    | Release(releaseMode: ReleaseMode, check: EngineCheck, uvOk: bool)
    | Dispatch
    | Begin
    | Return(uvOk: bool)
    | CloseCallback
    | Drain

  function InitState(maxQueueSize: nat, threadCount: nat): State {
    State(Work(Inte, maxQueueSize, threadCount, [], false, Idle),
          Log([], [], [], threadCount, 0, 0, 0, false, 0, 0))
  }

  // ---------------------------------------------------------------- critical sections

  predicate IsClosed(w: Work) {
    w.status == Closed || w.status == Closing
  }

  predicate IsMaxQueueSize(w: Work) {
    |w.queue| > w.maxQueueSize && w.maxQueueSize > 0 && !IsClosed(w)
  }

  function SendEffect(w: Work, data: Pointer, mode: CallMode, check: EngineCheck, uvOk: bool): (Work, Outcome) {
    if IsMaxQueueSize(w) then
      (w, if mode == Blocking then Waits else Returned(QueueFull))
    else if IsClosed(w) then
      if w.threadCount == 0 then (w, Returned(InvalidArgs))
      else (w.(threadCount := w.threadCount - 1), Returned(CodeClosed))
    else if check != Alive then
      (w, Returned(CheckCode(check)))
    else
      (w.(queue := w.queue + [data], wake := w.wake || uvOk), Returned(if uvOk then Ok else Failed))
  }

  function AcquireEffect(w: Work): (Work, Outcome) {
    if IsClosed(w) then (w, Returned(CodeClosed))
    else (w.(threadCount := w.threadCount + 1), Returned(Ok))
  }

  function ReleaseEffect(w: Work, mode: ReleaseMode, check: EngineCheck, uvOk: bool): (Work, Outcome) {
    if IsClosed(w) then (w, Returned(CodeClosed))
    else if w.threadCount == 0 then (w, Returned(InvalidArgs))
    else
      var w1 := w.(threadCount := w.threadCount - 1, status := if mode == Abort then Closing else w.status);
      if w1.threadCount == 0 || mode == Abort then
        if check != Alive then (w1, Returned(CheckCode(check)))
        else (w1.(wake := w1.wake || uvOk), Returned(if uvOk then Ok else Failed))
      else
        (w1, Returned(Ok))
  }

  function CloseHandlesEffect(w: Work): Work {
    if w.status == Closed then w else w.(status := Closed, phase := ClosePending)
  }

  // The tail of ProcessAsyncHandle, after its loop.
  function EndRoundEffect(w: Work, uvOk: bool): Work {
    if w.queue != [] then w.(wake := w.wake || uvOk, phase := Idle)
    else if w.threadCount == 0 then CloseHandlesEffect(w.(phase := Idle))
    else w.(phase := Idle)
  }

  // ProcessAsyncHandle from taking the lock to dropping it for the first time.
  function BeginEffect(w: Work): Work {
    if w.status == Closed then w.(phase := Idle)
    else if w.status == Closing then CloseHandlesEffect(w)
    else if |w.queue| > 0 then w.(phase := InCallback(|w.queue|))
    else EndRoundEffect(w, true)
  }

  // The user callback returned: relock, pop, then drop the lock for the next item or end the round.
  function ReturnEffect(w: Work, uvOk: bool): Work
    requires w.phase.InCallback? && w.queue != []
  {
    var w1 := w.(queue := w.queue[1..]);
    if w.phase.size > 1 then w1.(phase := InCallback(w.phase.size - 1)) else EndRoundEffect(w1, uvOk)
  }

  // ---------------------------------------------------------------- the transition system

  predicate IsClient(step: Step) {
    step.Send? || step.Acquire? || step.Release?
  }

  predicate Enabled(s: State, step: Step) {
    match step
    case Send(_, _, _, _) => s.w.phase != Gone
    case Acquire => s.w.phase != Gone
    case Release(_, _, _) => s.w.phase != Gone
    case Dispatch => s.w.phase == Idle && s.w.wake && s.w.status != Closed
    case Begin => s.w.phase == Dispatched
    case Return(_) => s.w.phase.InCallback? && s.w.queue != []
    case CloseCallback => s.w.phase == ClosePending
    case Drain => s.w.phase == Draining
  }

  function ClientEffect(w: Work, step: Step): (Work, Outcome)
    requires IsClient(step)
  {
    match step
    case Send(data, mode, check, uvOk) => SendEffect(w, data, mode, check, uvOk)
    case Acquire => AcquireEffect(w)
    case Release(mode, check, uvOk) => ReleaseEffect(w, mode, check, uvOk)
  }

  predicate Accepts(w: Work, step: Step) {
    step.Send? && !IsMaxQueueSize(w) && !IsClosed(w) && step.check == Alive
  }

  function NextWork(w: Work, step: Step): Work
    requires step.Return? ==> w.phase.InCallback? && w.queue != []
  {
    match step
    case Dispatch => w.(wake := false, phase := Dispatched)
    case Begin => BeginEffect(w)
    case Return(uvOk) => ReturnEffect(w, uvOk)
    case CloseCallback => w.(phase := Draining)
    case Drain => if w.queue == [] then w.(phase := Gone) else w.(queue := w.queue[1..])
    case _ => ClientEffect(w, step).0
  }

  function NextLog(w: Work, log: Log, step: Step): Log
    requires step.Return? ==> w.phase.InCallback? && w.queue != []
  {
    match step
    case Send(data, mode, check, uvOk) =>
      var code := SendEffect(w, data, mode, check, uvOk).1;
      if Accepts(w, step) then log.(enqueued := log.enqueued + [data])
      else if code == Returned(CodeClosed) && IsClosed(w) then log.(closedSends := log.closedSends + 1)
      else log
    case Acquire => if IsClosed(w) then log else log.(acquires := log.acquires + 1)
    case Release(mode, check, uvOk) =>
      if IsClosed(w) || w.threadCount == 0 then log
      else log.(releases := log.releases + 1, aborted := log.aborted || mode == Abort)
    case Return(_) =>
      var log1 := log.(delivered := log.delivered + [w.queue[0]]);
      if w.status != Closed && NextWork(w, step).status == Closed then log1.(uvCloses := log.uvCloses + 1) else log1
    case Begin =>
      if w.status != Closed && NextWork(w, step).status == Closed then log.(uvCloses := log.uvCloses + 1) else log
    case CloseCallback => log.(finalizers := log.finalizers + 1)
    case Drain => if w.queue == [] then log else log.(drained := log.drained + [w.queue[0]])
    case Dispatch => log
  }

  function Next(s: State, step: Step): State
    requires Enabled(s, step)
  {
    State(NextWork(s.w, step), NextLog(s.w, s.log, step))
  }

  // ---------------------------------------------------------------- what each call answers and does

  /** Every answer of Send in terms of the fields: a full queue puts a blocking caller to sleep and
      turns a non-blocking one away, a closing object takes a thread back, and otherwise the engine
      and uv_async_send decide. */
  lemma SendAnswers(s: State, data: Pointer, mode: CallMode, check: EngineCheck, uvOk: bool)
    requires Inv(s) && Enabled(s, Send(data, mode, check, uvOk))
    ensures var w, answer := s.w, ClientEffect(s.w, Send(data, mode, check, uvOk)).1;
            var open, full := w.status == Inte, w.status == Inte && 0 < w.maxQueueSize < |w.queue|;
            && (answer == Waits <==> mode == Blocking && full)
            && (answer == Returned(QueueFull) <==> mode == NonBlocking && full)
            && (answer == Returned(InvalidArgs) <==> !open && w.threadCount == 0)
            && (answer == Returned(CodeClosed) <==> (!open && w.threadCount > 0) || (open && !full && check == Replaced))
            && (answer == Returned(Failed) <==> open && !full && (check == Dead || (check == Alive && !uvOk)))
            && (answer == Returned(Ok) <==> open && !full && check == Alive && uvOk)
  {
  }

  lemma SendDoes(s: State, data: Pointer, mode: CallMode, check: EngineCheck, uvOk: bool)
    requires Inv(s) && Enabled(s, Send(data, mode, check, uvOk))
    ensures var w, n := s.w, Next(s, Send(data, mode, check, uvOk)).w;
            var open, full := w.status == Inte, w.status == Inte && 0 < w.maxQueueSize < |w.queue|;
            var accepted := open && !full && check == Alive;
            && n.queue == (if accepted then w.queue + [data] else w.queue)
            && n.wake == (w.wake || (accepted && uvOk))
            && n.threadCount == (if !open && w.threadCount > 0 then w.threadCount - 1 else w.threadCount)
            && n.status == w.status && n.phase == w.phase && n.maxQueueSize == w.maxQueueSize
  {
  }

  lemma AcquireAnswers(s: State)
    requires Inv(s) && Enabled(s, Acquire)
    ensures var w, n, answer := s.w, Next(s, Acquire).w, ClientEffect(s.w, Acquire).1;
            if w.status == Inte then answer == Returned(Ok) && n == w.(threadCount := w.threadCount + 1)
            else answer == Returned(CodeClosed) && n == w
  {
  }

  /** Every answer of Release, and its effect: the engine and uv_async_send matter only if somebody has
      to be told. */
  lemma ReleaseAnswers(s: State, mode: ReleaseMode, check: EngineCheck, uvOk: bool)
    requires Inv(s) && Enabled(s, Release(mode, check, uvOk))
    ensures var w, step := s.w, Release(mode, check, uvOk);
            var n, answer := Next(s, step).w, ClientEffect(w, step).1;
            var tells := mode == Abort || w.threadCount == 1;
            if w.status != Inte then answer == Returned(CodeClosed) && n == w
            else if w.threadCount == 0 then answer == Returned(InvalidArgs) && n == w
            else
              && n.threadCount == w.threadCount - 1 && n.queue == w.queue && n.phase == w.phase
              && n.status == (if mode == Abort then Closing else Inte)
              && n.wake == (w.wake || (tells && check == Alive && uvOk))
              && (answer == Returned(Ok) <==> !tells || (check == Alive && uvOk))
              && (answer == Returned(CodeClosed) <==> tells && check == Replaced)
              && (answer == Returned(Failed) <==> tells && (check == Dead || (check == Alive && !uvOk)))
  {
  }

  /** What the loop thread does: a round takes the wake-up, works off what was queued when it began, one
      item at a time from the front, and closes an object that is CLOSING, or empty and without threads. */
  lemma LoopDoes(s: State, step: Step)
    requires Inv(s) && Enabled(s, step) && !IsClient(step)
    ensures var w, n := s.w, Next(s, step).w;
            && n.threadCount == w.threadCount && n.maxQueueSize == w.maxQueueSize
            && (step.Return? || step.Drain? ==> n.queue == if w.queue == [] then [] else w.queue[1..])
            && (!step.Return? && !step.Drain? ==> n.queue == w.queue)
            && match step
               case Dispatch => !n.wake && n.phase == Dispatched && n.status == w.status
               case Begin =>
                 && n.wake == w.wake
                 && (w.status == Inte && w.queue != [] ==> n.phase == InCallback(|w.queue|) && n.status == Inte)
                 && (w.status == Inte && w.queue == [] && w.threadCount > 0 ==> n.phase == Idle && n.status == Inte)
                 && (w.status == Closing || (w.status == Inte && w.queue == [] && w.threadCount == 0) ==>
                       n.status == Closed && n.phase == ClosePending)
               case Return(uvOk) =>
                 if w.phase.size > 1 then n.phase == InCallback(w.phase.size - 1) && n.status == w.status && n.wake == w.wake
                 else if |w.queue| > 1 then n.phase == Idle && n.status == w.status && n.wake == (w.wake || uvOk)
                 else if w.threadCount == 0 then n.status == Closed && n.phase == ClosePending && n.wake == w.wake
                 else n.phase == Idle && n.status == w.status && n.wake == w.wake
               case CloseCallback => n.phase == Draining && n.status == Closed
               case _ => n.status == Closed && n.phase == if w.queue == [] then Gone else Draining
  {
  }

  predicate EnabledRun(s: State, steps: seq<Step>)
    decreases |steps|
  {
    steps == [] || (Enabled(s, steps[0]) && EnabledRun(Next(s, steps[0]), steps[1..]))
  }

  function Run(s: State, steps: seq<Step>): State
    requires EnabledRun(s, steps)
    decreases |steps|
  {
    if steps == [] then s else Run(Next(s, steps[0]), steps[1..])
  }

  lemma {:induction false} RunAppend(s: State, a: seq<Step>, b: seq<Step>)
    requires EnabledRun(s, a) && EnabledRun(Run(s, a), b)
    ensures EnabledRun(s, a + b)
    ensures Run(s, a + b) == Run(Run(s, a), b)
    decreases |a|
  {
    if a == [] {
      assert a + b == b;
    } else {
      assert (a + b)[0] == a[0] && (a + b)[1..] == a[1..] + b;
      RunAppend(Next(s, a[0]), a[1..], b);
    }
  }

  lemma {:induction false} RunSnoc(s: State, a: seq<Step>, step: Step)
    requires EnabledRun(s, a) && Enabled(Run(s, a), step)
    ensures EnabledRun(s, a + [step]) && Run(s, a + [step]) == Next(Run(s, a), step)
  {
    var one := [step];
    assert one[1..] == [];
    RunAppend(s, a, one);
  }

  // ---------------------------------------------------------------- safety

  /** Items handed over so far, in the order they were enqueued, then what still waits. */
  function History(s: State): seq<Pointer> {
    s.log.delivered + s.log.drained + s.w.queue
  }

  ghost predicate Inv(s: State) {
    var w, log := s.w, s.log;
    && w.status != Unknow
    && (w.status == Closed <==> w.phase == ClosePending || w.phase == Draining || w.phase == Gone)
    && (w.phase.InCallback? ==> 1 <= w.phase.size <= |w.queue|)
    && (w.phase == Gone ==> w.queue == [])
    // FIFO: nothing lost, duplicated or reordered
    && log.enqueued == History(s)
    && (log.drained != [] ==> w.phase == Draining || w.phase == Gone)
    // thread ledger
    && w.threadCount + log.releases + log.closedSends == log.initial + log.acquires
    // one close, one finalizer
    && log.uvCloses == (if w.status == Closed then 1 else 0)
    && log.finalizers == (if w.phase == Draining || w.phase == Gone then 1 else 0)
    && (w.maxQueueSize > 0 ==> |w.queue| <= w.maxQueueSize + 1)
    // only an abort leaves items for CleanUp
    && (w.status == Closing ==> log.aborted)
    && (!log.aborted ==> log.drained == [] && (w.status == Closed ==> w.queue == []))
  }

  lemma ClientKeepsInv(s: State, step: Step)
    requires Inv(s) && Enabled(s, step) && IsClient(step)
    ensures Inv(Next(s, step))
  {
    if Accepts(s.w, step) {
      assert History(s) + [step.data] == History(Next(s, step));
    } else {
      assert History(Next(s, step)) == History(s);
    }
  }

  lemma PopKeepsHistory(s: State, step: Step)
    requires Enabled(s, step) && (step.Return? || step.Drain?) && s.w.queue != []
    requires step.Return? ==> s.log.drained == []
    ensures History(Next(s, step)) == History(s)
  {
    assert s.w.queue == [s.w.queue[0]] + s.w.queue[1..];
  }

  lemma LoopKeepsInv(s: State, step: Step)
    requires Inv(s) && Enabled(s, step) && !IsClient(step)
    ensures Inv(Next(s, step))
  {
    match step
    case Return(_) => PopKeepsHistory(s, step);
    case Drain => if s.w.queue != [] { PopKeepsHistory(s, step); }
    case _ =>
  }

  lemma NextKeepsInv(s: State, step: Step)
    requires Inv(s) && Enabled(s, step)
    ensures Inv(Next(s, step))
  {
    if IsClient(step) { ClientKeepsInv(s, step); } else { LoopKeepsInv(s, step); }
  }

  lemma {:induction false} RunKeepsInv(s: State, steps: seq<Step>)
    requires Inv(s) && EnabledRun(s, steps)
    ensures Inv(Run(s, steps))
    decreases |steps|
  {
    if steps != [] {
      NextKeepsInv(s, steps[0]);
      RunKeepsInv(Next(s, steps[0]), steps[1..]);
    }
  }

  /** First-in first-out, exactly once: whatever the interleaving, the items accepted are the items
      delivered, then those drained at CleanUp, then those still queued; without an abort nothing is
      ever drained, so once the object is gone every accepted item was delivered. */
  lemma FifoExactlyOnce(maxQueueSize: nat, threadCount: nat, steps: seq<Step>)
    requires EnabledRun(InitState(maxQueueSize, threadCount), steps)
    ensures var s := Run(InitState(maxQueueSize, threadCount), steps);
            && s.log.enqueued == s.log.delivered + s.log.drained + s.w.queue
            && (s.w.phase == Gone ==> s.log.enqueued == s.log.delivered + s.log.drained)
            && (NoAbort(steps) ==> s.log.drained == [])
            && (NoAbort(steps) && s.w.phase == Gone ==> s.log.enqueued == s.log.delivered)
  {
    var s0 := InitState(maxQueueSize, threadCount);
    RunKeepsInv(s0, steps);
    if NoAbort(steps) { AbortedOnlyByAbort(s0, steps); }
    var s := Run(s0, steps);
    assert s.w.phase == Gone ==> History(s) == s.log.delivered + s.log.drained;
    assert s.log.drained == [] && s.w.queue == [] ==> History(s) == s.log.delivered;
  }

  predicate NoAbort(steps: seq<Step>) {
    forall i :: 0 <= i < |steps| && steps[i].Release? ==> steps[i].releaseMode != Abort
  }

  lemma {:induction false} AbortedOnlyByAbort(s: State, steps: seq<Step>)
    requires EnabledRun(s, steps) && NoAbort(steps)
    ensures Run(s, steps).log.aborted == s.log.aborted
    decreases |steps|
  {
    if steps != [] {
      AbortedOnlyByAbort(Next(s, steps[0]), steps[1..]);
    }
  }

  /** The ledger, the one-shot close and finalizer, and the queue bound, for any number of threads. */
  lemma LedgerAndBounds(maxQueueSize: nat, threadCount: nat, steps: seq<Step>)
    requires EnabledRun(InitState(maxQueueSize, threadCount), steps)
    ensures var s := Run(InitState(maxQueueSize, threadCount), steps);
            && s.w.threadCount == threadCount + s.log.acquires - s.log.releases - s.log.closedSends
            && s.log.finalizers <= s.log.uvCloses <= 1
            && (s.w.phase == Gone ==> s.log.finalizers == 1)
            && (maxQueueSize > 0 ==> |s.w.queue| <= maxQueueSize + 1)
  {
    RunKeepsInv(InitState(maxQueueSize, threadCount), steps);
    ConstantsKept(InitState(maxQueueSize, threadCount), steps);
  }

  /** A send answered CLOSED gives one thread back if and only if it found the object closing or
      closed; answered so because the engine was replaced, it does not. */
  lemma ClosedSendReleasesIff(s: State, step: Step)
    requires Inv(s) && Enabled(s, step) && step.Send? && ClientEffect(s.w, step).1 == Returned(CodeClosed)
    ensures Next(s, step).w.threadCount == s.w.threadCount - 1 <==> IsClosed(s.w)
    ensures !IsClosed(s.w) ==> step.check == Replaced && Next(s, step) == s
    ensures Next(s, step).log.closedSends == s.log.closedSends + if IsClosed(s.w) then 1 else 0
  {
  }

  lemma {:induction false} ConstantsKept(s: State, steps: seq<Step>)
    requires EnabledRun(s, steps)
    ensures Run(s, steps).w.maxQueueSize == s.w.maxQueueSize && Run(s, steps).log.initial == s.log.initial
    decreases |steps|
  {
    if steps != [] {
      ConstantsKept(Next(s, steps[0]), steps[1..]);
    }
  }

  function Stage(status: Status): nat {
    match status case Unknow => 0 case Inte => 1 case Closing => 2 case Closed => 3
  }

  // What a later state may look like: status forward, logs only extended, no growth once closing.
  ghost predicate Forward(s: State, t: State) {
    && Stage(s.w.status) <= Stage(t.w.status)
    && s.log.enqueued <= t.log.enqueued && s.log.delivered <= t.log.delivered && s.log.drained <= t.log.drained
    && (IsClosed(s.w) ==> t.log.enqueued == s.log.enqueued && |t.w.queue| <= |s.w.queue|)
    && (s.w.status == Closed ==> t.log.delivered == s.log.delivered)
    && (s.w.phase == Gone ==> t == s)
  }

  lemma NextForward(s: State, step: Step)
    requires Inv(s) && Enabled(s, step)
    ensures Forward(s, Next(s, step))
  {
  }

  /** Along any run the status only moves forward, and from CLOSING on nothing enters the queue. */
  lemma {:induction false} LifecycleForward(s: State, steps: seq<Step>)
    requires Inv(s) && EnabledRun(s, steps)
    ensures Forward(s, Run(s, steps))
    decreases |steps|
  {
    if steps != [] {
      NextKeepsInv(s, steps[0]);
      NextForward(s, steps[0]);
      LifecycleForward(Next(s, steps[0]), steps[1..]);
    }
  }

  // ---------------------------------------------------------------- no lost wake-up

  // Something the loop thread still has to do for this object.
  predicate Needy(w: Work) {
    w.queue != [] || w.status == Closing || w.threadCount == 0
  }

  // Nobody is going to do it: no wake-up is pending and the loop thread is elsewhere.
  predicate Stuck(w: Work) {
    w.status != Closed && Needy(w) && !w.wake && w.phase == Idle
  }

  /** The steps after which nobody looks at the object although somebody has to: no wake-up is pending,
      and the step hands over work outside a round without signalling, or ends a round with work left:
      items and no signal, or an abort made inside the round by a thread that was not the last. */
  predicate LosesWake(s: State, step: Step) {
    && !s.w.wake
    && match step
       case Send(_, _, _, uvOk) => s.w.phase == Idle && Accepts(s.w, step) && !uvOk
       case Release(mode, check, uvOk) =>
         && s.w.phase == Idle && !IsClosed(s.w) && s.w.threadCount > 0
         && (mode == Abort || s.w.threadCount == 1) && !(check == Alive && uvOk)
       case Return(uvOk) =>
         && s.w.phase.InCallback? && s.w.phase.size == 1
         && if |s.w.queue| > 1 then !uvOk else s.w.status == Closing && s.w.threadCount > 0
       case _ => false
  }

  /** A step loses the wake-up if and only if it is one of those. */
  lemma WakeLostIff(s: State, step: Step)
    requires Inv(s) && Enabled(s, step) && !Stuck(s.w)
    ensures Stuck(Next(s, step).w) <==> LosesWake(s, step)
  {
  }

  predicate Signals(s: State, steps: seq<Step>)
    requires EnabledRun(s, steps)
    decreases |steps|
  {
    steps == [] || (!LosesWake(s, steps[0]) && Signals(Next(s, steps[0]), steps[1..]))
  }

  predicate NeverStuck(s: State, steps: seq<Step>)
    requires EnabledRun(s, steps)
    decreases |steps|
  {
    !Stuck(s.w) && (steps == [] || NeverStuck(Next(s, steps[0]), steps[1..]))
  }

  /** A run passes through no stuck state if and only if none of its steps loses the wake-up. */
  lemma {:induction false} NeverStuckIff(s: State, steps: seq<Step>)
    requires Inv(s) && EnabledRun(s, steps) && !Stuck(s.w)
    ensures NeverStuck(s, steps) <==> Signals(s, steps)
    ensures Signals(s, steps) ==> !Stuck(Run(s, steps).w)
    decreases |steps|
  {
    if steps != [] {
      NextKeepsInv(s, steps[0]);
      WakeLostIff(s, steps[0]);
      if !LosesWake(s, steps[0]) {
        NeverStuckIff(Next(s, steps[0]), steps[1..]);
      } else {
        StuckNow(Next(s, steps[0]), steps[1..]);
      }
    }
  }

  lemma StuckNow(s: State, steps: seq<Step>)
    requires EnabledRun(s, steps) && Stuck(s.w)
    ensures !NeverStuck(s, steps)
  {
  }

  /** No lost wake-up: unless a step lost it, an object with work left has a wake-up pending or the
      loop thread already inside a round (or it is closed), in every state of the run; and only then. */
  lemma NoLostWakeup(maxQueueSize: nat, threadCount: nat, steps: seq<Step>)
    requires threadCount > 0 && EnabledRun(InitState(maxQueueSize, threadCount), steps)
    ensures NeverStuck(InitState(maxQueueSize, threadCount), steps) <==> Signals(InitState(maxQueueSize, threadCount), steps)
    ensures var w := Run(InitState(maxQueueSize, threadCount), steps).w;
            Signals(InitState(maxQueueSize, threadCount), steps) && w.status != Closed && Needy(w) ==>
              w.wake || w.phase == Dispatched || w.phase.InCallback?
  {
    var s0 := InitState(maxQueueSize, threadCount);
    RunKeepsInv(s0, steps);
    NeverStuckIff(s0, steps);
  }

  // No later step of anyone changes that the object is stuck.
  ghost predicate ForGood(s: State) {
    forall steps :: EnabledRun(s, steps) ==> Stuck(Run(s, steps).w)
  }

  /** A stuck object is stuck for good if and only if it is CLOSING: an open one can still be aborted
      with a signal. */
  lemma StuckForGoodIff(s: State)
    requires Inv(s) && Stuck(s.w)
    ensures ForGood(s) <==> s.w.status == Closing
  {
    if s.w.status == Closing {
      forall steps | EnabledRun(s, steps) ensures Stuck(Run(s, steps).w) { LostAbortIsStuck(s, steps); }
    } else {
      var (abort, none) := (Release(Abort, Alive, true), []);
      assert EnabledRun(s, none) && Run(s, none) == s;
      RunSnoc(s, none, Acquire);
      RunSnoc(s, none + [Acquire], abort);
      assert !Stuck(Run(s, none + [Acquire] + [abort]).w);
    }
  }

  // What the callers can see to: living engine, and uv_async_send succeeds, also at the end of a round.
  predicate Signalled(step: Step) {
    match step
    case Send(_, _, check, uvOk) => check == Alive && uvOk
    case Release(_, check, uvOk) => check == Alive && uvOk
    case Return(uvOk) => uvOk
    case _ => true
  }

  // An abort made inside a round has signalled, so what the round leaves behind is announced.
  ghost predicate AbortSignalled(w: Work) {
    w.phase.InCallback? && w.status == Closing ==> w.wake
  }

  lemma {:induction false} SignalledRunSignals(s: State, steps: seq<Step>)
    requires EnabledRun(s, steps) && forall i :: 0 <= i < |steps| ==> Signalled(steps[i])
    requires Inv(s) && AbortSignalled(s.w)
    ensures Signals(s, steps)
    decreases |steps|
  {
    if steps != [] {
      NextKeepsInv(s, steps[0]);
      SignalledRunSignals(Next(s, steps[0]), steps[1..]);
    }
  }

  /** In terms of the calls alone: if the engine lives and every uv_async_send succeeds, no wake-up is
      ever lost. */
  lemma NoLostWakeupIfSignalled(maxQueueSize: nat, threadCount: nat, steps: seq<Step>)
    requires threadCount > 0
    requires EnabledRun(InitState(maxQueueSize, threadCount), steps) && forall i :: 0 <= i < |steps| ==> Signalled(steps[i])
    ensures var w := Run(InitState(maxQueueSize, threadCount), steps).w;
            w.status != Closed && Needy(w) ==> w.wake || w.phase == Dispatched || w.phase.InCallback?
  {
    SignalledRunSignals(InitState(maxQueueSize, threadCount), steps);
    NoLostWakeup(maxQueueSize, threadCount, steps);
  }

  /** A wake-up lost on abort is lost for good: no later call of any thread can close the object. */
  lemma {:induction false} LostAbortIsStuck(s: State, steps: seq<Step>)
    requires s.w.status == Closing && s.w.phase == Idle && !s.w.wake
    requires EnabledRun(s, steps)
    ensures var t := Run(s, steps);
            t.w.status == Closing && t.w.phase == Idle && !t.w.wake && t.log.uvCloses == s.log.uvCloses && t.w.queue == s.w.queue
    decreases |steps|
  {
    if steps != [] {
      LostAbortIsStuck(Next(s, steps[0]), steps[1..]);
    }
  }

  lemma LostAbortExample()
    ensures var abort := Release(Abort, Dead, true);
            var s := Next(InitState(0, 1), abort);
            LosesWake(InitState(0, 1), abort) && s.w.status == Closing && Stuck(s.w)
  {
  }

  /** The same abort made inside the last callback of a round loses nothing if it was the last thread:
      the round itself closes the object. With another thread left, the round leaves it stuck. */
  lemma AbortInsideRound(s: State, check: EngineCheck, uvOk: bool)
    requires Inv(s) && s.w.phase == InCallback(1) && |s.w.queue| == 1 && s.w.status == Inte && s.w.threadCount > 0 && !s.w.wake
    requires !(check == Alive && uvOk)
    ensures var t := Next(Next(s, Release(Abort, check, uvOk)), Return(true)).w;
            if s.w.threadCount == 1 then t.status == Closed else Stuck(t) && t.status == Closing
  {
  }

  // ---------------------------------------------------------------- progress to CleanUp

  // The object has to close: it was aborted, or its last thread has released it.
  predicate Doomed(w: Work) {
    IsClosed(w) || w.threadCount == 0
  }

  // Sends and acquires stop while the object still accepts them; after an abort nothing is excluded.
  predicate Quiet(s: State, step: Step) {
    s.w.status == Inte ==> !step.Send? && !step.Acquire?
  }

  predicate QuietRun(s: State, steps: seq<Step>)
    requires EnabledRun(s, steps)
    decreases |steps|
  {
    steps == [] || (Quiet(s, steps[0]) && QuietRun(Next(s, steps[0]), steps[1..]))
  }

  function Rank(w: Work): nat {
    match w.phase
    case Gone => 0
    case Draining => |w.queue| + 1
    case ClosePending => |w.queue| + 2
    case InCallback(_) => 4 * |w.queue| + 2
    case Dispatched => 4 * |w.queue| + 3
    case Idle => 4 * |w.queue| + 4
  }

  // Rounds that may still start.
  function RoundsLeft(w: Work): nat {
    match w.phase
    case Idle => 1
    case InCallback(size) => if w.status == Inte && size == |w.queue| then 0 else 1
    case _ => 0
  }

  function LoopSteps(steps: seq<Step>): nat {
    if steps == [] then 0 else (if IsClient(steps[0]) then 0 else 1) + LoopSteps(steps[1..])
  }

  function Dispatches(steps: seq<Step>): nat {
    if steps == [] then 0 else (if steps[0].Dispatch? then 1 else 0) + Dispatches(steps[1..])
  }

  lemma DoomedStep(s: State, step: Step)
    requires Inv(s) && Doomed(s.w) && Enabled(s, step) && Quiet(s, step)
    ensures Doomed(Next(s, step).w)
    ensures Rank(Next(s, step).w) + (if IsClient(step) then 0 else 1) <= Rank(s.w)
    ensures RoundsLeft(Next(s, step).w) + (if step.Dispatch? then 1 else 0) <= RoundsLeft(s.w)
  {
  }

  /** Once the object is doomed, every step of the loop thread is progress, whatever the clients
      still call: after at most 4 * |queue| + 4 of them, with at most one more round, it is deleted. */
  lemma {:induction false} ReachesCleanUp(s: State, steps: seq<Step>)
    requires Inv(s) && Doomed(s.w) && EnabledRun(s, steps) && QuietRun(s, steps)
    ensures Doomed(Run(s, steps).w)
    ensures Rank(Run(s, steps).w) + LoopSteps(steps) <= Rank(s.w) <= 4 * |s.w.queue| + 4
    ensures Dispatches(steps) + RoundsLeft(Run(s, steps).w) <= RoundsLeft(s.w) <= 1
    ensures LoopSteps(steps) >= Rank(s.w) ==> Run(s, steps).w.phase == Gone
    decreases |steps|
  {
    if steps != [] {
      NextKeepsInv(s, steps[0]);
      DoomedStep(s, steps[0]);
      ReachesCleanUp(Next(s, steps[0]), steps[1..]);
    }
  }

  // What the loop thread does next with a doomed object.
  function LoopStep(w: Work): Step {
    match w.phase
    case Idle => Dispatch
    case Dispatched => Begin
    case InCallback(_) => Return(true)
    case ClosePending => CloseCallback
    case _ => Drain
  }

  /** ... and until it is deleted the loop thread has such a step to take if and only if the object is
      not stuck. */
  lemma LoopIsBlockedIff(s: State)
    requires Inv(s) && Doomed(s.w) && s.w.phase != Gone
    ensures !IsClient(LoopStep(s.w)) && (Enabled(s, LoopStep(s.w)) <==> !Stuck(s.w))
  {
  }
}
