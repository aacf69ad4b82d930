/** The default function of an engine: senders enter through the alive mutex and a shared lock,
    the destroyer nulls the function under the unique lock before it aborts. Any number of sender
    threads, one destroyer (the loop thread in Deinit), and the rounds of the loop thread. */
module DefaultFunctionLocks {
  import opened SafeAsyncWork

  type Thread = nat

  // napi_send_event, lock by lock.
  datatype Sender =
    | Entry
    | HoldsAlive        // alive mutex taken
    | EngineSeen        // engine found alive; about to take the shared lock, alive mutex still held
    | HoldsBoth         // shared lock taken, alive mutex not yet given back
    | HoldsShared
    | Entering          // defaultFunc was not null
    | InSend            // holds the work's own mutex too
    | InCheck           // ... and the alive mutex again, inside ValidEngineCheck
    | Sent(outcome: Outcome)
    | Left

  // DestoryDefaultFunction and what follows it in Deinit.
  datatype Destroyer =
    | Before
    | Waiting           // blocked on the unique lock
    | HoldsUnique
    | Nulled            // defaultFunc is null, unique lock still held
    | Aborting          // unique lock given back, Release(ABORT) about to be called
    | InRelease         // holds the work's mutex
    | InReleaseCheck    // ... and the alive mutex
    | Aborted
    | Killing           // SetDead holds the alive mutex
    | Dead

  /** `writersFirst`: the shared mutex turns readers away while a writer waits. */
  datatype Locks = Locks(writersFirst: bool, work: State, engineAlive: bool,
                         senders: map<Thread, Sender>, destroyer: Destroyer)

  datatype LockStep = SenderStep(thread: Thread, uvOk: bool) | DestroyerStep(signalOk: bool) | RoundStep(step: Step)

  function InitLocks(writersFirst: bool, threads: set<Thread>): Locks {
    Locks(writersFirst, InitState(0, 1), true, map t | t in threads :: Entry, Before)
  }

  // ---------------------------------------------------------------- who holds what

  predicate HasAlive(p: Sender) { p.HoldsAlive? || p.EngineSeen? || p.HoldsBoth? || p.InCheck? }
  predicate HasShared(p: Sender) {
    p.HoldsBoth? || p.HoldsShared? || p.Entering? || p.InSend? || p.InCheck? || p.Sent?
  }
  predicate HasWork(p: Sender) { p.InSend? || p.InCheck? }
  predicate HasUnique(d: Destroyer) { d.HoldsUnique? || d.Nulled? }

  predicate AliveFree(s: Locks) {
    !s.destroyer.InReleaseCheck? && !s.destroyer.Killing? && forall t :: t in s.senders ==> !HasAlive(s.senders[t])
  }
  predicate WorkFree(s: Locks) {
    !s.destroyer.InRelease? && !s.destroyer.InReleaseCheck? && forall t :: t in s.senders ==> !HasWork(s.senders[t])
  }
  predicate NoReaders(s: Locks) {
    forall t :: t in s.senders ==> !HasShared(s.senders[t])
  }
  predicate FunctionSet(s: Locks) {
    s.destroyer.Before? || s.destroyer.Waiting? || s.destroyer.HoldsUnique?
  }

  predicate SenderEnabled(s: Locks, p: Sender) {
    match p
    case Entry => AliveFree(s)
    case EngineSeen => !HasUnique(s.destroyer) && !(s.writersFirst && s.destroyer.Waiting?)
    case Entering => WorkFree(s)
    case InSend => AliveFree(s) || IsClosed(s.work.w)
    case Left => false
    case _ => true
  }

  predicate DestroyerEnabled(s: Locks) {
    match s.destroyer
    case Waiting => NoReaders(s)
    case Aborting => WorkFree(s) && s.work.w.phase != Gone
    case InRelease => AliveFree(s)
    case Aborted => AliveFree(s)
    case Dead => false
    case _ => true
  }

  predicate LockEnabled(s: Locks, step: LockStep) {
    match step
    case SenderStep(t, _) => t in s.senders && SenderEnabled(s, s.senders[t])
    case DestroyerStep(_) => DestroyerEnabled(s)
    case RoundStep(st) => !IsClient(st) && Enabled(s.work, st) && (st.Begin? || st.Return? ==> WorkFree(s))
  }

  function CheckOf(s: Locks): EngineCheck {
    if s.engineAlive then Alive else SafeAsyncWork.EngineCheck.Dead
  }

  // The Send that thread t finishes in state s; its data is the thread's name.
  function SendOf(s: Locks, t: Thread, uvOk: bool): Step {
    Send(t, NonBlocking, CheckOf(s), uvOk)
  }

  function SenderNext(s: Locks, t: Thread, uvOk: bool): Locks
    requires t in s.senders && SenderEnabled(s, s.senders[t])
  {
    match s.senders[t]
    case Entry => s.(senders := s.senders[t := HoldsAlive])
    case HoldsAlive => s.(senders := s.senders[t := if s.engineAlive then EngineSeen else Left])
    case EngineSeen => s.(senders := s.senders[t := HoldsBoth])
    case HoldsBoth => s.(senders := s.senders[t := HoldsShared])
    case HoldsShared => s.(senders := s.senders[t := if FunctionSet(s) then Entering else Left])
    case Entering => s.(senders := s.senders[t := InSend])
    case InSend =>
      if IsClosed(s.work.w) then FinishSend(s, t, uvOk) else s.(senders := s.senders[t := InCheck])
    case InCheck => FinishSend(s, t, uvOk)
    case _ => s.(senders := s.senders[t := Left])
  }

  function FinishSend(s: Locks, t: Thread, uvOk: bool): Locks
    requires t in s.senders
  {
    var send := SendOf(s, t, uvOk);
    s.(work := if s.work.w.phase == Gone then s.work else Next(s.work, send),
       senders := s.senders[t := Sent(SendEffect(s.work.w, t, NonBlocking, CheckOf(s), uvOk).1)])
  }

  function DestroyerNext(s: Locks, signalOk: bool): Locks
    requires DestroyerEnabled(s)
  {
    match s.destroyer
    case Before => s.(destroyer := Waiting)
    case Waiting => s.(destroyer := HoldsUnique)
    case HoldsUnique => s.(destroyer := Nulled)
    case Nulled => s.(destroyer := Aborting)
    case Aborting => s.(destroyer := InRelease)
    case InRelease => s.(destroyer := InReleaseCheck)
    case InReleaseCheck =>
      s.(destroyer := Aborted,
         work := if s.work.w.phase == Gone then s.work else Next(s.work, Release(Abort, CheckOf(s), signalOk)))
    case Aborted => s.(destroyer := Killing)
    case _ => s.(destroyer := Destroyer.Dead, engineAlive := false)
  }

  function LockNext(s: Locks, step: LockStep): Locks
    requires LockEnabled(s, step)
  {
    match step
    case SenderStep(t, uvOk) => SenderNext(s, t, uvOk)
    case DestroyerStep(signalOk) => DestroyerNext(s, signalOk)
    case RoundStep(st) => s.(work := Next(s.work, st))
  }

  predicate LockEnabledRun(s: Locks, steps: seq<LockStep>)
    decreases |steps|
  {
    steps == [] || (LockEnabled(s, steps[0]) && LockEnabledRun(LockNext(s, steps[0]), steps[1..]))
  }

  function LockRun(s: Locks, steps: seq<LockStep>): Locks
    requires LockEnabledRun(s, steps)
    decreases |steps|
  {
    if steps == [] then s else LockRun(LockNext(s, steps[0]), steps[1..])
  }

  // ---------------------------------------------------------------- the invariant

  // The abort has not been made yet.
  predicate NotAborted(d: Destroyer) {
    d.Before? || d.Waiting? || d.HoldsUnique? || d.Nulled? || d.Aborting? || d.InRelease? || d.InReleaseCheck?
  }

  ghost predicate Exclusive(s: Locks) {
    && (forall t, u :: t in s.senders && u in s.senders && HasAlive(s.senders[t]) && HasAlive(s.senders[u]) ==> t == u)
    && (forall t :: t in s.senders && HasAlive(s.senders[t]) ==> !s.destroyer.InReleaseCheck? && !s.destroyer.Killing?)
    && (forall t, u :: t in s.senders && u in s.senders && HasWork(s.senders[t]) && HasWork(s.senders[u]) ==> t == u)
    && (forall t :: t in s.senders && HasWork(s.senders[t]) ==> !s.destroyer.InRelease? && !s.destroyer.InReleaseCheck?)
    && (HasUnique(s.destroyer) ==> NoReaders(s))
    // who passed the null check still has the function
    && (forall t :: t in s.senders && (s.senders[t].Entering? || HasWork(s.senders[t])) ==> FunctionSet(s))
  }

  ghost predicate OpenUntilAbort(s: Locks) {
    && Inv(s.work) && s.work.w.maxQueueSize == 0
    && (NotAborted(s.destroyer) ==> s.work.w.status == Inte && s.work.w.threadCount == 1)
    && (s.engineAlive <==> s.destroyer != Destroyer.Dead)
  }

  // Every send that returned was accepted (or accepted and then not signalled).
  ghost predicate AllAccepted(s: Locks) {
    forall t :: t in s.senders && s.senders[t].Sent? ==>
      s.senders[t].outcome == Returned(Ok) || s.senders[t].outcome == Returned(Failed)
  }

  ghost predicate LockInv(s: Locks) {
    Exclusive(s) && OpenUntilAbort(s) && AllAccepted(s)
  }

  lemma InitLockInv(writersFirst: bool, threads: set<Thread>)
    ensures LockInv(InitLocks(writersFirst, threads))
  {
  }

  lemma SenderKeepsExclusive(s: Locks, t: Thread, uvOk: bool)
    requires Exclusive(s) && t in s.senders && SenderEnabled(s, s.senders[t])
    ensures Exclusive(SenderNext(s, t, uvOk))
  {
    var n := SenderNext(s, t, uvOk);
    var q := n.senders[t];
    assert n.senders == s.senders[t := q] && n.destroyer == s.destroyer;
    assert HasAlive(q) ==> HasAlive(s.senders[t]) || AliveFree(s);
    assert HasWork(q) ==> HasWork(s.senders[t]) || WorkFree(s);
    assert HasShared(q) ==> HasShared(s.senders[t]) || !HasUnique(s.destroyer);
    assert q.Entering? || HasWork(q) ==> s.senders[t].Entering? || HasWork(s.senders[t]) || FunctionSet(s);
    MoveKeepsExclusive(s, n, t, q);
  }

  lemma MoveKeepsExclusive(s: Locks, n: Locks, t: Thread, q: Sender)
    requires Exclusive(s) && t in s.senders && n.senders == s.senders[t := q] && n.destroyer == s.destroyer
    requires HasAlive(q) ==> HasAlive(s.senders[t]) || AliveFree(s)
    requires HasWork(q) ==> HasWork(s.senders[t]) || WorkFree(s)
    requires HasShared(q) ==> HasShared(s.senders[t]) || !HasUnique(s.destroyer)
    requires q.Entering? || HasWork(q) ==> s.senders[t].Entering? || HasWork(s.senders[t]) || FunctionSet(s)
    ensures Exclusive(n)
  {
    assert forall u :: u in n.senders ==> u in s.senders && (u != t ==> n.senders[u] == s.senders[u]);
  }

  lemma SenderKeepsRest(s: Locks, t: Thread, uvOk: bool)
    requires LockInv(s) && t in s.senders && SenderEnabled(s, s.senders[t])
    ensures OpenUntilAbort(SenderNext(s, t, uvOk)) && AllAccepted(SenderNext(s, t, uvOk))
  {
    if s.senders[t].InCheck? {
      SendIsAccepted(s, t, uvOk);
      NextKeepsInv(s.work, SendOf(s, t, uvOk));
    }
  }

  /** A thread inside Send finds the function open and its engine alive: the data is enqueued, and
      the only other answer than OK is a failed wake-up. */
  lemma SendIsAccepted(s: Locks, t: Thread, uvOk: bool)
    requires LockInv(s) && t in s.senders && HasWork(s.senders[t])
    ensures s.work.w.status == Inte && CheckOf(s) == Alive && s.work.w.phase != Gone
    ensures SenderEnabled(s, s.senders[t]) && s.senders[t].InSend? ==> SenderNext(s, t, uvOk) == s.(senders := s.senders[t := InCheck])
    ensures s.senders[t].InCheck? ==>
              var n := SenderNext(s, t, uvOk);
              && n.work.w.queue == s.work.w.queue + [t] && n.work.w.wake == (s.work.w.wake || uvOk)
              && n.work.log.enqueued == s.work.log.enqueued + [t]
              && n.senders[t] == Sent(Returned(if uvOk then Ok else Failed))
  {
    assert FunctionSet(s);
  }

  /** The two tests: a sender that finds its engine dead, or the function gone, leaves with nothing done;
      otherwise it goes on. */
  lemma SenderTests(s: Locks, t: Thread, uvOk: bool)
    requires LockInv(s) && t in s.senders && (s.senders[t].HoldsAlive? || s.senders[t].HoldsShared?)
    ensures var n := SenderNext(s, t, uvOk);
            && n.work == s.work
            && (s.senders[t].HoldsAlive? ==> n.senders[t] == if s.destroyer == Destroyer.Dead then Left else EngineSeen)
            && (s.senders[t].HoldsShared? ==> n.senders[t] == if NotAborted(s.destroyer) && !NulledYet(s.destroyer) then Entering else Left)
  {
  }

  predicate NulledYet(d: Destroyer) {
    d.Nulled? || d.Aborting? || d.InRelease? || d.InReleaseCheck?
  }

  lemma DestroyerKeepsExclusive(s: Locks, signalOk: bool)
    requires Exclusive(s) && DestroyerEnabled(s)
    ensures Exclusive(DestroyerNext(s, signalOk))
  {
  }

  lemma DestroyerKeepsOpen(s: Locks, signalOk: bool)
    requires OpenUntilAbort(s) && DestroyerEnabled(s)
    ensures OpenUntilAbort(DestroyerNext(s, signalOk))
  {
    if s.destroyer.InReleaseCheck? {
      NextKeepsInv(s.work, Release(Abort, CheckOf(s), signalOk));
    }
  }

  lemma DestroyerKeepsInv(s: Locks, signalOk: bool)
    requires LockInv(s) && DestroyerEnabled(s)
    ensures LockInv(DestroyerNext(s, signalOk))
  {
    DestroyerKeepsExclusive(s, signalOk);
    DestroyerKeepsOpen(s, signalOk);
    assert DestroyerNext(s, signalOk).senders == s.senders;
  }

  lemma LockKeepsInv(s: Locks, step: LockStep)
    requires LockInv(s) && LockEnabled(s, step)
    ensures LockInv(LockNext(s, step))
  {
    match step
    case SenderStep(t, uvOk) =>
      SenderKeepsExclusive(s, t, uvOk);
      SenderKeepsRest(s, t, uvOk);
    case DestroyerStep(signalOk) => DestroyerKeepsInv(s, signalOk);
    case RoundStep(st) => RoundKeepsInv(s, st);
  }

  lemma RoundKeepsInv(s: Locks, st: Step)
    requires LockInv(s) && LockEnabled(s, RoundStep(st))
    ensures LockInv(LockNext(s, RoundStep(st)))
  {
    NextKeepsInv(s.work, st);
  }

  lemma {:induction false} LockRunKeepsInv(s: Locks, steps: seq<LockStep>)
    requires LockInv(s) && LockEnabledRun(s, steps)
    ensures LockInv(LockRun(s, steps))
    decreases |steps|
  {
    if steps != [] {
      LockKeepsInv(s, steps[0]);
      LockRunKeepsInv(LockNext(s, steps[0]), steps[1..]);
    }
  }

  /** Over any run, no send through the default function ever sees it closing: while a thread is
      inside Send the function is open, and every send that returned was accepted. In particular
      nobody is inside Send once the abort has been made. */
  lemma NoSendAfterAbort(writersFirst: bool, threads: set<Thread>, steps: seq<LockStep>, t: Thread)
    requires LockEnabledRun(InitLocks(writersFirst, threads), steps)
    ensures var s := LockRun(InitLocks(writersFirst, threads), steps);
            t in s.senders ==>
              && (HasWork(s.senders[t]) ==> s.work.w.status == Inte && CheckOf(s) == Alive)
              && (!NotAborted(s.destroyer) ==> !s.senders[t].Entering? && !HasWork(s.senders[t]))
              && (s.senders[t].Sent? ==>
                    s.senders[t].outcome == Returned(Ok) || s.senders[t].outcome == Returned(Failed))
  {
    InitLockInv(writersFirst, threads);
    LockRunKeepsInv(InitLocks(writersFirst, threads), steps);
  }

  // ---------------------------------------------------------------- the abort is made, once

  // The function's thread is released with an abort exactly when the destroyer passes that point.
  ghost predicate AbortOnce(s: Locks) {
    if NotAborted(s.destroyer) then !s.work.log.aborted && s.work.log.releases == 0
    else IsClosed(s.work.w) && s.work.log.aborted && s.work.log.releases == 1 && s.work.w.threadCount == 0
  }

  // What was enqueued are the threads that sent, each once.
  ghost predicate SentIsEnqueued(s: Locks) {
    && (forall t :: t in s.senders && s.senders[t].Sent? ==> t in s.work.log.enqueued)
    && (forall x :: x in s.work.log.enqueued ==> x in s.senders && (s.senders[x].Sent? || s.senders[x].Left?))
    && (forall i, j :: 0 <= i < j < |s.work.log.enqueued| ==> s.work.log.enqueued[i] != s.work.log.enqueued[j])
  }

  // A signalled abort is noticed: until the object is closed its wake-up is pending or being served.
  ghost predicate AbortNoticed(s: Locks) {
    !NotAborted(s.destroyer) && s.work.w.status != Closed ==> s.work.w.wake || s.work.w.phase == Dispatched
  }

  lemma SenderKeepsAbort(s: Locks, t: Thread, uvOk: bool)
    requires LockInv(s) && t in s.senders && SenderEnabled(s, s.senders[t])
    ensures AbortOnce(s) ==> AbortOnce(SenderNext(s, t, uvOk))
    ensures AbortNoticed(s) ==> AbortNoticed(SenderNext(s, t, uvOk))
  {
    if HasWork(s.senders[t]) { SendIsAccepted(s, t, uvOk); }
  }

  lemma SenderShape(s: Locks, t: Thread, uvOk: bool)
    requires LockInv(s) && t in s.senders && SenderEnabled(s, s.senders[t])
    ensures var n, p := SenderNext(s, t, uvOk), s.senders[t];
            && n.senders == s.senders[t := n.senders[t]]
            && n.work.log.enqueued == s.work.log.enqueued + (if p.InCheck? then [t] else [])
            && (n.senders[t].Sent? <==> p.InCheck?) && (p.Sent? ==> n.senders[t].Left?) && !p.Left?
  {
    if HasWork(s.senders[t]) { SendIsAccepted(s, t, uvOk); }
  }

  lemma MoveKeepsSent(s: Locks, n: Locks, t: Thread, p: Sender, q: Sender)
    requires SentIsEnqueued(s) && t in s.senders && p == s.senders[t] && n.senders == s.senders[t := q]
    requires n.work.log.enqueued == s.work.log.enqueued + if p.InCheck? then [t] else []
    requires (q.Sent? <==> p.InCheck?) && (p.Sent? ==> q.Left?) && !p.Left?
    ensures SentIsEnqueued(n)
  {
    assert forall x :: x in n.work.log.enqueued <==> x in s.work.log.enqueued || (p.InCheck? && x == t);
  }

  lemma SenderKeepsSent(s: Locks, t: Thread, uvOk: bool)
    requires LockInv(s) && SentIsEnqueued(s) && t in s.senders && SenderEnabled(s, s.senders[t])
    ensures SentIsEnqueued(SenderNext(s, t, uvOk))
  {
    SenderShape(s, t, uvOk);
    MoveKeepsSent(s, SenderNext(s, t, uvOk), t, s.senders[t], SenderNext(s, t, uvOk).senders[t]);
  }

  /** The destroyer's release: an abort of a living engine's function, with its answer from
      uv_async_send. */
  lemma DestroyerAborts(s: Locks, signalOk: bool)
    requires LockInv(s) && DestroyerEnabled(s)
    ensures var n := DestroyerNext(s, signalOk);
            && (s.destroyer.InReleaseCheck? ==>
                  && !NotAborted(n.destroyer) && n.work.w.status == Closing && n.work.w.threadCount == 0
                  && n.work.log.aborted && n.work.log.releases == s.work.log.releases + 1
                  && n.work.w.queue == s.work.w.queue && n.work.w.wake == (s.work.w.wake || signalOk))
            && (!s.destroyer.InReleaseCheck? ==> n.work == s.work && NotAborted(n.destroyer) == NotAborted(s.destroyer))
            && n.work.log.enqueued == s.work.log.enqueued && n.senders == s.senders
  {
  }

  lemma RoundKeepsAbort(s: Locks, st: Step)
    requires LockInv(s) && LockEnabled(s, RoundStep(st))
    ensures AbortOnce(s) ==> AbortOnce(LockNext(s, RoundStep(st)))
    ensures AbortOnce(s) && AbortNoticed(s) ==> AbortNoticed(LockNext(s, RoundStep(st)))
    ensures LockNext(s, RoundStep(st)).work.log.enqueued == s.work.log.enqueued
  {
    LoopDoes(s.work, st);
  }

  predicate AbortSignalled(step: LockStep) {
    step.DestroyerStep? ==> step.signalOk
  }

  lemma LockKeepsAbort(s: Locks, step: LockStep)
    requires LockInv(s) && AbortOnce(s) && SentIsEnqueued(s) && LockEnabled(s, step)
    ensures AbortOnce(LockNext(s, step)) && SentIsEnqueued(LockNext(s, step))
    ensures AbortSignalled(step) && AbortNoticed(s) ==> AbortNoticed(LockNext(s, step))
  {
    match step
    case SenderStep(t, uvOk) =>
      SenderKeepsAbort(s, t, uvOk);
      SenderKeepsSent(s, t, uvOk);
    case DestroyerStep(signalOk) => DestroyerAborts(s, signalOk);
    case RoundStep(st) => RoundKeepsAbort(s, st);
  }

  lemma {:induction false} LockRunKeepsAbort(s: Locks, steps: seq<LockStep>)
    requires LockInv(s) && AbortOnce(s) && SentIsEnqueued(s) && LockEnabledRun(s, steps)
    ensures AbortOnce(LockRun(s, steps)) && SentIsEnqueued(LockRun(s, steps))
    ensures AbortNoticed(s) && (forall i :: 0 <= i < |steps| ==> AbortSignalled(steps[i])) ==> AbortNoticed(LockRun(s, steps))
    decreases |steps|
  {
    if steps != [] {
      LockKeepsInv(s, steps[0]);
      LockKeepsAbort(s, steps[0]);
      LockRunKeepsAbort(LockNext(s, steps[0]), steps[1..]);
    }
  }

  /** Over any run: before the destroyer's release nobody has released or aborted the function; after
      it the function was released once, with an abort, and is CLOSING or CLOSED without threads; if
      the abort was signalled and the object is not yet closed, its wake-up is pending or being served.
      And what was enqueued is what the senders sent, each thread's data once. */
  lemma AbortIsMadeOnce(writersFirst: bool, threads: set<Thread>, steps: seq<LockStep>)
    requires LockEnabledRun(InitLocks(writersFirst, threads), steps)
    ensures var s := LockRun(InitLocks(writersFirst, threads), steps);
            && AbortOnce(s) && SentIsEnqueued(s)
            && ((forall i :: 0 <= i < |steps| ==> AbortSignalled(steps[i])) ==> AbortNoticed(s))
  {
    InitLockInv(writersFirst, threads);
    LockRunKeepsAbort(InitLocks(writersFirst, threads), steps);
  }

  // ---------------------------------------------------------------- progress

  // Some sender or the destroyer can take a step.
  ghost predicate Progress(s: Locks) {
    DestroyerEnabled(s) || exists t :: t in s.senders && SenderEnabled(s, s.senders[t])
  }

  predicate AllDone(s: Locks) {
    s.destroyer == Destroyer.Dead && forall t :: t in s.senders ==> s.senders[t].Left?
  }

  ghost predicate Stuck(s: Locks) {
    !Progress(s) && !AllDone(s)
  }

  // One sender holds the shared lock and wants the alive mutex, another holds the alive mutex and wants
  // the shared lock, and the destroyer waits for the readers.
  ghost predicate Cycle(s: Locks) {
    && s.writersFirst && s.destroyer.Waiting?
    && (exists t :: t in s.senders && s.senders[t].InSend?)
    && (exists u :: u in s.senders && s.senders[u].EngineSeen?)
  }

  // Past the shared lock, and not kept waiting by another lock.
  predicate MayGoOn(p: Sender) {
    p.HoldsShared? || p.Sent?
  }

  /** The lock order (alive, shared, work, alive again) is stuck in exactly one situation, although a
      sender takes the alive mutex twice: waiting writers come first, the cycle is closed, and no
      other reader can still go on. */
  lemma StuckIff(s: Locks)
    requires LockInv(s)
    ensures Stuck(s) <==> Cycle(s) && forall t :: t in s.senders ==> !MayGoOn(s.senders[t])
  {
    if Cycle(s) {
      CycleBlocks(s);
    } else if AliveFree(s) {
      FreeProgresses(s);
    } else {
      AliveHolderProgresses(s);
    }
  }

  lemma CycleBlocks(s: Locks)
    requires LockInv(s) && Cycle(s)
    ensures Progress(s) <==> exists t :: t in s.senders && MayGoOn(s.senders[t])
    ensures !AllDone(s)
  {
    var t :| t in s.senders && s.senders[t].InSend?;
    var u :| u in s.senders && s.senders[u].EngineSeen?;
    assert HasShared(s.senders[t]) && HasWork(s.senders[t]) && HasAlive(s.senders[u]);
    assert !AliveFree(s) && !WorkFree(s) && !NoReaders(s);
    forall v | v in s.senders && SenderEnabled(s, s.senders[v]) ensures MayGoOn(s.senders[v]) {
      assert HasAlive(s.senders[v]) ==> v == u;
    }
    if v :| v in s.senders && MayGoOn(s.senders[v]) {
      assert SenderEnabled(s, s.senders[v]);
    }
  }

  lemma FreeProgresses(s: Locks)
    requires LockInv(s) && AliveFree(s)
    ensures Progress(s) || AllDone(s)
  {
    if !WorkFree(s) {
      if t :| t in s.senders && HasWork(s.senders[t]) {
        assert !HasAlive(s.senders[t]);
        assert SenderEnabled(s, s.senders[t]);
      } else {
        assert DestroyerEnabled(s);
      }
    } else if t :| t in s.senders && !s.senders[t].Left? {
      assert !HasAlive(s.senders[t]);
      assert SenderEnabled(s, s.senders[t]);
    } else if s.destroyer != Destroyer.Dead {
      assert s.work.w.phase != Gone || !s.destroyer.Aborting?;
      assert DestroyerEnabled(s);
    }
  }

  lemma AliveHolderProgresses(s: Locks)
    requires LockInv(s) && !AliveFree(s) && !Cycle(s)
    ensures Progress(s)
  {
    if s.destroyer.InReleaseCheck? || s.destroyer.Killing? || HasUnique(s.destroyer) {
      assert DestroyerEnabled(s);
    } else {
      var t :| t in s.senders && HasAlive(s.senders[t]);
      if s.senders[t].EngineSeen? && s.writersFirst && s.destroyer.Waiting? {
        WaitingProgresses(s, t);
      } else {
        assert SenderEnabled(s, s.senders[t]);
      }
    }
  }

  // Nobody is inside Send, so the readers can leave, or there are none.
  lemma WaitingProgresses(s: Locks, t: Thread)
    requires LockInv(s) && !Cycle(s) && s.writersFirst && s.destroyer.Waiting?
    requires t in s.senders && s.senders[t].EngineSeen?
    ensures Progress(s)
  {
    assert forall v :: v in s.senders ==> !s.senders[v].InSend?;
    if !NoReaders(s) {
      var u :| u in s.senders && HasShared(s.senders[u]);
      if s.senders[u].Entering? && !WorkFree(s) {
        var v :| v in s.senders && HasWork(s.senders[v]);
        assert SenderEnabled(s, s.senders[v]);
      } else {
        assert SenderEnabled(s, s.senders[u]);
      }
    }
  }

  /** In particular some thread can always move if readers are admitted while a writer waits. */
  lemma NoDeadlock(s: Locks)
    requires LockInv(s) && !s.writersFirst && !AllDone(s)
    ensures Progress(s)
  {
    StuckIff(s);
  }

  ghost predicate Reaches(s: Locks, t: Locks) {
    exists steps :: LockEnabledRun(s, steps) && LockRun(s, steps) == t
  }

  lemma Reach(s: Locks, t: Locks, step: LockStep)
    requires Reaches(s, t) && LockEnabled(t, step)
    ensures Reaches(s, LockNext(t, step))
  {
    var steps :| LockEnabledRun(s, steps) && LockRun(s, steps) == t;
    var one := [step];
    assert one[1..] == [];
    assert LockRun(t, one) == LockNext(t, step);
    LockRunAppend(s, steps, one);
  }

  lemma {:induction false} LockRunAppend(s: Locks, a: seq<LockStep>, b: seq<LockStep>)
    requires LockEnabledRun(s, a) && LockEnabledRun(LockRun(s, a), b)
    ensures LockEnabledRun(s, a + b) && LockRun(s, a + b) == LockRun(LockRun(s, a), b)
    decreases |a|
  {
    if a == [] {
      assert a + b == b;
    } else {
      assert (a + b)[0] == a[0] && (a + b)[1..] == a[1..] + b;
      LockRunAppend(LockNext(s, a[0]), a[1..], b);
    }
  }

  lemma {:induction false} PartiesStay(s: Locks, steps: seq<LockStep>)
    requires LockEnabledRun(s, steps)
    ensures LockRun(s, steps).senders.Keys == s.senders.Keys && LockRun(s, steps).writersFirst == s.writersFirst
    decreases |steps|
  {
    if steps != [] { PartiesStay(LockNext(s, steps[0]), steps[1..]); }
  }

  // ---------------------------------------------------------------- the way into the cycle

  // Two senders at the given places, all others at the entry.
  function Placed(threads: set<Thread>, t: Thread, p: Sender, u: Thread, q: Sender): Locks {
    var s := InitLocks(true, threads);
    s.(senders := s.senders[t := p][u := q])
  }

  function Onward(p: Sender): Sender {
    match p
    case Entry => HoldsAlive
    case HoldsAlive => EngineSeen
    case EngineSeen => HoldsBoth
    case HoldsBoth => HoldsShared
    case HoldsShared => Entering
    case _ => InSend
  }

  lemma PlacedTurned(threads: set<Thread>, t: Thread, p: Sender, u: Thread, q: Sender)
    requires t in threads && u in threads && t != u
    ensures Placed(threads, t, p, u, q) == Placed(threads, u, q, t, p)
  {
    var m: map<Thread, Sender> := InitLocks(true, threads).senders;
    assert m[t := p][u := q] == m[u := q][t := p];
  }

  predicate OnItsWay(p: Sender) {
    p.Entry? || p.HoldsAlive? || p.EngineSeen? || p.HoldsBoth? || p.HoldsShared? || p.Entering?
  }

  lemma PlacedFree(threads: set<Thread>, t: Thread, p: Sender, u: Thread, q: Sender)
    requires t in threads && u in threads && t != u
    ensures !HasAlive(p) && !HasAlive(q) ==> AliveFree(Placed(threads, t, p, u, q))
    ensures !HasWork(p) && !HasWork(q) ==> WorkFree(Placed(threads, t, p, u, q))
  {
  }

  lemma PlacedMoves(threads: set<Thread>, t: Thread, p: Sender, u: Thread, q: Sender)
    requires t in threads && u in threads && t != u && OnItsWay(p)
    requires (p.Entry? ==> !HasAlive(q)) && (p.Entering? ==> !HasWork(q))
    ensures var s := Placed(threads, t, p, u, q);
            s.senders[t] == p && SenderEnabled(s, p) && SenderNext(s, t, true) == Placed(threads, t, Onward(p), u, q)
  {
    var s := Placed(threads, t, p, u, q);
    PlacedFree(threads, t, p, u, q);
    assert s.senders[t := Onward(p)] == Placed(threads, t, Onward(p), u, q).senders;
  }

  // The first of the two takes a step, before the destroyer comes.
  lemma Walk(threads: set<Thread>, t: Thread, p: Sender, u: Thread, q: Sender)
    requires t in threads && u in threads && t != u && OnItsWay(p)
    requires (p.Entry? ==> !HasAlive(q)) && (p.Entering? ==> !HasWork(q))
    requires Reaches(InitLocks(true, threads), Placed(threads, t, p, u, q))
    ensures Reaches(InitLocks(true, threads), Placed(threads, t, Onward(p), u, q))
  {
    PlacedMoves(threads, t, p, u, q);
    Reach(InitLocks(true, threads), Placed(threads, t, p, u, q), SenderStep(t, true));
  }

  lemma FirstEnters(threads: set<Thread>, t: Thread, u: Thread)
    requires t in threads && u in threads && t != u
    ensures Reaches(InitLocks(true, threads), Placed(threads, t, InSend, u, Entry))
  {
    var s := InitLocks(true, threads);
    var none: seq<LockStep> := [];
    assert LockEnabledRun(s, none) && LockRun(s, none) == s;
    assert s.senders[t := Entry][u := Entry] == s.senders;
    assert Placed(threads, t, Entry, u, Entry) == s;
    Walk(threads, t, Entry, u, Entry);
    Walk(threads, t, HoldsAlive, u, Entry);
    Walk(threads, t, EngineSeen, u, Entry);
    Walk(threads, t, HoldsBoth, u, Entry);
    Walk(threads, t, HoldsShared, u, Entry);
    Walk(threads, t, Entering, u, Entry);
  }

  lemma CycleReached(threads: set<Thread>, t: Thread, u: Thread)
    requires t in threads && u in threads && t != u
    ensures var s := Placed(threads, t, InSend, u, EngineSeen).(destroyer := Waiting);
            Reaches(InitLocks(true, threads), s) && Cycle(s) && forall v :: v in s.senders ==> !MayGoOn(s.senders[v])
  {
    FirstEnters(threads, t, u);
    PlacedTurned(threads, t, InSend, u, Entry);
    Walk(threads, u, Entry, t, InSend);
    Walk(threads, u, HoldsAlive, t, InSend);
    PlacedTurned(threads, u, EngineSeen, t, InSend);
    var s := Placed(threads, t, InSend, u, EngineSeen);
    Reach(InitLocks(true, threads), s, DestroyerStep(true));
    assert s.senders[t].InSend? && s.senders[u].EngineSeen?;
  }

  ghost predicate CanGetStuck(s: Locks) {
    exists steps :: LockEnabledRun(s, steps) && Stuck(LockRun(s, steps))
  }

  lemma StuckNeedsTwo(writersFirst: bool, threads: set<Thread>, steps: seq<LockStep>)
    requires LockEnabledRun(InitLocks(writersFirst, threads), steps) && Stuck(LockRun(InitLocks(writersFirst, threads), steps))
    ensures writersFirst && |threads| >= 2
  {
    var s0 := InitLocks(writersFirst, threads);
    InitLockInv(writersFirst, threads);
    LockRunKeepsInv(s0, steps);
    PartiesStay(s0, steps);
    assert s0.senders.Keys == threads;
    CycleNeedsTwo(LockRun(s0, steps));
  }

  lemma CycleNeedsTwo(s: Locks)
    requires LockInv(s) && Stuck(s)
    ensures s.writersFirst && |s.senders.Keys| >= 2
  {
    StuckIff(s);
    var t :| t in s.senders && s.senders[t].InSend?;
    var u :| u in s.senders && s.senders[u].EngineSeen?;
    TwoMembers(s.senders.Keys, t, u);
  }

  lemma TwoMembers(a: set<Thread>, t: Thread, u: Thread)
    requires t in a && u in a && t != u
    ensures |a| >= 2
  {
    assert u in a - {t} && |a - {t}| == |a| - 1;
    assert |a - {t}| > 0;
  }

  lemma TwoGetStuck(threads: set<Thread>)
    requires |threads| >= 2
    ensures CanGetStuck(InitLocks(true, threads))
  {
    var s0 := InitLocks(true, threads);
    var t :| t in threads;
    var rest := threads - {t};
    assert |rest| >= 1;
    var u :| u in rest;
    CycleReached(threads, t, u);
    var s := Placed(threads, t, InSend, u, EngineSeen).(destroyer := Waiting);
    var steps :| LockEnabledRun(s0, steps) && LockRun(s0, steps) == s;
    InitLockInv(true, threads);
    LockRunKeepsInv(s0, steps);
    StuckIff(s);
  }

  /** The locks can deadlock if and only if the shared mutex lets waiting writers go first and at least
      two threads send. */
  lemma DeadlockIff(writersFirst: bool, threads: set<Thread>)
    ensures CanGetStuck(InitLocks(writersFirst, threads)) <==> writersFirst && |threads| >= 2
  {
    if CanGetStuck(InitLocks(writersFirst, threads)) {
      var steps :| LockEnabledRun(InitLocks(writersFirst, threads), steps) && Stuck(LockRun(InitLocks(writersFirst, threads), steps));
      StuckNeedsTwo(writersFirst, threads, steps);
    }
    if writersFirst && |threads| >= 2 { TwoGetStuck(threads); }
  }

  /** Two senders and the destroyer suffice. */
  lemma WritersFirstDeadlocks()
    ensures CanGetStuck(InitLocks(true, {0, 1})) && !CanGetStuck(InitLocks(true, {0})) && !CanGetStuck(InitLocks(false, {0, 1}))
  {
    DeadlockIff(true, {0, 1});
    DeadlockIff(true, {0});
    DeadlockIff(false, {0, 1});
  }
}
