/** The object itself: fields updated in place, each method one or more transitions of SafeAsyncWork. */
module ThreadSafeFunction {
  import opened SafeAsyncWork

  class NativeSafeAsyncWork {
    const maxQueueSize: nat
    var status: Status
    var threadCount: nat
    var queue: seq<Pointer>
    var wake: bool           // the coalescing flag of uv_async_send
    ghost var phase: Phase   // where the loop thread is
    ghost var log: Log

    ghost function View(): State
      reads this
    {
      State(Work(status, maxQueueSize, threadCount, queue, wake, phase), log)
    }

    constructor (maxQueueSize: nat, threadCount: nat)
      ensures View() == InitState(maxQueueSize, threadCount)
      ensures status == Inte && queue == [] && !wake && phase == Idle
      ensures this.maxQueueSize == maxQueueSize && this.threadCount == threadCount
    {
      this.maxQueueSize := maxQueueSize;
      this.threadCount := threadCount;
      status, queue, wake, phase := Inte, [], false, Idle;
      log := Log([], [], [], threadCount, 0, 0, 0, false, 0, 0);
    }

    method IsMaxQueueSize() returns (full: bool)
      ensures full == SafeAsyncWork.IsMaxQueueSize(View().w)
      ensures full <==> status != Closing && status != Closed && 0 < maxQueueSize < |queue|
    {
      full := |queue| > maxQueueSize && maxQueueSize > 0 && status != Closing && status != Closed;
    }

    /** In blocking mode on a full queue the caller sleeps: the outcome is `Waits`, nothing changes,
        and it retries when it is woken. */
    method Send(data: Pointer, mode: CallMode, check: EngineCheck, uvOk: bool) returns (outcome: Outcome)
      requires phase != Gone
      modifies this
      ensures View() == Next(old(View()), Step.Send(data, mode, check, uvOk))
      ensures outcome == SendEffect(old(View()).w, data, mode, check, uvOk).1
      ensures var open := status != Closing && status != Closed;
              var full := open && 0 < maxQueueSize < |old(queue)|;
              var accepted := open && !full && check == Alive;
              && status == old(status)
              && (outcome == Waits <==> mode == Blocking && full)
              && (outcome == Returned(QueueFull) <==> mode == NonBlocking && full)
              && (outcome == Returned(InvalidArgs) <==> !open && old(threadCount) == 0)
              && (outcome == Returned(CodeClosed) <==> (!open && old(threadCount) > 0) || (open && !full && check == Replaced))
              && (outcome == Returned(Failed) <==> open && !full && (check == Dead || (check == Alive && !uvOk)))
              && (outcome == Returned(Ok) <==> accepted && uvOk)
              && queue == (if accepted then old(queue) + [data] else old(queue))
              && wake == (old(wake) || (accepted && uvOk))
              && threadCount == (if !open && old(threadCount) > 0 then old(threadCount) - 1 else old(threadCount))
    {
      ghost var before := View();
      log := NextLog(before.w, log, Step.Send(data, mode, check, uvOk));
      var full := IsMaxQueueSize();
      if full {
        return if mode == Blocking then Waits else Returned(QueueFull);
      }
      if status == Closed || status == Closing {
        if threadCount == 0 {
          return Returned(InvalidArgs);
        }
        threadCount := threadCount - 1;
        return Returned(CodeClosed);
      }
      if check != Alive {
        return Returned(CheckCode(check));
      }
      queue := queue + [data];
      outcome := SignalLoop(uvOk);
    }

    method SignalLoop(uvOk: bool) returns (outcome: Outcome)
      modifies this`wake
      ensures wake == (old(wake) || uvOk)
      ensures outcome == Returned(if uvOk then Ok else Failed)
    {
      if uvOk {
        wake := true;
        return Returned(Ok);
      }
      return Returned(Failed);
    }

    method Acquire() returns (outcome: Outcome)
      requires phase != Gone
      modifies this
      ensures View() == Next(old(View()), Step.Acquire)
      ensures outcome == AcquireEffect(old(View()).w).1
      ensures status == old(status) && queue == old(queue) && wake == old(wake)
      ensures if status == Closing || status == Closed then outcome == Returned(CodeClosed) && threadCount == old(threadCount)
              else outcome == Returned(Ok) && threadCount == old(threadCount) + 1
    {
      log := NextLog(View().w, log, Step.Acquire);
      if status == Closed || status == Closing {
        return Returned(CodeClosed);
      }
      threadCount := threadCount + 1;
      return Returned(Ok);
    }

    method Release(mode: ReleaseMode, check: EngineCheck, uvOk: bool) returns (outcome: Outcome)
      requires phase != Gone
      modifies this
      ensures View() == Next(old(View()), Step.Release(mode, check, uvOk))
      ensures outcome == ReleaseEffect(old(View()).w, mode, check, uvOk).1
      ensures var open := old(status) != Closing && old(status) != Closed;
              var released := open && old(threadCount) > 0;
              var tells := released && (mode == Abort || old(threadCount) == 1);
              && queue == old(queue)
              && (outcome == Returned(InvalidArgs) <==> open && old(threadCount) == 0)
              && (outcome == Returned(CodeClosed) <==> !open || (tells && check == Replaced))
              && (outcome == Returned(Failed) <==> tells && (check == Dead || (check == Alive && !uvOk)))
              && (outcome == Returned(Ok) <==> released && (!tells || (check == Alive && uvOk)))
              && threadCount == (if released then old(threadCount) - 1 else old(threadCount))
              && status == (if released && mode == Abort then Closing else old(status))
              && wake == (old(wake) || (tells && check == Alive && uvOk))
    {
      log := NextLog(View().w, log, Step.Release(mode, check, uvOk));
      if status == Closed || status == Closing {
        return Returned(CodeClosed);
      }
      if threadCount == 0 {
        return Returned(InvalidArgs);
      }
      threadCount := threadCount - 1;
      if mode == Abort {
        status := Closing;
      }
      if threadCount == 0 || mode == Abort {
        if check != Alive {
          return Returned(CheckCode(check));
        }
        outcome := SignalLoop(uvOk);
      } else {
        outcome := Returned(Ok);
      }
    }

    // One call of another thread (or of the callback itself) while the lock is dropped.
    method ClientCall(step: Step)
      requires IsClient(step) && phase != Gone
      modifies this
      ensures View() == Next(old(View()), step)
    {
      match step {
        case Send(data, mode, check, uvOk) => var _ := Send(data, mode, check, uvOk);
        case Acquire => var _ := Acquire();
        case Release(mode, check, uvOk) => var _ := Release(mode, check, uvOk);
      }
    }

    // Everything that happens while the lock is dropped once.
    method Unlocked(calls: seq<Step>)
      requires forall i :: 0 <= i < |calls| ==> IsClient(calls[i])
      requires Inv(View()) && phase != Gone
      modifies this
      ensures EnabledRun(old(View()), calls) && View() == Run(old(View()), calls)
      ensures Inv(View()) && phase == old(phase)
    {
      for n := 0 to |calls|
        invariant Inv(View()) && phase == old(phase)
        invariant EnabledRun(old(View()), calls[..n]) && View() == Run(old(View()), calls[..n])
      {
        ghost var before := View();
        ClientCall(calls[n]);
        NextKeepsInv(before, calls[n]);
        RunSnoc(old(View()), calls[..n], calls[n]);
        assert calls[..n + 1] == calls[..n] + [calls[n]];
      }
      assert calls[..|calls|] == calls;
    }

    method CloseHandles()
      requires status != Unknow
      modifies this
      ensures View().w == CloseHandlesEffect(old(View()).w)
      ensures status == Closed && queue == old(queue) && threadCount == old(threadCount)
      ensures phase == if old(status) == Closed then old(phase) else ClosePending
      ensures log == if old(status) == Closed then old(log) else old(log).(uvCloses := old(log).uvCloses + 1)
    {
      if status == Closed {
        return;
      }
      status := Closed;
      phase := ClosePending;
      log := log.(uvCloses := log.uvCloses + 1);
    }

    // The end of ProcessAsyncHandle, after its loop.
    method EndRound(uvOk: bool)
      requires status != Closed && status != Unknow
      modifies this
      ensures View().w == EndRoundEffect(old(View()).w, uvOk) && queue == old(queue)
      ensures (phase == ClosePending <==> queue == [] && threadCount == 0) && (queue != [] && uvOk ==> wake)
      ensures log == if status == Closed then old(log).(uvCloses := old(log).uvCloses + 1) else old(log)
    {
      if queue != [] {
        wake := wake || uvOk;
      }
      phase := Idle;
      if queue == [] && threadCount == 0 {
        CloseHandles();
      }
    }

    /** One pass of the loop in ProcessAsyncHandle up to the pop: the lock is dropped around the
        callback on the front item, so `window` may run, then the front item leaves the queue. */
    method DeliverFront(window: seq<Step>) returns (ghost last: State)
      requires forall i :: 0 <= i < |window| ==> IsClient(window[i])
      requires Inv(View()) && phase.InCallback?
      modifies this
      ensures EnabledRun(old(View()), window) && last == Run(old(View()), window)
      ensures Inv(last) && last.w.phase == old(phase) && last.w.queue != []
      ensures View() == State(last.w.(queue := last.w.queue[1..]),
                              last.log.(delivered := last.log.delivered + [last.w.queue[0]]))
      ensures old(queue)[1..] <= queue && log.delivered == old(log).delivered + [old(queue)[0]]
    {
      ghost var before := View();
      Unlocked(window);
      ClientsKeepQueue(before, window);
      last := View();
      log := log.(delivered := log.delivered + [queue[0]]);
      queue := queue[1..];
    }

    /** One whole round. `windows[n]` is what the other threads do while the lock is dropped for the
        n-th item; whatever that is, the round is a run of the transition system, and it delivers
        exactly the items that were queued when it began. */
    method ProcessAsyncHandle(windows: seq<seq<Step>>, uvOk: bool) returns (ghost trace: seq<Step>)
      requires forall n, i :: 0 <= n < |windows| && 0 <= i < |windows[n]| ==> IsClient(windows[n][i])
      requires phase == Dispatched && (status == Closed || Inv(View()))
      modifies this
      ensures EnabledRun(old(View()), trace) && View() == Run(old(View()), trace)
      ensures phase == Idle || phase == ClosePending
      ensures old(status) != Closed ==> Inv(View())
      ensures old(status) == Closing ==> phase == ClosePending && queue == old(queue)
      ensures old(status) == Inte ==> (phase == ClosePending <==> queue == [] && threadCount == 0)
      ensures old(status) == Inte && queue != [] && uvOk ==> wake
      ensures log.delivered == old(log).delivered + if old(status) == Inte then old(queue) else []
    {
      ghost var start := View();
      trace := [Begin];
      OneStep(start, Begin);
      if status == Closed {
        phase := Idle;
        return;
      }
      NextKeepsInv(start, Begin);
      if status == Closing {
        CloseHandles();
        return;
      }
      if queue == [] {
        EndRound(true);
        return;
      }
      trace := RunRound(windows, uvOk, start);
    }

    // The loop on a non-empty queue, then the tail.
    method RunRound(windows: seq<seq<Step>>, uvOk: bool, ghost start: State) returns (ghost trace: seq<Step>)
      requires forall n, i :: 0 <= n < |windows| && 0 <= i < |windows[n]| ==> IsClient(windows[n][i])
      requires View() == start && Inv(start) && phase == Dispatched && status == Inte && queue != []
      modifies this
      ensures EnabledRun(start, trace) && View() == Run(start, trace)
      ensures Inv(View()) && (phase == Idle || phase == ClosePending)
      ensures (phase == ClosePending <==> queue == [] && threadCount == 0) && (queue != [] && uvOk ==> wake)
      ensures log.delivered == start.log.delivered + start.w.queue
    {
      var n := |queue| - 1;
      trace := RunAllButLast(windows, start);
      var window := if n < |windows| then windows[n] else [];
      trace := LastItem(window, uvOk, start, trace);
      assert start.w.queue == start.w.queue[..n] + [start.w.queue[n]];
    }

    // The last pass and the tail: one critical section.
    method LastItem(window: seq<Step>, uvOk: bool, ghost start: State, ghost before: seq<Step>)
      returns (ghost trace: seq<Step>)
      requires forall i :: 0 <= i < |window| ==> IsClient(window[i])
      requires EnabledRun(start, before) && View() == Run(start, before) && Inv(View())
      requires phase == InCallback(1)
      modifies this
      ensures EnabledRun(start, trace) && View() == Run(start, trace) && Inv(View())
      ensures phase == Idle || phase == ClosePending
      ensures (phase == ClosePending <==> queue == [] && threadCount == 0) && (queue != [] && uvOk ==> wake)
      ensures log.delivered == old(log).delivered + [old(queue)[0]]
    {
      ghost var last := DeliverFront(window);
      EndRound(uvOk);
      Extend(start, before, window, Return(uvOk), last);
      trace := before + window + [Return(uvOk)];
    }

    method RunAllButLast(windows: seq<seq<Step>>, ghost start: State) returns (ghost trace: seq<Step>)
      requires forall n, i :: 0 <= n < |windows| && 0 <= i < |windows[n]| ==> IsClient(windows[n][i])
      requires View() == start && Inv(start) && phase == Dispatched && status == Inte && queue != []
      modifies this
      ensures EnabledRun(start, trace) && View() == Run(start, trace) && Inv(View())
      ensures phase == InCallback(1)
      ensures log.delivered == start.log.delivered + start.w.queue[..|start.w.queue| - 1]
      ensures start.w.queue[|start.w.queue| - 1..] <= queue
    {
      trace := [Begin];
      OneStep(start, Begin);
      NextKeepsInv(start, Begin);
      var size, n := |queue|, 0;
      phase := InCallback(size);
      while size > 1
        invariant 1 <= size && 0 <= n && n + size == |start.w.queue|
        invariant EnabledRun(start, trace) && View() == Run(start, trace) && Inv(View())
        invariant phase == InCallback(size)
        invariant log.delivered == start.log.delivered + start.w.queue[..n]
        invariant start.w.queue[n..] <= queue
      {
        trace := NextItem(if n < |windows| then windows[n] else [], size, start, trace, n);
        size, n := size - 1, n + 1;
      }
    }

    // One pass that is not the last: at its end the lock is dropped again for the next item.
    method NextItem(window: seq<Step>, size: nat, ghost start: State, ghost before: seq<Step>, ghost n: nat)
      returns (ghost trace: seq<Step>)
      requires forall i :: 0 <= i < |window| ==> IsClient(window[i])
      requires EnabledRun(start, before) && View() == Run(start, before) && Inv(View())
      requires size > 1 && phase == InCallback(size) && n + size == |start.w.queue|
      requires start.w.queue[n..] <= queue && log.delivered == start.log.delivered + start.w.queue[..n]
      modifies this
      ensures EnabledRun(start, trace) && View() == Run(start, trace) && Inv(View())
      ensures phase == InCallback(size - 1)
      ensures start.w.queue[n + 1..] <= queue && log.delivered == start.log.delivered + start.w.queue[..n + 1]
    {
      assert start.w.queue[n..][1..] == start.w.queue[n + 1..];
      ghost var last := DeliverFront(window);
      phase := InCallback(size - 1);
      Extend(start, before, window, Return(true), last);
      trace := before + window + [Return(true)];
    }

    /** The uv_close callback: the finalizer, then the null-env drain, then `delete this`. No lock is
        held: `windows[n]` is what the other threads call before the n-th item is drained (the last
        one before the deletion). Whatever that is, exactly the items left behind are drained. */
    method CleanUp(windows: seq<seq<Step>>) returns (ghost trace: seq<Step>)
      requires forall n, i :: 0 <= n < |windows| && 0 <= i < |windows[n]| ==> IsClient(windows[n][i])
      requires Inv(View()) && phase == ClosePending
      modifies this
      ensures EnabledRun(old(View()), trace) && View() == Run(old(View()), trace)
      ensures phase == Gone && log.drained == old(log).drained + old(queue)
      ensures log.finalizers == 1 && log.enqueued == log.delivered + log.drained
    {
      ghost var start := View();
      trace := [CloseCallback];
      OneStep(start, CloseCallback);
      NextKeepsInv(start, CloseCallback);
      phase := Draining;
      log := log.(finalizers := log.finalizers + 1);
      trace := OtherThreads(if windows == [] then [] else windows[0], start, trace);
      trace := DrainQueue(windows, start, trace);
      RunSnoc(start, trace, Drain);
      NextKeepsInv(View(), Drain);
      trace := trace + [Drain];
      phase := Gone;
      assert History(View()) == log.delivered + log.drained;
    }

    method DrainQueue(windows: seq<seq<Step>>, ghost start: State, ghost before: seq<Step>) returns (ghost trace: seq<Step>)
      requires forall n, i :: 0 <= n < |windows| && 0 <= i < |windows[n]| ==> IsClient(windows[n][i])
      requires phase == Draining && Inv(View()) && EnabledRun(start, before) && View() == Run(start, before)
      modifies this
      ensures phase == Draining && Inv(View()) && EnabledRun(start, trace) && View() == Run(start, trace)
      ensures queue == [] && log.drained == old(log).drained + old(queue)
    {
      trace := before;
      var n := 0;
      while queue != []
        invariant 0 <= n && phase == Draining && Inv(View()) && EnabledRun(start, trace) && View() == Run(start, trace)
        invariant log.drained + queue == old(log).drained + old(queue)
        decreases |queue|
      {
        n := n + 1;
        trace := DrainOne(windows, n, start, trace);
      }
      assert log.drained + queue == log.drained;
    }

    method DrainOne(windows: seq<seq<Step>>, n: nat, ghost start: State, ghost before: seq<Step>) returns (ghost trace: seq<Step>)
      requires forall n, i :: 0 <= n < |windows| && 0 <= i < |windows[n]| ==> IsClient(windows[n][i])
      requires phase == Draining && Inv(View()) && EnabledRun(start, before) && View() == Run(start, before) && queue != []
      modifies this
      ensures phase == Draining && Inv(View()) && EnabledRun(start, trace) && View() == Run(start, trace)
      ensures |queue| < |old(queue)| && log.drained + queue == old(log).drained + old(queue)
    {
      trace := DrainFront(start, before);
      trace := OtherThreads(if n < |windows| then windows[n] else [], start, trace);
      assert old(queue) == [old(queue)[0]] + queue;
    }

    method DrainFront(ghost start: State, ghost before: seq<Step>) returns (ghost trace: seq<Step>)
      requires phase == Draining && Inv(View()) && EnabledRun(start, before) && View() == Run(start, before) && queue != []
      modifies this
      ensures phase == Draining && Inv(View()) && EnabledRun(start, trace) && View() == Run(start, trace)
      ensures queue == old(queue)[1..] && log.drained == old(log).drained + [old(queue)[0]]
    {
      RunSnoc(start, before, Drain);
      NextKeepsInv(View(), Drain);
      trace := before + [Drain];
      log := log.(drained := log.drained + [queue[0]]);
      queue := queue[1..];
    }

    // Calls of other threads on a closed object: they enqueue nothing.
    method OtherThreads(calls: seq<Step>, ghost start: State, ghost before: seq<Step>) returns (ghost trace: seq<Step>)
      requires forall i :: 0 <= i < |calls| ==> IsClient(calls[i])
      requires phase == Draining && Inv(View()) && EnabledRun(start, before) && View() == Run(start, before)
      modifies this
      ensures phase == Draining && Inv(View()) && EnabledRun(start, trace) && View() == Run(start, trace)
      ensures queue == old(queue) && log.drained == old(log).drained
    {
      ghost var now := View();
      Unlocked(calls);
      ClosedKeepsQueue(now, calls);
      RunAppend(start, before, calls);
      trace := before + calls;
    }
  }

  lemma {:induction false} ClosedKeepsQueue(s: State, calls: seq<Step>)
    requires IsClosed(s.w) && EnabledRun(s, calls) && forall i :: 0 <= i < |calls| ==> IsClient(calls[i])
    ensures Run(s, calls).w.queue == s.w.queue && Run(s, calls).log.drained == s.log.drained
    decreases |calls|
  {
    if calls != [] { ClosedKeepsQueue(Next(s, calls[0]), calls[1..]); }
  }

  lemma OneStep(s: State, step: Step)
    requires Enabled(s, step)
    ensures EnabledRun(s, [step]) && Run(s, [step]) == Next(s, step)
  {
    var one := [step];
    assert one[1..] == [];
  }

  lemma Extend(s: State, trace: seq<Step>, window: seq<Step>, step: Step, last: State)
    requires EnabledRun(s, trace) && EnabledRun(Run(s, trace), window)
    requires last == Run(Run(s, trace), window) && Inv(last) && Enabled(last, step)
    ensures EnabledRun(s, trace + window + [step])
    ensures Run(s, trace + window + [step]) == Next(last, step) && Inv(Next(last, step))
  {
    RunAppend(s, trace, window);
    RunSnoc(s, trace + window, step);
    NextKeepsInv(last, step);
  }

  lemma {:induction false} ClientsKeepQueue(s: State, calls: seq<Step>)
    requires EnabledRun(s, calls) && forall i :: 0 <= i < |calls| ==> IsClient(calls[i])
    ensures s.w.queue <= Run(s, calls).w.queue
    ensures Run(s, calls).log.delivered == s.log.delivered
    decreases |calls|
  {
    if calls != [] {
      ClientsKeepQueue(Next(s, calls[0]), calls[1..]);
    }
  }
}
