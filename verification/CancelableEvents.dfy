/** The operations on cancelable events as the program performs them, on queue and handles updated in
    place; each is an uninterrupted run of the transitions of NativeEvent. */
module CancelableEvents {
  import opened SafeAsyncWork
  import opened NativeEvent

  // The run of an operation that nothing interrupts.
  function CancelSteps(handleId: nat, matched: bool): seq<EventStep> {
    [Cancel(handleId)] + if matched then [CancelExchange, CancelUncount] else []
  }

  function CallbackSteps(live: bool): seq<EventStep> {
    [Load, Exchange] + if live then [Uncount, RunTask] else []
  }

  function SendSteps(id: EventId, check: EngineCheck, uvOk: bool, ok: bool): seq<EventStep> {
    [Start, Publish(id, check, uvOk)] + if ok then [] else [Undo(id)]
  }

  // The run leads from s to t and adds `net` to the engine's counter.
  ghost predicate Leads(s: Events, run: seq<EventStep>, t: Events, net: int) {
    EventEnabledRun(s, run) && EventRun(s, run) == t && Net(run) == net
  }

  /** Whatever an operation leads to, the invariant of all interleavings holds there. */
  lemma LeadsKeepsInv(s: Events, run: seq<EventStep>, t: Events, net: int)
    requires EventInv(s) && Leads(s, run, t, net)
    ensures EventInv(t) && Pending(t) - Faults(t) == Pending(s) - Faults(s) + net
  {
    EventRunKeepsInv(s, run);
    NetIsPending(s, run);
  }

  lemma LeadsNowhere(s: Events)
    ensures Leads(s, [], s, 0)
  {
  }

  lemma LeadsFirst(s: Events, step: EventStep, run: seq<EventStep>, t: Events, net: int)
    requires EventEnabled(s, step) && Leads(EventNext(s, step), run, t, net)
    ensures Leads(s, [step] + run, t, Delta(step) + net)
  {
    assert ([step] + run)[1..] == run;
  }

  lemma LeadsTwo(s: Events, a: EventStep, b: EventStep)
    requires EventEnabled(s, a) && EventEnabled(EventNext(s, a), b)
    ensures Leads(s, [a, b], EventNext(EventNext(s, a), b), Delta(a) + Delta(b))
  {
    var t := EventNext(EventNext(s, a), b);
    LeadsNowhere(t);
    LeadsFirst(EventNext(s, a), b, [], t, 0);
    LeadsFirst(s, a, [b] + [], t, Delta(b));
    assert [a] + ([b] + []) == [a, b];
  }

  // Every queued event has a handle: itself, or the mark of a settled one.
  ghost predicate Known(queue: seq<EventId>, handles: map<EventId, nat>) {
    forall x | x in queue :: x in handles && (handles[x] == x || handles[x] == INVALID_EVENT_ID)
  }

  /** In every state that any interleaving reaches, what the operations below ask of the queue, the
      handles and the next id holds. */
  lemma ReachedIsReady(steps: seq<EventStep>)
    requires EventEnabledRun(InitEvents(), steps)
    ensures var s := EventRun(InitEvents(), steps);
            && Known(s.base.w.queue, s.handles) && s.base.w.maxQueueSize == 0
            && s.sequence !in s.sending && s.sequence !in s.failing && s.sequence !in s.base.w.queue
  {
    InitDueInv();
    FaultsDueAreBadCalls(InitEvents(), steps);
    QueueIsEnqueued(EventRun(InitEvents(), steps));
  }

  // The state after a matched cancellation.
  function Cancelled(s: Events, x: EventId, handleId: nat): Events {
    if handleId == INVALID_EVENT_ID then s.(strayDecrements := s.strayDecrements + 1)
    else s.(handles := s.handles[x := INVALID_EVENT_ID], cancelled := s.cancelled + multiset{x})
  }

  lemma CancelLeads(s: Events, handleId: nat, found: Canceller)
    requires EventEnabled(s, Cancel(handleId))
    requires found == if IsClosed(s.base.w) then NoCanceller else FirstMatch(s.base.w.queue, s.handles, handleId)
    ensures found.Matched? ==> Leads(s, CancelSteps(handleId, true), Cancelled(s, found.entry, handleId), -1)
    ensures !found.Matched? ==> Leads(s, CancelSteps(handleId, false), s, 0)
  {
    var m := EventNext(s, Cancel(handleId));
    if found.Matched? {
      assert m == s.(canceller := found);
      LeadsTwo(m, CancelExchange, CancelUncount);
      LeadsFirst(s, Cancel(handleId), [CancelExchange, CancelUncount], Cancelled(s, found.entry, handleId), -1);
    } else {
      assert m == s;
      LeadsNowhere(s);
      LeadsFirst(s, Cancel(handleId), [], s, 0);
    }
  }

  // The state after the callback on a live event.
  function Ran(s: Events, x: EventId): Events {
    s.(handles := s.handles[x := INVALID_EVENT_ID], ran := s.ran + multiset{x}, consumer := Finished)
  }

  lemma CallbackLeads(s: Events, x: EventId)
    requires AtItem(s) && s.consumer.Entered? && x == s.base.w.queue[0] && x in s.handles
    ensures s.handles[x] != INVALID_EVENT_ID ==> Leads(s, CallbackSteps(true), Ran(s, x), -1)
    ensures s.handles[x] == INVALID_EVENT_ID ==> Leads(s, CallbackSteps(false), s.(consumer := Finished), 0)
  {
    var l := EventNext(s, Load);
    if s.handles[x] != INVALID_EVENT_ID {
      var c := EventNext(l, Exchange);
      LeadsTwo(c, Uncount, RunTask);
      LeadsFirst(l, Exchange, [Uncount, RunTask], Ran(s, x), -1);
      LeadsFirst(s, Load, [Exchange] + [Uncount, RunTask], Ran(s, x), -1);
      assert [Load] + ([Exchange] + [Uncount, RunTask]) == CallbackSteps(true);
    } else {
      LeadsTwo(s, Load, Exchange);
      assert CallbackSteps(false) == [Load, Exchange];
    }
  }

  lemma SendLeads(s: Events, check: EngineCheck, uvOk: bool, ok: bool)
    requires EventEnabled(s, Start) && s.canceller.NoCanceller? && s.sequence !in s.sending && s.sequence !in s.failing
    requires Enabled(s.base, Send(s.sequence, NonBlocking, check, uvOk))
    requires ok == (SendEffect(s.base.w, s.sequence, NonBlocking, check, uvOk).1 == Returned(Ok))
    ensures exists t :: Leads(s, SendSteps(s.sequence, check, uvOk, ok), t, if ok then 1 else 0)
                     && t.base == Next(s.base, Send(s.sequence, NonBlocking, check, uvOk))
                     && t.handles == s.handles[s.sequence := s.sequence] && t.sequence == s.sequence + 1
  {
    var id := s.sequence;
    var a := EventNext(s, Start);
    var b := EventNext(a, Publish(id, check, uvOk));
    if ok {
      LeadsTwo(s, Start, Publish(id, check, uvOk));
      assert SendSteps(id, check, uvOk, true) == [Start, Publish(id, check, uvOk)];
    } else {
      LeadsTwo(a, Publish(id, check, uvOk), Undo(id));
      LeadsFirst(s, Start, [Publish(id, check, uvOk), Undo(id)], EventNext(b, Undo(id)), -1);
      assert SendSteps(id, check, uvOk, false) == [Start] + [Publish(id, check, uvOk), Undo(id)];
    }
  }

  class EventQueue {
    var queue: seq<EventId>
    var closed: bool              // the status is CLOSING or CLOSED
    var handles: map<EventId, nat>
    var sequence: nat
    var requestWaiting: int
    ghost var view: Events

    // The fields are those of the state `view` of the transition system.
    ghost predicate Valid()
      reads this
    {
      && Known(queue, handles) && view.base.w.maxQueueSize == 0
      && view.base.w.queue == queue && IsClosed(view.base.w) == closed
      && view.handles == handles && view.sequence == sequence
    }

    constructor ()
      ensures Valid() && view == InitEvents() && requestWaiting == 0
      ensures queue == [] && handles == map[] && sequence == 1 && !closed
    {
      queue, closed, handles, sequence, requestWaiting := [], false, map[], 1, 0;
      view := InitEvents();
    }

    /** Scans the queue for the handle, under the mutex; a match is settled without fail. */
    method UvCancelEvent(handleId: nat) returns (ok: bool)
      requires Valid() && EventEnabled(view, Cancel(handleId))
      modifies this
      ensures Valid() && queue == old(queue) && closed == old(closed)
      ensures Leads(old(view), CancelSteps(handleId, ok), view, requestWaiting - old(requestWaiting))
      ensures ok == (!closed && exists x :: x in queue && old(handles)[x] == handleId)
      ensures requestWaiting == old(requestWaiting) - (if ok then 1 else 0)
      ensures !ok ==> handles == old(handles)
      ensures ok ==> exists i :: 0 <= i < |queue| && old(handles)[queue[i]] == handleId
                              && (forall j :: 0 <= j < i ==> old(handles)[queue[j]] != handleId)
                              && handles == old(handles)[queue[i] := 0xFFFF_FFFF_FFFF_FFFF]
    {
      ghost var found := if closed then NoCanceller else FirstMatch(queue, handles, handleId);
      CancelLeads(view, handleId, found);
      if closed {
        return false;
      }
      var i;
      ok, i := Scan(handleId);
      if ok {
        view := Cancelled(view, queue[i], handleId);
        handles := handles[queue[i] := INVALID_EVENT_ID];
        requestWaiting := requestWaiting - 1;
      }
    }

    // The first entry whose handle reads handleId.
    method Scan(handleId: nat) returns (found: bool, i: nat)
      requires Known(queue, handles)
      ensures found ==> i < |queue| && handles[queue[i]] == handleId
      ensures FirstMatch(queue, handles, handleId) == if found then Matched(queue[i], handleId) else NoCanceller
      ensures forall j :: 0 <= j < (if found then i else |queue|) ==> handles[queue[j]] != handleId
    {
      i := 0;
      while i < |queue|
        invariant 0 <= i <= |queue|
        invariant FirstMatch(queue[i..], handles, handleId) == FirstMatch(queue, handles, handleId)
        invariant forall j :: 0 <= j < i ==> handles[queue[j]] != handleId
      {
        assert queue[i..][0] == queue[i] && queue[i..][1..] == queue[i + 1..];
        if handles[queue[i]] == handleId {
          return true, i;
        }
        i := i + 1;
      }
      found := false;
    }

    /** The callback on the front item: it runs the task exactly if nobody cancelled the event, and
        gives the waiting request back before the task starts. */
    method ThreadSafeCallback() returns (executed: bool)
      requires Valid() && AtItem(view) && view.consumer.Entered?
      modifies this
      ensures Valid() && queue == old(queue) && queue != [] && closed == old(closed)
      ensures queue[0] in old(handles) && executed == (old(handles)[queue[0]] != 0xFFFF_FFFF_FFFF_FFFF)
      ensures requestWaiting == old(requestWaiting) - (if executed then 1 else 0)
      ensures view.ran == if executed then old(view).ran + multiset{queue[0]} else old(view).ran
      ensures Leads(old(view), CallbackSteps(executed), view, requestWaiting - old(requestWaiting))
      ensures handles == old(handles)[queue[0] := 0xFFFF_FFFF_FFFF_FFFF] && view.consumer.Finished?
    {
      var x := queue[0];
      CallbackLeads(view, x);
      var expected := handles[x];
      executed := expected != INVALID_EVENT_ID;
      if executed {
        view := Ran(view, x);
        handles := handles[x := INVALID_EVENT_ID];
        requestWaiting := requestWaiting - 1;
      } else {
        view := view.(consumer := Finished);
      }
    }

    /** Counts, then sends without blocking; a refused send takes the count back. */
    method SendEventByUv(check: EngineCheck, uvOk: bool) returns (ok: bool, handleId: nat)
      requires Valid() && EventEnabled(view, Start) && view.canceller.NoCanceller?
      requires sequence !in view.sending && sequence !in view.failing && sequence !in queue
      requires Enabled(view.base, Send(sequence, NonBlocking, check, uvOk))
      modifies this
      ensures Valid() && closed == old(closed) && sequence == old(sequence) + 1
      ensures ok == (!closed && check == Alive && uvOk) && handleId == (if ok then old(sequence) else 0)
      ensures queue == if !closed && check == Alive then old(queue) + [old(sequence)] else old(queue)
      ensures requestWaiting == old(requestWaiting) + (if ok then 1 else 0)
      ensures handles == old(handles)[old(sequence) := old(sequence)]
      ensures Leads(old(view), SendSteps(old(sequence), check, uvOk, ok), view, requestWaiting - old(requestWaiting))
    {
      ghost var start := view;
      var id := sequence;
      sequence := sequence + 1;
      requestWaiting := requestWaiting + 1;
      handles := handles[id := id];
      ok, handleId := false, id;
      if !closed && check == Alive {
        queue := queue + [id];
        ok := uvOk;
      }
      if !ok {
        handleId := 0;
        requestWaiting := requestWaiting - 1;
      }
      SendLeads(start, check, uvOk, ok);
      ghost var t :| Leads(start, SendSteps(id, check, uvOk, ok), t, if ok then 1 else 0)
                     && t.base == Next(start.base, Send(id, NonBlocking, check, uvOk))
                     && t.handles == handles && t.sequence == sequence;
      view := t;
    }
  }
}
