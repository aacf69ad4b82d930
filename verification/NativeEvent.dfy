/** Cancelable events on top of the thread-safe function: senders, the consumer's callback and any
    number of cancellers race on one atomic `handleId` per event, and each settles one unit of the
    engine's waiting-request counter. Steps are single atomic operations or whole critical sections;
    `Delta` is what a step adds to the counter, which belongs to the engine (see RequestLedger). */
module NativeEvent {
  import opened SafeAsyncWork

  type EventId = nat
  const INVALID_EVENT_ID: nat := 0xFFFF_FFFF_FFFF_FFFF

  // The consumer inside ThreadSafeCallback, on the item at the front of the queue.
  datatype Consumer = Entered | Loaded(expected: nat) | Claimed | Running | Finished

  // A canceller holding the mutex: it matched a queue entry, or its exchange succeeded. `genuine` tells
  // whether that exchange took the handle from a live event.
  datatype Canceller = NoCanceller | Matched(entry: EventId, wanted: nat) | Exchanged(entry: EventId, genuine: bool)

  datatype Events = Events(base: State, sequence: nat, handles: map<EventId, nat>,
                           sending: set<EventId>, failing: set<EventId>,
                           consumer: Consumer, canceller: Canceller,
                           ran: multiset<EventId>, cancelled: multiset<EventId>, refused: set<EventId>,
                           unsignalled: set<EventId>, strayDecrements: nat)

  datatype EventStep =
    | Start                                                      // id, counter increment, handle store
    | Publish(id: EventId, check: EngineCheck, uvOk: bool)       // the critical section of Send
    | Undo(id: EventId)                                          // give up after a failed Send
    | Load | Exchange | Uncount | RunTask                        // ThreadSafeCallback
    | Cancel(handleId: nat)                                      // UvCancelEvent up to its match
    | CancelExchange | CancelUncount                             // ... its exchange, its decrement
    | Other(step: Step)                                          // Acquire, Release and the loop thread

  function InitEvents(): Events {
    Events(InitState(0, 1), 1, map[], {}, {}, Entered, NoCanceller, multiset{}, multiset{}, {}, {}, 0)
  }

  // ThreadSafeCallback is called on the front item, live or while CleanUp drains.
  predicate AtItem(s: Events) {
    s.base.w.queue != [] && (s.base.w.phase.InCallback? || s.base.w.phase == Draining)
  }

  // Steps of the base machine that take `mutex_`; CleanUp and libuv do not.
  predicate TakesLock(step: Step) {
    IsClient(step) || step.Begin? || step.Return?
  }

  predicate EventEnabled(s: Events, step: EventStep) {
    match step
    case Start => s.base.w.phase != Gone && s.sequence < INVALID_EVENT_ID - 1
    case Publish(id, check, uvOk) =>
      id in s.sending && s.canceller.NoCanceller? && Enabled(s.base, Send(id, NonBlocking, check, uvOk))
    case Undo(id) => id in s.failing
    case Load => AtItem(s) && s.consumer.Entered? && s.base.w.queue[0] in s.handles
    case Exchange => AtItem(s) && s.consumer.Loaded? && s.base.w.queue[0] in s.handles
    case Uncount => AtItem(s) && s.consumer.Claimed?
    case RunTask => AtItem(s) && s.consumer.Running?
    case Cancel(handleId) => handleId != 0 && s.canceller.NoCanceller? && s.base.w.phase != Gone
    case CancelExchange => s.canceller.Matched? && s.canceller.entry in s.handles
    case CancelUncount => s.canceller.Exchanged?
    case Other(st) =>
      && !st.Send? && Enabled(s.base, st)
      && (TakesLock(st) ==> s.canceller.NoCanceller?)
      && (st.Return? || (st.Drain? && s.base.w.queue != []) ==> s.consumer.Finished?)
  }

  // The first queue entry whose handle reads `handleId`.
  function FirstMatch(queue: seq<EventId>, handles: map<EventId, nat>, handleId: nat): (r: Canceller)
    ensures r.Matched? ==> r.wanted == handleId && r.entry in queue && r.entry in handles && handles[r.entry] == handleId
    ensures r.NoCanceller? ==> forall x :: x in queue && x in handles ==> handles[x] != handleId
    ensures !r.Exchanged?
  {
    if queue == [] then NoCanceller
    else if queue[0] in handles && handles[queue[0]] == handleId then Matched(queue[0], handleId)
    else FirstMatch(queue[1..], handles, handleId)
  }

  function EventNext(s: Events, step: EventStep): Events
    requires EventEnabled(s, step)
  {
    match step
    case Start =>
      s.(sequence := s.sequence + 1, handles := s.handles[s.sequence := s.sequence], sending := s.sending + {s.sequence})
    case Publish(id, check, uvOk) =>
      var send := Send(id, NonBlocking, check, uvOk);
      var s1 := s.(base := Next(s.base, send), sending := s.sending - {id});
      if SendEffect(s.base.w, id, NonBlocking, check, uvOk).1 == Returned(Ok) then s1
      else s1.(failing := s.failing + {id},
               unsignalled := if Accepts(s.base.w, send) then s.unsignalled + {id} else s.unsignalled)
    case Undo(id) => s.(failing := s.failing - {id}, refused := s.refused + {id})
    case Load => s.(consumer := Loaded(s.handles[s.base.w.queue[0]]))
    case Exchange =>
      var front := s.base.w.queue[0];
      if s.consumer.expected != INVALID_EVENT_ID && s.handles[front] == s.consumer.expected
      then s.(handles := s.handles[front := INVALID_EVENT_ID], consumer := Claimed)
      else s.(consumer := Finished)
    case Uncount => s.(consumer := Running)
    case RunTask => s.(consumer := Finished, ran := s.ran + multiset{s.base.w.queue[0]})
    case Cancel(handleId) =>
      if IsClosed(s.base.w) then s
      else s.(canceller := FirstMatch(s.base.w.queue, s.handles, handleId))
    case CancelExchange =>
      var (x, wanted) := (s.canceller.entry, s.canceller.wanted);
      if s.handles[x] != wanted then s.(canceller := NoCanceller)
      else if wanted == INVALID_EVENT_ID then s.(canceller := Exchanged(x, false))
      else s.(canceller := Exchanged(x, true), handles := s.handles[x := INVALID_EVENT_ID],
              cancelled := s.cancelled + multiset{x})
    case CancelUncount =>
      s.(canceller := NoCanceller,
         strayDecrements := if s.canceller.genuine then s.strayDecrements else s.strayDecrements + 1)
    case Other(st) =>
      s.(base := Next(s.base, st), consumer := if st.Return? || st.Drain? then Entered else s.consumer)
  }

  // What the step does to the engine's waiting-request counter.
  function Delta(step: EventStep): int {
    match step
    case Start => 1
    case Undo(_) => -1
    case Uncount => -1
    case CancelUncount => -1
    case _ => 0
  }

  // ---------------------------------------------------------------- the invariant

  predicate Settled(s: Events, x: EventId) {
    x in s.handles && s.handles[x] == INVALID_EVENT_ID
  }

  // Claimed by the consumer, its task not yet over.
  predicate InHand(s: Events, x: EventId) {
    AtItem(s) && (s.consumer.Claimed? || s.consumer.Running?) && s.base.w.queue[0] == x
  }

  predicate Distinct(q: seq<EventId>) {
    forall i, j :: 0 <= i < j < |q| ==> q[i] != q[j]
  }

  ghost predicate IdsOk(s: Events) {
    && 0 < s.sequence < INVALID_EVENT_ID
    && (forall x :: x in s.handles <==> 0 < x < s.sequence)
    && (forall x :: x in s.handles ==> s.handles[x] == x || s.handles[x] == INVALID_EVENT_ID)
    && Distinct(s.base.log.enqueued)
    && (forall x :: x in s.base.log.enqueued ==> x in s.handles && x !in s.sending)
    && (forall x :: x in s.sending ==> x in s.handles && s.handles[x] == x && x !in s.failing && x !in s.refused)
    && (forall x :: x in s.failing ==> x in s.handles && x !in s.refused)
    && (forall x :: x in s.refused ==> x in s.handles)
    && (forall x :: x in s.handles ==> x in s.sending || x in s.failing || x in s.refused || x in s.base.log.enqueued)
    && (forall x :: x in s.failing || x in s.refused ==> (x in s.base.log.enqueued <==> x in s.unsignalled))
    && (forall x :: x in s.unsignalled ==> x in s.failing || x in s.refused)
  }

  ghost predicate OutcomeOk(s: Events) {
    && (forall x :: s.ran[x] + s.cancelled[x] + (if InHand(s, x) then 1 else 0) == if Settled(s, x) then 1 else 0)
    && (forall x :: x in s.base.log.delivered || x in s.base.log.drained ==> Settled(s, x))
    && (forall x :: Settled(s, x) ==> x in s.base.log.enqueued)
  }

  ghost predicate ThreadsOk(s: Events) {
    && (!s.consumer.Entered? ==> AtItem(s))
    && (s.consumer.Loaded? ==> s.consumer.expected == s.base.w.queue[0] || Settled(s, s.base.w.queue[0]))
    && (s.consumer.Finished? ==> Settled(s, s.base.w.queue[0]))
    && (!s.canceller.NoCanceller? ==> s.base.w.status == Inte && s.canceller.entry in s.base.w.queue)
    && (s.canceller.Matched? ==> s.canceller.wanted == s.canceller.entry || s.canceller.wanted == INVALID_EVENT_ID)
  }

  ghost predicate EventInv(s: Events) {
    Inv(s.base) && IdsOk(s) && OutcomeOk(s) && ThreadsOk(s)
  }

  lemma InitEventInv()
    ensures EventInv(InitEvents())
  {
  }

  lemma QueueIsEnqueued(s: Events)
    requires Inv(s.base)
    ensures forall x :: x in s.base.w.queue ==> x in s.base.log.enqueued
    ensures forall x :: x in s.base.log.delivered || x in s.base.log.drained ==> x in s.base.log.enqueued
    ensures forall x :: x in s.base.log.enqueued ==> x in s.base.w.queue || x in s.base.log.delivered || x in s.base.log.drained
  {
    assert s.base.log.enqueued == s.base.log.delivered + s.base.log.drained + s.base.w.queue;
  }

  lemma StartKeepsIds(s: Events, t: Events)
    requires IdsOk(s) && s.sequence < INVALID_EVENT_ID - 1
    requires t == s.(sequence := s.sequence + 1, handles := s.handles[s.sequence := s.sequence],
                     sending := s.sending + {s.sequence})
    ensures IdsOk(t)
  {
  }

  lemma StartKeepsInv(s: Events, step: EventStep)
    requires EventInv(s) && EventEnabled(s, step) && step.Start?
    ensures EventInv(EventNext(s, step))
  {
    QueueIsEnqueued(s);
    var t := EventNext(s, step);
    StartKeepsIds(s, t);
    assert OutcomeOk(t) by {
      assert forall x :: InHand(t, x) == InHand(s, x);
      assert forall x :: Settled(t, x) == Settled(s, x);
    }
  }

  // What the critical section of Send does to the parts the events look at.
  lemma SendShape(b: State, id: EventId, check: EngineCheck, uvOk: bool)
    requires Inv(b) && Enabled(b, Send(id, NonBlocking, check, uvOk))
    ensures var step := Send(id, NonBlocking, check, uvOk);
            var t := Next(b, step);
            && Inv(t) && t.w.phase == b.w.phase && t.w.status == b.w.status
            && t.log.delivered == b.log.delivered && t.log.drained == b.log.drained
            && t.log.enqueued == b.log.enqueued + (if Accepts(b.w, step) then [id] else [])
            && t.w.queue == b.w.queue + (if Accepts(b.w, step) then [id] else [])
            && (SendEffect(b.w, id, NonBlocking, check, uvOk).1 == Returned(Ok) <==> Accepts(b.w, step) && uvOk)
            && (b.w.phase == Draining ==> !Accepts(b.w, step))
  {
    NextKeepsInv(b, Send(id, NonBlocking, check, uvOk));
  }

  lemma PublishKeepsIds(s: Events, t: Events, id: EventId, accepted: bool, ok: bool)
    requires IdsOk(s) && id in s.sending && t.sending == s.sending - {id} && (ok ==> accepted)
    requires t.base.log.enqueued == s.base.log.enqueued + if accepted then [id] else []
    requires t.handles == s.handles && t.sequence == s.sequence && t.refused == s.refused
    requires t.failing == if ok then s.failing else s.failing + {id}
    requires t.unsignalled == if accepted && !ok then s.unsignalled + {id} else s.unsignalled
    ensures IdsOk(t)
  {
    assert id !in s.base.log.enqueued;
    assert forall x :: x in t.base.log.enqueued <==> x in s.base.log.enqueued || (accepted && x == id);
  }

  lemma PublishKeepsInv(s: Events, step: EventStep)
    requires EventInv(s) && EventEnabled(s, step) && step.Publish?
    ensures EventInv(EventNext(s, step))
  {
    SendShape(s.base, step.id, step.check, step.uvOk);
    QueueIsEnqueued(s);
    var t := EventNext(s, step);
    var accepted := Accepts(s.base.w, Send(step.id, NonBlocking, step.check, step.uvOk));
    PublishKeepsIds(s, t, step.id, accepted, accepted && step.uvOk);
    assert t.base.log.enqueued == s.base.log.enqueued || t.base.log.enqueued == s.base.log.enqueued + [step.id];
    assert !s.consumer.Entered? ==> t.base.w.queue[0] == s.base.w.queue[0];
    assert OutcomeOk(t) by {
      assert forall x :: InHand(t, x) == InHand(s, x);
      assert forall x :: Settled(t, x) == Settled(s, x);
    }
    assert ThreadsOk(t);
  }

  lemma UndoKeepsInv(s: Events, step: EventStep)
    requires EventInv(s) && EventEnabled(s, step) && step.Undo?
    ensures EventInv(EventNext(s, step))
  {
    QueueIsEnqueued(s);
    var t := EventNext(s, step);
    assert Inv(t.base);
    assert IdsOk(t);
    assert OutcomeOk(t);
  }

  lemma LoadKeepsInv(s: Events, step: EventStep)
    requires EventInv(s) && EventEnabled(s, step) && step.Load?
    ensures EventInv(EventNext(s, step))
  {
    QueueIsEnqueued(s);
    var t := EventNext(s, step);
    assert Inv(t.base);
    assert IdsOk(t);
    assert OutcomeOk(t);
  }

  // A successful exchange settles one queued, live event.
  lemma SettleKeepsIds(s: Events, t: Events, x: EventId)
    requires IdsOk(s) && x in s.base.log.enqueued
    requires t.handles == s.handles[x := INVALID_EVENT_ID]
    requires t.base == s.base && t.sequence == s.sequence && t.sending == s.sending && t.failing == s.failing
    requires t.refused == s.refused && t.unsignalled == s.unsignalled
    ensures IdsOk(t)
  {
  }

  lemma SettleKeepsOutcome(s: Events, t: Events, x: EventId)
    requires OutcomeOk(s) && !Settled(s, x) && x in s.base.log.enqueued
    requires t.handles == s.handles[x := INVALID_EVENT_ID] && t.base == s.base
    requires forall y :: y != x ==> t.ran[y] == s.ran[y] && t.cancelled[y] == s.cancelled[y]
    requires forall y :: y != x ==> InHand(t, y) == InHand(s, y)
    requires t.ran[x] + t.cancelled[x] + (if InHand(t, x) then 1 else 0) == 1
    ensures OutcomeOk(t)
  {
  }

  lemma ExchangeKeepsInv(s: Events, step: EventStep)
    requires EventInv(s) && EventEnabled(s, step) && step.Exchange?
    ensures EventInv(EventNext(s, step))
  {
    QueueIsEnqueued(s);
    var t := EventNext(s, step);
    var x := s.base.w.queue[0];
    if t.consumer.Claimed? {
      assert s.handles[x] == x && !Settled(s, x) && !InHand(s, x);
      SettleKeepsIds(s, t, x);
      SettleKeepsOutcome(s, t, x);
    } else {
      assert Settled(s, x);
      assert forall y :: InHand(t, y) == InHand(s, y);
    }
  }

  lemma UncountKeepsInv(s: Events, step: EventStep)
    requires EventInv(s) && EventEnabled(s, step) && step.Uncount?
    ensures EventInv(EventNext(s, step))
  {
    QueueIsEnqueued(s);
    var t := EventNext(s, step);
    assert Inv(t.base);
    assert IdsOk(t);
    assert OutcomeOk(t);
  }

  lemma RunTaskKeepsInv(s: Events, step: EventStep)
    requires EventInv(s) && EventEnabled(s, step) && step.RunTask?
    ensures EventInv(EventNext(s, step))
  {
    QueueIsEnqueued(s);
    var t := EventNext(s, step);
    assert Inv(t.base);
    assert IdsOk(t);
    assert OutcomeOk(t);
  }

  lemma CancelKeepsInv(s: Events, step: EventStep)
    requires EventInv(s) && EventEnabled(s, step) && step.Cancel?
    ensures EventInv(EventNext(s, step))
  {
    QueueIsEnqueued(s);
    var t := EventNext(s, step);
    assert Inv(t.base);
    assert IdsOk(t);
    assert OutcomeOk(t);
  }

  lemma CancelExchangeKeepsInv(s: Events, step: EventStep)
    requires EventInv(s) && EventEnabled(s, step) && step.CancelExchange?
    ensures EventInv(EventNext(s, step))
  {
    QueueIsEnqueued(s);
    var t := EventNext(s, step);
    var x := s.canceller.entry;
    if t.canceller.Exchanged? && t.canceller.genuine {
      CancelSettles(s, t, x);
    } else {
      assert forall y :: InHand(t, y) == InHand(s, y);
    }
  }

  lemma CancelSettles(s: Events, t: Events, x: EventId)
    requires IdsOk(s) && OutcomeOk(s) && ThreadsOk(s)
    requires s.canceller.Matched? && s.canceller.entry == x && x in s.base.log.enqueued && !Settled(s, x)
    requires t == s.(canceller := Exchanged(x, true), handles := s.handles[x := INVALID_EVENT_ID],
                     cancelled := s.cancelled + multiset{x})
    ensures IdsOk(t) && OutcomeOk(t) && ThreadsOk(t)
  {
    SettleKeepsIds(s, t, x);
    assert !InHand(s, x);
    assert forall y :: InHand(t, y) == InHand(s, y);
    SettleKeepsOutcome(s, t, x);
    assert forall y :: Settled(s, y) ==> Settled(t, y);
  }

  lemma CancelUncountKeepsInv(s: Events, step: EventStep)
    requires EventInv(s) && EventEnabled(s, step) && step.CancelUncount?
    ensures EventInv(EventNext(s, step))
  {
    QueueIsEnqueued(s);
    var t := EventNext(s, step);
    assert Inv(t.base);
    assert IdsOk(t);
    assert OutcomeOk(t);
  }

  // A pop, live or draining: the front item has been called back and is settled.
  lemma PopKeepsEvents(s: Events, step: EventStep)
    requires EventInv(s) && EventEnabled(s, step) && step.Other?
    requires step.step.Return? || (step.step.Drain? && s.base.w.queue != [])
    ensures EventInv(EventNext(s, step))
  {
    NextKeepsInv(s.base, step.step);
    var t := EventNext(s, step);
    QueueIsEnqueued(s);
    PopKeepsRest(s, t);
    assert s.canceller.NoCanceller?;
  }

  lemma PopKeepsRest(s: Events, t: Events)
    requires IdsOk(s) && OutcomeOk(s) && s.base.w.queue != [] && s.consumer.Finished?
    requires Settled(s, s.base.w.queue[0])
    requires t.base.log.enqueued == s.base.log.enqueued && t == s.(base := t.base, consumer := Entered)
    requires t.base.log.delivered + t.base.log.drained == s.base.log.delivered + s.base.log.drained + [s.base.w.queue[0]]
             || (t.base.log.delivered == s.base.log.delivered + [s.base.w.queue[0]] && t.base.log.drained == s.base.log.drained)
    ensures IdsOk(t) && OutcomeOk(t)
  {
    var (a, b) := (t.base.log.delivered + t.base.log.drained, s.base.log.delivered + s.base.log.drained + [s.base.w.queue[0]]);
    assert forall x :: x in t.base.log.delivered || x in t.base.log.drained ==> x in a;
    assert forall x :: x in a ==> x in s.base.log.delivered || x in s.base.log.drained || x == s.base.w.queue[0];
    assert forall x :: !InHand(t, x) && !InHand(s, x);
    assert forall x :: Settled(t, x) == Settled(s, x);
  }

  // Every other transition leaves the queue and the histories alone.
  lemma OtherShape(b: State, step: Step)
    requires Inv(b) && Enabled(b, step) && !step.Send? && !step.Return? && !(step.Drain? && b.w.queue != [])
    ensures var t := Next(b, step);
            && Inv(t) && t.w.queue == b.w.queue && t.log.enqueued == b.log.enqueued
            && t.log.delivered == b.log.delivered && t.log.drained == b.log.drained
            && (b.w.phase.InCallback? || (b.w.phase == Draining && b.w.queue != []) ==> t.w.phase == b.w.phase)
            && (!TakesLock(step) && b.w.status == Inte ==> t.w.status == Inte)
  {
    NextKeepsInv(b, step);
  }

  lemma OtherKeepsInv(s: Events, step: EventStep)
    requires EventInv(s) && EventEnabled(s, step) && step.Other?
    ensures EventInv(EventNext(s, step))
  {
    if step.step.Return? || (step.step.Drain? && s.base.w.queue != []) {
      PopKeepsEvents(s, step);
    } else {
      OtherShape(s.base, step.step);
      OtherKeepsRest(s, EventNext(s, step));
    }
  }

  lemma OtherKeepsRest(s: Events, t: Events)
    requires IdsOk(s) && OutcomeOk(s) && ThreadsOk(s)
    requires t.base.w.queue == s.base.w.queue && t.base.log.enqueued == s.base.log.enqueued
    requires t.base.log.delivered == s.base.log.delivered && t.base.log.drained == s.base.log.drained
    requires AtItem(s) ==> t.base.w.phase == s.base.w.phase
    requires t == s.(base := t.base)
    requires !s.canceller.NoCanceller? ==> t.base.w.status == Inte
    ensures IdsOk(t) && OutcomeOk(t) && ThreadsOk(t)
  {
    assert forall x :: InHand(t, x) == InHand(s, x);
    assert forall x :: Settled(t, x) == Settled(s, x);
  }

  lemma EventKeepsInv(s: Events, step: EventStep)
    requires EventInv(s) && EventEnabled(s, step)
    ensures EventInv(EventNext(s, step))
  {
    match step
    case Start => StartKeepsInv(s, step);
    case Publish(_, _, _) => PublishKeepsInv(s, step);
    case Undo(_) => UndoKeepsInv(s, step);
    case Load => LoadKeepsInv(s, step);
    case Exchange => ExchangeKeepsInv(s, step);
    case Uncount => UncountKeepsInv(s, step);
    case RunTask => RunTaskKeepsInv(s, step);
    case Cancel(_) => CancelKeepsInv(s, step);
    case CancelExchange => CancelExchangeKeepsInv(s, step);
    case CancelUncount => CancelUncountKeepsInv(s, step);
    case Other(_) => OtherKeepsInv(s, step);
  }

  predicate EventEnabledRun(s: Events, steps: seq<EventStep>)
    decreases |steps|
  {
    steps == [] || (EventEnabled(s, steps[0]) && EventEnabledRun(EventNext(s, steps[0]), steps[1..]))
  }

  function EventRun(s: Events, steps: seq<EventStep>): Events
    requires EventEnabledRun(s, steps)
    decreases |steps|
  {
    if steps == [] then s else EventRun(EventNext(s, steps[0]), steps[1..])
  }

  lemma {:induction false} EventRunKeepsInv(s: Events, steps: seq<EventStep>)
    requires EventInv(s) && EventEnabledRun(s, steps)
    ensures EventInv(EventRun(s, steps))
    decreases |steps|
  {
    if steps != [] {
      EventKeepsInv(s, steps[0]);
      EventRunKeepsInv(EventNext(s, steps[0]), steps[1..]);
    }
  }

  // ---------------------------------------------------------------- run xor cancel

  /** However many cancellers race with the consumer, no event is both run and cancelled, none twice,
      none without having been enqueued; and once the object is gone every enqueued event, drained
      ones included, was run exactly once or cancelled exactly once. */
  lemma RunXorCancel(steps: seq<EventStep>, x: EventId)
    requires EventEnabledRun(InitEvents(), steps)
    ensures var s := EventRun(InitEvents(), steps);
            && s.ran[x] + s.cancelled[x] <= 1
            && (s.ran[x] + s.cancelled[x] == 1 ==> x in s.base.log.enqueued)
            && (x in s.base.log.delivered || x in s.base.log.drained ==> s.ran[x] + s.cancelled[x] == 1)
            && (s.base.w.phase == Gone && x in s.base.log.enqueued ==> s.ran[x] + s.cancelled[x] == 1)
  {
    InitEventInv();
    EventRunKeepsInv(InitEvents(), steps);
    var s := EventRun(InitEvents(), steps);
    QueueIsEnqueued(s);
    if Settled(s, x) && InHand(s, x) {
      PoppedIsNotQueued(s, x);
    } else if x in s.base.log.delivered || x in s.base.log.drained {
      assert !InHand(s, x);
    }
  }

  // Ids are enqueued once, so an id that was popped is not at the front again.
  lemma PoppedIsNotQueued(s: Events, x: EventId)
    requires EventInv(s) && x in s.base.w.queue
    ensures x !in s.base.log.delivered && x !in s.base.log.drained
  {
    var e, d, n := s.base.log.enqueued, s.base.log.delivered + s.base.log.drained, |s.base.log.delivered + s.base.log.drained|;
    assert e == d + s.base.w.queue;
    var j :| 0 <= j < |s.base.w.queue| && s.base.w.queue[j] == x;
    assert e[n + j] == x;
    assert forall i :: 0 <= i < n ==> e[i] == d[i];
    assert x !in d;
  }

  // ---------------------------------------------------------------- counter conservation

  function Live(s: Events): set<EventId> {
    set x | x in s.base.w.queue && x in s.handles && s.handles[x] == x
  }

  /** Requests the engine still has to wait for: being sent or given up, live in the queue, or
      claimed by the consumer or a canceller that has not yet decremented. */
  function Pending(s: Events): nat {
    |s.sending| + |s.failing| + |Live(s)|
    + (if s.consumer.Claimed? then 1 else 0)
    + (if s.canceller.Exchanged? && s.canceller.genuine then 1 else 0)
  }

  // Decrements made twice for one request: sends refused after they were enqueued, and cancels of
  // INVALID_EVENT_ID that hit an already settled entry.
  function Faults(s: Events): nat {
    |s.unsignalled| + s.strayDecrements
  }

  lemma PublishMoves(s: Events, step: EventStep)
    requires EventInv(s) && EventEnabled(s, step) && step.Publish?
    ensures var t := EventNext(s, step);
            Pending(t) - Faults(t) == Pending(s) - Faults(s)
  {
    QueueIsEnqueued(s);
    SendShape(s.base, step.id, step.check, step.uvOk);
    assert step.id !in s.failing && step.id !in s.unsignalled;
    var accepted := Accepts(s.base.w, Send(step.id, NonBlocking, step.check, step.uvOk));
    PublishCount(s, EventNext(s, step), step.id, accepted, accepted && step.uvOk);
  }

  lemma PublishCount(s: Events, t: Events, id: EventId, accepted: bool, ok: bool)
    requires id in s.sending && t.sending == s.sending - {id} && t.handles == s.handles
    requires t.consumer == s.consumer && t.canceller == s.canceller && t.strayDecrements == s.strayDecrements
    requires id in s.handles && s.handles[id] == id && id !in s.base.w.queue && id !in s.failing && id !in s.unsignalled
    requires t.base.w.queue == s.base.w.queue + if accepted then [id] else []
    requires ok ==> accepted
    requires t.failing == if ok then s.failing else s.failing + {id}
    requires t.unsignalled == if accepted && !ok then s.unsignalled + {id} else s.unsignalled
    ensures Pending(t) - Faults(t) == Pending(s) - Faults(s)
  {
    LiveAfterSend(s, t, id, accepted);
    assert s.sending == t.sending + {id};
  }

  lemma LiveAfterSend(s: Events, t: Events, id: EventId, accepted: bool)
    requires t.handles == s.handles && t.base.w.queue == s.base.w.queue + if accepted then [id] else []
    requires id in s.handles && s.handles[id] == id && id !in s.base.w.queue
    ensures |Live(t)| == |Live(s)| + if accepted then 1 else 0
  {
    assert Live(t) == Live(s) + if accepted then {id} else {};
  }

  // The two atomic exchanges: a success moves one event from live to claimed.
  lemma LiveAfterExchange(s: Events, t: Events, x: EventId)
    requires t.base == s.base && x in s.base.w.queue && x in s.handles && s.handles[x] == x && x != INVALID_EVENT_ID
    requires t.handles == s.handles[x := INVALID_EVENT_ID]
    ensures |Live(t)| == |Live(s)| - 1
  {
    assert Live(s) == Live(t) + {x};
  }

  // A successful exchange moves the event from live to taken, an unsuccessful one moves nothing.
  lemma ExchangeCount(s: Events, t: Events, x: EventId)
    requires t.base == s.base && t.sending == s.sending && t.failing == s.failing
    requires t.unsignalled == s.unsignalled && t.strayDecrements == s.strayDecrements
    requires var taken := Pending(t) - |Live(t)| - (Pending(s) - |Live(s)|);
             if t.handles == s.handles then taken == 0
             else taken == 1 && x in s.base.w.queue && x in s.handles && s.handles[x] == x && x != INVALID_EVENT_ID
                  && t.handles == s.handles[x := INVALID_EVENT_ID]
    ensures Pending(t) - Faults(t) == Pending(s) - Faults(s)
  {
    if t.handles == s.handles {
      assert Live(t) == Live(s);
    } else {
      LiveAfterExchange(s, t, x);
    }
  }

  lemma ConsumerExchangeMoves(s: Events)
    requires EventInv(s) && EventEnabled(s, Exchange)
    ensures var t := EventNext(s, Exchange);
            Pending(t) - Faults(t) == Pending(s) - Faults(s)
  {
    ExchangeCount(s, EventNext(s, Exchange), s.base.w.queue[0]);
  }

  lemma CancelExchangeMoves(s: Events)
    requires EventInv(s) && EventEnabled(s, CancelExchange)
    ensures var t := EventNext(s, CancelExchange);
            Pending(t) - Faults(t) == Pending(s) - Faults(s)
  {
    ExchangeCount(s, EventNext(s, CancelExchange), s.canceller.entry);
  }

  lemma PendingMoves(s: Events, step: EventStep)
    requires EventInv(s) && EventEnabled(s, step)
    ensures var t := EventNext(s, step);
            Pending(t) - Faults(t) == Pending(s) - Faults(s) + Delta(step)
  {
    match step
    case Publish(_, _, _) => PublishMoves(s, step);
    case Exchange => ConsumerExchangeMoves(s);
    case CancelExchange => CancelExchangeMoves(s);
    case Other(_) => OtherKeepsLive(s, step);
    case Start => StartMoves(s);
    case Undo(id) => UndoMoves(s, id);
    case _ => assert Live(EventNext(s, step)) == Live(s);
  }

  lemma StartMoves(s: Events)
    requires EventInv(s) && EventEnabled(s, Start)
    ensures var t := EventNext(s, Start);
            Pending(t) - Faults(t) == Pending(s) - Faults(s) + 1
  {
    QueueIsEnqueued(s);
    assert Live(EventNext(s, Start)) == Live(s);
    assert s.sequence !in s.sending;
  }

  lemma UndoMoves(s: Events, id: EventId)
    requires EventInv(s) && EventEnabled(s, Undo(id))
    ensures var t := EventNext(s, Undo(id));
            Pending(t) - Faults(t) == Pending(s) - Faults(s) - 1
  {
    assert Live(EventNext(s, Undo(id))) == Live(s);
    assert s.failing == EventNext(s, Undo(id)).failing + {id};
  }

  lemma OtherKeepsLive(s: Events, step: EventStep)
    requires EventInv(s) && EventEnabled(s, step) && step.Other?
    ensures Live(EventNext(s, step)) == Live(s)
    ensures EventNext(s, step).consumer.Claimed? == s.consumer.Claimed?
  {
    var st := step.step;
    var t := EventNext(s, step);
    if st.Return? || (st.Drain? && s.base.w.queue != []) {
      LiveAfterPop(s, t);
    } else {
      OtherShape(s.base, st);
      assert Live(t) == Live(s);
    }
  }

  lemma LiveAfterPop(s: Events, t: Events)
    requires t.handles == s.handles && s.base.w.queue != [] && t.base.w.queue == s.base.w.queue[1..]
    requires Settled(s, s.base.w.queue[0]) && s.base.w.queue[0] != INVALID_EVENT_ID
    ensures Live(t) == Live(s)
  {
    assert s.base.w.queue == [s.base.w.queue[0]] + s.base.w.queue[1..];
  }

  // The sum of what a run does to the engine's counter.
  function Net(steps: seq<EventStep>): int {
    if steps == [] then 0 else Delta(steps[0]) + Net(steps[1..])
  }

  lemma {:induction false} NetIsPending(s: Events, steps: seq<EventStep>)
    requires EventInv(s) && EventEnabledRun(s, steps)
    ensures var t := EventRun(s, steps);
            Net(steps) == Pending(t) - Faults(t) - (Pending(s) - Faults(s))
    decreases |steps|
  {
    if steps != [] {
      EventKeepsInv(s, steps[0]);
      PendingMoves(s, steps[0]);
      NetIsPending(EventNext(s, steps[0]), steps[1..]);
    }
  }

  // ---------------------------------------------------------------- the calls that go wrong

  // A send to an open object of a living engine whose uv_async_send fails.
  predicate BadSend(s: Events, step: EventStep) {
    step.Publish? && s.base.w.status == Inte && step.check == Alive && !step.uvOk
  }

  // A cancellation of the reserved id while an entry that is settled already is queued.
  predicate BadCancel(s: Events, step: EventStep) {
    step.Cancel? && step.handleId == INVALID_EVENT_ID && s.base.w.status == Inte
    && exists x :: x in s.base.w.queue && Settled(s, x)
  }

  function BadCalls(s: Events, steps: seq<EventStep>): nat
    requires EventEnabledRun(s, steps)
    decreases |steps|
  {
    if steps == [] then 0
    else (if BadSend(s, steps[0]) || BadCancel(s, steps[0]) then 1 else 0) + BadCalls(EventNext(s, steps[0]), steps[1..])
  }

  // Faults so far, and the one a cancellation in progress is going to make.
  function FaultsDue(s: Events): nat {
    Faults(s) + if GenuineCancel(s) then 0 else 1
  }

  // The default function's queue has no bound; a match of the reserved id is of a settled entry.
  ghost predicate DueInv(s: Events) {
    && EventInv(s) && s.base.w.maxQueueSize == 0
    && (s.canceller.Matched? && s.canceller.wanted == INVALID_EVENT_ID ==> Settled(s, s.canceller.entry))
  }

  lemma InitDueInv()
    ensures DueInv(InitEvents()) && FaultsDue(InitEvents()) == 0
  {
    InitEventInv();
  }

  lemma PublishDue(s: Events, step: EventStep)
    requires DueInv(s) && EventEnabled(s, step) && step.Publish?
    ensures FaultsDue(EventNext(s, step)) == FaultsDue(s) + if BadSend(s, step) then 1 else 0
    ensures EventNext(s, step).unsignalled == s.unsignalled + if BadSend(s, step) then {step.id} else {}
  {
    SendShape(s.base, step.id, step.check, step.uvOk);
    assert step.id !in s.unsignalled;
  }

  // The scan stops at a settled entry exactly if there is one.
  lemma ReservedMatch(s: Events)
    requires DueInv(s)
    ensures var m := FirstMatch(s.base.w.queue, s.handles, INVALID_EVENT_ID);
            m.Matched? <==> exists x :: x in s.base.w.queue && Settled(s, x)
  {
    QueueIsEnqueued(s);
  }

  lemma CancelDue(s: Events, step: EventStep)
    requires DueInv(s) && EventEnabled(s, step) && step.Cancel?
    ensures FaultsDue(EventNext(s, step)) == FaultsDue(s) + if BadCancel(s, step) then 1 else 0
    ensures var t := EventNext(s, step);
            t.canceller.Matched? && t.canceller.wanted == INVALID_EVENT_ID ==> Settled(t, t.canceller.entry)
  {
    ReservedMatch(s);
  }

  lemma CancelExchangeDue(s: Events)
    requires DueInv(s) && EventEnabled(s, CancelExchange)
    ensures FaultsDue(EventNext(s, CancelExchange)) == FaultsDue(s)
    ensures !EventNext(s, CancelExchange).canceller.Matched?
  {
  }

  // The other steps leave the faults and the matched entry alone.
  lemma OtherDue(s: Events, step: EventStep)
    requires DueInv(s) && EventEnabled(s, step) && !step.Publish? && !step.Cancel? && !step.CancelExchange?
    ensures FaultsDue(EventNext(s, step)) == FaultsDue(s)
    ensures var t := EventNext(s, step);
            t.canceller.Matched? ==> t.canceller == s.canceller && (Settled(s, t.canceller.entry) ==> Settled(t, t.canceller.entry))
  {
    if step.Start? { assert s.sequence !in s.handles; }
  }

  lemma BoundStays(s: Events, step: EventStep)
    requires EventEnabled(s, step)
    ensures EventNext(s, step).base.w.maxQueueSize == s.base.w.maxQueueSize
  {
  }

  /** A step makes a fault due if and only if it is one of the two calls. */
  lemma FaultDueIff(s: Events, step: EventStep)
    requires DueInv(s) && EventEnabled(s, step)
    ensures DueInv(EventNext(s, step))
    ensures FaultsDue(EventNext(s, step)) == FaultsDue(s) + if BadSend(s, step) || BadCancel(s, step) then 1 else 0
  {
    EventKeepsInv(s, step);
    BoundStays(s, step);
    if step.Publish? {
      PublishDue(s, step);
    } else if step.Cancel? {
      CancelDue(s, step);
    } else if step.CancelExchange? {
      CancelExchangeDue(s);
    } else {
      OtherDue(s, step);
    }
  }

  lemma {:induction false} FaultsDueAreBadCalls(s: Events, steps: seq<EventStep>)
    requires DueInv(s) && EventEnabledRun(s, steps)
    ensures DueInv(EventRun(s, steps))
    ensures FaultsDue(EventRun(s, steps)) == FaultsDue(s) + BadCalls(s, steps)
    decreases |steps|
  {
    if steps != [] {
      FaultDueIff(s, steps[0]);
      FaultsDueAreBadCalls(EventNext(s, steps[0]), steps[1..]);
    }
  }

  /** The events' share of the counter over any run: the requests outstanding, less one for every bad
      call of the run (for a bad cancellation, once it has decremented). So, no cancellation being in
      progress, the two agree if and only if the run had no bad call. */
  lemma EventConservation(steps: seq<EventStep>)
    requires EventEnabledRun(InitEvents(), steps)
    ensures var s, bad := EventRun(InitEvents(), steps), BadCalls(InitEvents(), steps);
            && Net(steps) == Pending(s) - Faults(s)
            && Faults(s) == bad - (if GenuineCancel(s) then 0 else 1)
            && (s.canceller.NoCanceller? ==> (Net(steps) == Pending(s) <==> bad == 0))
  {
    InitDueInv();
    NetIsPending(InitEvents(), steps);
    FaultsDueAreBadCalls(InitEvents(), steps);
  }

  // Some publication of x was a bad send.
  predicate BadlySent(s: Events, steps: seq<EventStep>, x: EventId)
    requires EventEnabledRun(s, steps)
    decreases |steps|
  {
    steps != [] && ((BadSend(s, steps[0]) && steps[0].id == x) || BadlySent(EventNext(s, steps[0]), steps[1..], x))
  }

  lemma UnsignalledStep(s: Events, step: EventStep)
    requires DueInv(s) && EventEnabled(s, step)
    ensures DueInv(EventNext(s, step))
    ensures EventNext(s, step).unsignalled == s.unsignalled + if BadSend(s, step) then {step.id} else {}
  {
    FaultDueIff(s, step);
    if step.Publish? { PublishDue(s, step); }
  }

  lemma {:induction false} UnsignalledIsBadlySent(s: Events, steps: seq<EventStep>, x: EventId)
    requires DueInv(s) && EventEnabledRun(s, steps)
    ensures x in EventRun(s, steps).unsignalled <==> x in s.unsignalled || BadlySent(s, steps, x)
    decreases |steps|
  {
    if steps != [] {
      UnsignalledStep(s, steps[0]);
      UnsignalledIsBadlySent(EventNext(s, steps[0]), steps[1..], x);
    }
  }

  /** The answer to the sender agrees with the queue except after a bad send: an event whose sender
      was told the send failed was enqueued if and only if its uv_async_send failed while the object
      was open and the engine alive. */
  lemma RefusedButEnqueuedIff(steps: seq<EventStep>, x: EventId)
    requires EventEnabledRun(InitEvents(), steps)
    requires x in EventRun(InitEvents(), steps).failing || x in EventRun(InitEvents(), steps).refused
    ensures x in EventRun(InitEvents(), steps).base.log.enqueued <==> BadlySent(InitEvents(), steps, x)
  {
    InitDueInv();
    EventRunKeepsInv(InitEvents(), steps);
    UnsignalledIsBadlySent(InitEvents(), steps, x);
  }

  // ---------------------------------------------------------------- deleted wrappers

  // The program has deleted the wrapper: at the end of the callback, or when the sender gave up.
  predicate WrapperGone(s: Events, x: EventId) {
    || x in s.base.log.delivered || x in s.base.log.drained || x in s.refused
    || (AtItem(s) && s.consumer.Finished? && s.base.w.queue[0] == x)
  }

  // The entries a cancellation's scan reads, up to its match.
  function Scanned(queue: seq<EventId>, handles: map<EventId, nat>, handleId: nat): seq<EventId> {
    if queue == [] then []
    else if queue[0] in handles && handles[queue[0]] == handleId then [queue[0]]
    else [queue[0]] + Scanned(queue[1..], handles, handleId)
  }

  lemma {:induction false} ScannedIsQueued(queue: seq<EventId>, handles: map<EventId, nat>, handleId: nat)
    ensures forall x :: x in Scanned(queue, handles, handleId) ==> x in queue
    ensures queue != [] ==> queue[0] in Scanned(queue, handles, handleId)
    decreases |queue|
  {
    if queue != [] { ScannedIsQueued(queue[1..], handles, handleId); }
  }

  /** The scan of a cancellation reads a deleted wrapper if and only if the callback on the front item is
      over and the item not popped yet, or the scan passes an event whose sender gave up after a send
      that failed to signal. */
  lemma ScanReadsDeletedIff(s: Events, handleId: nat)
    requires EventInv(s) && EventEnabled(s, Cancel(handleId)) && s.base.w.status == Inte
    ensures var scanned := Scanned(s.base.w.queue, s.handles, handleId);
            (exists x :: x in scanned && WrapperGone(s, x)) <==>
              s.consumer.Finished? || exists x :: x in scanned && x in s.refused && x in s.unsignalled
  {
    var scanned := Scanned(s.base.w.queue, s.handles, handleId);
    ScannedIsQueued(s.base.w.queue, s.handles, handleId);
    QueueIsEnqueued(s);
    forall x | x in scanned && WrapperGone(s, x) && !s.consumer.Finished? ensures x in s.refused && x in s.unsignalled {
      PoppedIsNotQueued(s, x);
    }
    if s.consumer.Finished? {
      assert s.base.w.queue[0] in scanned && WrapperGone(s, s.base.w.queue[0]);
    }
  }

  // What a caller can rule out beforehand: a failing uv_async_send, the reserved id.
  predicate Faultless(step: EventStep) {
    (step.Publish? ==> step.uvOk) && (step.Cancel? ==> step.handleId != INVALID_EVENT_ID)
  }

  lemma FaultlessStep(s: Events, step: EventStep)
    requires EventEnabled(s, step) && Faultless(step) && Faults(s) == 0 && GenuineCancel(s)
    ensures Faults(EventNext(s, step)) == 0 && GenuineCancel(EventNext(s, step))
  {
  }

  lemma {:induction false} FaultlessRun(s: Events, steps: seq<EventStep>)
    requires EventEnabledRun(s, steps) && forall i :: 0 <= i < |steps| ==> Faultless(steps[i])
    requires Faults(s) == 0 && GenuineCancel(s)
    ensures Faults(EventRun(s, steps)) == 0
    decreases |steps|
  {
    if steps != [] {
      FaultlessStep(s, steps[0]);
      FaultlessRun(EventNext(s, steps[0]), steps[1..]);
    }
  }

  predicate GenuineCancel(s: Events) {
    && (s.canceller.Matched? ==> s.canceller.wanted != INVALID_EVENT_ID)
    && (s.canceller.Exchanged? ==> s.canceller.genuine)
  }

  /** A send whose uv_async_send fails decrements the counter and still leaves a live event behind,
      which decrements it again when it runs. (The program has deleted its wrapper by then; the model
      keeps the record.) */
  lemma UnsignalledExample()
    ensures var steps := [Start, Publish(1, Alive, false), Undo(1)];
            && EventEnabledRun(InitEvents(), steps)
            && Net(steps) == 0
            && EventRun(InitEvents(), steps).base.w.queue == [1]
            && Pending(EventRun(InitEvents(), steps)) == 1
  {
    var steps := [Start, Publish(1, Alive, false), Undo(1)];
    var s1 := EventNext(InitEvents(), Start);
    var s2 := EventNext(s1, Publish(1, Alive, false));
    var s3 := EventNext(s2, Undo(1));
    assert steps[1..] == [Publish(1, Alive, false), Undo(1)] && steps[1..][1..] == [Undo(1)] && steps[1..][1..][1..] == [];
    assert Live(s3) == {1};
  }

  /** Cancelling the reserved id takes one unit too many exactly when a settled event is still
      queued: the scan matches such an entry, and the exchange cannot fail. */
  lemma ReservedIdCancel(s: Events)
    requires EventInv(s) && s.canceller.NoCanceller? && s.base.w.status == Inte
    ensures EventEnabled(s, Cancel(INVALID_EVENT_ID))
    ensures var m := EventNext(s, Cancel(INVALID_EVENT_ID));
            if exists x :: x in s.base.w.queue && Settled(s, x) then
              && m.canceller.Matched?
              && EventEnabledRun(m, [CancelExchange, CancelUncount]) && Net([CancelExchange, CancelUncount]) == -1
              && Pending(EventRun(m, [CancelExchange, CancelUncount])) == Pending(s)
            else m == s
  {
    QueueIsEnqueued(s);
    var m := EventNext(s, Cancel(INVALID_EVENT_ID));
    if m.canceller.Matched? {
      assert Settled(s, m.canceller.entry);
      var e := EventNext(m, CancelExchange);
      var t := EventNext(e, CancelUncount);
      var steps := [CancelExchange, CancelUncount];
      assert steps[1..] == [CancelUncount] && steps[1..][1..] == [];
      assert Live(t) == Live(s);
    }
  }
}
