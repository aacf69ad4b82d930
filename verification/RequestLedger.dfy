/** The engine's waiting-request counter, shared by async works, cancelable events and async cleanup
    hooks, and the loop in CleanupHandles that waits for it. */
module RequestLedger {
  import opened NativeEvent
  import opened AsyncCleanupHook
  import opened SafeAsyncWork

  type WorkId = nat
  type HookId = nat

  // NativeAsyncWork::Queue: counted, then handed to libuv or given up; then completed (or cancelled).
  datatype Work = Counted | Queued | GivenUp | Settled

  datatype Engine = Engine(requestWaiting: int, events: Events, works: map<WorkId, Work>, hooks: map<HookId, Hook>)

  datatype EngineStep =
    | CountWork(work: WorkId)
    | SubmitWork(work: WorkId, uvOk: bool)
    | GiveUpWork(work: WorkId)
    | CompleteWork(work: WorkId)
    | AddHook(hook: HookId)
    | StepHook(hook: HookId, hookStep: HookStep)
    | StepEvent(eventStep: EventStep)

  function InitEngine(): Engine {
    Engine(0, InitEvents(), map[], map[])
  }

  predicate EngineEnabled(e: Engine, step: EngineStep) {
    match step
    case CountWork(w) => w !in e.works
    case SubmitWork(w, _) => w in e.works && e.works[w] == Work.Counted
    case GiveUpWork(w) => w in e.works && e.works[w] == GivenUp
    case CompleteWork(w) => w in e.works && e.works[w] == Queued
    case AddHook(h) => h !in e.hooks
    case StepHook(h, st) => h in e.hooks && HookEnabled(e.hooks[h], st)
    case StepEvent(st) => EventEnabled(e.events, st)
  }

  function EngineNext(e: Engine, step: EngineStep): Engine
    requires EngineEnabled(e, step)
  {
    match step
    case CountWork(w) => e.(works := e.works[w := Work.Counted], requestWaiting := e.requestWaiting + 1)
    case SubmitWork(w, uvOk) => e.(works := e.works[w := if uvOk then Queued else GivenUp])
    case GiveUpWork(w) => e.(works := e.works[w := Settled], requestWaiting := e.requestWaiting - 1)
    case CompleteWork(w) => e.(works := e.works[w := Settled], requestWaiting := e.requestWaiting - 1)
    case AddHook(h) => e.(hooks := e.hooks[h := Added()])
    case StepHook(h, st) =>
      e.(hooks := e.hooks[h := HookNext(e.hooks[h], st)], requestWaiting := e.requestWaiting + HookDelta(st))
    case StepEvent(st) =>
      e.(events := EventNext(e.events, st), requestWaiting := e.requestWaiting + Delta(st))
  }

  predicate EngineEnabledRun(e: Engine, steps: seq<EngineStep>)
    decreases |steps|
  {
    steps == [] || (EngineEnabled(e, steps[0]) && EngineEnabledRun(EngineNext(e, steps[0]), steps[1..]))
  }

  function EngineRun(e: Engine, steps: seq<EngineStep>): Engine
    requires EngineEnabledRun(e, steps)
    decreases |steps|
  {
    if steps == [] then e else EngineRun(EngineNext(e, steps[0]), steps[1..])
  }

  // ---------------------------------------------------------------- conservation

  function OpenWorks(e: Engine): set<WorkId> {
    set w | w in e.works && e.works[w] != Settled
  }

  function OpenHooks(e: Engine): set<HookId> {
    set h | h in e.hooks && Outstanding(e.hooks[h])
  }

  function Awaited(e: Engine): nat {
    |OpenWorks(e)| + |OpenHooks(e)| + Pending(e.events)
  }

  // The counter says what is outstanding, up to the faults of the event layer.
  ghost predicate LedgerOk(e: Engine) {
    e.requestWaiting == Awaited(e) - Faults(e.events)
  }

  ghost predicate HooksOk(hooks: map<HookId, Hook>) {
    forall h :: h in hooks ==> HookInv(hooks[h])
  }

  ghost predicate EngineInv(e: Engine) {
    EventInv(e.events) && HooksOk(e.hooks) && LedgerOk(e)
  }

  lemma InitEngineInv()
    ensures EngineInv(InitEngine())
  {
    InitEventInv();
    assert Live(InitEvents()) == {};
    assert OpenWorks(InitEngine()) == {} && OpenHooks(InitEngine()) == {};
  }

  // Two sets that differ at most in x.
  lemma OneApart(a: set<nat>, b: set<nat>, x: nat)
    requires a - {x} == b - {x}
    ensures |a| - (if x in a then 1 else 0) == |b| - (if x in b then 1 else 0)
  {
    assert a == (a - {x}) + if x in a then {x} else {};
    assert b == (b - {x}) + if x in b then {x} else {};
  }

  lemma WorkKeepsLedger(e: Engine, step: EngineStep)
    requires LedgerOk(e) && EngineEnabled(e, step)
    requires step.CountWork? || step.SubmitWork? || step.GiveUpWork? || step.CompleteWork?
    ensures LedgerOk(EngineNext(e, step))
  {
    var t := EngineNext(e, step);
    assert OpenHooks(t) == OpenHooks(e);
    assert OpenWorks(t) - {step.work} == OpenWorks(e) - {step.work};
    OneApart(OpenWorks(t), OpenWorks(e), step.work);
  }

  lemma HookKeepsLedger(e: Engine, step: EngineStep)
    requires HooksOk(e.hooks) && LedgerOk(e) && EngineEnabled(e, step) && (step.AddHook? || step.StepHook?)
    ensures HooksOk(EngineNext(e, step).hooks) && LedgerOk(EngineNext(e, step))
  {
    var t := EngineNext(e, step);
    if step.StepHook? { HookKeepsInv(e.hooks[step.hook], step.hookStep); }
    assert OpenWorks(t) == OpenWorks(e);
    assert OpenHooks(t) - {step.hook} == OpenHooks(e) - {step.hook};
    OneApart(OpenHooks(t), OpenHooks(e), step.hook);
  }

  lemma EventKeepsLedger(e: Engine, st: EventStep)
    requires EventInv(e.events) && LedgerOk(e) && EventEnabled(e.events, st)
    ensures var t := EngineNext(e, StepEvent(st));
            EventInv(t.events) && LedgerOk(t) && t.hooks == e.hooks
  {
    var t := EngineNext(e, StepEvent(st));
    EventKeepsInv(e.events, st);
    PendingMoves(e.events, st);
    assert OpenWorks(t) == OpenWorks(e) && OpenHooks(t) == OpenHooks(e);
  }

  lemma EngineKeepsInv(e: Engine, step: EngineStep)
    requires EngineInv(e) && EngineEnabled(e, step)
    ensures EngineInv(EngineNext(e, step))
  {
    match step
    case StepEvent(st) => EventKeepsLedger(e, st);
    case AddHook(_) => HookKeepsLedger(e, step);
    case StepHook(_, _) => HookKeepsLedger(e, step);
    case _ => WorkKeepsLedger(e, step);
  }

  lemma {:induction false} EngineRunKeepsInv(e: Engine, steps: seq<EngineStep>)
    requires EngineInv(e) && EngineEnabledRun(e, steps)
    ensures EngineInv(EngineRun(e, steps))
    decreases |steps|
  {
    if steps != [] {
      EngineKeepsInv(e, steps[0]);
      EngineRunKeepsInv(EngineNext(e, steps[0]), steps[1..]);
    }
  }

  lemma ReachedLedger(steps: seq<EngineStep>)
    requires EngineEnabledRun(InitEngine(), steps)
    ensures LedgerOk(EngineRun(InitEngine(), steps))
  {
    InitEngineInv();
    EngineRunKeepsInv(InitEngine(), steps);
  }

  lemma LedgerMeaning(e: Engine)
    requires LedgerOk(e)
    ensures e.requestWaiting == Awaited(e) <==> Faults(e.events) == 0
    ensures Faults(e.events) == 0 ==> e.requestWaiting >= 0 && (e.requestWaiting == 0 <==> NothingOutstanding(e))
  {
    ZeroMeansNothing(e);
  }

  /** Request conservation: over every interleaving of works, events and hooks the counter is the
      number of requests outstanding, less one per faulty event decrement; without such a fault it
      is never negative and zero exactly when nothing is outstanding. */
  lemma RequestConservation(steps: seq<EngineStep>, e: Engine)
    requires EngineEnabledRun(InitEngine(), steps) && e == EngineRun(InitEngine(), steps)
    ensures LedgerOk(e)
    ensures e.requestWaiting == Awaited(e) <==> Faults(e.events) == 0
    ensures Faults(e.events) == 0 ==> e.requestWaiting >= 0 && (e.requestWaiting == 0 <==> NothingOutstanding(e))
  {
    ReachedLedger(steps);
    LedgerMeaning(e);
  }

  ghost predicate NothingOutstanding(e: Engine) {
    && (forall w :: w in e.works ==> e.works[w] == Settled)
    && (forall h :: h in e.hooks ==> !Outstanding(e.hooks[h]))
    && e.events.sending == {} && e.events.failing == {}
    && (forall x :: x in e.events.base.w.queue && x in e.events.handles ==> e.events.handles[x] != x)
    && !e.events.consumer.Claimed? && !(e.events.canceller.Exchanged? && e.events.canceller.genuine)
  }

  lemma ZeroMeansNothing(e: Engine)
    ensures Awaited(e) == 0 <==> NothingOutstanding(e)
  {
    if NothingOutstanding(e) {
      assert OpenWorks(e) == {} && OpenHooks(e) == {} && Live(e.events) == {};
    } else if Awaited(e) == 0 {
      EmptyParts(e);
    }
  }

  lemma EmptyParts(e: Engine)
    requires Awaited(e) == 0
    ensures NothingOutstanding(e)
  {
    assert forall w :: w in e.works ==> w !in OpenWorks(e);
    assert forall h :: h in e.hooks ==> h !in OpenHooks(e);
    assert forall x :: x in e.events.base.w.queue ==> x !in Live(e.events);
  }

  // ---------------------------------------------------------------- CleanupHandles

  predicate FaultlessSteps(steps: seq<EngineStep>) {
    forall i :: 0 <= i < |steps| && steps[i].StepEvent? ==> Faultless(steps[i].eventStep)
  }

  lemma {:induction false} FaultlessEngineRun(e: Engine, steps: seq<EngineStep>)
    requires EngineEnabledRun(e, steps) && FaultlessSteps(steps)
    requires Faults(e.events) == 0 && GenuineCancel(e.events)
    ensures Faults(EngineRun(e, steps).events) == 0 && GenuineCancel(EngineRun(e, steps).events)
    decreases |steps|
  {
    if steps != [] {
      if steps[0].StepEvent? { FaultlessStep(e.events, steps[0].eventStep); }
      FaultlessEngineRun(EngineNext(e, steps[0]), steps[1..]);
    }
  }

  // The engine after the first passes of uv_run, as far as they are possible.
  function AfterPasses(e: Engine, passes: seq<seq<EngineStep>>): Engine
    decreases |passes|
  {
    if passes == [] || !EngineEnabledRun(e, passes[0]) then e
    else AfterPasses(EngineRun(e, passes[0]), passes[1..])
  }

  predicate PossiblePasses(e: Engine, passes: seq<seq<EngineStep>>)
    decreases |passes|
  {
    passes == [] || (EngineEnabledRun(e, passes[0]) && PossiblePasses(EngineRun(e, passes[0]), passes[1..]))
  }

  lemma {:induction false} PassesKeepInv(e: Engine, passes: seq<seq<EngineStep>>)
    requires EngineInv(e)
    ensures EngineInv(AfterPasses(e, passes))
    decreases |passes|
  {
    if passes != [] && EngineEnabledRun(e, passes[0]) {
      EngineRunKeepsInv(e, passes[0]);
      PassesKeepInv(EngineRun(e, passes[0]), passes[1..]);
    }
  }

  // As many requests as the counter has lost to faults, or fewer, are outstanding.
  predicate Exhausted(e: Engine) {
    Awaited(e) <= Faults(e.events)
  }

  lemma CounterAfter(e: Engine, passes: seq<seq<EngineStep>>)
    requires EngineInv(e)
    ensures AfterPasses(e, passes).requestWaiting <= 0 <==> Exhausted(AfterPasses(e, passes))
  {
    PassesKeepInv(e, passes);
  }

  // The counter was not exhausted before any of the first n passes.
  ghost predicate BusyBefore(e: Engine, passes: seq<seq<EngineStep>>, n: nat)
    requires n <= |passes|
  {
    forall k :: 0 <= k < n ==> !Exhausted(AfterPasses(e, passes[..k]))
  }

  lemma OnePassMore(e0: Engine, passes: seq<seq<EngineStep>>, n: nat, e: Engine)
    requires EngineInv(e0) && PossiblePasses(e0, passes) && n < |passes| && BusyBefore(e0, passes, n)
    requires e == AfterPasses(e0, passes[..n]) && e.requestWaiting > 0
    ensures EngineEnabledRun(e, passes[n]) && AfterPasses(e0, passes[..n + 1]) == EngineRun(e, passes[n])
    ensures BusyBefore(e0, passes, n + 1)
  {
    CounterAfter(e0, passes[..n]);
    AfterOneMore(e0, passes, n);
  }

  /** CleanupHandles against any environment: `passes[k]` is what happens during the k-th uv_run, on
      this and on every other thread. The loop looks at the counter between two passes, and leaves at
      the first of these moments at which no more requests are outstanding than faults were made. */
  method CleanupHandles(e0: Engine, passes: seq<seq<EngineStep>>, hasLoop: bool) returns (e: Engine, used: nat)
    requires EngineInv(e0) && PossiblePasses(e0, passes)
    ensures used <= |passes| && e == AfterPasses(e0, passes[..used])
    ensures !hasLoop ==> used == 0
    ensures hasLoop ==> BusyBefore(e0, passes, used) && (used < |passes| ==> Exhausted(e))
  {
    e, used := e0, 0;
    if !hasLoop {
      return;
    }
    while used < |passes| && e.requestWaiting > 0
      invariant used <= |passes| && e == AfterPasses(e0, passes[..used])
      invariant BusyBefore(e0, passes, used)
    {
      OnePassMore(e0, passes, used, e);
      e, used := EngineRun(e, passes[used]), used + 1;
    }
    CounterAfter(e0, passes[..used]);
  }

  // No fault so far, and no cancellation in progress that makes one.
  ghost predicate Trusted(e: Engine) {
    EngineInv(e) && Faults(e.events) == 0 && GenuineCancel(e.events)
  }

  lemma {:induction false} TrustedPasses(e: Engine, passes: seq<seq<EngineStep>>)
    requires Trusted(e) && forall k :: 0 <= k < |passes| ==> FaultlessSteps(passes[k])
    ensures Trusted(AfterPasses(e, passes))
    decreases |passes|
  {
    if passes != [] && EngineEnabledRun(e, passes[0]) {
      EngineRunKeepsInv(e, passes[0]);
      FaultlessEngineRun(e, passes[0]);
      TrustedPasses(EngineRun(e, passes[0]), passes[1..]);
    }
  }

  /** While uv_async_send succeeds and nobody cancels the reserved id, the loop leaves exactly when
      nothing is outstanding. */
  lemma LeavesWhenNothingOutstanding(e: Engine, passes: seq<seq<EngineStep>>)
    requires Trusted(e) && forall k :: 0 <= k < |passes| ==> FaultlessSteps(passes[k])
    ensures Exhausted(AfterPasses(e, passes)) <==> NothingOutstanding(AfterPasses(e, passes))
  {
    TrustedPasses(e, passes);
    ZeroMeansNothing(AfterPasses(e, passes));
  }

  /** One send whose uv_async_send fails: the counter is back at zero and CleanupHandles would leave,
      with a live event still queued. */
  lemma LeavesEarlyExample()
    ensures var steps := [StepEvent(Start), StepEvent(Publish(1, EngineCheck.Alive, false)), StepEvent(Undo(1))];
            && EngineEnabledRun(InitEngine(), steps)
            && EngineRun(InitEngine(), steps).requestWaiting == 0
            && EngineRun(InitEngine(), steps).events.base.w.queue == [1]
            && !NothingOutstanding(EngineRun(InitEngine(), steps))
  {
    var (a, b, c) := (StepEvent(Start), StepEvent(Publish(1, EngineCheck.Alive, false)), StepEvent(Undo(1)));
    var e1 := EngineNext(InitEngine(), a);
    var e2 := EngineNext(e1, b);
    var e3 := EngineNext(e2, c);
    EngineFirst(e2, c, []);
    EngineFirst(e1, b, [c]);
    EngineFirst(InitEngine(), a, [b] + [c]);
    assert [a] + ([b] + [c]) == [a, b, c] && [c] + [] == [c];
    assert e3.events.handles[1] == 1;
  }

  lemma EngineFirst(e: Engine, step: EngineStep, rest: seq<EngineStep>)
    requires EngineEnabled(e, step) && EngineEnabledRun(EngineNext(e, step), rest)
    ensures EngineEnabledRun(e, [step] + rest) && EngineRun(e, [step] + rest) == EngineRun(EngineNext(e, step), rest)
  {
    assert ([step] + rest)[1..] == rest;
  }

  // ---------------------------------------------------------------- when the counter is right

  function EventSteps(steps: seq<EngineStep>): seq<EventStep> {
    if steps == [] then []
    else (if steps[0].StepEvent? then [steps[0].eventStep] else []) + EventSteps(steps[1..])
  }

  // The events of an engine run are a run of the event protocol.
  lemma {:induction false} EventsOfRun(e: Engine, steps: seq<EngineStep>)
    requires EngineEnabledRun(e, steps)
    ensures EventEnabledRun(e.events, EventSteps(steps))
    ensures EngineRun(e, steps).events == EventRun(e.events, EventSteps(steps))
    decreases |steps|
  {
    if steps != [] {
      EventsOfRun(EngineNext(e, steps[0]), steps[1..]);
      if steps[0].StepEvent? {
        assert EventSteps(steps)[1..] == EventSteps(steps[1..]);
      } else {
        assert EventSteps(steps) == EventSteps(steps[1..]);
      }
    }
  }

  /** No cancellation being in progress, the counter is the number of requests outstanding if and only
      if no send failed to signal an open object and no cancellation hit a settled entry. */
  lemma CounterIsRightIff(steps: seq<EngineStep>)
    requires EngineEnabledRun(InitEngine(), steps)
    requires EngineRun(InitEngine(), steps).events.canceller.NoCanceller?
    ensures EventEnabledRun(InitEvents(), EventSteps(steps))
    ensures var e := EngineRun(InitEngine(), steps);
            e.requestWaiting == Awaited(e) <==> BadCalls(InitEvents(), EventSteps(steps)) == 0
  {
    ReachedLedger(steps);
    FaultsAreBadCalls(steps);
  }

  /** After any run that leaves no cancellation in progress CleanupHandles would leave although requests
      are outstanding if and only if some are, but not more than there were such calls; it never stays
      when nothing is outstanding. */
  lemma LeavesEarlyIff(steps: seq<EngineStep>, e: Engine)
    requires EngineEnabledRun(InitEngine(), steps) && e == EngineRun(InitEngine(), steps)
    requires e.events.canceller.NoCanceller?
    ensures EventEnabledRun(InitEvents(), EventSteps(steps))
    ensures LeavesEarly(e) <==> 0 < Awaited(e) <= BadCalls(InitEvents(), EventSteps(steps))
    ensures NothingOutstanding(e) ==> e.requestWaiting <= 0
  {
    assert LedgerOk(e) by { ReachedLedger(steps); }
    var bad := EarlyBound(steps, e);
    LeavesEarlyBy(e, bad);
  }

  // The loop would leave although something is outstanding.
  ghost predicate LeavesEarly(e: Engine) {
    e.requestWaiting <= 0 && !NothingOutstanding(e)
  }

  lemma FaultsAreBadCalls(steps: seq<EngineStep>)
    requires EngineEnabledRun(InitEngine(), steps)
    requires EngineRun(InitEngine(), steps).events.canceller.NoCanceller?
    ensures EventEnabledRun(InitEvents(), EventSteps(steps))
    ensures Faults(EngineRun(InitEngine(), steps).events) == BadCalls(InitEvents(), EventSteps(steps))
  {
    EventsOfRun(InitEngine(), steps);
    EventConservation(EventSteps(steps));
  }

  ghost function EarlyBound(steps: seq<EngineStep>, e: Engine): (bad: nat)
    requires EngineEnabledRun(InitEngine(), steps) && e == EngineRun(InitEngine(), steps) && e.events.canceller.NoCanceller?
    ensures EventEnabledRun(InitEvents(), EventSteps(steps))
    ensures bad == BadCalls(InitEvents(), EventSteps(steps)) == Faults(e.events)
  {
    FaultsAreBadCalls(steps);
    Faults(e.events)
  }

  lemma LeavesEarlyBy(e: Engine, bad: nat)
    requires LedgerOk(e) && Faults(e.events) == bad
    ensures LeavesEarly(e) <==> 0 < Awaited(e) <= bad
    ensures NothingOutstanding(e) ==> e.requestWaiting <= 0
  {
    ZeroMeansNothing(e);
  }

  lemma {:induction false} AfterOneMore(e: Engine, passes: seq<seq<EngineStep>>, n: nat)
    requires n < |passes| && PossiblePasses(e, passes)
    ensures EngineEnabledRun(AfterPasses(e, passes[..n]), passes[n])
    ensures AfterPasses(e, passes[..n + 1]) == EngineRun(AfterPasses(e, passes[..n]), passes[n])
    decreases n
  {
    if n == 0 {
      assert passes[..1] == [passes[0]] && passes[..1][1..] == [];
    } else {
      assert passes[..n][1..] == passes[1..][..n - 1] && passes[..n + 1][1..] == passes[1..][..n];
      AfterOneMore(EngineRun(e, passes[0]), passes[1..], n - 1);
    }
  }

  // ---------------------------------------------------------------- async works

  // What Queue does to an engine with a loop.
  function QueueSteps(work: WorkId, uvOk: bool): seq<EngineStep> {
    [CountWork(work), SubmitWork(work, uvOk)] + if uvOk then [] else [GiveUpWork(work)]
  }

  /** Queueing as a run: a work libuv takes is counted and queued, one it refuses leaves the counter as
      it was and is over. */
  lemma QueueLeads(e: Engine, work: WorkId, uvOk: bool)
    requires work !in e.works
    ensures EngineEnabledRun(e, QueueSteps(work, uvOk))
    ensures EngineRun(e, QueueSteps(work, uvOk))
         == e.(works := e.works[work := if uvOk then Queued else Settled],
               requestWaiting := e.requestWaiting + if uvOk then 1 else 0)
  {
    var (a, b, c) := (CountWork(work), SubmitWork(work, uvOk), GiveUpWork(work));
    var e1 := EngineNext(e, a);
    var e2 := EngineNext(e1, b);
    var tail := if uvOk then [] else [c];
    if !uvOk { EngineFirst(e2, c, []); }
    EngineFirst(e1, b, tail);
    EngineFirst(e, a, [b] + tail);
    assert [a] + ([b] + tail) == QueueSteps(work, uvOk) && (!uvOk ==> [c] + [] == tail);
  }

  class NativeAsyncWorks {
    var requestWaiting: int
    var queued: set<WorkId>   // handed to libuv, not completed
    ghost var view: Engine

    ghost predicate Valid()
      reads this
    {
      && requestWaiting == view.requestWaiting
      && forall w :: w in queued <==> w in view.works && view.works[w] == Queued
    }

    constructor ()
      ensures Valid() && view == InitEngine()
    {
      requestWaiting, queued, view := 0, {}, InitEngine();
    }

    /** Queue, QueueWithQos and QueueOrdered: without a loop nothing is counted, a refused work is
        counted back. */
    method Queue(work: WorkId, hasLoop: bool, uvOk: bool) returns (ok: bool)
      requires Valid() && work !in view.works
      modifies this
      ensures Valid() && ok == (hasLoop && uvOk)
      ensures requestWaiting == old(requestWaiting) + (if ok then 1 else 0)
      ensures queued == old(queued) + if ok then {work} else {}
      ensures !hasLoop ==> view == old(view)
      ensures hasLoop ==> EngineEnabledRun(old(view), QueueSteps(work, uvOk)) && view == EngineRun(old(view), QueueSteps(work, uvOk))
    {
      if !hasLoop {
        return false;
      }
      QueueLeads(view, work, uvOk);
      requestWaiting := requestWaiting + 1;
      if !uvOk {
        requestWaiting := requestWaiting - 1;
        view := EngineRun(view, QueueSteps(work, uvOk));
        return false;
      }
      queued := queued + {work};
      view := EngineRun(view, QueueSteps(work, uvOk));
      ok := true;
    }

    // Also for a cancelled work: uv_cancel leaves it counted, and libuv completes it.
    method AsyncAfterWorkCallback(work: WorkId)
      requires Valid() && work in queued
      modifies this
      ensures Valid() && view == EngineNext(old(view), CompleteWork(work))
      ensures requestWaiting == old(requestWaiting) - 1 && queued == old(queued) - {work}
    {
      requestWaiting := requestWaiting - 1;
      queued := queued - {work};
      view := EngineNext(view, CompleteWork(work));
    }
  }
}
