/** One asynchronous cleanup hook: the info record that keeps itself alive, the handle that may be
    removed at any time (also from inside the user hook), and the teardown loop that runs it. A step
    is one access of the program to the record, so who owns the record is a question at every step. */
module AsyncCleanupHook {

  // Inside RunAsyncCleanupHook.
  datatype Teardown =
    | Waiting
    | Counted        // the counter is incremented, started_ not yet set
    | Marked         // started_ is set, the user hook not yet called
    | InUserHook
    | Returned

  // Inside the handle's destructor; each constructor names the access that comes next.
  datatype Removal =
    | NotAsked
    | Resetting      // not started: self_.reset()
    | Unregistering  // not started: the map entry goes
    | Dropping       // the moved handle_ is destroyed
    | Checking       // done_cb_ != nullptr?
    | Keeping        // FinishAsyncCleanupHook copies self_
    | Uncounting
    | SelfResetting
    | Leaving        // the copy goes
    | Destroyed

  /** `handleRef`, `selfRef` and `keepRef` are the possible owners of the record: the handle's
      reference, self_, and the copy FinishAsyncCleanupHook holds. `registered` says that the engine's
      map still has the hook. */
  datatype Hook = Hook(handleRef: bool, selfRef: bool, keepRef: bool, registered: bool, started: bool, doneCb: bool,
                       teardown: Teardown, removal: Removal, runs: nat, increments: nat, decrements: nat)

  datatype HookStep =
    | Count | Mark | Call | Return
    | Test | ResetUnstarted | Unregister | Drop | TestDone | Keep | Uncount | ResetSelf | Leave

  // AddEnvironmentCleanupHook
  function Added(): Hook {
    Hook(true, true, false, true, false, false, Waiting, NotAsked, 0, 0, 0)
  }

  predicate OfTeardown(step: HookStep) {
    step.Count? || step.Mark? || step.Call? || step.Return?
  }

  // What the control flow of the two functions allows.
  predicate Possible(h: Hook, step: HookStep) {
    match step
    case Count => h.registered && h.teardown.Waiting?
    case Mark => h.teardown.Counted?
    case Call => h.teardown.Marked?
    case Return => h.teardown.InUserHook?
    case Test => h.removal.NotAsked?
    case ResetUnstarted => h.removal.Resetting?
    case Unregister => h.removal.Unregistering?
    case Drop => h.removal.Dropping?
    case TestDone => h.removal.Checking?
    case Keep => h.removal.Keeping?
    case Uncount => h.removal.Uncounting?
    case ResetSelf => h.removal.SelfResetting?
    case Leave => h.removal.Leaving?
  }

  // Up to the call of the user hook both run on the engine's thread, neither inside the other: nothing
  // is locked. From there on the destructor runs inside the user hook or on any thread.
  predicate Serial(h: Hook, step: HookStep) {
    if OfTeardown(step) then step.Count? ==> h.removal.NotAsked? || h.removal.Destroyed?
    else !h.teardown.Counted? && !h.teardown.Marked?
  }

  predicate HookEnabled(h: Hook, step: HookStep) {
    Possible(h, step) && Serial(h, step)
  }

  function HookNext(h: Hook, step: HookStep): Hook {
    match step
    // RunAsyncCleanupHook
    case Count => h.(increments := h.increments + 1, teardown := Counted)
    case Mark => h.(started := true, teardown := Marked)
    case Call => h.(doneCb := true, runs := h.runs + 1, teardown := InUserHook)
    case Return => h.(teardown := Returned, registered := false)
    // RemoveEnvironmentCleanupHook
    case Test => h.(removal := if h.started then Dropping else Resetting)
    case ResetUnstarted => h.(selfRef := false, removal := Unregistering)
    case Unregister => h.(registered := false, removal := Dropping)
    case Drop => h.(handleRef := false, removal := Checking)
    case TestDone => h.(removal := if h.doneCb then Keeping else Destroyed)
    // FinishAsyncCleanupHook
    case Keep => h.(keepRef := h.selfRef, removal := Uncounting)
    case Uncount => h.(decrements := h.decrements + 1, removal := SelfResetting)
    case ResetSelf => h.(selfRef := false, removal := Leaving)
    case Leave => h.(keepRef := false, removal := Destroyed)
  }

  predicate Owned(h: Hook) {
    h.handleRef || h.selfRef || h.keepRef
  }

  // The steps that read or write the info record.
  predicate Dereferences(step: HookStep) {
    !step.Return? && !step.Drop? && !step.TestDone? && !step.Leave?
  }

  predicate Outstanding(h: Hook) {
    h.increments > h.decrements
  }

  function HookDelta(step: HookStep): int {
    if step.Count? then 1 else if step.Uncount? then -1 else 0
  }

  // ---------------------------------------------------------------- the invariant

  predicate BeforeDrop(r: Removal) {
    r.NotAsked? || r.Resetting? || r.Unregistering? || r.Dropping?
  }

  predicate Finishing(r: Removal) {
    r.Keeping? || r.Uncounting? || r.SelfResetting? || r.Leaving?
  }

  ghost predicate HookInv(h: Hook) {
    var t, r := h.teardown, h.removal;
    && (h.started <==> t.Marked? || t.InUserHook? || t.Returned?)
    && (h.doneCb <==> t.InUserHook? || t.Returned?)
    && h.increments == (if t.Waiting? then 0 else 1) && h.runs == (if h.doneCb then 1 else 0)
    && h.decrements == (if h.doneCb && (r.SelfResetting? || r.Leaving? || r.Destroyed?) then 1 else 0)
    && (t.Counted? || t.Marked? ==> r.NotAsked?)
    && (r.Resetting? || r.Unregistering? ==> t.Waiting?)
    && (Finishing(r) ==> h.doneCb)
    && (h.registered <==> if t.Waiting? then r.NotAsked? || r.Resetting? || r.Unregistering? else !t.Returned?)
    && (h.handleRef <==> BeforeDrop(r))
    && (h.selfRef <==> if t.Waiting? then r.NotAsked? || r.Resetting? else !r.Leaving? && !r.Destroyed?)
    && (h.keepRef <==> r.Uncounting? || r.SelfResetting? || r.Leaving?)
  }

  predicate HookEnabledRun(h: Hook, steps: seq<HookStep>)
    decreases |steps|
  {
    steps == [] || (HookEnabled(h, steps[0]) && HookEnabledRun(HookNext(h, steps[0]), steps[1..]))
  }

  function HookRun(h: Hook, steps: seq<HookStep>): Hook
    decreases |steps|
  {
    if steps == [] then h else HookRun(HookNext(h, steps[0]), steps[1..])
  }

  lemma HookKeepsInv(h: Hook, step: HookStep)
    requires HookInv(h) && HookEnabled(h, step)
    ensures HookInv(HookNext(h, step))
    ensures (if Outstanding(HookNext(h, step)) then 1 else 0) == (if Outstanding(h) then 1 else 0) + HookDelta(step)
  {
  }

  lemma {:induction false} HookRunKeepsInv(h: Hook, steps: seq<HookStep>)
    requires HookInv(h) && HookEnabledRun(h, steps)
    ensures HookInv(HookRun(h, steps))
    decreases |steps|
  {
    if steps != [] {
      HookKeepsInv(h, steps[0]);
      HookRunKeepsInv(HookNext(h, steps[0]), steps[1..]);
    }
  }

  // ---------------------------------------------------------------- lifetime

  // The step finds what it uses: the record owned when it reads or writes it, and still owned after it
  // has reset self_; the handle, which the user hook is called with, not being destroyed.
  predicate Fine(h: Hook, step: HookStep) {
    && (Dereferences(step) ==> Owned(h))
    && (step.ResetUnstarted? || step.ResetSelf? ==> Owned(HookNext(h, step)))
    && (step.Call? ==> h.removal.NotAsked?)
  }

  /** Over every order of registration, removal and teardown in which a removal does not overlap the
      start of the hook: whoever touches the record finds it owned, and resetting self_ never frees the
      record self_ is stored in. The handle itself, which the user hook is called with, has not begun
      to be destroyed at that moment. */
  lemma RecordIsOwned(steps: seq<HookStep>, step: HookStep)
    requires HookEnabledRun(Added(), steps) && HookEnabled(HookRun(Added(), steps), step)
    ensures Fine(HookRun(Added(), steps), step)
  {
    HookRunKeepsInv(Added(), steps);
  }

  /** The record is freed exactly when the destructor drops the last reference: with the handle's own
      if the hook was not started, with the copy in FinishAsyncCleanupHook if it was. Nothing leaks. */
  lemma FreedWithLastReference(steps: seq<HookStep>)
    requires HookEnabledRun(Added(), steps)
    ensures var h := HookRun(Added(), steps);
            !Owned(h) <==> h.removal.Destroyed? || (h.removal.Checking? && !h.doneCb)
  {
    HookRunKeepsInv(Added(), steps);
  }

  /** While the destructor calls FinishAsyncCleanupHook the handle's reference is gone already: until
      the copy is made, self_ alone keeps the record. */
  lemma SelfAloneOwns(steps: seq<HookStep>)
    requires HookEnabledRun(Added(), steps) && HookEnabled(HookRun(Added(), steps), Keep)
    ensures var h := HookRun(Added(), steps);
            h.selfRef && !h.handleRef && !h.keepRef && !Owned(h.(selfRef := false))
  {
    HookRunKeepsInv(Added(), steps);
  }

  /** The hook runs at most once, increments once before it does, decrements at most once and only
      after it was called; a destroyed handle leaves nothing outstanding. */
  lemma HookLifetime(steps: seq<HookStep>)
    requires HookEnabledRun(Added(), steps)
    ensures var h := HookRun(Added(), steps);
            && h.decrements <= h.runs <= h.increments <= 1
            && (h.removal.Destroyed? ==> h.decrements == h.runs == h.increments)
            && (Outstanding(h) && !h.removal.NotAsked? ==> h.doneCb && h.selfRef)
  {
    HookRunKeepsInv(Added(), steps);
  }

  /** A handle whose removal began before its hook was started never runs it and never touches the
      counter, whatever follows. */
  lemma RemovedBeforeStartNeverRuns(before: seq<HookStep>, after: seq<HookStep>)
    requires HookEnabledRun(Added(), before) && HookEnabledRun(HookRun(Added(), before), after)
    requires !HookRun(Added(), before).removal.NotAsked? && !HookRun(Added(), before).started
    ensures var h := HookRun(HookRun(Added(), before), after);
            h.teardown.Waiting? && h.runs == h.increments == h.decrements == 0
  {
    HookRunKeepsInv(Added(), before);
    StaysUnstarted(HookRun(Added(), before), after);
  }

  lemma {:induction false} StaysUnstarted(h: Hook, steps: seq<HookStep>)
    requires HookInv(h) && h.teardown.Waiting? && !h.removal.NotAsked? && HookEnabledRun(h, steps)
    ensures HookInv(HookRun(h, steps)) && HookRun(h, steps).teardown.Waiting?
    decreases |steps|
  {
    if steps != [] {
      HookKeepsInv(h, steps[0]);
      StaysUnstarted(HookNext(h, steps[0]), steps[1..]);
    }
  }

  // ---------------------------------------------------------------- overlaps

  // Runs in which the two threads interleave as they like.
  predicate PossibleRun(h: Hook, steps: seq<HookStep>)
    decreases |steps|
  {
    steps == [] || (Possible(h, steps[0]) && PossibleRun(HookNext(h, steps[0]), steps[1..]))
  }

  predicate SerialRun(h: Hook, steps: seq<HookStep>)
    decreases |steps|
  {
    steps == [] || (Serial(h, steps[0]) && SerialRun(HookNext(h, steps[0]), steps[1..]))
  }

  predicate FineRun(h: Hook, steps: seq<HookStep>)
    decreases |steps|
  {
    steps == [] || (Fine(h, steps[0]) && FineRun(HookNext(h, steps[0]), steps[1..]))
  }

  // Between the count and the call of the user hook.
  predicate Starting(h: Hook) {
    h.teardown.Counted? || h.teardown.Marked?
  }

  // The hook is being started and its removal has begun.
  predicate Overlap(h: Hook) {
    Starting(h) && !h.removal.NotAsked?
  }

  lemma OverlapBegins(h: Hook, step: HookStep)
    requires HookInv(h) && Possible(h, step) && !Serial(h, step)
    ensures Overlap(HookNext(h, step))
  {
  }

  // However it goes on, the call of the user hook ends an overlap, and is not fine.
  lemma {:induction false} OverlapEndsBadly(h: Hook, steps: seq<HookStep>)
    requires Overlap(h) && PossibleRun(h, steps)
    ensures Starting(HookRun(h, steps)) || !FineRun(h, steps)
    decreases |steps|
  {
    if steps != [] {
      OverlapStays(h, steps[0]);
      if !steps[0].Call? { OverlapEndsBadly(HookNext(h, steps[0]), steps[1..]); }
    }
  }

  lemma OverlapStays(h: Hook, step: HookStep)
    requires Overlap(h) && Possible(h, step)
    ensures if step.Call? then !Fine(h, step) else Overlap(HookNext(h, step))
  {
  }

  lemma {:induction false} FineIffSerial(h: Hook, steps: seq<HookStep>)
    requires HookInv(h) && PossibleRun(h, steps)
    ensures SerialRun(h, steps) ==> FineRun(h, steps)
    ensures !SerialRun(h, steps) && !Starting(HookRun(h, steps)) ==> !FineRun(h, steps)
    decreases |steps|
  {
    if steps != [] {
      if Serial(h, steps[0]) {
        HookKeepsInv(h, steps[0]);
        FineIffSerial(HookNext(h, steps[0]), steps[1..]);
      } else {
        OverlapBegins(h, steps[0]);
        OverlapEndsBadly(HookNext(h, steps[0]), steps[1..]);
      }
    }
  }

  /** The exact condition: of all runs in which the two threads interleave as they like and a hook once
      counted has also been called, those without a misstep are exactly those in which no removal
      overlaps the start of the hook. */
  lemma FineRunIff(steps: seq<HookStep>)
    requires PossibleRun(Added(), steps) && !Starting(HookRun(Added(), steps))
    ensures FineRun(Added(), steps) <==> SerialRun(Added(), steps)
  {
    FineIffSerial(Added(), steps);
  }

  // Some way to go on leads to a possible step that is not fine.
  ghost predicate CanGoWrong(h: Hook) {
    exists steps, bad :: PossibleRun(h, steps) && Possible(HookRun(h, steps), bad) && !Fine(HookRun(h, steps), bad)
  }

  // ... at once, without any further overlapping step of the other function.
  lemma OverlapCanGoWrong(h: Hook)
    requires Overlap(h)
    ensures CanGoWrong(h)
  {
    if h.teardown.Counted? {
      var one := [Mark];
      assert one[1..] == [];
      assert PossibleRun(h, one) && HookRun(h, one) == HookNext(h, Mark);
      assert Possible(HookRun(h, one), Call) && !Fine(HookRun(h, one), Call);
    } else {
      var none: seq<HookStep> := [];
      assert PossibleRun(h, none) && HookRun(h, none) == h;
      assert Possible(h, Call) && !Fine(h, Call);
    }
  }

  /** For a step that can be taken in a reached state: it and every way to go on serially are fine if it
      is serial, and some way to go on goes wrong if it is not. */
  lemma StepGoesWrongIff(steps: seq<HookStep>, step: HookStep)
    requires HookEnabledRun(Added(), steps) && Possible(HookRun(Added(), steps), step)
    ensures var h := HookRun(Added(), steps);
            if Serial(h, step) then
              Fine(h, step) && forall on :: PossibleRun(HookNext(h, step), on) && SerialRun(HookNext(h, step), on) ==> FineRun(HookNext(h, step), on)
            else CanGoWrong(HookNext(h, step))
  {
    var h := HookRun(Added(), steps);
    HookRunKeepsInv(Added(), steps);
    if Serial(h, step) {
      HookKeepsInv(h, step);
      forall on | PossibleRun(HookNext(h, step), on) && SerialRun(HookNext(h, step), on)
        ensures FineRun(HookNext(h, step), on)
      {
        FineIffSerial(HookNext(h, step), on);
      }
    } else {
      OverlapBegins(h, step);
      OverlapCanGoWrong(HookNext(h, step));
    }
  }

  /** What an overlap loses. Before started_ is set the record: the start can go on to write a record
      nobody owns. After it only the handle: self_ keeps the record, but the start can call the user
      hook with a handle that is destroyed. */
  lemma OverlapLoses(h: Hook, step: HookStep)
    requires HookInv(h) && Possible(h, step) && !Serial(h, step)
    ensures var n := HookNext(h, step);
            if h.started then
              exists on :: PossibleRun(n, on) && Owned(HookRun(n, on)) && HookRun(n, on).removal.Destroyed? && Possible(HookRun(n, on), Call)
            else
              exists on :: PossibleRun(n, on) && !Owned(HookRun(n, on)) && Possible(HookRun(n, on), Mark)
  {
    var n := HookNext(h, step);
    if h.started {
      OnePossible(HookNext(n, Drop), TestDone, []);
      OnePossible(n, Drop, [TestDone] + []);
    } else {
      var u := if n.removal.Resetting? then HookNext(n, ResetUnstarted) else n;
      OnePossible(HookNext(u, Unregister), Drop, []);
      OnePossible(u, Unregister, [Drop] + []);
      if n.removal.Resetting? { OnePossible(n, ResetUnstarted, [Unregister] + ([Drop] + [])); }
    }
  }

  lemma OnePossible(h: Hook, step: HookStep, rest: seq<HookStep>)
    requires Possible(h, step) && PossibleRun(HookNext(h, step), rest)
    ensures PossibleRun(h, [step] + rest) && HookRun(h, [step] + rest) == HookRun(HookNext(h, step), rest)
  {
    assert ([step] + rest)[1..] == rest;
  }

  // ---------------------------------------------------------------- runs

  ghost predicate HookReaches(h: Hook, steps: seq<HookStep>, t: Hook) {
    HookEnabledRun(h, steps) && HookRun(h, steps) == t
  }

  lemma HookStays(h: Hook)
    ensures HookReaches(h, [], h)
  {
  }

  lemma {:induction false} HookThen(h: Hook, a: seq<HookStep>, t: Hook, b: seq<HookStep>, u: Hook)
    requires HookReaches(h, a, t) && HookReaches(t, b, u)
    ensures HookReaches(h, a + b, u)
    decreases |a|
  {
    if a == [] {
      assert a + b == b;
    } else {
      assert (a + b)[0] == a[0] && (a + b)[1..] == a[1..] + b;
      HookThen(HookNext(h, a[0]), a[1..], t, b, u);
    }
  }

  lemma HookOn(h: Hook, a: seq<HookStep>, t: Hook, step: HookStep)
    requires HookReaches(h, a, t) && HookEnabled(t, step)
    ensures HookReaches(h, a + [step], HookNext(t, step))
  {
    var one := [step];
    assert one[1..] == [];
    HookThen(h, a, t, one, HookNext(t, step));
  }

  const FINISH := [Keep, Uncount, ResetSelf, Leave]

  function DetachSteps(started: bool): seq<HookStep> {
    if started then [Test, Drop] else [Test, ResetUnstarted, Unregister, Drop]
  }

  function RemoveSteps(started: bool): seq<HookStep> {
    DetachSteps(started) + [TestDone] + if started then FINISH else []
  }

  function RunSteps(removeInside: bool): seq<HookStep> {
    [Count, Mark, Call] + (if removeInside then RemoveSteps(true) else []) + [Return]
  }

  // ---------------------------------------------------------------- the objects

  /** The handle and its info record, updated in place as the callbacks do. */
  class AsyncHookHandle {
    var handleRef: bool
    var selfRef: bool
    var keepRef: bool
    var registered: bool
    var started: bool
    var doneCb: bool
    var requestWaiting: int   // what this hook has added to the engine's counter
    ghost var teardown: Teardown
    ghost var removal: Removal
    ghost var runs: nat
    ghost var increments: nat
    ghost var decrements: nat

    ghost function View(): Hook
      reads this
    {
      Hook(handleRef, selfRef, keepRef, registered, started, doneCb, teardown, removal, runs, increments, decrements)
    }

    ghost predicate Valid()
      reads this
    {
      HookInv(View()) && requestWaiting == increments - decrements
    }

    constructor ()
      ensures Valid() && View() == Added()
    {
      handleRef, selfRef, keepRef, registered, started, doneCb := true, true, false, true, false, false;
      requestWaiting := 0;
      teardown, removal, runs, increments, decrements := Waiting, NotAsked, 0, 0, 0;
    }

    /** RunAsyncCleanupHook with a user hook that may remove its own handle. */
    method RunAsyncCleanupHook(removeInside: bool)
      requires Valid() && HookEnabled(View(), Count) && removal.NotAsked?
      modifies this
      ensures Valid() && HookReaches(old(View()), RunSteps(removeInside), View())
      ensures runs == 1 && Outstanding(View()) == !removeInside && Owned(View()) == !removeInside
    {
      ghost var h := View();
      StartHook();
      ghost var called := View();
      if removeInside {
        Destroy();
      }
      ReturnRun(h, called, View(), removeInside);
      teardown, registered := Returned, false;
    }

    // Up to and including the call of the user hook.
    method StartHook()
      requires Valid() && HookEnabled(View(), Count) && removal.NotAsked?
      modifies this
      ensures Valid() && HookReaches(old(View()), [Count, Mark, Call], View())
      ensures removal.NotAsked? && started && doneCb && teardown.InUserHook?
    {
      StartRun(View());
      assert Owned(View());
      requestWaiting := requestWaiting + 1;
      increments := increments + 1;
      assert Owned(View());
      started := true;
      assert Owned(View());
      doneCb, runs, teardown := true, runs + 1, InUserHook;
    }

    /** ~napi_async_cleanup_hook_handle__: detaches the record, and finishes the hook if it was called. */
    method Destroy()
      requires Valid() && HookEnabled(View(), Test)
      modifies this
      ensures Valid() && HookReaches(old(View()), RemoveSteps(old(started)), View())
      ensures removal.Destroyed? && !Owned(View()) && teardown == old(teardown) && runs == old(runs)
      ensures requestWaiting == 0
    {
      ghost var h := View();
      RemoveEnvironmentCleanupHook();
      ghost var detached := View();
      HookOn(h, DetachSteps(h.started), detached, TestDone);
      removal := if doneCb then Keeping else Destroyed;
      ghost var tested := View();
      assert DetachSteps(h.started) + [TestDone] + [] == DetachSteps(h.started) + [TestDone];
      if doneCb {
        FinishAsyncCleanupHook();
        HookThen(h, DetachSteps(h.started) + [TestDone], tested, FINISH, View());
      }
    }

    method RemoveEnvironmentCleanupHook()
      requires Valid() && HookEnabled(View(), Test)
      modifies this
      ensures Valid() && HookReaches(old(View()), DetachSteps(old(started)), View()) && removal.Checking?
      ensures started == old(started) == doneCb && teardown == old(teardown) && runs == old(runs)
      ensures requestWaiting == old(requestWaiting)
    {
      DetachRun(View());
      assert Owned(View());
      if !started {
        selfRef := false;
        assert Owned(View());
        registered := false;
      }
      handleRef, removal := false, Checking;
    }

    method FinishAsyncCleanupHook()
      requires Valid() && HookEnabled(View(), Keep)
      modifies this
      ensures Valid() && HookReaches(old(View()), FINISH, View()) && removal.Destroyed?
      ensures teardown == old(teardown) && runs == old(runs) && requestWaiting == old(requestWaiting) - 1
    {
      FinishRun(View());
      assert Owned(View());
      keepRef := selfRef;
      assert Owned(View());
      requestWaiting := requestWaiting - 1;
      decrements := decrements + 1;
      selfRef := false;
      assert Owned(View());
      keepRef, removal := false, Destroyed;
    }
  }

  // The three functions as runs.
  lemma StartRun(h: Hook)
    requires HookInv(h) && HookEnabled(h, Count) && h.removal.NotAsked?
    ensures var t := h.(increments := 1, started := true, doneCb := true, runs := 1, teardown := InUserHook);
            HookInv(t) && HookReaches(h, [Count, Mark, Call], t)
  {
    ThreeSteps(h, Count, Mark, Call);
  }

  lemma ReturnRun(h: Hook, called: Hook, t: Hook, removed: bool)
    requires HookReaches(h, [Count, Mark, Call], called) && t.teardown.InUserHook?
    requires if removed then HookReaches(called, RemoveSteps(true), t) else t == called
    ensures HookReaches(h, RunSteps(removed), HookNext(t, Return))
  {
    var inside := if removed then RemoveSteps(true) else [];
    if !removed { HookStays(t); }
    HookThen(h, [Count, Mark, Call], called, inside, t);
    HookOn(h, [Count, Mark, Call] + inside, t, Return);
  }

  lemma DetachRun(h: Hook)
    requires HookInv(h) && HookEnabled(h, Test)
    ensures var t := if h.started then h.(handleRef := false, removal := Checking)
                     else h.(selfRef := false, registered := false, handleRef := false, removal := Checking);
            HookInv(t) && HookReaches(h, DetachSteps(h.started), t)
  {
    if h.started {
      TwoSteps(h, Test, Drop);
    } else {
      var u := h.(selfRef := false, registered := false, removal := Dropping);
      ThreeSteps(h, Test, ResetUnstarted, Unregister);
      HookOn(h, [Test, ResetUnstarted, Unregister], u, Drop);
      assert [Test, ResetUnstarted, Unregister] + [Drop] == DetachSteps(false);
    }
  }

  lemma FinishRun(h: Hook)
    requires HookInv(h) && HookEnabled(h, Keep)
    ensures var t := h.(selfRef := false, keepRef := false, decrements := 1, removal := Destroyed);
            HookInv(t) && HookReaches(h, FINISH, t)
    ensures h.decrements == 0 && h.selfRef
  {
    var u := h.(selfRef := false, keepRef := true, decrements := 1, removal := Leaving);
    ThreeSteps(h, Keep, Uncount, ResetSelf);
    HookOn(h, [Keep, Uncount, ResetSelf], u, Leave);
    assert [Keep, Uncount, ResetSelf] + [Leave] == FINISH;
  }

  lemma TwoSteps(h: Hook, a: HookStep, b: HookStep)
    requires HookEnabled(h, a) && HookEnabled(HookNext(h, a), b)
    ensures HookReaches(h, [a, b], HookNext(HookNext(h, a), b))
  {
    HookStays(h);
    HookOn(h, [], h, a);
    assert [] + [a] == [a];
    HookOn(h, [a], HookNext(h, a), b);
    assert [a] + [b] == [a, b];
  }

  lemma ThreeSteps(h: Hook, a: HookStep, b: HookStep, c: HookStep)
    requires HookEnabled(h, a) && HookEnabled(HookNext(h, a), b) && HookEnabled(HookNext(HookNext(h, a), b), c)
    ensures HookReaches(h, [a, b, c], HookNext(HookNext(HookNext(h, a), b), c))
  {
    TwoSteps(h, a, b);
    HookOn(h, [a, b], HookNext(HookNext(h, a), b), c);
    assert [a, b] + [c] == [a, b, c];
  }
}
