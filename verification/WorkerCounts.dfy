/** The worker counters: every increment reserves against the shared limit of JS threads first and
    against the limit of its own pool afterwards, under separate mutexes. Any number of threads
    interleave; a step is what a thread does inside one critical section. */
module WorkerCounts {

  datatype Kind = Ark | Thread | Limited | Old

  const MAX_JS_THREAD_COUNT: nat := 80
  const MAX_ARK_RUNTIME_COUNT: nat := 64
  const MAX_LIMITWORKER_COUNT: nat := 16

  /** Where a thread is. An increment is Reserved, then holds the pool mutex (Checking, RollingBack);
      a decrement Wants the pool mutex, then holds it (Leaving, Left). */
  datatype Pc =
    | Idle
    | Reserved(kind: Kind) | Checking(kind: Kind) | RollingBack(kind: Kind)
    | Wants(kind: Kind) | Leaving(kind: Kind) | Left(kind: Kind)

  datatype Counts = Counts(ark: int, thread: int, limited: int, oldWorker: int) {
    function Of(k: Kind): int {
      match k
      case Ark => ark
      case Thread => thread
      case Limited => limited
      case Old => oldWorker
    }

    function Plus(k: Kind, d: int): Counts {
      match k
      case Ark => this.(ark := ark + d)
      case Thread => this.(thread := thread + d)
      case Limited => this.(limited := limited + d)
      case Old => this.(oldWorker := oldWorker + d)
    }

    function Sum(): int {
      ark + thread + limited + oldWorker
    }
  }

  const ZERO := Counts(0, 0, 0, 0)

  /** live counts the successful increments of a pool less the decrements begun; the program does not
      keep it. */
  datatype State = State(js: nat, pool: Counts, threads: seq<Pc>, live: Counts)

  datatype Step =
    | Reserve(t: nat, kind: Kind)
    | Lock(t: nat)
    | Decide(t: nat, cap: nat)
    | RollBack(t: nat)
    | Begin(t: nat, kind: Kind)
    | Leave(t: nat)
    | GiveBack(t: nat)

  function At(s: State, t: nat): Pc {
    if t < |s.threads| then s.threads[t] else Idle
  }

  function Start(n: nat): State {
    State(0, ZERO, seq(n, i => Idle), ZERO)
  }

  predicate Holds(p: Pc, k: Kind) {
    p == Checking(k) || p == RollingBack(k) || p == Leaving(k) || p == Left(k)
  }

  predicate Free(s: State, k: Kind) {
    forall u | 0 <= u < |s.threads| :: !Holds(s.threads[u], k)
  }

  // The limits of two pools are fixed; those of the others are read from the system every time.
  predicate CapOf(k: Kind, cap: nat) {
    (k == Ark ==> cap == MAX_ARK_RUNTIME_COUNT) && (k == Limited ==> cap == MAX_LIMITWORKER_COUNT)
  }

  predicate Enabled(s: State, a: Step) {
    a.t < |s.threads|
    && match a
       case Reserve(t, k) => s.threads[t] == Idle
       case Lock(t) => (s.threads[t].Reserved? || s.threads[t].Wants?) && Free(s, s.threads[t].kind)
       case Decide(t, cap) => s.threads[t].Checking? && CapOf(s.threads[t].kind, cap)
       case RollBack(t) => s.threads[t].RollingBack?
       case Begin(t, k) => s.threads[t] == Idle
       case Leave(t) => s.threads[t].Leaving?
       case GiveBack(t) => s.threads[t].Left?
  }

  function Goes(s: State, t: nat, p: Pc): State
    requires t < |s.threads|
  {
    s.(threads := s.threads[t := p])
  }

  // What DecrementJSThreadCount and the pool decrements do at zero: log, and change nothing.
  function Less(n: nat): nat {
    if n > 0 then n - 1 else 0
  }

  function Do(s: State, a: Step): State
    requires Enabled(s, a)
  {
    var t := a.t;
    match a
    case Reserve(_, k) => if s.js >= MAX_JS_THREAD_COUNT then s else Goes(s, t, Reserved(k)).(js := s.js + 1)
    case Lock(_) => Goes(s, t, if s.threads[t].Reserved? then Checking(s.threads[t].kind) else Leaving(s.threads[t].kind))
    case Decide(_, cap) =>
      var k := s.threads[t].kind;
      if s.pool.Of(k) >= cap then Goes(s, t, RollingBack(k))
      else Goes(s, t, Idle).(pool := s.pool.Plus(k, 1), live := s.live.Plus(k, 1))
    case RollBack(_) => Goes(s, t, Idle).(js := Less(s.js))
    case Begin(_, k) => Goes(s, t, Wants(k)).(live := s.live.Plus(k, -1))
    case Leave(_) =>
      var k := s.threads[t].kind;
      Goes(s, t, Left(k)).(pool := s.pool.Plus(k, if s.pool.Of(k) > 0 then -1 else 0))
    case GiveBack(_) => Goes(s, t, Idle).(js := Less(s.js))
  }

  predicate CanRun(s: State, run: seq<Step>)
    decreases |run|
  {
    run == [] || (Enabled(s, run[0]) && CanRun(Do(s, run[0]), run[1..]))
  }

  function Run(s: State, run: seq<Step>): State
    requires CanRun(s, run)
    decreases |run|
  {
    if run == [] then s else Run(Do(s, run[0]), run[1..])
  }

  // ---------------------------------------------------------------- the ledger

  function Sum(w: Pc -> nat, ts: seq<Pc>): nat {
    if ts == [] then 0 else w(ts[0]) + Sum(w, ts[1..])
  }

  lemma {:induction false} SumUpdate(w: Pc -> nat, ts: seq<Pc>, t: nat, p: Pc)
    requires t < |ts|
    ensures Sum(w, ts[t := p]) == Sum(w, ts) - w(ts[t]) + w(p) && w(ts[t]) <= Sum(w, ts)
    decreases |ts|
  {
    if t > 0 {
      SumUpdate(w, ts[1..], t - 1, p);
      assert ts[t := p][1..] == ts[1..][t - 1 := p];
    }
  }

  lemma {:induction false} SumOfIdle(w: Pc -> nat, ts: seq<Pc>)
    requires w(Idle) == 0 && forall t | 0 <= t < |ts| :: ts[t] == Idle
    ensures Sum(w, ts) == 0
    decreases |ts|
  {
    if ts != [] { SumOfIdle(w, ts[1..]); }
  }

  // Increments that hold a reservation not yet counted in a pool, or not yet given back, and
  // decrements between their two steps.
  function Owed(p: Pc): nat {
    if p.Reserved? || p.Checking? || p.RollingBack? || p.Left? then 1 else 0
  }

  // Decrements of pool k that have not reached it yet.
  function Leaver(k: Kind): Pc -> nat {
    (p: Pc) => if p == Wants(k) || p == Leaving(k) then 1 else 0
  }

  function Drift(s: State): int
  {
    s.js - s.pool.Sum() - Sum(Owed, s.threads)
  }

  // A decrement that finds a counter at zero.
  predicate PoolFault(s: State, a: Step)
    requires Enabled(s, a)
  {
    a.Leave? && s.pool.Of(s.threads[a.t].kind) <= 0
  }

  predicate SharedFault(s: State, a: Step)
    requires Enabled(s, a)
  {
    (a.GiveBack? || a.RollBack?) && s.js == 0
  }

  /** Every step of every thread keeps the difference between the shared counter and the pools with
      what is owed, except a decrement that finds a counter at zero. */
  lemma LedgerStep(s: State, a: Step)
    requires Enabled(s, a)
    ensures Drift(Do(s, a)) == Drift(s) - (if PoolFault(s, a) then 1 else 0) + (if SharedFault(s, a) then 1 else 0)
  {
    var n := Do(s, a);
    SumUpdate(Owed, s.threads, a.t, At(n, a.t));
    assert n.threads == s.threads[a.t := At(n, a.t)];
  }

  /** So a step keeps the ledger if and only if it is not such a decrement. */
  lemma LedgerIff(s: State, a: Step)
    requires Enabled(s, a)
    ensures Drift(Do(s, a)) == Drift(s) <==> !PoolFault(s, a) && !SharedFault(s, a)
  {
    LedgerStep(s, a);
  }

  predicate NoFaults(s: State, run: seq<Step>)
    requires CanRun(s, run)
    decreases |run|
  {
    run == [] || (!PoolFault(s, run[0]) && !SharedFault(s, run[0]) && NoFaults(Do(s, run[0]), run[1..]))
  }

  // The ledger is the same in every state of the run.
  predicate LedgerKept(s: State, run: seq<Step>, drift: int)
    requires CanRun(s, run)
    decreases |run|
  {
    Drift(s) == drift && (run == [] || LedgerKept(Do(s, run[0]), run[1..], drift))
  }

  /** Over a whole run, of any threads: the ledger is kept throughout if and only if no decrement ever
      finds a counter at zero. */
  lemma {:induction false} LedgerKeptIff(s: State, run: seq<Step>)
    requires CanRun(s, run)
    ensures LedgerKept(s, run, Drift(s)) <==> NoFaults(s, run)
    decreases |run|
  {
    if run != [] {
      LedgerIff(s, run[0]);
      LedgerKeptIff(Do(s, run[0]), run[1..]);
    }
  }

  // ---------------------------------------------------------------- matched decrements

  // Every decrement begun gives back an increment that succeeded.
  predicate Matched(s: State, a: Step)
    requires Enabled(s, a)
  {
    a.Begin? ==> s.live.Of(a.kind) > 0
  }

  predicate MatchedRun(s: State, run: seq<Step>)
    requires CanRun(s, run)
    decreases |run|
  {
    run == [] || (Matched(s, run[0]) && MatchedRun(Do(s, run[0]), run[1..]))
  }

  predicate CapsWithin(run: seq<Step>, bound: nat) {
    forall a | a in run && a.Decide? :: a.cap <= bound
  }

  function PoolLimit(k: Kind, bound: nat): nat {
    match k
    case Ark => MAX_ARK_RUNTIME_COUNT
    case Limited => MAX_LIMITWORKER_COUNT
    case _ => bound
  }

  ghost predicate PoolInv(s: State, k: Kind, bound: nat)
  {
    s.live.Of(k) >= 0 && s.pool.Of(k) == s.live.Of(k) + Sum(Leaver(k), s.threads) && s.pool.Of(k) <= PoolLimit(k, bound)
  }

  ghost predicate Inv(s: State, bound: nat) {
    s.js <= MAX_JS_THREAD_COUNT && Drift(s) == 0 && forall k: Kind :: PoolInv(s, k, bound)
  }

  lemma StartPool(n: nat, k: Kind, bound: nat)
    ensures PoolInv(Start(n), k, bound)
  {
    SumOfIdle(Leaver(k), Start(n).threads);
  }

  lemma StartDrift(n: nat)
    ensures Drift(Start(n)) == 0 && Start(n).js == 0
  {
    SumOfIdle(Owed, Start(n).threads);
  }

  lemma StartInv(n: nat, bound: nat)
    ensures Inv(Start(n), bound)
  {
    StartDrift(n);
    forall k: Kind ensures PoolInv(Start(n), k, bound) { StartPool(n, k, bound); }
  }

  /** With matched decrements no counter is ever found at zero. */
  lemma NoFault(s: State, a: Step, bound: nat)
    requires Inv(s, bound) && Enabled(s, a)
    ensures !PoolFault(s, a) && !SharedFault(s, a)
  {
    SumUpdate(Owed, s.threads, a.t, Idle);
    if a.Leave? {
      var k := s.threads[a.t].kind;
      SumUpdate(Leaver(k), s.threads, a.t, Idle);
      assert PoolInv(s, k, bound);
    }
    assert PoolInv(s, Ark, bound) && PoolInv(s, Thread, bound) && PoolInv(s, Limited, bound) && PoolInv(s, Old, bound);
  }

  lemma LeaversMove(s: State, a: Step, k: Kind)
    requires Enabled(s, a)
    ensures var before, after := Leaver(k)(s.threads[a.t]), Leaver(k)(At(Do(s, a), a.t));
            before <= Sum(Leaver(k), s.threads) && Sum(Leaver(k), Do(s, a).threads) == Sum(Leaver(k), s.threads) - before + after
  {
    var n := Do(s, a);
    SumUpdate(Leaver(k), s.threads, a.t, At(n, a.t));
    assert n.threads == s.threads[a.t := At(n, a.t)];
  }

  lemma PoolStep(s: State, a: Step, k: Kind, bound: nat)
    requires Enabled(s, a) && Matched(s, a) && PoolInv(s, k, bound) && (a.Decide? ==> a.cap <= bound)
    ensures PoolInv(Do(s, a), k, bound)
  {
    LeaversMove(s, a, k);
  }

  lemma CountsKeepInv(s: State, a: Step, bound: nat)
    requires Inv(s, bound) && Enabled(s, a) && Matched(s, a) && (a.Decide? ==> a.cap <= bound)
    ensures Inv(Do(s, a), bound)
  {
    LedgerStep(s, a);
    NoFault(s, a, bound);
    forall k: Kind ensures PoolInv(Do(s, a), k, bound) {
      assert PoolInv(s, k, bound);
      PoolStep(s, a, k, bound);
    }
  }

  /** For any number of interleaved threads and any run with matched decrements: the shared counter
      is the pools together with what is owed, it never exceeds 80, and every pool stays within its
      limit (for the configurable pools: the largest limit read). */
  lemma {:induction false} CountsRun(s: State, run: seq<Step>, bound: nat)
    requires Inv(s, bound) && CanRun(s, run) && MatchedRun(s, run) && CapsWithin(run, bound)
    ensures Inv(Run(s, run), bound)
    decreases |run|
  {
    if run != [] {
      CountsKeepInv(s, run[0], bound);
      CountsRun(Do(s, run[0]), run[1..], bound);
    }
  }

  lemma CountsFromStart(n: nat, run: seq<Step>, bound: nat)
    requires CanRun(Start(n), run) && MatchedRun(Start(n), run) && CapsWithin(run, bound)
    ensures Inv(Run(Start(n), run), bound)
    ensures var s := Run(Start(n), run);
            && s.js == s.pool.ark + s.pool.thread + s.pool.limited + s.pool.oldWorker + Sum(Owed, s.threads) <= 80
            && 0 <= s.pool.ark <= 64 && 0 <= s.pool.limited <= 16
            && 0 <= s.pool.thread <= bound && 0 <= s.pool.oldWorker <= bound
  {
    StartInv(n, bound);
    CountsRun(Start(n), run, bound);
    LimitsOf(Run(Start(n), run), bound);
  }

  lemma LimitsOf(s: State, bound: nat)
    requires Inv(s, bound)
    ensures s.js == s.pool.ark + s.pool.thread + s.pool.limited + s.pool.oldWorker + Sum(Owed, s.threads) <= 80
    ensures 0 <= s.pool.ark <= 64 && 0 <= s.pool.limited <= 16
    ensures 0 <= s.pool.thread <= bound && 0 <= s.pool.oldWorker <= bound
  {
    assert PoolInv(s, Ark, bound) && PoolInv(s, Thread, bound) && PoolInv(s, Limited, bound) && PoolInv(s, Old, bound);
  }

  /** Once every thread has returned, the shared counter is exactly the number of workers alive, and
      so is every pool's: failed increments left nothing behind. */
  lemma QuietCounts(s: State, bound: nat)
    requires Inv(s, bound) && forall t | 0 <= t < |s.threads| :: s.threads[t] == Idle
    ensures s.pool == s.live
    ensures s.js == s.pool.Sum() == s.live.Sum()
  {
    SumOfIdle(Owed, s.threads);
    forall k: Kind ensures s.pool.Of(k) == s.live.Of(k) {
      SumOfIdle(Leaver(k), s.threads);
      assert PoolInv(s, k, bound);
    }
    assert s.pool.Of(Ark) == s.live.Of(Ark) && s.pool.Of(Thread) == s.live.Of(Thread);
    assert s.pool.Of(Limited) == s.live.Of(Limited) && s.pool.Of(Old) == s.live.Of(Old);
  }

  /** An increment is refused at the shared limit exactly when workers and calls in progress add up
      to 80; this can happen with fewer workers. */
  lemma RefusedIff(s: State, a: Step, bound: nat)
    requires Inv(s, bound) && Enabled(s, a) && a.Reserve?
    ensures Do(s, a) == s <==> s.pool.Sum() + Sum(Owed, s.threads) == 80
  {
    if s.js < MAX_JS_THREAD_COUNT {
      assert Do(s, a).js == s.js + 1;
    }
  }

  // ---------------------------------------------------------------- locks

  function NextStep(s: State, t: nat, cap: nat): Step
    requires t < |s.threads| && s.threads[t] != Idle
  {
    match s.threads[t]
    case Reserved(_) => Lock(t)
    case Wants(_) => Lock(t)
    case Checking(k) => Decide(t, if k == Ark then MAX_ARK_RUNTIME_COUNT else if k == Limited then MAX_LIMITWORKER_COUNT else cap)
    case RollingBack(_) => RollBack(t)
    case Leaving(_) => Leave(t)
    case Left(_) => GiveBack(t)
  }

  /** The pool mutexes do not deadlock: while a call is in progress, some call in progress can move. */
  lemma NoDeadlock(s: State, cap: nat)
    requires exists t | 0 <= t < |s.threads| :: s.threads[t] != Idle
    ensures exists t | 0 <= t < |s.threads| && s.threads[t] != Idle :: Enabled(s, NextStep(s, t, cap))
  {
    var t :| 0 <= t < |s.threads| && s.threads[t] != Idle;
    if s.threads[t].Reserved? || s.threads[t].Wants? {
      var k := s.threads[t].kind;
      if !Free(s, k) {
        var u :| 0 <= u < |s.threads| && Holds(s.threads[u], k);
        assert Enabled(s, NextStep(s, u, cap));
      } else {
        assert Enabled(s, NextStep(s, t, cap));
      }
    } else {
      assert Enabled(s, NextStep(s, t, cap));
    }
  }

  ghost predicate Exclusive(s: State) {
    forall t, u, k: Kind | 0 <= t < u < |s.threads| :: !(Holds(s.threads[t], k) && Holds(s.threads[u], k))
  }

  /** A pool mutex has at most one holder. */
  lemma ExclusiveStep(s: State, a: Step)
    requires Exclusive(s) && Enabled(s, a)
    ensures Exclusive(Do(s, a))
  {
    var n := Do(s, a);
    assert n.threads == s.threads[a.t := At(n, a.t)];
    assert forall k | Holds(At(n, a.t), k) :: Holds(s.threads[a.t], k) || Free(s, k);
  }

  const ALIVE := ZERO.Plus(Ark, 1)
  const INCREMENT := [Reserve(0, Ark), Lock(0), Decide(0, 64)]
  const DECREMENT := [Begin(0, Limited), Lock(0), Leave(0), GiveBack(0)]

  lemma OneIncrement()
    ensures CanRun(Start(1), INCREMENT) && Run(Start(1), INCREMENT) == State(1, ALIVE, [Idle], ALIVE)
  {
    var s1 := State(1, ZERO, [Reserved(Ark)], ZERO);
    var s2 := State(1, ZERO, [Checking(Ark)], ZERO);
    var s3 := State(1, ALIVE, [Idle], ALIVE);
    assert Start(1) == State(0, ZERO, [Idle], ZERO);
    Before(s2, Decide(0, 64), s3, []);
    Before(s1, Lock(0), s2, [Decide(0, 64)]);
    Before(Start(1), Reserve(0, Ark), s1, [Lock(0), Decide(0, 64)]);
    assert INCREMENT == [Reserve(0, Ark)] + [Lock(0), Decide(0, 64)];
  }

  lemma OtherDecrement(s: State)
    requires s == State(1, ALIVE, [Idle], ALIVE)
    ensures CanRun(s, DECREMENT) && Run(s, DECREMENT).js == 0 && Run(s, DECREMENT).pool == ALIVE
  {
    var less := ALIVE.Plus(Limited, -1);
    var s4 := State(1, ALIVE, [Wants(Limited)], less);
    var s5 := State(1, ALIVE, [Leaving(Limited)], less);
    var s6 := State(1, ALIVE, [Left(Limited)], less);
    Before(s6, GiveBack(0), State(0, ALIVE, [Idle], less), []);
    Before(s5, Leave(0), s6, [GiveBack(0)]);
    Before(s4, Lock(0), s5, [Leave(0), GiveBack(0)]);
    Before(s, Begin(0, Limited), s4, [Lock(0), Leave(0), GiveBack(0)]);
    assert DECREMENT == [Begin(0, Limited)] + [Lock(0), Leave(0), GiveBack(0)];
  }

  lemma Before(s: State, a: Step, n: State, run: seq<Step>)
    requires Enabled(s, a) && Do(s, a) == n && CanRun(n, run)
    ensures CanRun(s, [a] + run) && Run(s, [a] + run) == Run(n, run)
  {
    assert ([a] + run)[1..] == run;
  }

  lemma {:induction false} RunThen(s: State, a: seq<Step>, b: seq<Step>)
    requires CanRun(s, a) && CanRun(Run(s, a), b)
    ensures CanRun(s, a + b) && Run(s, a + b) == Run(Run(s, a), b)
    decreases |a|
  {
    if a == [] {
      assert a + b == b;
    } else {
      assert (a + b)[1..] == a[1..] + b;
      RunThen(Do(s, a[0]), a[1..], b);
    }
  }

  /** What an unmatched decrement does: one worker of one pool is alive, a decrement of another pool
      passes, and the shared counter forgets the worker. */
  lemma UnmatchedExample()
    ensures CanRun(Start(1), INCREMENT + DECREMENT)
    ensures Run(Start(1), INCREMENT + DECREMENT).js == 0 && Run(Start(1), INCREMENT + DECREMENT).pool.Of(Ark) == 1
  {
    OneIncrement();
    OtherDecrement(Run(Start(1), INCREMENT));
    RunThen(Start(1), INCREMENT, DECREMENT);
  }

  // ---------------------------------------------------------------- the functions themselves

  // The steps of a call that nothing interrupts.
  function IncrementSteps(s: State, t: nat, k: Kind, cap: nat): seq<Step> {
    if s.js >= MAX_JS_THREAD_COUNT then [Reserve(t, k)]
    else [Reserve(t, k), Lock(t), Decide(t, cap)] + if s.pool.Of(k) >= cap then [RollBack(t)] else []
  }

  function DecrementSteps(t: nat, k: Kind): seq<Step> {
    [Begin(t, k), Lock(t), Leave(t), GiveBack(t)]
  }

  ghost predicate Reaches(s: State, run: seq<Step>, n: State) {
    CanRun(s, run) && Run(s, run) == n
  }

  lemma {:induction false} StepThen(s: State, run: seq<Step>, n: State, a: Step)
    requires Reaches(s, run, n) && Enabled(n, a)
    ensures Reaches(s, run + [a], Do(n, a))
  {
    Before(n, a, Do(n, a), []);
    RunThen(s, run, [a]);
  }

  class WorkerManager {
    var jsThreadCount: nat
    var pool: Counts
    ghost var view: State

    constructor (ghost n: nat)
      ensures Valid() && view == Start(n)
    {
      jsThreadCount, pool, view := 0, ZERO, Start(n);
    }

    ghost predicate Valid()
      reads this
    {
      view.js == jsThreadCount && view.pool == pool
    }

    method IncrementJSThreadCount(ghost t: nat, ghost k: Kind) returns (success: bool)
      requires Valid() && Enabled(view, Reserve(t, k))
      modifies this
      ensures Valid() && view == Do(old(view), Reserve(t, k))
      ensures success == (old(jsThreadCount) < MAX_JS_THREAD_COUNT)
    {
      view := Do(view, Reserve(t, k));
      if jsThreadCount >= MAX_JS_THREAD_COUNT {
        success := false;
      } else {
        jsThreadCount := jsThreadCount + 1;
        success := true;
      }
    }

    method DecrementJSThreadCount(ghost a: Step)
      requires Valid() && Enabled(view, a) && (a.RollBack? || a.GiveBack?)
      modifies this
      ensures Valid() && view == Do(old(view), a)
    {
      view := Do(view, a);
      if jsThreadCount > 0 {
        jsThreadCount := jsThreadCount - 1;
      }
    }

    method LockPool(ghost t: nat)
      requires Valid() && Enabled(view, Lock(t))
      modifies this`view
      ensures Valid() && view == Do(old(view), Lock(t))
    {
      view := Do(view, Lock(t));
    }

    method CountIn(ghost t: nat, k: Kind, cap: nat) returns (success: bool)
      requires Valid() && Enabled(view, Decide(t, cap)) && view.threads[t].kind == k
      modifies this
      ensures Valid() && view == Do(old(view), Decide(t, cap)) && success == (old(pool).Of(k) < cap)
    {
      view := Do(view, Decide(t, cap));
      success := pool.Of(k) < cap;
      if success {
        pool := pool.Plus(k, 1);
      }
    }

    method CountOut(ghost t: nat, k: Kind)
      requires Valid() && Enabled(view, Leave(t)) && view.threads[t].kind == k
      modifies this
      ensures Valid() && view == Do(old(view), Leave(t))
    {
      view := Do(view, Leave(t));
      if pool.Of(k) > 0 {
        pool := pool.Plus(k, -1);
      }
    }

    /** Succeeds exactly below both limits; a refused call leaves every counter as it was. */
    method Increment(ghost t: nat, k: Kind, cap: nat) returns (success: bool)
      requires Valid() && Enabled(view, Reserve(t, k)) && Free(view, k) && CapOf(k, cap)
      modifies this
      ensures Valid() && Reaches(old(view), IncrementSteps(old(view), t, k, cap), view)
      ensures success == (old(jsThreadCount) < 80 && old(pool).Of(k) < cap)
      ensures k == Ark ==> success == (old(jsThreadCount) < 80 && old(pool).ark < 64)
      ensures k == Limited ==> success == (old(jsThreadCount) < 80 && old(pool).limited < 16)
      ensures jsThreadCount == old(jsThreadCount) + (if success then 1 else 0)
      ensures pool == if success then old(pool).Plus(k, 1) else old(pool)
    {
      ghost var (s, run) := (view, IncrementSteps(view, t, k, cap));
      StepThen(s, [], s, Reserve(t, k));
      success := IncrementJSThreadCount(t, k);
      if !success {
        assert run == [] + [Reserve(t, k)];
        return;
      }
      assert [] + [Reserve(t, k)] == run[..1];
      StepThen(s, run[..1], view, Lock(t));
      LockPool(t);
      assert run[..1] + [Lock(t)] == run[..2];
      StepThen(s, run[..2], view, Decide(t, cap));
      success := CountIn(t, k, cap);
      assert run[..2] + [Decide(t, cap)] == run[..3];
      if success {
        assert run == run[..3];
      } else {
        StepThen(s, run[..3], view, RollBack(t));
        assert run[..3] + [RollBack(t)] == run;
        DecrementJSThreadCount(RollBack(t));
      }
    }

    /** Takes one from both counters; at zero a counter stays where it is. */
    method Decrement(ghost t: nat, k: Kind)
      requires Valid() && Enabled(view, Begin(t, k)) && Free(view, k)
      modifies this
      ensures Valid() && Reaches(old(view), DecrementSteps(t, k), view)
      ensures jsThreadCount == if old(jsThreadCount) > 0 then old(jsThreadCount) - 1 else 0
      ensures pool == if old(pool).Of(k) > 0 then old(pool).Plus(k, -1) else old(pool)
    {
      ghost var (s, run) := (view, DecrementSteps(t, k));
      StepThen(s, [], s, Begin(t, k));
      view := Do(view, Begin(t, k));
      assert [] + [Begin(t, k)] == run[..1];
      StepThen(s, run[..1], view, Lock(t));
      LockPool(t);
      assert run[..1] + [Lock(t)] == run[..2];
      StepThen(s, run[..2], view, Leave(t));
      CountOut(t, k);
      assert run[..2] + [Leave(t)] == run[..3];
      StepThen(s, run[..3], view, GiveBack(t));
      assert run[..3] + [GiveBack(t)] == run;
      DecrementJSThreadCount(GiveBack(t));
    }
  }
}
