/** The engine's cleanup hooks: a map from arg to (function, insertion number) that hook bodies may
    change while RunCleanupHooks walks a sorted copy of it. */
module CleanupHooks {

  type Arg = nat
  type Fun = nat            // 0 is the null pointer
  const NULL: Fun := 0

  datatype Entry = Entry(fun: Fun, number: nat)
  datatype Callback = Callback(arg: Arg, fun: Fun, number: nat)

  // What user code may do while it is being called.
  datatype HookOp = Add(fun: Fun, arg: Arg) | Remove(fun: Fun, arg: Arg)

  /** `history` records every registration by its number; `cancelled` those removed before their
      turn; `turns` those whose turn was taken, in order. */
  datatype Registry = Registry(hooks: map<Arg, Entry>, counter: nat,
                               history: map<nat, Callback>, cancelled: set<nat>, turns: seq<nat>)

  function Init(): Registry {
    Registry(map[], 0, map[], {}, [])
  }

  function AddEffect(r: Registry, fun: Fun, arg: Arg): Registry {
    if arg in r.hooks then r.(counter := r.counter + 1)
    else r.(hooks := r.hooks[arg := Entry(fun, r.counter)], counter := r.counter + 1,
            history := r.history[r.counter := Callback(arg, fun, r.counter)])
  }

  function RemoveEffect(r: Registry, fun: Fun, arg: Arg): Registry {
    if arg in r.hooks && r.hooks[arg].fun == fun then
      var n := r.hooks[arg].number;
      r.(hooks := r.hooks - {arg}, cancelled := if n in r.turns then r.cancelled else r.cancelled + {n})
    else r
  }

  function OpEffect(r: Registry, op: HookOp): Registry {
    match op case Add(fun, arg) => AddEffect(r, fun, arg) case Remove(fun, arg) => RemoveEffect(r, fun, arg)
  }

  function OpsEffect(r: Registry, ops: seq<HookOp>): Registry
    decreases |ops|
  {
    if ops == [] then r else OpsEffect(OpEffect(r, ops[0]), ops[1..])
  }

  // User code is called once more: what it does, and what remains of the script.
  function NextOps(script: seq<seq<HookOp>>): seq<HookOp> { if script == [] then [] else script[0] }
  function Later(script: seq<seq<HookOp>>): seq<seq<HookOp>> { if script == [] then [] else script[1..] }

  // One iteration of the inner loop.
  function Turn(r: Registry, cb: Callback, script: seq<seq<HookOp>>): (Registry, seq<seq<HookOp>>) {
    if cb.arg !in r.hooks then (r, script)
    else
      var r1 := r.(turns := r.turns + [cb.number]);
      if cb.fun == NULL then (r1.(hooks := r1.hooks - {cb.arg}), script)
      else
        var r2 := OpsEffect(r1, NextOps(script));
        (r2.(hooks := r2.hooks - {cb.arg}), Later(script))
  }

  function Pass(r: Registry, callbacks: seq<Callback>, script: seq<seq<HookOp>>): (Registry, seq<seq<HookOp>>)
    decreases |callbacks|
  {
    if callbacks == [] then (r, script)
    else
      var (r1, s1) := Turn(r, callbacks[0], script);
      Pass(r1, callbacks[1..], s1)
  }

  // ---------------------------------------------------------------- the sorted copy

  predicate IsLive(r: Registry, n: nat) {
    n in r.history && r.history[n].arg in r.hooks && r.hooks[r.history[n].arg].number == n
  }

  // The live registrations with numbers below `bound`, most recent first.
  function Snapshot(r: Registry, bound: nat): (s: seq<Callback>)
    ensures forall i :: 0 <= i < |s| ==> s[i].number < bound
  {
    if bound == 0 then []
    else
      var rest := Snapshot(r, bound - 1);
      if IsLive(r, bound - 1) && r.history[bound - 1].number == bound - 1 then [r.history[bound - 1]] + rest else rest
  }

  // Every entry of the map is a recorded registration.
  ghost predicate Recorded(r: Registry) {
    && (forall n :: n in r.history ==> n < r.counter && r.history[n].number == n)
    && (forall a :: a in r.hooks ==> r.hooks[a].number in r.history && r.history[r.hooks[a].number] == Callback(a, r.hooks[a].fun, r.hooks[a].number))
  }

  predicate Descending(s: seq<Callback>) {
    forall i, j :: 0 <= i < j < |s| ==> s[i].number > s[j].number
  }

  // s is the map's contents sorted by insertion number, most recent first.
  ghost predicate SortedCopy(s: seq<Callback>, hooks: map<Arg, Entry>) {
    && Descending(s)
    && (forall cb :: cb in s ==> cb.arg in hooks && hooks[cb.arg] == Entry(cb.fun, cb.number))
    && (forall a :: a in hooks ==> Callback(a, hooks[a].fun, hooks[a].number) in s)
  }

  lemma {:induction false} SnapshotContents(r: Registry, bound: nat)
    requires Recorded(r)
    ensures Descending(Snapshot(r, bound))
    ensures forall cb :: cb in Snapshot(r, bound) <==>
              cb.number < bound && cb.arg in r.hooks && r.hooks[cb.arg] == Entry(cb.fun, cb.number)
  {
    if bound > 0 {
      SnapshotContents(r, bound - 1);
      var s, rest, n := Snapshot(r, bound), Snapshot(r, bound - 1), bound - 1;
      forall cb ensures cb in s <==> cb.number < bound && cb.arg in r.hooks && r.hooks[cb.arg] == Entry(cb.fun, cb.number) {
        if cb.number == n && cb.arg in r.hooks && r.hooks[cb.arg] == Entry(cb.fun, cb.number) {
          assert r.history[n] == cb && s[0] == cb;
        }
      }
    }
  }

  lemma SnapshotIsSortedCopy(r: Registry)
    requires Recorded(r)
    ensures SortedCopy(Snapshot(r, r.counter), r.hooks)
  {
    SnapshotContents(r, r.counter);
  }

  /** std::sort has no freedom here: two descending lists with the same elements are equal. */
  lemma {:induction false} DescendingUnique(a: seq<Callback>, b: seq<Callback>)
    requires Descending(a) && Descending(b) && forall cb :: cb in a <==> cb in b
    ensures a == b
    decreases |a|
  {
    assert b != [] ==> b[0] in b;
    if a != [] {
      assert a[0] in b && b != [];
      assert b[0] in a;
      assert a[0] == b[0];
      forall cb ensures cb in a[1..] <==> cb in b[1..] {
        if cb in a[1..] { assert cb in a && cb != a[0]; }
        if cb in b[1..] { assert cb in b && cb != b[0]; }
      }
      DescendingUnique(a[1..], b[1..]);
    }
  }

  // ---------------------------------------------------------------- RunCleanupHooks

  lemma OpKeepsRecorded(r: Registry, op: HookOp)
    requires Recorded(r)
    ensures Recorded(OpEffect(r, op))
    ensures OpEffect(r, op).turns == r.turns
  {
  }

  lemma {:induction false} OpsKeepRecorded(r: Registry, ops: seq<HookOp>)
    requires Recorded(r)
    ensures Recorded(OpsEffect(r, ops))
    ensures OpsEffect(r, ops).turns == r.turns
    decreases |ops|
  {
    if ops != [] {
      OpKeepsRecorded(r, ops[0]);
      OpsKeepRecorded(OpEffect(r, ops[0]), ops[1..]);
    }
  }

  lemma {:induction false} OpsKeepHistory(r: Registry, ops: seq<HookOp>)
    requires Recorded(r)
    ensures forall n :: n in r.history ==> n in OpsEffect(r, ops).history && OpsEffect(r, ops).history[n] == r.history[n]
    decreases |ops|
  {
    if ops != [] {
      OpKeepsRecorded(r, ops[0]);
      OpsKeepHistory(OpEffect(r, ops[0]), ops[1..]);
    }
  }

  function ArgsOf(callbacks: seq<Callback>): set<Arg> {
    set cb | cb in callbacks :: cb.arg
  }

  /** Either user code used up part of its script, or the pass only erased its own callbacks. */
  lemma {:induction false} PassFacts(r: Registry, callbacks: seq<Callback>, script: seq<seq<HookOp>>)
    requires Recorded(r)
    ensures var (r1, s1) := Pass(r, callbacks, script);
            && Recorded(r1) && |s1| <= |script|
            && (|s1| < |script| || r1.hooks == r.hooks - ArgsOf(callbacks))
    decreases |callbacks|
  {
    if callbacks != [] {
      var cb := callbacks[0];
      var (r1, s1) := Turn(r, cb, script);
      OpsKeepRecorded(r.(turns := r.turns + [cb.number]), NextOps(script));
      PassFacts(r1, callbacks[1..], s1);
      assert ArgsOf(callbacks) == {cb.arg} + ArgsOf(callbacks[1..]);
      assert (r.hooks - {cb.arg}) - ArgsOf(callbacks[1..]) == r.hooks - ArgsOf(callbacks);
      if cb.arg !in r.hooks { assert r.hooks - {cb.arg} == r.hooks; }
    }
  }

  // One iteration of the outer loop: a pass over the sorted copy, then CleanupHandles if asked for.
  function Round(r: Registry, script: seq<seq<HookOp>>, waitTasks: bool): (Registry, seq<seq<HookOp>>) {
    var (r1, s1) := Pass(r, Snapshot(r, r.counter), script);
    if waitTasks then (OpsEffect(r1, NextOps(s1)), Later(s1)) else (r1, s1)
  }

  lemma RoundDecreases(r: Registry, script: seq<seq<HookOp>>, waitTasks: bool)
    requires Recorded(r) && r.hooks != map[]
    ensures var (r2, s2) := Round(r, script, waitTasks);
            Recorded(r2) && (|s2| < |script| || (|s2| == |script| && |r2.hooks| < |r.hooks|))
  {
    var (r1, s1) := Pass(r, Snapshot(r, r.counter), script);
    PassDecreases(r, script);
    OpsKeepRecorded(r1, NextOps(s1));
  }

  lemma PassDecreases(r: Registry, script: seq<seq<HookOp>>)
    requires Recorded(r) && r.hooks != map[]
    ensures var (r1, s1) := Pass(r, Snapshot(r, r.counter), script);
            Recorded(r1) && |s1| <= |script| && (|s1| < |script| || r1.hooks == map[])
  {
    PassFacts(r, Snapshot(r, r.counter), script);
    NothingLeftOut(r);
  }

  lemma NothingLeftOut(r: Registry)
    requires Recorded(r)
    ensures r.hooks - ArgsOf(Snapshot(r, r.counter)) == map[]
  {
    SnapshotIsSortedCopy(r);
    AllArgs(r.hooks, Snapshot(r, r.counter));
  }

  lemma AllArgs(hooks: map<Arg, Entry>, callbacks: seq<Callback>)
    requires SortedCopy(callbacks, hooks)
    ensures hooks - ArgsOf(callbacks) == map[]
  {
    forall a | a in hooks ensures a in ArgsOf(callbacks) {
      assert Callback(a, hooks[a].fun, hooks[a].number) in callbacks;
    }
  }

  /** The whole of RunCleanupHooks: the final registry, and the turns taken in each pass. It ends
      because every pass uses up the script or leaves fewer hooks. */
  function RunHooks(r: Registry, script: seq<seq<HookOp>>, waitTasks: bool): (Registry, seq<seq<nat>>)
    requires Recorded(r)
    decreases |script|, |r.hooks|
  {
    if r.hooks == map[] then (r, [])
    else
      RoundDecreases(r, script, waitTasks);
      var (r2, s2) := Round(r, script, waitTasks);
      var (last, passes) := RunHooks(r2, s2, waitTasks);
      (last, [PassTurns(r, Snapshot(r, r.counter), script)] + passes)
  }

  function PassTurns(r: Registry, callbacks: seq<Callback>, script: seq<seq<HookOp>>): seq<nat>
    decreases |callbacks|
  {
    if callbacks == [] then []
    else
      var (r1, s1) := Turn(r, callbacks[0], script);
      (if callbacks[0].arg in r.hooks then [callbacks[0].number] else []) + PassTurns(r1, callbacks[1..], s1)
  }

  // ---------------------------------------------------------------- each hook once

  predicate Distinct(q: seq<nat>) {
    forall i, j :: 0 <= i < j < |q| ==> q[i] != q[j]
  }

  // Exactly one of: still registered, its turn taken, removed before its turn. A running hook may
  // still be registered.
  ghost predicate Accounted(r: Registry, running: set<nat>) {
    && Recorded(r)
    && Distinct(r.turns) && (forall n :: n in r.turns ==> n in r.history) && (forall n :: n in r.cancelled ==> n in r.history)
    && (forall n :: n in r.history ==>
          && !(n in r.turns && n in r.cancelled)
          && (n !in r.turns && n !in r.cancelled ==> IsLive(r, n))
          && (IsLive(r, n) ==> n !in r.cancelled && (n in r.turns ==> n in running)))
  }

  lemma OpKeepsAccounted(r: Registry, op: HookOp, running: set<nat>)
    requires Accounted(r, running)
    ensures Accounted(OpEffect(r, op), running)
  {
    OpKeepsRecorded(r, op);
    var t := OpEffect(r, op);
    if op.Add? && op.arg !in r.hooks {
      assert forall n :: n in r.history ==> IsLive(t, n) == IsLive(r, n);
      assert IsLive(t, r.counter);
    } else if op.Remove? && op.arg in r.hooks && r.hooks[op.arg].fun == op.fun {
      assert forall n :: n in r.history ==> IsLive(t, n) == (IsLive(r, n) && n != r.hooks[op.arg].number);
    }
  }

  lemma {:induction false} OpsKeepAccounted(r: Registry, ops: seq<HookOp>, running: set<nat>)
    requires Accounted(r, running)
    ensures Accounted(OpsEffect(r, ops), running)
    decreases |ops|
  {
    if ops != [] {
      OpKeepsAccounted(r, ops[0], running);
      OpsKeepAccounted(OpEffect(r, ops[0]), ops[1..], running);
    }
  }

  /** Whatever user code has registered and removed on a new engine. */
  lemma RegisteredIsAccounted(ops: seq<HookOp>)
    ensures Accounted(OpsEffect(Init(), ops), {}) && OpsEffect(Init(), ops).turns == []
  {
    OpsKeepAccounted(Init(), ops, {});
    OpsKeepRecorded(Init(), ops);
  }

  // What the user code of this turn leaves behind just before the erase.
  function BeforeErase(r: Registry, cb: Callback, script: seq<seq<HookOp>>): Registry {
    var r1 := r.(turns := r.turns + [cb.number]);
    if cb.fun == NULL then r1 else OpsEffect(r1, NextOps(script))
  }

  // The hook re-registered its own arg while it was running.
  predicate Reregistered(r: Registry, cb: Callback, script: seq<seq<HookOp>>) {
    var e := BeforeErase(r, cb, script);
    cb.arg in e.hooks && e.hooks[cb.arg].number != cb.number
  }

  // The turn is skipped, or it finds the registration it was copied from and that registration's
  // hook does not register its own arg anew.
  predicate CleanTurn(r: Registry, cb: Callback, script: seq<seq<HookOp>>) {
    cb.arg in r.hooks ==> r.hooks[cb.arg].number == cb.number && !Reregistered(r, cb, script)
  }

  // The callback is one of the registrations made.
  predicate Copied(r: Registry, cb: Callback) {
    cb.number in r.history && r.history[cb.number] == cb
  }

  lemma OwnTurn(r: Registry, cb: Callback, script: seq<seq<HookOp>>)
    requires Accounted(r, {}) && Copied(r, cb) && cb.arg in r.hooks && r.hooks[cb.arg].number == cb.number
    ensures var e := BeforeErase(r, cb, script);
            && Accounted(e, {cb.number}) && cb.number in e.turns && Copied(e, cb)
            && Turn(r, cb, script).0 == e.(hooks := e.hooks - {cb.arg})
  {
    var n := cb.number;
    var r1 := r.(turns := r.turns + [n]);
    assert IsLive(r, n) && n !in r.turns;
    assert forall m :: m in r.history ==> IsLive(r1, m) == IsLive(r, m);
    assert Accounted(r1, {n});
    OpsKeepAccounted(r1, NextOps(script), {n});
    OpsKeepRecorded(r1, NextOps(script));
    OpsKeepHistory(r1, NextOps(script));
  }

  /** A turn leaves every registration accounted for if and only if it is clean. */
  lemma TurnAccountsIff(r: Registry, cb: Callback, script: seq<seq<HookOp>>)
    requires Accounted(r, {}) && Copied(r, cb)
    ensures Accounted(Turn(r, cb, script).0, {}) <==> CleanTurn(r, cb, script)
  {
    if cb.arg in r.hooks {
      if r.hooks[cb.arg].number == cb.number {
        OwnTurn(r, cb, script);
        EraseAccountsIff(BeforeErase(r, cb, script), Turn(r, cb, script).0, cb);
      } else {
        StaleTurn(r, cb, script);
      }
    }
  }

  lemma EraseAccountsIff(e: Registry, t: Registry, cb: Callback)
    requires Accounted(e, {cb.number}) && cb.number in e.turns
    requires t == e.(hooks := e.hooks - {cb.arg})
    requires cb.number in e.history ==> e.history[cb.number].arg == cb.arg
    ensures Accounted(t, {}) <==> !(cb.arg in e.hooks && e.hooks[cb.arg].number != cb.number)
  {
    if cb.arg in e.hooks && e.hooks[cb.arg].number != cb.number {
      var m := e.hooks[cb.arg].number;
      assert IsLive(e, m) && !IsLive(t, m);
    } else {
      assert forall m :: m in e.history ==> IsLive(t, m) == (IsLive(e, m) && m != cb.number);
    }
  }

  // ---------------------------------------------------------------- what is wrong stays wrong

  // Removed before its turn and run nevertheless, or run twice.
  ghost predicate Overrun(r: Registry) {
    !Distinct(r.turns) || exists n :: n in r.turns && n in r.cancelled && n in r.history
  }

  // Neither registered any more, nor run, nor removed, nor among the callbacks still to come.
  ghost predicate Lost(r: Registry, m: nat, callbacks: seq<Callback>) {
    && m in r.history && m !in r.turns && m !in r.cancelled && !IsLive(r, m)
    && forall k :: 0 <= k < |callbacks| ==> callbacks[k].number != m
  }

  ghost predicate Broken(r: Registry, callbacks: seq<Callback>) {
    Recorded(r) && (Overrun(r) || exists m :: Lost(r, m, callbacks))
  }

  // r only grew into t, and what was not registered in r is not registered in t.
  ghost predicate Grown(r: Registry, t: Registry) {
    && Recorded(t)
    && (forall n :: n in r.history ==> n in t.history && t.history[n] == r.history[n])
    && (forall n :: n in r.cancelled ==> n in t.cancelled)
    && (forall n :: n in r.history && n !in r.cancelled && !IsLive(r, n) ==> n !in t.cancelled && !IsLive(t, n))
  }

  lemma OpGrows(r: Registry, op: HookOp)
    requires Recorded(r)
    ensures Grown(r, OpEffect(r, op))
  {
    OpKeepsRecorded(r, op);
  }

  lemma {:induction false} OpsGrow(r: Registry, ops: seq<HookOp>)
    requires Recorded(r)
    ensures Grown(r, OpsEffect(r, ops)) && OpsEffect(r, ops).turns == r.turns
    decreases |ops|
  {
    if ops != [] {
      OpKeepsRecorded(r, ops[0]);
      OpGrows(r, ops[0]);
      OpsGrow(OpEffect(r, ops[0]), ops[1..]);
    }
  }

  lemma TurnGrows(r: Registry, cb: Callback, script: seq<seq<HookOp>>)
    requires Recorded(r)
    ensures Grown(r, Turn(r, cb, script).0)
    ensures Turn(r, cb, script).0.turns == r.turns + if cb.arg in r.hooks then [cb.number] else []
  {
    if cb.arg in r.hooks {
      var r1 := r.(turns := r.turns + [cb.number]);
      assert forall n :: IsLive(r1, n) == IsLive(r, n);
      OpsGrow(r1, NextOps(script));
      var e := BeforeErase(r, cb, script);
      assert Grown(r, e);
      assert forall n :: IsLive(e.(hooks := e.hooks - {cb.arg}), n) ==> IsLive(e, n);
    }
  }

  lemma BrokenStays(r: Registry, t: Registry, more: seq<nat>, callbacks: seq<Callback>, rest: seq<Callback>)
    requires Broken(r, callbacks) && Grown(r, t) && t.turns == r.turns + more
    requires forall i :: 0 <= i < |more| ==> exists k :: 0 <= k < |callbacks| && callbacks[k].number == more[i]
    requires forall k :: 0 <= k < |rest| ==> rest[k] in callbacks
    ensures Broken(t, rest)
  {
    if !Distinct(r.turns) {
      var i, j :| 0 <= i < j < |r.turns| && r.turns[i] == r.turns[j];
      assert t.turns[i] == t.turns[j];
    } else if n :| n in r.turns && n in r.cancelled && n in r.history {
      assert n in t.turns && n in t.cancelled;
    } else {
      var m :| Lost(r, m, callbacks);
      assert m !in more;
      assert Lost(t, m, rest);
    }
  }

  // A turn that meets a newer registration of its arg runs the old one, which was removed or had run.
  lemma StaleTurn(r: Registry, cb: Callback, script: seq<seq<HookOp>>)
    requires Accounted(r, {}) && Copied(r, cb) && cb.arg in r.hooks && r.hooks[cb.arg].number != cb.number
    ensures Recorded(Turn(r, cb, script).0) && Overrun(Turn(r, cb, script).0)
  {
    var (n, t) := (cb.number, Turn(r, cb, script).0);
    TurnGrows(r, cb, script);
    assert !IsLive(r, n);
    assert t.turns[|r.turns|] == n && n in t.turns;
    if n in r.turns {
      var i :| 0 <= i < |r.turns| && r.turns[i] == n;
      assert t.turns[i] == n;
    } else {
      assert n in t.cancelled && n in t.history;
    }
  }

  // Callbacks of a pass: registrations, of different args.
  ghost predicate Pending(r: Registry, callbacks: seq<Callback>) {
    && (forall k :: 0 <= k < |callbacks| ==> Copied(r, callbacks[k]))
    && (forall i, k :: 0 <= i < k < |callbacks| ==> callbacks[i].arg != callbacks[k].arg)
  }

  // A hook that registers its own arg anew loses that registration.
  lemma ReregisteredTurn(r: Registry, callbacks: seq<Callback>, script: seq<seq<HookOp>>)
    requires callbacks != [] && Accounted(r, {}) && Pending(r, callbacks)
    requires var cb := callbacks[0]; cb.arg in r.hooks && r.hooks[cb.arg].number == cb.number && Reregistered(r, cb, script)
    ensures Broken(Turn(r, callbacks[0], script).0, callbacks[1..])
  {
    var (cb, t) := (callbacks[0], Turn(r, callbacks[0], script).0);
    var e := BeforeErase(r, cb, script);
    OwnTurn(r, cb, script);
    TurnGrows(r, cb, script);
    var m := e.hooks[cb.arg].number;
    assert IsLive(e, m) && m !in e.turns && m !in e.cancelled && t.history[m].arg == cb.arg;
    forall k | 0 <= k < |callbacks[1..]| ensures callbacks[1..][k].number != m {
      assert Copied(r, callbacks[k + 1]) && t.history[callbacks[k + 1].number].arg != cb.arg;
    }
    assert Lost(t, m, callbacks[1..]);
  }

  lemma PendingStays(r: Registry, t: Registry, callbacks: seq<Callback>)
    requires callbacks != [] && Pending(r, callbacks) && Grown(r, t)
    ensures Pending(t, callbacks[1..])
  {
  }

  lemma UncleanTurn(r: Registry, callbacks: seq<Callback>, script: seq<seq<HookOp>>)
    requires callbacks != [] && Accounted(r, {}) && Pending(r, callbacks) && !CleanTurn(r, callbacks[0], script)
    ensures Broken(Turn(r, callbacks[0], script).0, callbacks[1..])
  {
    if r.hooks[callbacks[0].arg].number == callbacks[0].number {
      ReregisteredTurn(r, callbacks, script);
    } else {
      StaleTurn(r, callbacks[0], script);
    }
  }

  lemma TurnStaysBroken(r: Registry, callbacks: seq<Callback>, script: seq<seq<HookOp>>)
    requires callbacks != [] && Broken(r, callbacks)
    ensures Broken(Turn(r, callbacks[0], script).0, callbacks[1..])
  {
    var (cb, t) := (callbacks[0], Turn(r, callbacks[0], script).0);
    TurnGrows(r, cb, script);
    BrokenStays(r, t, if cb.arg in r.hooks then [cb.number] else [], callbacks, callbacks[1..]);
  }

  lemma {:induction false} PassStaysBroken(r: Registry, callbacks: seq<Callback>, script: seq<seq<HookOp>>)
    requires Broken(r, callbacks)
    ensures Broken(Pass(r, callbacks, script).0, [])
    decreases |callbacks|
  {
    if callbacks != [] {
      TurnStaysBroken(r, callbacks, script);
      var (r1, s1) := Turn(r, callbacks[0], script);
      PassStaysBroken(r1, callbacks[1..], s1);
    }
  }

  lemma OpsStayBroken(r: Registry, ops: seq<HookOp>)
    requires Broken(r, [])
    ensures Broken(OpsEffect(r, ops), [])
  {
    OpsGrow(r, ops);
    BrokenStays(r, OpsEffect(r, ops), [], [], []);
  }

  // Between passes nothing is to come; what a new pass copies is registered, so not lost.
  lemma LostIsNotCopied(r: Registry)
    requires Broken(r, [])
    ensures Broken(r, Snapshot(r, r.counter))
  {
    SnapshotContents(r, r.counter);
    if !Overrun(r) {
      var m :| Lost(r, m, []);
      var s := Snapshot(r, r.counter);
      forall k | 0 <= k < |s| ensures s[k].number != m {
        assert s[k] in s && IsLive(r, s[k].number);
      }
      assert Lost(r, m, s);
    }
  }

  lemma RoundStaysBroken(r: Registry, script: seq<seq<HookOp>>, waitTasks: bool)
    requires Broken(r, [])
    ensures Broken(Round(r, script, waitTasks).0, [])
  {
    LostIsNotCopied(r);
    var (r1, s1) := Pass(r, Snapshot(r, r.counter), script);
    PassStaysBroken(r, Snapshot(r, r.counter), script);
    OpsStayBroken(r1, NextOps(s1));
  }

  lemma {:induction false} RunStaysBroken(r: Registry, script: seq<seq<HookOp>>, waitTasks: bool)
    requires Broken(r, [])
    ensures Broken(RunHooks(r, script, waitTasks).0, [])
    decreases |script|, |r.hooks|
  {
    if r.hooks != map[] {
      RoundStaysBroken(r, script, waitTasks);
      RoundDecreases(r, script, waitTasks);
      var (r2, s2) := Round(r, script, waitTasks);
      RunStaysBroken(r2, s2, waitTasks);
    }
  }

  // ---------------------------------------------------------------- clean runs

  predicate CleanPass(r: Registry, callbacks: seq<Callback>, script: seq<seq<HookOp>>)
    decreases |callbacks|
  {
    callbacks == [] ||
    (CleanTurn(r, callbacks[0], script) && CleanPass(Turn(r, callbacks[0], script).0, callbacks[1..], Turn(r, callbacks[0], script).1))
  }

  predicate CleanRun(r: Registry, script: seq<seq<HookOp>>, waitTasks: bool)
    requires Recorded(r)
    decreases |script|, |r.hooks|
  {
    r.hooks == map[] ||
    (RoundDecreases(r, script, waitTasks);
     CleanPass(r, Snapshot(r, r.counter), script)
     && CleanRun(Round(r, script, waitTasks).0, Round(r, script, waitTasks).1, waitTasks))
  }

  lemma {:induction false} PassAccountsIff(r: Registry, callbacks: seq<Callback>, script: seq<seq<HookOp>>)
    requires Accounted(r, {}) && Pending(r, callbacks)
    ensures CleanPass(r, callbacks, script) ==> Accounted(Pass(r, callbacks, script).0, {})
    ensures !CleanPass(r, callbacks, script) ==> Broken(Pass(r, callbacks, script).0, [])
    decreases |callbacks|
  {
    if callbacks != [] {
      var (r1, s1) := Turn(r, callbacks[0], script);
      if CleanTurn(r, callbacks[0], script) {
        TurnAccountsIff(r, callbacks[0], script);
        TurnGrows(r, callbacks[0], script);
        PendingStays(r, r1, callbacks);
        PassAccountsIff(r1, callbacks[1..], s1);
      } else {
        UncleanTurn(r, callbacks, script);
        PassStaysBroken(r1, callbacks[1..], s1);
      }
    }
  }

  lemma SnapshotPending(r: Registry)
    requires Recorded(r)
    ensures Pending(r, Snapshot(r, r.counter))
  {
    SnapshotContents(r, r.counter);
    var s := Snapshot(r, r.counter);
    forall k | 0 <= k < |s| ensures Copied(r, s[k]) { assert s[k] in s; }
    forall i, k | 0 <= i < k < |s| ensures s[i].arg != s[k].arg { assert s[i] in s && s[k] in s; }
  }

  // The turns of one pass: some of its callbacks, in its order.
  lemma {:induction false} PassOrder(r: Registry, callbacks: seq<Callback>, script: seq<seq<HookOp>>, bound: nat)
    requires Recorded(r) && Descending(callbacks) && forall k :: 0 <= k < |callbacks| ==> callbacks[k].number < bound
    ensures Pass(r, callbacks, script).0.turns == r.turns + PassTurns(r, callbacks, script)
    ensures StrictlyDecreasing(PassTurns(r, callbacks, script))
    ensures forall i :: 0 <= i < |PassTurns(r, callbacks, script)| ==> PassTurns(r, callbacks, script)[i] < bound
    decreases |callbacks|
  {
    if callbacks != [] {
      var cb := callbacks[0];
      var (r1, s1) := Turn(r, cb, script);
      OpsKeepRecorded(r.(turns := r.turns + [cb.number]), NextOps(script));
      var rest := callbacks[1..];
      assert forall k :: 0 <= k < |rest| ==> rest[k] == callbacks[k + 1];
      PassOrder(r1, rest, s1, cb.number);
      var head := if cb.arg in r.hooks then [cb.number] else [];
      assert r1.turns == r.turns + head;
      assert PassTurns(r, callbacks, script) == head + PassTurns(r1, rest, s1);
      assert Pass(r, callbacks, script) == Pass(r1, rest, s1);
    }
  }

  predicate StrictlyDecreasing(q: seq<nat>) {
    forall i, j :: 0 <= i < j < |q| ==> q[i] > q[j]
  }

  function Flatten(passes: seq<seq<nat>>): seq<nat> {
    if passes == [] then [] else passes[0] + Flatten(passes[1..])
  }

  // What a finished RunCleanupHooks must have done.
  ghost predicate EachOnce(start: Registry, last: Registry, passes: seq<seq<nat>>) {
    && last.hooks == map[] && Distinct(last.turns)
    && (forall n :: n in last.history ==> (n in last.turns <==> n !in last.cancelled))
    && last.turns == start.turns + Flatten(passes)
    && forall k :: 0 <= k < |passes| ==> StrictlyDecreasing(passes[k])
  }

  lemma PrependPass(r: Registry, r2: Registry, last: Registry, first: seq<nat>, passes: seq<seq<nat>>)
    requires EachOnce(r2, last, passes) && r2.turns == r.turns + first && StrictlyDecreasing(first)
    ensures EachOnce(r, last, [first] + passes)
  {
    assert ([first] + passes)[1..] == passes;
  }

  /** RunCleanupHooks under hooks that change the map: it empties the map; every registration, those
      made meanwhile included, has its turn exactly once or was removed before it, never both; and the
      turns of each pass run from the most recent registration to the oldest; if and only if every
      turn taken is clean. */
  lemma {:induction false} EachHookOnceIff(r: Registry, script: seq<seq<HookOp>>, waitTasks: bool)
    requires Accounted(r, {})
    ensures EachOnce(r, RunHooks(r, script, waitTasks).0, RunHooks(r, script, waitTasks).1) <==> CleanRun(r, script, waitTasks)
    decreases |script|, |r.hooks|
  {
    if r.hooks == map[] {
      EmptyIsAccounted(r);
      assert r.turns + Flatten([]) == r.turns;
    } else {
      RoundAccountsIff(r, script, waitTasks);
      RoundDecreases(r, script, waitTasks);
      var (r2, s2) := Round(r, script, waitTasks);
      var (last, passes) := RunHooks(r2, s2, waitTasks);
      if CleanPass(r, Snapshot(r, r.counter), script) {
        EachHookOnceIff(r2, s2, waitTasks);
        if EachOnce(r2, last, passes) {
          PrependPass(r, r2, last, PassTurns(r, Snapshot(r, r.counter), script), passes);
        } else {
          NotPrepended(r, r2, last, PassTurns(r, Snapshot(r, r.counter), script), passes);
        }
      } else {
        RunStaysBroken(r2, s2, waitTasks);
        BrokenIsNotOnce(r, last, [PassTurns(r, Snapshot(r, r.counter), script)] + passes);
      }
    }
  }

  lemma BrokenIsNotOnce(start: Registry, last: Registry, passes: seq<seq<nat>>)
    requires Broken(last, [])
    ensures !EachOnce(start, last, passes)
  {
  }

  lemma NotPrepended(r: Registry, r2: Registry, last: Registry, first: seq<nat>, passes: seq<seq<nat>>)
    requires !EachOnce(r2, last, passes) && r2.turns == r.turns + first
    ensures !EachOnce(r, last, [first] + passes)
  {
    assert ([first] + passes)[1..] == passes;
    assert Flatten([first] + passes) == first + Flatten(passes);
    assert r.turns + (first + Flatten(passes)) == r2.turns + Flatten(passes);
    assert forall k :: 0 <= k < |passes| ==> passes[k] == ([first] + passes)[k + 1];
  }

  lemma EmptyIsAccounted(r: Registry)
    requires Accounted(r, {}) && r.hooks == map[]
    ensures forall n :: n in r.history ==> (n in r.turns <==> n !in r.cancelled)
  {
    assert forall n :: n in r.history ==> !IsLive(r, n);
  }

  lemma RoundAccountsIff(r: Registry, script: seq<seq<HookOp>>, waitTasks: bool)
    requires Accounted(r, {}) && r.hooks != map[]
    ensures Recorded(Round(r, script, waitTasks).0)
    ensures if CleanPass(r, Snapshot(r, r.counter), script) then Accounted(Round(r, script, waitTasks).0, {})
            else Broken(Round(r, script, waitTasks).0, [])
    ensures Round(r, script, waitTasks).0.turns == r.turns + PassTurns(r, Snapshot(r, r.counter), script)
    ensures StrictlyDecreasing(PassTurns(r, Snapshot(r, r.counter), script))
  {
    var callbacks := Snapshot(r, r.counter);
    SnapshotIsSortedCopy(r);
    SnapshotPending(r);
    RoundDecreases(r, script, waitTasks);
    PassAccountsIff(r, callbacks, script);
    PassOrder(r, callbacks, script, r.counter);
    PassFacts(r, callbacks, script);
    var (r1, s1) := Pass(r, callbacks, script);
    OpsKeepRecorded(r1, NextOps(s1));
    if CleanPass(r, callbacks, script) {
      OpsKeepAccounted(r1, NextOps(s1), {});
    } else {
      OpsStayBroken(r1, NextOps(s1));
    }
  }

  // ---------------------------------------------------------------- hooks that add fresh args

  // An op that does register an arg registers none whose callback is running or still to come.
  predicate FreshOps(r: Registry, ops: seq<HookOp>, callbacks: seq<Callback>)
    decreases |ops|
  {
    ops == [] ||
    (&& (ops[0].Add? && ops[0].arg !in r.hooks ==> forall k :: 0 <= k < |callbacks| ==> ops[0].arg != callbacks[k].arg)
     && FreshOps(OpEffect(r, ops[0]), ops[1..], callbacks))
  }

  predicate FreshPass(r: Registry, callbacks: seq<Callback>, script: seq<seq<HookOp>>)
    decreases |callbacks|
  {
    callbacks == [] ||
    (&& (callbacks[0].arg in r.hooks && callbacks[0].fun != NULL ==>
           FreshOps(r.(turns := r.turns + [callbacks[0].number]), NextOps(script), callbacks))
     && FreshPass(Turn(r, callbacks[0], script).0, callbacks[1..], Turn(r, callbacks[0], script).1))
  }

  predicate FreshRun(r: Registry, script: seq<seq<HookOp>>, waitTasks: bool)
    requires Recorded(r)
    decreases |script|, |r.hooks|
  {
    r.hooks == map[] ||
    (RoundDecreases(r, script, waitTasks);
     FreshPass(r, Snapshot(r, r.counter), script)
     && FreshRun(Round(r, script, waitTasks).0, Round(r, script, waitTasks).1, waitTasks))
  }

  // Callbacks still to come are either unregistered or registered as they were copied.
  ghost predicate Upcoming(r: Registry, callbacks: seq<Callback>) {
    forall k :: 0 <= k < |callbacks| && callbacks[k].arg in r.hooks ==>
      r.hooks[callbacks[k].arg] == Entry(callbacks[k].fun, callbacks[k].number)
  }

  lemma {:induction false} OpsKeepUpcoming(r: Registry, ops: seq<HookOp>, callbacks: seq<Callback>)
    requires Upcoming(r, callbacks) && FreshOps(r, ops, callbacks)
    ensures Upcoming(OpsEffect(r, ops), callbacks)
    decreases |ops|
  {
    if ops != [] {
      OpsKeepUpcoming(OpEffect(r, ops[0]), ops[1..], callbacks);
    }
  }

  lemma FreshTurnIsClean(r: Registry, callbacks: seq<Callback>, script: seq<seq<HookOp>>)
    requires callbacks != [] && Upcoming(r, callbacks) && FreshPass(r, callbacks, script)
    ensures CleanTurn(r, callbacks[0], script) && Upcoming(Turn(r, callbacks[0], script).0, callbacks[1..])
  {
    var cb := callbacks[0];
    if cb.arg in r.hooks {
      var r1 := r.(turns := r.turns + [cb.number]);
      if cb.fun != NULL { OpsKeepUpcoming(r1, NextOps(script), callbacks); }
      assert Upcoming(BeforeErase(r, cb, script), callbacks);
    }
  }

  lemma {:induction false} FreshPassIsClean(r: Registry, callbacks: seq<Callback>, script: seq<seq<HookOp>>)
    requires Upcoming(r, callbacks) && FreshPass(r, callbacks, script)
    ensures CleanPass(r, callbacks, script)
    decreases |callbacks|
  {
    if callbacks != [] {
      FreshTurnIsClean(r, callbacks, script);
      var (r1, s1) := Turn(r, callbacks[0], script);
      FreshPassIsClean(r1, callbacks[1..], s1);
    }
  }

  /** In particular each hook has its turn exactly once if hooks remove whatever they like and what
      they register anew has an arg that is neither running nor still to come in the pass. */
  lemma {:induction false} FreshRunIsClean(r: Registry, script: seq<seq<HookOp>>, waitTasks: bool)
    requires Recorded(r) && FreshRun(r, script, waitTasks)
    ensures CleanRun(r, script, waitTasks)
    decreases |script|, |r.hooks|
  {
    if r.hooks != map[] {
      RoundDecreases(r, script, waitTasks);
      SnapshotIsSortedCopy(r);
      assert Upcoming(r, Snapshot(r, r.counter)) by {
        assert forall k :: 0 <= k < |Snapshot(r, r.counter)| ==> Snapshot(r, r.counter)[k] in Snapshot(r, r.counter);
      }
      FreshPassIsClean(r, Snapshot(r, r.counter), script);
      var (r2, s2) := Round(r, script, waitTasks);
      FreshRunIsClean(r2, s2, waitTasks);
    }
  }

  // ---------------------------------------------------------------- who cancels a registration

  /** An operation cancels a registration if and only if it removes it by its own function and arg while
      it is registered and its turn has not been taken. */
  lemma OpCancelsIff(r: Registry, op: HookOp, n: nat)
    requires Recorded(r) && n in r.history && n !in r.cancelled
    ensures n in OpEffect(r, op).cancelled <==>
              op == Remove(r.history[n].fun, r.history[n].arg) && IsLive(r, n) && n !in r.turns
  {
  }

  predicate Removes(ops: seq<HookOp>, fun: Fun, arg: Arg) {
    exists i :: 0 <= i < |ops| && ops[i] == Remove(fun, arg)
  }

  predicate EverRemoves(script: seq<seq<HookOp>>, fun: Fun, arg: Arg) {
    exists k :: 0 <= k < |script| && Removes(script[k], fun, arg)
  }

  // Of the registrations of this function and arg only those in base are cancelled.
  ghost predicate Spared(r: Registry, fun: Fun, arg: Arg, base: set<nat>) {
    && Recorded(r) && (forall m :: m in r.cancelled ==> m in r.history)
    && forall m :: m in r.cancelled && m !in base ==> m in r.history && (r.history[m].fun != fun || r.history[m].arg != arg)
  }

  lemma {:induction false} OpsSpare(r: Registry, ops: seq<HookOp>, fun: Fun, arg: Arg, base: set<nat>)
    requires Spared(r, fun, arg, base) && !Removes(ops, fun, arg)
    ensures Spared(OpsEffect(r, ops), fun, arg, base)
    decreases |ops|
  {
    if ops != [] {
      assert ops[0] != Remove(fun, arg);
      OpSpares(r, ops[0], fun, arg, base);
      assert forall i :: 0 <= i < |ops[1..]| ==> ops[1..][i] == ops[i + 1];
      OpsSpare(OpEffect(r, ops[0]), ops[1..], fun, arg, base);
    }
  }

  lemma OpSpares(r: Registry, op: HookOp, fun: Fun, arg: Arg, base: set<nat>)
    requires Spared(r, fun, arg, base) && op != Remove(fun, arg)
    ensures Spared(OpEffect(r, op), fun, arg, base)
  {
    OpKeepsRecorded(r, op);
    var t := OpEffect(r, op);
    forall m | m in t.cancelled ensures m in t.history && (m !in base ==> t.history[m].fun != fun || t.history[m].arg != arg) {
      if m in r.history && m !in r.cancelled { OpCancelsIff(r, op, m); }
    }
  }

  lemma {:induction false} LaterSpares(script: seq<seq<HookOp>>, fun: Fun, arg: Arg)
    requires !EverRemoves(script, fun, arg)
    ensures !EverRemoves(Later(script), fun, arg) && !Removes(NextOps(script), fun, arg)
  {
    assert forall k :: 0 <= k < |Later(script)| ==> Later(script)[k] == script[k + 1];
  }

  lemma TurnSpares(r: Registry, cb: Callback, script: seq<seq<HookOp>>, fun: Fun, arg: Arg, base: set<nat>)
    requires Spared(r, fun, arg, base) && !EverRemoves(script, fun, arg)
    ensures Spared(Turn(r, cb, script).0, fun, arg, base) && !EverRemoves(Turn(r, cb, script).1, fun, arg)
  {
    LaterSpares(script, fun, arg);
    OpsSpare(r.(turns := r.turns + [cb.number]), NextOps(script), fun, arg, base);
  }

  lemma {:induction false} PassSpares(r: Registry, callbacks: seq<Callback>, script: seq<seq<HookOp>>, fun: Fun, arg: Arg, base: set<nat>)
    requires Spared(r, fun, arg, base) && !EverRemoves(script, fun, arg)
    ensures Spared(Pass(r, callbacks, script).0, fun, arg, base) && !EverRemoves(Pass(r, callbacks, script).1, fun, arg)
    decreases |callbacks|
  {
    if callbacks != [] {
      TurnSpares(r, callbacks[0], script, fun, arg, base);
      var (r1, s1) := Turn(r, callbacks[0], script);
      PassSpares(r1, callbacks[1..], s1, fun, arg, base);
    }
  }

  lemma {:induction false} RunSpares(r: Registry, script: seq<seq<HookOp>>, waitTasks: bool, fun: Fun, arg: Arg, base: set<nat>)
    requires Spared(r, fun, arg, base) && !EverRemoves(script, fun, arg)
    ensures Spared(RunHooks(r, script, waitTasks).0, fun, arg, base)
    decreases |script|, |r.hooks|
  {
    if r.hooks != map[] {
      RoundDecreases(r, script, waitTasks);
      PassSpares(r, Snapshot(r, r.counter), script, fun, arg, base);
      var (r1, s1) := Pass(r, Snapshot(r, r.counter), script);
      LaterSpares(s1, fun, arg);
      OpsSpare(r1, NextOps(s1), fun, arg, base);
      var (r2, s2) := Round(r, script, waitTasks);
      RunSpares(r2, s2, waitTasks, fun, arg, base);
    }
  }

  /** A registration is cancelled only by a removal that names its function and its arg: if user code
      never makes that removal, then in a clean run every registration of that function and arg not
      cancelled before, those made meanwhile included, has its turn. */
  lemma NotRemovedHasTurn(r: Registry, script: seq<seq<HookOp>>, waitTasks: bool, n: nat)
    requires Accounted(r, {}) && CleanRun(r, script, waitTasks)
    requires var last := RunHooks(r, script, waitTasks).0;
             n in last.history && n !in r.cancelled && !EverRemoves(script, last.history[n].fun, last.history[n].arg)
    ensures n in RunHooks(r, script, waitTasks).0.turns
  {
    var last := RunHooks(r, script, waitTasks).0;
    EachHookOnceIff(r, script, waitTasks);
    RunSpares(r, script, waitTasks, last.history[n].fun, last.history[n].arg, r.cancelled);
  }

  // ---------------------------------------------------------------- two ways to go wrong

  /** Registering an arg again while its own hook runs loses the registration: it is neither run nor
      removed, and the map is empty. */
  lemma ReregisteredIsLost()
    ensures var r := AddEffect(Init(), 1, 7);
            var last := Turn(r, Callback(7, 1, 0), [[Remove(1, 7), Add(2, 7)]]).0;
            1 in last.history && last.hooks == map[] && last.turns == [0] && last.cancelled == {}
  {
    var r := AddEffect(Init(), 1, 7);
    var ops := [Remove(1, 7), Add(2, 7)];
    var r1 := r.(turns := r.turns + [0]);
    assert ops[1..] == [Add(2, 7)] && ops[1..][1..] == [];
    assert OpsEffect(r1, ops) == OpEffect(OpEffect(r1, ops[0]), ops[1]);
  }

  /** A hook that removes another hook of the pass and registers its arg anew: the removed function
      runs, and the new registration is neither run nor removed. */
  lemma StaleRunsRemoved()
    ensures var r := AddEffect(AddEffect(Init(), 1, 1), 5, 2);
            var script := [[Remove(1, 1), Add(9, 1)]];
            var last := Pass(r, [Callback(2, 5, 1), Callback(1, 1, 0)], script).0;
            && SortedCopy([Callback(2, 5, 1), Callback(1, 1, 0)], r.hooks)
            && last.hooks == map[] && last.turns == [1, 0] && last.cancelled == {0}
            && 2 in last.history && last.history[2] == Callback(1, 9, 2)
  {
    var ops := [Remove(1, 1), Add(9, 1)];
    var r := Registry(map[1 := Entry(1, 0), 2 := Entry(5, 1)], 2, map[0 := Callback(1, 1, 0), 1 := Callback(2, 5, 1)], {}, []);
    var t := Registry(map[1 := Entry(9, 2)], 3, r.history[2 := Callback(1, 9, 2)], {0}, [1]);
    TwoAdded();
    FirstHook(r, ops);
    SecondTurn(t);
    PassOfTwo(r, Callback(2, 5, 1), Callback(1, 1, 0), [ops]);
  }

  lemma TwoAdded()
    ensures AddEffect(AddEffect(Init(), 1, 1), 5, 2)
         == Registry(map[1 := Entry(1, 0), 2 := Entry(5, 1)], 2, map[0 := Callback(1, 1, 0), 1 := Callback(2, 5, 1)], {}, [])
  {
  }

  lemma FirstHook(r: Registry, ops: seq<HookOp>)
    requires r == Registry(map[1 := Entry(1, 0), 2 := Entry(5, 1)], 2, map[0 := Callback(1, 1, 0), 1 := Callback(2, 5, 1)], {}, [])
    requires ops == [Remove(1, 1), Add(9, 1)]
    ensures Turn(r, Callback(2, 5, 1), [ops]) == (Registry(map[1 := Entry(9, 2)], 3, r.history[2 := Callback(1, 9, 2)], {0}, [1]), [])
  {
    var r1 := r.(turns := [1]);
    assert r.turns + [1] == [1];
    assert OpEffect(r1, ops[0]) == r1.(hooks := map[2 := Entry(5, 1)], cancelled := {0});
    TwoOps(r1, ops);
    assert OpsEffect(r1, ops).hooks - {2} == map[1 := Entry(9, 2)];
  }

  lemma TwoOps(r: Registry, ops: seq<HookOp>)
    requires |ops| == 2
    ensures OpsEffect(r, ops) == OpEffect(OpEffect(r, ops[0]), ops[1])
  {
    var one := ops[1..];
    assert one[0] == ops[1] && one[1..] == [];
    var (r1, r2) := (OpEffect(r, ops[0]), OpEffect(OpEffect(r, ops[0]), ops[1]));
    assert OpsEffect(r1, one) == OpsEffect(r2, []);
  }

  lemma SecondTurn(t: Registry)
    requires t.hooks == map[1 := Entry(9, 2)] && t.turns == [1]
    ensures Turn(t, Callback(1, 1, 0), []) == (t.(hooks := map[], turns := [1, 0]), [])
  {
    assert t.hooks - {1} == map[];
    assert t.turns + [0] == [1, 0];
    assert OpsEffect(t.(turns := [1, 0]), []) == t.(turns := [1, 0]);
  }

  lemma PassOfTwo(r: Registry, a: Callback, b: Callback, script: seq<seq<HookOp>>)
    ensures Pass(r, [a, b], script) == Turn(Turn(r, a, script).0, b, Turn(r, a, script).1)
  {
    var two, one := [a, b], [b];
    var (r1, s1) := Turn(r, a, script);
    assert two[0] == a && two[1..] == one && one[1..] == [];
    assert Pass(r, two, script) == Pass(r1, one, s1);
    var (r2, s2) := Turn(r1, b, s1);
    assert Pass(r1, one, s1) == Pass(r2, [], s2);
  }

  /** A hook registered while CleanupHandles waits is there for the next pass; without the wait nothing
      runs between two passes. */
  lemma WaitedTasksAreSeen()
    ensures var r := AddEffect(Init(), 1, 7);
            && Round(r, [[], [Add(5, 9)]], true).0.hooks == map[9 := Entry(5, 1)]
            && Round(r, [[], [Add(5, 9)]], false).0.hooks == map[]
  {
    var r := AddEffect(Init(), 1, 7);
    var (cb, none, add) := (Callback(7, 1, 0), [], [Add(5, 9)]);
    var script := [none, add];
    assert script[1..] == [add];
    OnlyOne(r, cb);
    var t := r.(turns := r.turns + [0]);
    assert OpsEffect(t, none) == t && t.hooks - {7} == map[];
    assert Turn(r, cb, script) == (t.(hooks := map[]), [add]);
    assert [cb][1..] == [] && Pass(r, [cb], script) == Pass(t.(hooks := map[]), [], [add]);
    var one := t.(hooks := map[]);
    assert add[1..] == [] && OpsEffect(one, add) == OpsEffect(OpEffect(one, Add(5, 9)), []);
  }

  lemma OnlyOne(r: Registry, cb: Callback)
    requires r == AddEffect(Init(), 1, 7) && cb == Callback(7, 1, 0)
    ensures Snapshot(r, r.counter) == [cb]
  {
    assert IsLive(r, 0) && Snapshot(r, 0) == [];
  }

  // ---------------------------------------------------------------- the object

  class NativeEngine {
    var cleanupHooks: map<Arg, Entry>
    var cleanupHookCounter: nat
    ghost var history: map<nat, Callback>
    ghost var cancelled: set<nat>
    ghost var turns: seq<nat>
    ghost var calls: seq<Call>   // the hooks called so far

    ghost function View(): Registry
      reads this
    {
      Registry(cleanupHooks, cleanupHookCounter, history, cancelled, turns)
    }

    constructor ()
      ensures View() == Init() && calls == [] && CallsMatch() && cleanupHooks == map[] && cleanupHookCounter == 0
    {
      cleanupHooks, cleanupHookCounter := map[], 0;
      history, cancelled, turns, calls := map[], {}, [], [];
    }

    // The hooks called are those whose turn was taken, in order, but for null ones.
    ghost predicate CallsMatch()
      reads this
    {
      (forall i :: 0 <= i < |turns| ==> turns[i] in history) && calls == Invoked(turns, history)
    }

    method AddCleanupHook(fun: Fun, arg: Arg) returns (ok: bool)
      modifies this
      ensures View() == AddEffect(old(View()), fun, arg) && calls == old(calls)
      ensures ok == (arg !in old(cleanupHooks)) && cleanupHookCounter == old(cleanupHookCounter) + 1
      ensures cleanupHooks == if ok then old(cleanupHooks)[arg := Entry(fun, old(cleanupHookCounter))] else old(cleanupHooks)
    {
      ok := arg !in cleanupHooks;
      if ok {
        cleanupHooks := cleanupHooks[arg := Entry(fun, cleanupHookCounter)];
        history := history[cleanupHookCounter := Callback(arg, fun, cleanupHookCounter)];
      }
      cleanupHookCounter := cleanupHookCounter + 1;
    }

    method RemoveCleanupHook(fun: Fun, arg: Arg) returns (ok: bool)
      modifies this
      ensures View() == RemoveEffect(old(View()), fun, arg) && calls == old(calls)
      ensures ok == (arg in old(cleanupHooks) && old(cleanupHooks)[arg].fun == fun)
      ensures cleanupHooks == (if ok then old(cleanupHooks) - {arg} else old(cleanupHooks))
      ensures cleanupHookCounter == old(cleanupHookCounter)
    {
      ok := arg in cleanupHooks && cleanupHooks[arg].fun == fun;
      if ok {
        cancelled := if cleanupHooks[arg].number in turns then cancelled else cancelled + {cleanupHooks[arg].number};
        cleanupHooks := cleanupHooks - {arg};
      }
    }

    // User code running on the engine's thread.
    method UserCode(ops: seq<HookOp>)
      modifies this
      ensures View() == OpsEffect(old(View()), ops) && calls == old(calls)
    {
      var n := 0;
      while n < |ops|
        invariant calls == old(calls)
        invariant 0 <= n <= |ops| && OpsEffect(View(), ops[n..]) == OpsEffect(old(View()), ops)
      {
        match ops[n] {
          case Add(fun, arg) => var _ := AddCleanupHook(fun, arg);
          case Remove(fun, arg) => var _ := RemoveCleanupHook(fun, arg);
        }
        n := n + 1;
      }
    }

    // The vector copied from the map and sorted.
    method SortedHooks() returns (callbacks: seq<Callback>)
      requires Recorded(View())
      ensures callbacks == Snapshot(View(), cleanupHookCounter)
    {
      callbacks := [];
      var left := cleanupHooks.Keys;
      while left != {}
        invariant left <= cleanupHooks.Keys && Descending(callbacks)
        invariant forall cb :: cb in callbacks <==> cb.arg in cleanupHooks && cb.arg !in left && cleanupHooks[cb.arg] == Entry(cb.fun, cb.number)
        decreases left
      {
        var arg :| arg in left;
        var cb := Callback(arg, cleanupHooks[arg].fun, cleanupHooks[arg].number);
        callbacks := InsertDescending(callbacks, cb);
        left := left - {arg};
      }
      SnapshotIsSortedCopy(View());
      DescendingUnique(callbacks, Snapshot(View(), cleanupHookCounter));
    }

    /** Terminates with an empty map, in the state the specification computes; the hooks called are
        those whose turn was taken. */
    method RunCleanupHooks(script: seq<seq<HookOp>>, waitTasks: bool)
      requires Recorded(View()) && CallsMatch()
      modifies this
      ensures View() == RunHooks(old(View()), script, waitTasks).0
      ensures cleanupHooks == map[] && CallsMatch()
    {
      var todo := script;
      while cleanupHooks != map[]
        invariant Recorded(View()) && CallsMatch()
        invariant RunHooks(View(), todo, waitTasks).0 == RunHooks(old(View()), script, waitTasks).0
        decreases |todo|, |cleanupHooks|
      {
        RoundDecreases(View(), todo, waitTasks);
        todo := RunRound(todo, waitTasks);
      }
    }

    // A pass, then CleanupHandles if asked for, during which user code runs too.
    method RunRound(script: seq<seq<HookOp>>, waitTasks: bool) returns (todo: seq<seq<HookOp>>)
      requires Recorded(View()) && CallsMatch()
      modifies this
      ensures (View(), todo) == Round(old(View()), script, waitTasks) && CallsMatch()
    {
      todo := RunPass(script);
      if waitTasks {
        ghost var before := View();
        OpsKeepHistory(before, NextOps(todo));
        OpsKeepRecorded(before, NextOps(todo));
        UserCode(NextOps(todo));
        InvokedGrown(before.turns, before.history, history);
        todo := Later(todo);
      }
    }

    method RunPass(script: seq<seq<HookOp>>) returns (todo: seq<seq<HookOp>>)
      requires Recorded(View()) && CallsMatch()
      modifies this
      ensures (View(), todo) == Pass(old(View()), Snapshot(old(View()), old(cleanupHookCounter)), script)
      ensures Recorded(View()) && CallsMatch()
    {
      SnapshotPending(View());
      var callbacks := SortedHooks();
      todo := script;
      var n := 0;
      while n < |callbacks|
        invariant 0 <= n <= |callbacks| && Recorded(View()) && CallsMatch()
        invariant forall k :: n <= k < |callbacks| ==> Copied(View(), callbacks[k])
        invariant Pass(View(), callbacks[n..], todo) == Pass(old(View()), callbacks, script)
      {
        var cb := callbacks[n];
        assert callbacks[n..][0] == cb && callbacks[n..][1..] == callbacks[n + 1..];
        n := n + 1;
        if cb.arg !in cleanupHooks {
          continue;
        }
        TurnGrows(View(), cb, todo);
        todo := TakeTurn(cb, todo);
      }
    }

    // The body of that loop for a hook that is still registered.
    method TakeTurn(cb: Callback, script: seq<seq<HookOp>>) returns (todo: seq<seq<HookOp>>)
      requires Recorded(View()) && CallsMatch() && Copied(View(), cb) && cb.arg in cleanupHooks
      modifies this
      ensures (View(), todo) == Turn(old(View()), cb, script) && CallsMatch()
      ensures cb.arg !in cleanupHooks
    {
      todo := script;
      turns := turns + [cb.number];
      if cb.fun != NULL {
        ghost var before := View();
        OpsKeepHistory(before, NextOps(todo));
        OpsKeepRecorded(before, NextOps(todo));
        CallHook(cb.fun, cb.arg, NextOps(todo));
        todo := Later(todo);
        InvokedGrown(before.turns, before.history, history);
      }
      cleanupHooks := cleanupHooks - {cb.arg};
    }

    // fun(data), which does what it likes with the map.
    method CallHook(fun: Fun, data: Arg, ops: seq<HookOp>)
      modifies this
      ensures View() == OpsEffect(old(View()), ops) && calls == old(calls) + [Call(fun, data)]
    {
      UserCode(ops);
      calls := calls + [Call(fun, data)];
    }
  }

  datatype Call = Call(fun: Fun, arg: Arg)

  function Invoked(turns: seq<nat>, history: map<nat, Callback>): seq<Call> {
    if turns == [] then []
    else
      var n := turns[|turns| - 1];
      Invoked(turns[..|turns| - 1], history)
      + if n in history && history[n].fun != NULL then [Call(history[n].fun, history[n].arg)] else []
  }

  lemma {:induction false} InvokedGrown(turns: seq<nat>, h: map<nat, Callback>, more: map<nat, Callback>)
    requires forall i :: 0 <= i < |turns| ==> turns[i] in h && turns[i] in more && more[turns[i]] == h[turns[i]]
    ensures Invoked(turns, more) == Invoked(turns, h)
    decreases |turns|
  {
    if turns != [] { InvokedGrown(turns[..|turns| - 1], h, more); }
  }

  function InsertDescending(s: seq<Callback>, cb: Callback): (t: seq<Callback>)
    requires Descending(s) && forall i :: 0 <= i < |s| ==> s[i].number != cb.number
    ensures Descending(t) && forall c :: c in t <==> c in s || c == cb
  {
    if s == [] || cb.number > s[0].number then [cb] + s
    else
      var rest := InsertDescending(s[1..], cb);
      assert forall c :: c in s <==> c == s[0] || c in s[1..];
      assert forall i :: 0 <= i < |rest| ==> rest[i] in rest && rest[i].number < s[0].number;
      [s[0]] + rest
  }
}
