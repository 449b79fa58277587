/** The heartbeat execution scheme: the code the compiler emits for every loop of a nest, and the
  promotion handler of the runtime.

  Slice, handler and leftover tasks call each other recursively and share a context array that they
  update in place.  Every method returns, next to its return code, the fork-join computation `d` it
  unfolded: what ran in sequence and what was forked. */
module Heartbeat {
  import opened LoopNest
  import opened ForkJoin
  import opened Context
  import opened Accounts
  import opened Beats
  import opened TaskMemory
  import opened LeafChunking
  import opened ReductionOperator
  import opened SliceContract
  import opened Tables
  import opened HeartbeatSteps

  /** What the run cannot control.  A leaf iteration is executed once and polled at most once, so a
      function of the iteration describes any pattern of heartbeats; the chunk sizes are those of the
      worker threads that start the two tasks of the promotion received there. */
  datatype Environment = Environment(
    rules: Rules,
    startChunk: int,
    firstChunk: Index -> int,
    secondChunk: Index -> int,
    secondRunsFirst: Index -> bool)

  ghost predicate ValidEnvironment(env: Environment) {
    && 1 <= env.rules.minChunk <= env.startChunk <= LIMIT
    && (forall p :: env.rules.minChunk <= env.firstChunk(p) <= LIMIT)
    && (forall p :: env.rules.minChunk <= env.secondChunk(p) <= LIMIT)
  }

  ghost predicate Setting(n: Nest, env: Environment, t: TaskTables) {
    ValidNest(n) && MergesRight(n) && ValidEnvironment(env) && Complete(t, n.levels)
  }

  /** The reduction slot a slice writes: the entry `myIndex` of the array in its context line. */
  function Target(n: Nest, c: seq<Word>, k: nat, myIndex: nat): set<Slot>
    requires CACHELINE * (k + 1) <= |c|
  {
    if k + 1 == n.levels && c[CACHELINE * k + LIVE_OUT_ENV].Reduction?
       && myIndex < |c[CACHELINE * k + LIVE_OUT_ENV].slots|
    then {c[CACHELINE * k + LIVE_OUT_ENV].slots[myIndex]}
    else {}
  }

  /** The entry a leaf slice writes. */
  ghost function SlotOf(c: seq<Word>, k: nat, myIndex: nat): Slot
    requires CACHELINE * (k + 1) <= |c| && c[CACHELINE * k + LIVE_OUT_ENV].Reduction?
    requires myIndex < |c[CACHELINE * k + LIVE_OUT_ENV].slots|
  {
    c[CACHELINE * k + LIVE_OUT_ENV].slots[myIndex]
  }

  /** The reduction of the range a leaf slice is asked to run. */
  ghost function Total(n: Nest, c: seq<Word>, k: nat): int
    requires CACHELINE * (k + 1) <= |c|
  {
    Fold(n, Prefix(c, k), StartIter(c, k), MaxIter(c, k))
  }

  /** The emitted slice task of level `k`: only the leaf loop polls.  `used` is everything that was read or
      written: the context, the task memory, at the leaf the slot, and what the slice itself allocated. */
  method Slice(n: Nest, env: Environment, t: TaskTables, k: nat, cxts: array<Word>, myIndex: nat, tmem: TaskMem,
               ghost root: nat)
    returns (rc: int, ghost d: Dag, ghost used: set<object>)
    requires Setting(n, env, t)
    requires tmem.Valid() && env.rules.minChunk <= tmem.chunksize
    requires CanStart(n, cxts[..], root, tmem.startingLevel, k, myIndex)
    modifies cxts, tmem, Target(n, cxts[..], k, myIndex)
    ensures SliceDone(Call(n, env.rules, root, k, old(cxts[..]), old(tmem.Snapshot())), cxts[..],
                      tmem.Snapshot(), rc, d)
    ensures tmem.Valid() && env.rules.minChunk <= tmem.chunksize
    ensures cxts.Length == CACHELINE * n.levels
    ensures k + 1 == n.levels ==>
              && cxts[CACHELINE * k + LIVE_OUT_ENV] == old(cxts[CACHELINE * k + LIVE_OUT_ENV])
              && SlotOf(old(cxts[..]), k, myIndex).State()
                 == Stored(Some(Total(n, old(cxts[..]), k)), old(SlotOf(cxts[..], k, myIndex).writes) + 1)
    ensures fresh(used - {cxts, tmem} - Target(n, old(cxts[..]), k, myIndex))
    decreases Pending(n, cxts[..], root, k), 4
  {
    if k + 1 == n.levels {
      rc, d, used := LeafSlice(n, env, t, k, cxts, myIndex, tmem, root);
    } else {
      rc, d, used := InnerSlice(n, env, t, k, cxts, tmem, root);
    }
  }

  /** Stores the current iteration of level `k` and sets up the line of its inner loop. */
  method EnterIteration(n: Nest, k: nat, cxts: array<Word>, at: Index, i: int)
    requires k + 1 < n.levels && cxts.Length == CACHELINE * n.levels && |at| == k
    modifies cxts
    requires cxts[CACHELINE * k + LIVE_IN_ENV] == Env(at)
    ensures ChildReady(n, old(cxts[..]), cxts[..], at, i)
    ensures cxts[CACHELINE * (k + 1) + LIVE_OUT_ENV] == old(cxts[CACHELINE * (k + 1) + LIVE_OUT_ENV])
  {
    cxts[CACHELINE * (k + 1) + LIVE_IN_ENV] := Env(at + [i]);
    cxts[CACHELINE * k + START_ITER] := Int(i);
    cxts[CACHELINE * (k + 1) + START_ITER] := Int(n.bounds(at + [i]).lo);
    cxts[CACHELINE * (k + 1) + MAX_ITER] := Int(n.bounds(at + [i]).hi);
  }

  /** The child's slice can now be called; at the leaf it will write `result`. */
  method EnterChild(n: Nest, ghost env: Environment, k: nat, cxts: array<Word>, at: Index, i: int, ghost result: Slot,
                    ghost here: TaskState, ghost call: Call, ghost before: Dag)
    requires ValidNest(n) && CallOf(call, n, env, k, at)
    requires InLoop(call, cxts[..], here, i, result, before) && i < MaxIter(call.c, k)
    modifies cxts
    ensures ChildReady(n, call.c, cxts[..], at, i)
    ensures CanStart(n, cxts[..], call.root, here.level, k + 1, 0)
    ensures Pending(n, cxts[..], call.root, k + 1) < Pending(n, call.c, call.root, k)
    ensures Target(n, cxts[..], k + 1, 0) == if k + 2 == n.levels then {result} else {}
    ensures k + 2 == n.levels ==>
              && cxts[CACHELINE * (k + 1) + LIVE_OUT_ENV] == Reduction([result])
              && SumUnder(n, at + [i]) == Some(Total(n, cxts[..], k + 1))
  {
    ghost var w := cxts[..];
    LoopFacts(call, w, here, i, result, before);
    EnterIteration(n, k, cxts, at, i);
    ChildEntered(n, env, k, w, cxts[..], at, i, result, here, call, before);
  }

  lemma ChildEntered(n: Nest, env: Environment, k: nat, w: seq<Word>, c1: seq<Word>, at: Index, i: int, result: Slot,
                     here: TaskState, call: Call, before: Dag)
    requires ValidNest(n) && CallOf(call, n, env, k, at)
    requires InLoop(call, w, here, i, result, before) && i < MaxIter(call.c, k)
    requires ChildReady(n, w, c1, at, i)
    requires c1[CACHELINE * (k + 1) + LIVE_OUT_ENV] == w[CACHELINE * (k + 1) + LIVE_OUT_ENV]
    ensures ChildReady(n, call.c, c1, at, i)
    ensures CanStart(n, c1, call.root, here.level, k + 1, 0)
    ensures Pending(n, c1, call.root, k + 1) < Pending(n, call.c, call.root, k)
    ensures Target(n, c1, k + 1, 0) == if k + 2 == n.levels then {result} else {}
    ensures k + 2 == n.levels ==> c1[CACHELINE * (k + 1) + LIVE_OUT_ENV] == Reduction([result])
    ensures k + 2 == n.levels ==> SumUnder(n, at + [i]) == Some(Total(n, c1, k + 1))
  {
    LoopFacts(call, w, here, i, result, before);
    ChildCanStart(n, call.c, w, c1, call.root, here.level, at, i, result);
    ChildWork(n, call.c, c1, call.root, at, i);
  }

  /** A slice task above the leaf: one call of the child's slice per iteration. */
  method InnerSlice(n: Nest, env: Environment, t: TaskTables, k: nat, cxts: array<Word>, tmem: TaskMem,
                    ghost root: nat)
    returns (rc: int, ghost d: Dag, ghost used: set<object>)
    requires Setting(n, env, t)
    requires tmem.Valid() && env.rules.minChunk <= tmem.chunksize
    requires k + 1 < n.levels && CanStart(n, cxts[..], root, tmem.startingLevel, k, 0)
    modifies cxts, tmem
    ensures SliceDone(Call(n, env.rules, root, k, old(cxts[..]), old(tmem.Snapshot())), cxts[..],
                      tmem.Snapshot(), rc, d)
    ensures tmem.Valid() && env.rules.minChunk <= tmem.chunksize
    ensures fresh(used - {cxts, tmem})
    decreases Pending(n, cxts[..], root, k), 3
  {
    ghost var call := Call(n, env.rules, root, k, cxts[..], tmem.Snapshot());
    var at := cxts[CACHELINE * k + LIVE_IN_ENV].prefix;
    var start := cxts[CACHELINE * k + START_ITER].n;
    var max := cxts[CACHELINE * k + MAX_ITER].n;
    var result := OwnSlot(n, env, k, cxts, at, call);
    rc, d, used := InnerLoop(n, env, t, k, cxts, at, start, max, result, tmem, call);
    used := used + {cxts, tmem};
  }

  /** Its loop, with the bounds loaded on entry. */
  method InnerLoop(n: Nest, env: Environment, t: TaskTables, k: nat, cxts: array<Word>, at: Index, start: int,
                   max: int, result: Slot, tmem: TaskMem, ghost call: Call)
    returns (rc: int, ghost d: Dag, ghost used: set<object>)
    requires Setting(n, env, t) && CallOf(call, n, env, k, at) && k + 1 < n.levels
    requires tmem.Valid() && env.rules.minChunk <= tmem.chunksize
    requires start == StartIter(call.c, k) && max == MaxIter(call.c, k)
    requires InLoop(call, cxts[..], tmem.Snapshot(), start, result, Done)
    modifies cxts, tmem, result
    ensures SliceDone(call, cxts[..], tmem.Snapshot(), rc, d)
    ensures tmem.Valid() && env.rules.minChunk <= tmem.chunksize
    ensures fresh(used - {cxts, tmem, result})
    decreases Pending(n, call.c, call.root, k), 2
  {
    var i := start;
    rc, d, used := 0, Done, {cxts, tmem};
    while i < max
      invariant i <= max || i == start
      invariant InLoop(call, cxts[..], tmem.Snapshot(), i, result, d)
      invariant fresh(used - {cxts, tmem, result})
      invariant tmem.Valid() && env.rules.minChunk <= tmem.chunksize
    {
      ghost var usedNow;
      rc, d, usedNow := OneIteration(n, env, t, k, cxts, at, i, result, tmem, call, d);
      used := used + usedNow;
      if rc > 0 {
        return rc - 1, d, used;
      }
      i := i + 1;
    }
    LoopDone(call, cxts[..], tmem.Snapshot(), i, result, d);
    rc := -1;
  }

  /** `call` is the call of the slice of level `k` for the outer iteration `at` that is being executed. */
  ghost predicate CallOf(call: Call, n: Nest, env: Environment, k: nat, at: Index) {
    && call.n == n && call.rules == env.rules && call.k == k
    && CanStart(n, call.c, call.root, call.task.level, k, 0) && Prefix(call.c, k) == at
  }

  /** The caller of the leaf owns the one-entry reduction array of the leaf. */
  method OwnSlot(n: Nest, ghost env: Environment, k: nat, cxts: array<Word>, ghost at: Index, ghost call: Call)
    returns (result: Slot)
    requires k + 1 < n.levels && CallOf(call, n, env, k, at) && call.rules.minChunk <= call.task.memory.chunk
    requires cxts[..] == call.c
    modifies cxts
    ensures fresh(result) && InLoop(call, cxts[..], call.task, StartIter(call.c, k), result, Done)
  {
    result := new Slot();
    if k + 2 == n.levels {
      cxts[CACHELINE * (k + 1) + LIVE_OUT_ENV] := Reduction([result]);
    }
    EnterLoop(call, cxts[..], result);
  }

  /** One iteration of a loop above the leaf.  When the child reports `rc > 0` the loop is left. */
  method OneIteration(n: Nest, env: Environment, t: TaskTables, k: nat, cxts: array<Word>, at: Index, i: int,
                      result: Slot, tmem: TaskMem, ghost call: Call, ghost before: Dag)
    returns (rc: int, ghost d: Dag, ghost used: set<object>)
    requires Setting(n, env, t) && CallOf(call, n, env, k, at)
    requires tmem.Valid() && env.rules.minChunk <= tmem.chunksize
    requires InLoop(call, cxts[..], tmem.Snapshot(), i, result, before) && i < MaxIter(call.c, k)
    modifies cxts, tmem, result
    ensures rc <= 0 ==> InLoop(call, cxts[..], tmem.Snapshot(), i + 1, result, d)
    ensures rc > 0 ==> SliceDone(call, cxts[..], tmem.Snapshot(), rc - 1, d)
    ensures tmem.Valid() && env.rules.minChunk <= tmem.chunksize
    ensures fresh(used - {cxts, tmem, result})
    decreases Pending(n, call.c, call.root, k), 1
  {
    ghost var w, here := cxts[..], tmem.Snapshot();
    ghost var h, c1;
    var sum;
    rc, h, sum, c1, used := CallChild(n, env, t, k, cxts, at, i, result, tmem, call, before);
    d := Then(Then(Then(before, Act(Head(at + [i]))), h), Act(Tail(at + [i], sum)));
    if rc > 0 {
      IterationPromoted(call, c1, w, i, result, before, here, cxts[..], tmem.Snapshot(), rc, h);
    } else {
      IterationComplete(call, c1, w, i, result, before, here, cxts[..], tmem.Snapshot(), rc, h);
    }
  }

  /** Set up the child's line, call its slice, and fetch the leaf's result. */
  method CallChild(n: Nest, env: Environment, t: TaskTables, k: nat, cxts: array<Word>, at: Index, i: int,
                      result: Slot, tmem: TaskMem, ghost call: Call, ghost before: Dag)
    returns (rc: int, ghost h: Dag, sum: Option<int>, ghost c1: seq<Word>, ghost used: set<object>)
    requires Setting(n, env, t) && CallOf(call, n, env, k, at)
    requires tmem.Valid() && env.rules.minChunk <= tmem.chunksize
    requires InLoop(call, cxts[..], tmem.Snapshot(), i, result, before) && i < MaxIter(call.c, k)
    modifies cxts, tmem, result
    ensures ChildReady(n, call.c, c1, at, i)
    ensures SliceDone(Call(n, env.rules, call.root, k + 1, c1, old(tmem.Snapshot())), cxts[..], tmem.Snapshot(),
                      rc, h)
    ensures cxts.Length == CACHELINE * n.levels
    ensures k + 2 == n.levels ==> cxts[CACHELINE * (k + 1) + LIVE_OUT_ENV] == Reduction([result])
    ensures sum == SumUnder(n, at + [i])
    ensures tmem.Valid() && env.rules.minChunk <= tmem.chunksize
    ensures fresh(used - {cxts, tmem, result})
    decreases Pending(n, call.c, call.root, k), 0
  {
    EnterChild(n, env, k, cxts, at, i, result, tmem.Snapshot(), call, before);
    c1 := cxts[..];
    rc, h, used := Slice(n, env, t, k + 1, cxts, 0, tmem, call.root);
    sum, used := None, used + {cxts, tmem};
    if k + 2 == n.levels {
      var v;
      v, used := result.Load(used);
      sum := Some(v);
    }
  }

  /** One round of the outer leaf loop up to the poll: run a chunk of what remains of the chunk size
      and poll when the chunk is full. */
  method NextChunk(n: Nest, env: Environment, at: Index, iv: int, max: int, acc: int, tmem: TaskMem,
                   ghost call: Call, ghost w: seq<Word>, ghost before: Dag)
    returns (private: int, ghost d: Dag, high: int, more: bool)
    requires CallOf(call, n, env, |at|, at) && 0 <= StartIter(call.c, |at|) <= iv < max <= LIMIT
    requires max == MaxIter(call.c, |at|)
    requires tmem.Valid() && InLeaf(call, w, tmem.Snapshot(), iv, acc, before, false)
    modifies tmem`remaining, tmem`pollingCount
    ensures iv < high <= max && (more ==> high == max) && (!more <==> high == iv + old(tmem.remaining))
    ensures InLeaf(call, w, tmem.Snapshot(), high, private, d, !more && env.rules.beat(at + [high - 1]))
    ensures tmem.Valid() && (!more ==> tmem.Progress() == 0)
  {
    ghost var here, end := tmem.Snapshot(), iv + tmem.remaining - 1;
    LeafFacts(call, w, here, iv, acc, before, false);
    ghost var h;
    // the last arguments are those of the comparison with the unchunked loop
    private, h, high, more :=
      Round(n, at, iv, max, acc, tmem, StartIter(call.c, |at|), tmem.chunksize, end, _ => false, _ => 0, [],
            LeafResult(iv, acc, 0, []));
    if !more {
      tmem.pollingCount := tmem.pollingCount + 1;
    }
    d := RecordRound(n, env, at, call, w, here, iv, acc, before, high, private, h, !more, tmem.Snapshot());
  }

  lemma RecordRound(n: Nest, env: Environment, at: Index, call: Call, w: seq<Word>, here: TaskState, iv: int, acc: int,
                    before: Dag, high: int, private: int, h: Dag, full: bool, after: TaskState)
    returns (d: Dag)
    requires CallOf(call, n, env, |at|, at) && iv < high && iv < MaxIter(call.c, |at|) && |at| < n.levels
    requires InLeaf(call, w, here, iv, acc, before, false)
    requires acc == Fold(n, at, StartIter(call.c, |at|), iv) ==> private == Fold(n, at, StartIter(call.c, |at|), high)
    requires Bag(h) == Work(n, at, iv, high) && Legal(h) && Straight(h, high - iv) && EndsWith(h, at + [high - 1])
    requires here.memory.progress + (high - iv) <= here.memory.chunk
    requires full ==> here.memory.progress + (high - iv) == here.memory.chunk
    requires after == here.(memory := AfterChunk(here.memory, high - iv, full))
    ensures InLeaf(call, w, after, high, private, d, full && env.rules.beat(at + [high - 1]))
  {
    LeafFacts(call, w, here, iv, acc, before, false);
    d := RecordChunk(call, w, here, iv, acc, before, high, private, h, full, after);
  }

  /** The loop of the leaf slice task, executed in chunks.  `first` and `second` are the entries of
      the reduction array it provides for the tasks of a promotion. */
  method LeafLoop(n: Nest, env: Environment, t: TaskTables, k: nat, cxts: array<Word>, tmem: TaskMem,
                  first: Slot, second: Slot, ghost root: nat)
    returns (rc: int, private: int, ghost d: Dag, ghost used: set<object>)
    requires Setting(n, env, t)
    requires tmem.Valid() && env.rules.minChunk <= tmem.chunksize
    requires k + 1 == n.levels && CanStart(n, cxts[..], root, tmem.startingLevel, k, 0)
    requires KidsAt(cxts[..], k, first, second)
    requires first.State() == second.State() == UNWRITTEN
    modifies cxts, tmem, first, second
    ensures SliceDone(Call(n, env.rules, root, k, old(cxts[..]), old(tmem.Snapshot())), cxts[..],
                      tmem.Snapshot(), rc - 1, d)
    ensures tmem.Valid() && env.rules.minChunk <= tmem.chunksize
    ensures Reduced(n, rc, private, first.State(), second.State(), Total(n, old(cxts[..]), k))
    ensures fresh(used - {cxts, tmem, first, second})
    decreases Pending(n, cxts[..], root, k), 1
  {
    ghost var call := Call(n, env.rules, root, k, cxts[..], tmem.Snapshot());
    var at := cxts[CACHELINE * k + LIVE_IN_ENV].prefix;
    var iv := cxts[CACHELINE * k + START_ITER].n;
    var max := cxts[CACHELINE * k + MAX_ITER].n;
    ghost var start := iv;
    assert start == StartIter(call.c, k) && max == MaxIter(call.c, k) && CallOf(call, n, env, k, at);

    rc, private, d, used := 0, n.zero, Done, {cxts, tmem};
    EnterLeaf(call);
    while iv < max
      invariant rc == 0 && (iv <= max || iv == start) && start <= iv
      invariant InLeaf(call, cxts[..], tmem.Snapshot(), iv, private, d, false)
      invariant first.State() == second.State() == UNWRITTEN && fresh(used - {cxts, tmem, first, second})
      invariant tmem.Valid() && env.rules.minChunk <= tmem.chunksize
    {
      ghost var usedNow;
      rc, private, d, iv, usedNow := LeafRound(n, env, t, k, cxts, at, iv, max, private, tmem, first, second, call, d);
      used := used + usedNow;
      if rc > 0 {
        return;
      }
    }
    LeafRangeDone(call, cxts[..], tmem.Snapshot(), iv, private, d);
  }

  /** One round of the outer leaf loop: a chunk, the poll if the chunk is full, and the handler if there is a
      heartbeat.  When there is more of the chunk to run, this was the last round. */
  method LeafRound(n: Nest, env: Environment, t: TaskTables, k: nat, cxts: array<Word>, at: Index, iv: int, max: int,
                   acc: int, tmem: TaskMem, first: Slot, second: Slot, ghost call: Call, ghost before: Dag)
    returns (rc: int, private: int, ghost d: Dag, high: int, ghost used: set<object>)
    requires Setting(n, env, t) && CallOf(call, n, env, k, at)
    requires tmem.Valid() && env.rules.minChunk <= tmem.chunksize
    requires InLeaf(call, cxts[..], tmem.Snapshot(), iv, acc, before, false)
    requires StartIter(call.c, k) <= iv < max == MaxIter(call.c, k) && KidsAt(call.c, k, first, second)
    requires first.State() == second.State() == UNWRITTEN
    modifies cxts, tmem, first, second
    ensures rc >= 0 && iv < high <= max
    ensures rc > 0 <==>
              && high == iv + old(tmem.remaining) && env.rules.beat(at + [high - 1])
              && !NoneAround(call.c, call.root, k + 1, at + [high - 1])
    ensures rc == 0 ==> InLeaf(call, cxts[..], tmem.Snapshot(), high, private, d, false)
    ensures rc == 0 ==> first.State() == second.State() == UNWRITTEN
    ensures rc > 0 ==> SliceDone(call, cxts[..], tmem.Snapshot(), rc - 1, d)
    ensures rc > 0 ==> Reduced(n, rc, private, first.State(), second.State(), Total(n, call.c, k))
    ensures tmem.Valid() && env.rules.minChunk <= tmem.chunksize
    ensures fresh(used - {cxts, tmem, first, second})
    decreases Pending(n, call.c, call.root, k), 0
  {
    var more;
    rc, used := 0, {cxts, tmem};
    private, d, high, more := NextChunk(n, env, at, iv, max, acc, tmem, call, cxts[..], before);
    if !more && env.rules.beat(at + [high - 1]) {
      LeafBeatWork(n, call.c, call.root, k, at, high - 1);
      ghost var usedNow;
      rc, d, usedNow := OnBeat(n, env, t, k, cxts, at, high - 1, tmem, first, second, call, private, d);
      used := used + usedNow;
    }
  }

  /** A heartbeat after iteration `last` of the leaf loop.  When the handler promotes, the loop is left. */
  method OnBeat(n: Nest, env: Environment, t: TaskTables, k: nat, cxts: array<Word>, at: Index, last: int,
                tmem: TaskMem, first: Slot, second: Slot, ghost call: Call, ghost private: int, ghost before: Dag)
    returns (rc: int, ghost d: Dag, ghost used: set<object>)
    requires Setting(n, env, t) && CallOf(call, n, env, k, at)
    requires tmem.Valid() && env.rules.minChunk <= tmem.chunksize && tmem.Progress() == 0
    requires InLeaf(call, cxts[..], tmem.Snapshot(), last + 1, private, before, true)
    requires StartIter(call.c, k) <= last < MaxIter(call.c, k)
    requires KidsAt(call.c, k, first, second)
    requires first.State() == second.State() == UNWRITTEN
    modifies cxts, tmem, first, second
    ensures rc >= 0
    ensures rc > 0 <==> !NoneAround(call.c, call.root, k + 1, at + [last])
    ensures rc == 0 ==> InLeaf(call, cxts[..], tmem.Snapshot(), last + 1, private, d, false)
    ensures rc == 0 ==> first.State() == second.State() == UNWRITTEN
    ensures rc > 0 ==> SliceDone(call, cxts[..], tmem.Snapshot(), rc - 1, d)
    ensures rc > 0 ==> Reduced(n, rc, private, first.State(), second.State(), Total(n, call.c, k))
    ensures tmem.Valid() && env.rules.minChunk <= tmem.chunksize
    ensures fresh(used - {cxts, tmem, first, second})
    decreases |RemAll(n, call.c, at, call.root, k)| + |Work(n, at, last + 1, MaxIter(call.c, k))|, 14
  {
    ghost var w, here := cxts[..], tmem.Snapshot();
    ghost var h, c1;
    d := before;
    LeafFacts(call, w, here, last + 1, private, before, true);
    rc, h, c1, used := Promote(n, env, t, k, cxts, at, last, tmem, first, second, call);
    SameNoneAround(call.c, c1, call.root, k, at, last);
    if rc > 0 {
      ReducedAfter(n, at, StartIter(call.c, k), last + 1, MaxIter(call.c, k), rc, private,
                   first.State(), second.State());
      d := RecordPromotion(call, w, here, last, private, before, c1, cxts[..], tmem.Snapshot(), rc, h);
    } else {
      BeatIgnored(call, w, here, last, private, before, c1);
    }
  }

  /** The handler block of the leaf loop: store the last iteration executed and call the handler. */
  method Promote(n: Nest, env: Environment, t: TaskTables, k: nat, cxts: array<Word>, at: Index, last: int,
                 tmem: TaskMem, first: Slot, second: Slot, ghost call: Call)
    returns (rc: int, ghost h: Dag, ghost c1: seq<Word>, ghost used: set<object>)
    requires Setting(n, env, t) && CallOf(call, n, env, k, at) && k + 1 == n.levels
    requires tmem.Valid() && env.rules.minChunk <= tmem.chunksize && tmem.Progress() == 0
    requires tmem.startingLevel == call.task.level
    requires StartIter(call.c, k) <= last < MaxIter(call.c, k)
    requires SameButStart(call.c, cxts[..], k)
    requires KidsAt(call.c, k, first, second)
    requires first.State() == second.State() == UNWRITTEN
    modifies cxts, tmem, first, second
    ensures rc >= 0
    ensures rc == 0 ==> cxts[..] == c1 && tmem.Snapshot() == old(tmem.Snapshot())
    ensures rc == 0 ==> first.State() == second.State() == UNWRITTEN
    ensures SameButStart(call.c, c1, k)
    ensures rc > 0 <==> !NoneAround(c1, call.root, n.levels, at + [last])
    ensures rc > 0 ==>
              HandlerDone(n, env.rules, call.root, c1, old(tmem.startingLevel), old(tmem.pollingCount),
                          at + [last], cxts[..], tmem.Snapshot(), rc, h)
    ensures rc > 0 ==>
              Reduced(n, rc, n.zero, first.State(), second.State(), Fold(n, at, last + 1, MaxIter(call.c, k)))
    ensures tmem.Valid() && env.rules.minChunk <= tmem.chunksize
    ensures fresh(used - {cxts, tmem, first, second})
    decreases |RemAll(n, call.c, at, call.root, k)| + |Work(n, at, last + 1, MaxIter(call.c, k))|, 13
  {
    ghost var w := cxts[..];
    cxts[CACHELINE * k + START_ITER] := Int(last);
    c1 := cxts[..];
    HandlerReady(n, call.c, w, c1, call.root, tmem.startingLevel, k, at, last, first, second);
    rc, h, used := PromotionHandler(n, env, t, cxts, k, tmem, call.root, at + [last], first, second);
    used := used + {cxts, tmem};
  }

  lemma SameNoneAround(c: seq<Word>, c1: seq<Word>, root: nat, k: nat, at: Index, last: int)
    requires |at| == k && CACHELINE * (k + 1) <= |c| && SameButStart(c, c1, k)
    ensures NoneAround(c1, root, k + 1, at + [last]) <==> NoneAround(c, root, k + 1, at + [last])
  {
    forall l | 0 <= l <= k
      ensures NoneLeft(c1, l, at + [last]) <==> NoneLeft(c, l, at + [last])
    {
    }
  }

  lemma HandlerReady(n: Nest, c: seq<Word>, w: seq<Word>, c1: seq<Word>, root: nat, s: nat, k: nat, at: Index,
                     last: int, first: Slot, second: Slot)
    requires k + 1 == n.levels && CanStart(n, c, root, s, k, 0) && Prefix(c, k) == at
    requires KidsAt(c, k, first, second)
    requires StartIter(c, k) <= last < MaxIter(c, k)
    requires SameButStart(c, w, k) && c1 == w[CACHELINE * k + START_ITER := Int(last)]
    ensures SameButStart(c, c1, k)
    ensures var q := at + [last];
            && TaskInvariant(n, c1, root, s, q) && s <= k && KidsAt(c1, k, first, second)
            && |RemAll(n, c1, q, root, |q|)| == |RemAll(n, c, at, root, k)| + |Work(n, at, last + 1, MaxIter(c, k))|
            && q[..k] == at && q[k] == last && MaxIter(c1, k) == MaxIter(c, k)
  {
    LeafHandlerWork(n, c, c1, root, k, at, last);
    HandlerCanStart(n, c, c1, root, s, k, at, last);
  }

  /** How the leaf slice combines its private value with the results of the promoted tasks, each of which has
      been written exactly once; a slot that is not read has not been written. */
  ghost predicate Reduced(n: Nest, rc: int, private: int, first: Stored, second: Stored, total: int) {
    if rc < 1 then first == second == UNWRITTEN && private == total
    else if rc > 1 then
      first.value.Some? && first.writes == 1 && second == UNWRITTEN && n.plus(private, first.value.value) == total
    else
      && first.value.Some? && first.writes == 1 && second.value.Some? && second.writes == 1
      && n.plus(n.plus(private, first.value.value), second.value.value) == total
  }

  lemma ReducedAfter(n: Nest, at: Index, start: int, low: int, max: int, rc: int, private: int,
                     first: Stored, second: Stored)
    requires ValidNest(n) && start <= low <= max
    requires private == Fold(n, at, start, low)
    requires rc > 0 && Reduced(n, rc, n.zero, first, second, Fold(n, at, low, max))
    ensures Reduced(n, rc, private, first, second, Fold(n, at, start, max))
  {
    FoldSplit(n, at, start, low, max);
    var rest := Fold(n, at, low, max);
    if rc == 1 {
      MonoidLaws(n, first.value.value, second.value.value, rest);
      MonoidLaws(n, private, first.value.value, second.value.value);
    } else {
      MonoidLaws(n, first.value.value, rest, rest);
    }
  }

  /** The reduction blocks of the leaf slice.  After a promotion at an outer level only the leftover
      task has a result to contribute; after one at the leaf, both tasks do. */
  method Reduce(n: Nest, rc: int, private: int, first: Slot, second: Slot, ghost total: int, ghost used: set<object>)
    returns (reduced: int, ghost used': set<object>)
    requires Reduced(n, rc, private, first.State(), second.State(), total)
    ensures forall a, b :: (rc >= 1 ==> first.value == Some(a)) && (rc == 1 ==> second.value == Some(b)) ==>
                             reduced == Merged(n.combine, rc, private, a, b)
    ensures MergesRight(n) && rc <= n.levels ==> reduced == total
    ensures used <= used' <= used + {first, second}
  {
    used' := used;
    if rc < 1 {
      return private, used';
    }
    var a, b;
    a, used' := first.Load(used');
    if rc > 1 {
      MergedTotal(n, rc, private, a, a, total);
      return n.combine(private, a), used';
    }
    b, used' := second.Load(used');
    MergedTotal(n, rc, private, a, b, total);
    return n.combine(n.combine(private, a), b), used';
  }

  lemma MergedTotal(n: Nest, rc: int, private: int, a: int, b: int, total: int)
    requires 1 <= rc
    requires total == if rc > 1 then n.plus(private, a) else n.plus(n.plus(private, a), b)
    ensures MergesRight(n) && rc <= n.levels ==> Merged(n.combine, rc, private, a, b) == total
  {
    if MergesRight(n) && 1 < rc <= n.levels {
      MergesOne(n, private, a);
    } else if MergesRight(n) && rc == 1 {
      MergesTwo(n, private, a, b);
    }
  }

  /** The slice task of the leaf loop. */
  method LeafSlice(n: Nest, env: Environment, t: TaskTables, k: nat, cxts: array<Word>, myIndex: nat, tmem: TaskMem,
                   ghost root: nat)
    returns (rc: int, ghost d: Dag, ghost used: set<object>)
    requires Setting(n, env, t)
    requires tmem.Valid() && env.rules.minChunk <= tmem.chunksize
    requires k + 1 == n.levels && CanStart(n, cxts[..], root, tmem.startingLevel, k, myIndex)
    modifies cxts, tmem, Target(n, cxts[..], k, myIndex)
    ensures SliceDone(Call(n, env.rules, root, k, old(cxts[..]), old(tmem.Snapshot())), cxts[..],
                      tmem.Snapshot(), rc, d)
    ensures tmem.Valid() && env.rules.minChunk <= tmem.chunksize
    ensures cxts[CACHELINE * k + LIVE_OUT_ENV] == old(cxts[CACHELINE * k + LIVE_OUT_ENV])
    ensures SlotOf(old(cxts[..]), k, myIndex).State()
            == Stored(Some(Total(n, old(cxts[..]), k)), old(SlotOf(cxts[..], k, myIndex).writes) + 1)
    ensures fresh(used - {cxts, tmem} - Target(n, old(cxts[..]), k, myIndex))
    decreases Pending(n, cxts[..], root, k), 2
  {
    ghost var call := Call(n, env.rules, root, k, cxts[..], tmem.Snapshot());
    var out := cxts[CACHELINE * k + LIVE_OUT_ENV];
    var first, second := OfferSlots(cxts, k);
    ghost var c1 := cxts[..];
    SameExceptLiveOut(n, call.c, c1, root, tmem.startingLevel, k, myIndex);

    var private;
    rc, private, d, used := LeafLoop(n, env, t, k, cxts, tmem, first, second, root);

    ghost var w := cxts[..];
    ghost var w' := w[CACHELINE * k + LIVE_OUT_ENV := out];
    LiveOutRestored(call, c1, w, w', tmem.Snapshot(), rc - 1, d);
    used := StoreResult(n, rc, private, first, second, out.slots[myIndex], cxts, k, out, Total(n, call.c, k), used);
    rc := rc - 1;
  }

  /** From now on the live-out entry of the context is the reduction array for promoted tasks. */
  method OfferSlots(cxts: array<Word>, k: nat) returns (first: Slot, second: Slot)
    requires CACHELINE * (k + 1) <= cxts.Length
    modifies cxts
    ensures fresh(first) && fresh(second) && first != second
    ensures first.State() == second.State() == UNWRITTEN
    ensures cxts[..] == old(cxts[..])[CACHELINE * k + LIVE_OUT_ENV := Reduction([first, second])]
  {
    first := new Slot();
    second := new Slot();
    cxts[CACHELINE * k + LIVE_OUT_ENV] := Reduction([first, second]);
  }

  /** The end of the leaf slice: store the reduction and restore the live-out entry of the context. */
  method StoreResult(n: Nest, rc: int, private: int, first: Slot, second: Slot, slot: Slot, cxts: array<Word>, k: nat,
                     out: Word, ghost total: int, ghost used: set<object>)
    returns (ghost used': set<object>)
    requires MergesRight(n) && rc <= n.levels && CACHELINE * (k + 1) <= cxts.Length
    requires Reduced(n, rc, private, first.State(), second.State(), total)
    modifies slot, cxts
    ensures slot.State() == Stored(Some(total), old(slot.writes) + 1)
    ensures cxts[..] == old(cxts[..])[CACHELINE * k + LIVE_OUT_ENV := out]
    ensures used' <= used + {first, second, slot, cxts}
  {
    var reduced;
    reduced, used' := Reduce(n, rc, private, first, second, total, used);
    used' := slot.Store(reduced, used');
    cxts[CACHELINE * k + LIVE_OUT_ENV] := out;
    used' := used' + {cxts};
  }

  /** The entries of the reduction array a leaf slice offers to promoted tasks. */
  ghost predicate KidsAt(c: seq<Word>, k: nat, first: Slot, second: Slot) {
    CACHELINE * (k + 1) <= |c| && c[CACHELINE * k + LIVE_OUT_ENV] == Reduction([first, second]) && first != second
  }

  /** `promotion_handler`, called by the leaf loop after iteration `at`. */
  method PromotionHandler(n: Nest, env: Environment, t: TaskTables, cxts: array<Word>, receiving: nat, tmem: TaskMem,
                          ghost root: nat, ghost at: Index, ghost first: Slot, ghost second: Slot)
    returns (rc: int, ghost d: Dag, ghost used: set<object>)
    requires Setting(n, env, t)
    requires tmem.Valid() && env.rules.minChunk <= tmem.chunksize && tmem.Progress() == 0
    requires receiving + 1 == n.levels == |at| && tmem.startingLevel <= receiving
    requires TaskInvariant(n, cxts[..], root, tmem.startingLevel, at)
    requires KidsAt(cxts[..], receiving, first, second)
    requires first.State() == second.State() == UNWRITTEN
    modifies cxts, tmem, first, second
    ensures rc >= 0
    ensures rc == 0 ==> cxts[..] == old(cxts[..]) && tmem.Snapshot() == old(tmem.Snapshot())
    ensures rc == 0 ==> first.State() == second.State() == UNWRITTEN
    ensures rc > 0 <==> !NoneAround(old(cxts[..]), root, n.levels, at)
    ensures rc > 0 ==> root <= |at| - rc && !NoneLeft(old(cxts[..]), |at| - rc, at)
    ensures rc > 0 ==> NoneAround(old(cxts[..]), root, |at| - rc, at)
    ensures rc > 0 ==>
              HandlerDone(n, env.rules, root, old(cxts[..]), old(tmem.startingLevel), old(tmem.pollingCount), at,
                          cxts[..], tmem.Snapshot(), rc, d)
    ensures rc > 0 ==> Reduced(n, rc, n.zero, first.State(), second.State(),
                               Fold(n, at[..receiving], at[receiving] + 1, MaxIter(old(cxts[..]), receiving)))
    ensures tmem.Valid() && env.rules.minChunk <= tmem.chunksize
    ensures fresh(used - {cxts, tmem, first, second})
    decreases |RemAll(n, cxts[..], at, root, |at|)|, 12
  {
    ghost var c, s := cxts[..], tmem.startingLevel;
    var splitting := SplittingLevel(n, cxts, receiving, tmem.startingLevel, root, at);
    if splitting > receiving {
      // no more work to split at any level
      return 0, Done, {cxts, tmem};
    }
    RemConcat(n, c, at, root, splitting, |at|);
    // runtime_memory_update samples the polling count of this task
    ghost var sample := tmem.pollingCount;
    d, used := SplitAndFork(n, env, t, cxts, receiving, splitting, tmem, at, first, second, sample);
    rc := receiving - splitting + 1;
    SplitDone(n, env.rules, root, c, s, sample, at, cxts[..], tmem.Snapshot(), splitting, d);
  }

  /** The part of the handler after the search: split the loop of level `splitting` and fork. */
  method SplitAndFork(n: Nest, env: Environment, t: TaskTables, cxts: array<Word>, receiving: nat, splitting: nat,
                      tmem: TaskMem, ghost at: Index, ghost first: Slot, ghost second: Slot, ghost sample: nat)
    returns (ghost d: Dag, ghost used: set<object>)
    requires Setting(n, env, t) && splitting <= receiving && receiving + 1 == n.levels == |at|
    requires cxts.Length == CACHELINE * n.levels
    requires forall l :: splitting <= l < |at| ==> InProgress(cxts[..], l, at)
    requires !NoneLeft(cxts[..], splitting, at)
    requires KidsAt(cxts[..], receiving, first, second)
    requires first.State() == second.State() == UNWRITTEN
    modifies cxts, tmem, first, second
    ensures forall j :: 0 <= j < CACHELINE * splitting ==> cxts[j] == old(cxts[j])
    ensures splitting <= tmem.startingLevel && tmem.Valid() && env.rules.minChunk <= tmem.chunksize
    ensures Bag(d) == RemAll(n, old(cxts[..]), at, splitting, |at|) && Legal(d)
    ensures PromotionAccounted(env.rules, sample, tmem.State(), d)
    ensures n.levels == 1 ==> Pow2(Nesting(d)) <= MaxIter(old(cxts[..]), receiving) - at[receiving]
    ensures Reduced(n, receiving - splitting + 1, n.zero, first.State(), second.State(),
                    Fold(n, at[..receiving], at[receiving] + 1, MaxIter(old(cxts[..]), receiving)))
    ensures fresh(used - {cxts, tmem, first, second})
    decreases |RemAll(n, cxts[..], at, splitting, |at|)|, 11
  {
    ghost var c := cxts[..];
    assert InProgress(c, splitting, at);
    var low := cxts[CACHELINE * splitting + START_ITER].n;
    var high := cxts[CACHELINE * splitting + MAX_ITER].n;
    var mid := SplittingPoint(low, high);
    var cxtsSecond := SecondContext(n, cxts, splitting, mid, high);
    cxts[CACHELINE * splitting + MAX_ITER] := Int(mid);
    if splitting == receiving {
      d, used := ForkSlices(n, env, t, cxts, cxtsSecond, receiving, tmem, at, first, second, c, mid, sample);
    } else {
      d, used :=
        ForkLeftover(n, env, t, cxts, cxtsSecond, receiving, splitting, tmem, at, first, second, c, mid, sample);
    }
  }

  /** The splitting point of the iterations `low + 1 .. high`: two contiguous halves that differ by at
      most one iteration, the second not empty; the 64-bit sum does not wrap. */
  method SplittingPoint(low: int, high: int) returns (mid: int)
    requires 0 <= low && high <= LIMIT && high - low >= 2
    ensures mid == Midpoint(low, high)
    ensures low + 1 <= mid < high && 0 <= (high - mid) - (mid - (low + 1)) <= 1
  {
    mid := Midpoint(low, high);
  }

  /** The outermost level from `startingLevel` on whose loop has an iteration after the current one. */
  method SplittingLevel(n: Nest, cxts: array<Word>, receiving: nat, startingLevel: nat, ghost root: nat,
                        ghost at: Index)
    returns (splitting: nat)
    requires receiving + 1 == n.levels == |at| && startingLevel <= receiving
    requires TaskInvariant(n, cxts[..], root, startingLevel, at)
    ensures startingLevel <= splitting <= receiving + 1
    ensures forall l :: root <= l < splitting ==> NoneLeft(cxts[..], l, at)
    ensures splitting <= receiving ==> !NoneLeft(cxts[..], splitting, at)
  {
    splitting := receiving + 1;
    var level := startingLevel;
    while level <= receiving
      invariant startingLevel <= level <= receiving + 1 && splitting == receiving + 1
      invariant forall l :: root <= l < level ==> NoneLeft(cxts[..], l, at)
    {
      assert InProgress(cxts[..], level, at);
      var some := AtLeastTwo(cxts[CACHELINE * level + MAX_ITER].n, cxts[CACHELINE * level + START_ITER].n);
      if some {
        splitting := level;
        break;
      }
      level := level + 1;
    }
  }

  /** `max - start >= 2` on unsigned 64-bit words; a loop in progress has `start < max`. */
  method AtLeastTwo(max: int, start: int) returns (some: bool)
    requires 0 <= start < max <= LIMIT
    ensures some <==> start + 1 < max
  {
    some := Sub64(max, start) >= 2;
  }

  /** The context of the second task: only the line of the splitting level is written. */
  method SecondContext(n: Nest, cxts: array<Word>, splitting: nat, mid: int, high: int) returns (second: array<Word>)
    requires splitting < n.levels && cxts.Length == CACHELINE * n.levels
    ensures fresh(second) && second.Length == CACHELINE * n.levels
    ensures second[CACHELINE * splitting + START_ITER] == Int(mid)
    ensures second[CACHELINE * splitting + MAX_ITER] == Int(high)
    ensures second[CACHELINE * splitting + LIVE_IN_ENV] == cxts[CACHELINE * splitting + LIVE_IN_ENV]
    ensures second[CACHELINE * splitting + LIVE_OUT_ENV] == cxts[CACHELINE * splitting + LIVE_OUT_ENV]
    ensures forall j :: 0 <= j < second.Length && !(CACHELINE * splitting <= j < CACHELINE * splitting + 4)
                    ==> second[j] == Undef
  {
    second := new Word[CACHELINE * n.levels](_ => Undef);
    second[CACHELINE * splitting + START_ITER] := Int(mid);
    second[CACHELINE * splitting + MAX_ITER] := Int(high);
    second[CACHELINE * splitting + LIVE_IN_ENV] := cxts[CACHELINE * splitting + LIVE_IN_ENV];
    second[CACHELINE * splitting + LIVE_OUT_ENV] := cxts[CACHELINE * splitting + LIVE_OUT_ENV];
  }

  /** A task that starts at the slice of level `s` with its task memory reset. */
  method StartSlice(n: Nest, env: Environment, t: TaskTables, s: nat, cxts: array<Word>, myIndex: nat, tmem: TaskMem,
                    chunk: int)
    returns (ghost d: Dag, ghost used: set<object>)
    requires Setting(n, env, t) && env.rules.minChunk <= chunk <= LIMIT
    requires CanStart(n, cxts[..], s, s, s, myIndex)
    modifies cxts, tmem, Target(n, cxts[..], s, myIndex)
    ensures forall j :: 0 <= j < CACHELINE * s ==> cxts[j] == old(cxts[j])
    ensures s <= tmem.startingLevel && tmem.Valid() && env.rules.minChunk <= tmem.chunksize
    ensures TaskDone(env.rules, chunk, tmem.State(), OwnWork(n, old(cxts[..]), s), d)
    ensures Shallow(n, MaxIter(old(cxts[..]), s) - StartIter(old(cxts[..]), s), d)
    ensures s + 1 == n.levels ==>
              SlotOf(old(cxts[..]), s, myIndex).State()
              == Stored(Some(Total(n, old(cxts[..]), s)), old(SlotOf(cxts[..], s, myIndex).writes) + 1)
    ensures fresh(used - {cxts, tmem} - Target(n, old(cxts[..]), s, myIndex))
    decreases |OwnWork(n, cxts[..], s)|, 5
  {
    tmem.Reset(s, chunk);
    ghost var call := Call(n, env.rules, s, s, cxts[..], tmem.Snapshot());
    assert RemAll(n, call.c, Prefix(call.c, s), s, s) == multiset{};
    var rc;
    rc, d, used := Slice(n, env, t, t.slices[s], cxts, myIndex, tmem, s);
    used := used + {cxts, tmem};
    RootDone(call, cxts[..], tmem.Snapshot(), rc, d);
  }

  /** State at the fork: the first task keeps the context `c` up to `mid`, the second context covers
      the rest.  The two tasks then have no memory in common. */
  ghost predicate AtFork(n: Nest, c: seq<Word>, w: seq<Word>, w2: seq<Word>, s: nat, at: Index, mid: int) {
    && s < |at| == n.levels && |c| == |w| == |w2| == CACHELINE * n.levels
    && InProgress(c, s, at) && at[s] < mid < MaxIter(c, s)
    && 0 <= (MaxIter(c, s) - mid) - (mid - (at[s] + 1)) <= 1
    && w == c[CACHELINE * s + MAX_ITER := Int(mid)]
    && w2[CACHELINE * s + START_ITER] == Int(mid)
    && w2[CACHELINE * s + MAX_ITER] == c[CACHELINE * s + MAX_ITER]
    && w2[CACHELINE * s + LIVE_IN_ENV] == c[CACHELINE * s + LIVE_IN_ENV]
    && w2[CACHELINE * s + LIVE_OUT_ENV] == c[CACHELINE * s + LIVE_OUT_ENV]
  }

  /** Both tasks of a promotion at the leaf run the leaf's slice, on either half of what is left. */
  method ForkSlices(n: Nest, env: Environment, t: TaskTables, cxts: array<Word>, cxtsSecond: array<Word>,
                    receiving: nat, tmem: TaskMem, ghost at: Index, ghost first: Slot, ghost second: Slot,
                    ghost c: seq<Word>, ghost mid: int, ghost sample: nat)
    returns (ghost d: Dag, ghost used: set<object>)
    requires Setting(n, env, t) && receiving + 1 == n.levels && cxts != cxtsSecond
    requires AtFork(n, c, cxts[..], cxtsSecond[..], receiving, at, mid)
    requires KidsAt(c, receiving, first, second)
    requires first.State() == second.State() == UNWRITTEN
    modifies cxts, cxtsSecond, tmem, first, second
    ensures forall j :: 0 <= j < CACHELINE * receiving ==> cxts[j] == c[j]
    ensures receiving <= tmem.startingLevel && tmem.Valid() && env.rules.minChunk <= tmem.chunksize
    ensures Bag(d) == RemAll(n, c, at, receiving, |at|) && Legal(d)
    ensures PromotionAccounted(env.rules, sample, tmem.State(), d)
    ensures n.levels == 1 ==> Pow2(Nesting(d)) <= MaxIter(c, receiving) - at[receiving]
    ensures Reduced(n, 1, n.zero, first.State(), second.State(),
                    Fold(n, at[..receiving], at[receiving] + 1, MaxIter(c, receiving)))
    ensures fresh(used - {cxts, cxtsSecond, tmem, first, second})
    decreases |RemAll(n, c, at, receiving, |at|)|, 10
  {
    ghost var w := cxts[..];
    // the first task starts from the next iteration
    var here := cxts[CACHELINE * receiving + LIVE_IN_ENV].prefix + [cxts[CACHELINE * receiving + START_ITER].n];
    cxts[CACHELINE * receiving + START_ITER] := Int(cxts[CACHELINE * receiving + START_ITER].n + 1);
    SlicesCanStart(n, c, w, cxts[..], cxtsSecond[..], receiving, at, mid);
    SlicesOwn(n, c, w, cxts[..], cxtsSecond[..], receiving, at, mid);
    ghost var c1, c2 := cxts[..], cxtsSecond[..];
    ghost var d1, d2, m2, used1, used2 := RunHalves(n, env, t, receiving, cxts, cxtsSecond, tmem, here, first, second);
    used := used1 + used2;
    ghost var p := Promotion(sample, env.firstChunk(here), env.secondChunk(here));
    d := RecordHalves(n, env.rules, p, tmem.State(), m2, at[..receiving], at[receiving], mid, MaxIter(c, receiving),
                      OwnWork(n, c1, receiving), d1, d2);
    ReducedHalves(n, at[..receiving], at[receiving] + 1, mid, MaxIter(c, receiving), first.State(), second.State());
  }

  /** What a forked task guarantees on its own: it ran `own`, in a legal order, and its polls are paid
      for.  Its memory started with a full chunk of size `chunk`. */
  ghost predicate TaskDone(rules: Rules, chunk: int, m: Memory, own: multiset<Event>, d: Dag) {
    forall u {:trigger Opened(u)} :: Opened(u) ==> TaskRan(rules, chunk, m, own, d)
  }

  ghost predicate TaskRan(rules: Rules, chunk: int, m: Memory, own: multiset<Event>, d: Dag) {
    Bag(d) == own && Legal(d) && Accounted(rules, Fresh(chunk), m, d) && 0 <= m.progress < m.chunk
  }

  /** `fork2join` of two slices.  They have no memory in common, so either may run first, and the
      actions they record interleave freely. */
  method RunHalves(n: Nest, env: Environment, t: TaskTables, k: nat, cxts: array<Word>, cxtsSecond: array<Word>,
                   tmem: TaskMem, here: Index, ghost first: Slot, ghost second: Slot)
    returns (ghost d1: Dag, ghost d2: Dag, ghost m2: Memory, ghost used1: set<object>, ghost used2: set<object>)
    requires Setting(n, env, t) && k + 1 == n.levels && cxts != cxtsSecond
    requires CanStart(n, cxts[..], k, k, k, 0) && CanStart(n, cxtsSecond[..], k, k, k, 1)
    requires KidsAt(cxts[..], k, first, second) && KidsAt(cxtsSecond[..], k, first, second)
    modifies cxts, cxtsSecond, tmem, first, second
    ensures forall j :: 0 <= j < CACHELINE * k ==> cxts[j] == old(cxts[j])
    ensures k <= tmem.startingLevel && tmem.Valid() && env.rules.minChunk <= tmem.chunksize
    ensures TaskDone(env.rules, env.firstChunk(here), tmem.State(),
                     OwnWork(n, old(cxts[..]), k), d1)
    ensures TaskDone(env.rules, env.secondChunk(here), m2, OwnWork(n, old(cxtsSecond[..]), k), d2)
    ensures Shallow(n, MaxIter(old(cxts[..]), k) - StartIter(old(cxts[..]), k), d1)
    ensures Shallow(n, MaxIter(old(cxtsSecond[..]), k) - StartIter(old(cxtsSecond[..]), k), d2)
    ensures first.State() == Stored(Some(Total(n, old(cxts[..]), k)), old(first.writes) + 1)
    ensures second.State() == Stored(Some(Total(n, old(cxtsSecond[..]), k)), old(second.writes) + 1)
    ensures used1 !! used2
    ensures fresh(used1 - {cxts, tmem, first}) && fresh(used2 - {cxtsSecond, second})
    decreases |OwnWork(n, cxts[..], k)| + |OwnWork(n, cxtsSecond[..], k)|, 6
  {
    var tmemSecond := new TaskMem();
    HalvesTargets(n, cxts[..], k, first, second);
    HalvesTargets(n, cxtsSecond[..], k, first, second);
    if env.secondRunsFirst(here) {
      d2, used2 := StartSlice(n, env, t, k, cxtsSecond, 1, tmemSecond, env.secondChunk(here));
      assert cxts[..] == old(cxts[..]);
      d1, used1 := StartSlice(n, env, t, k, cxts, 0, tmem, env.firstChunk(here));
    } else {
      d1, used1 := StartSlice(n, env, t, k, cxts, 0, tmem, env.firstChunk(here));
      assert cxtsSecond[..] == old(cxtsSecond[..]);
      d2, used2 := StartSlice(n, env, t, k, cxtsSecond, 1, tmemSecond, env.secondChunk(here));
    }
    m2 := tmemSecond.State();
  }

  /** The computation of a promotion at the leaf. */
  lemma RecordHalves(n: Nest, rules: Rules, p: Promotion, m1: Memory, m2: Memory, at: Index, low: int, mid: int,
                     high: int, own1: multiset<Event>, d1: Dag, d2: Dag)
    returns (d: Dag)
    requires |at| < n.levels && low + 1 <= mid < high && 0 <= (high - mid) - (mid - (low + 1)) <= 1
    requires 1 <= p.firstChunk && TaskDone(rules, p.firstChunk, m1, own1, d1)
    requires 1 <= p.secondChunk && TaskDone(rules, p.secondChunk, m2, Work(n, at, mid, high), d2)
    requires AllApart(own1, Work(n, at, mid, high))
    requires Shallow(n, mid - (low + 1), d1) && Shallow(n, high - mid, d2)
    ensures Bag(d) == own1 + Work(n, at, mid, high) && Legal(d)
    ensures PromotionAccounted(rules, p.sample, m1, d)
    ensures n.levels == 1 ==> Pow2(Nesting(d)) <= high - low
  {
    var e := FirstAction(n, at, mid, high);
    d := RecordFork(rules, p, m1, m2, own1, Work(n, at, mid, high), d1, d2, e);
    ShallowHalves(n, p, low, mid, high, d1, d2);
  }

  lemma HalvesTargets(n: Nest, c: seq<Word>, k: nat, first: Slot, second: Slot)
    requires k + 1 == n.levels && KidsAt(c, k, first, second)
    ensures Target(n, c, k, 0) == {first} && SlotOf(c, k, 0) == first
    ensures Target(n, c, k, 1) == {second} && SlotOf(c, k, 1) == second
  {
  }

  /** The computation of a promotion. */
  lemma RecordFork(rules: Rules, p: Promotion, m1: Memory, m2: Memory, own1: multiset<Event>, own2: multiset<Event>,
                   d1: Dag, d2: Dag, e: Event)
    returns (d: Dag)
    requires 1 <= p.firstChunk && TaskDone(rules, p.firstChunk, m1, own1, d1)
    requires 1 <= p.secondChunk && TaskDone(rules, p.secondChunk, m2, own2, d2)
    requires AllApart(own1, own2) && e in own2 && !e.Tail?
    ensures d == Par(p, d1, d2)
    ensures Bag(d) == own1 + own2 && Legal(d)
    ensures PromotionAccounted(rules, p.sample, m1, d)
  {
    d := Par(p, d1, d2);
    assert Opened(0);
    LegalPar(p, d1, d2);
    AccountFork(rules, p, m1, d1, m2, d2, e);
  }

  lemma SlicesCanStart(n: Nest, c: seq<Word>, w: seq<Word>, w1: seq<Word>, w2: seq<Word>, k: nat, at: Index, mid: int)
    requires k + 1 == n.levels && AtFork(n, c, w, w2, k, at, mid)
    requires w1 == w[CACHELINE * k + START_ITER := Int(at[k] + 1)]
    requires c[CACHELINE * k + LIVE_OUT_ENV].Reduction? && |c[CACHELINE * k + LIVE_OUT_ENV].slots| == 2
    ensures CanStart(n, w1, k, k, k, 0) && CanStart(n, w2, k, k, k, 1)
    ensures OwnWork(n, w1, k) == RemAll(n, w, at, k, |at|)
    ensures OwnWork(n, w2, k) == Work(n, at[..k], mid, MaxIter(c, k))
    ensures w1[CACHELINE * k + LIVE_OUT_ENV] == w2[CACHELINE * k + LIVE_OUT_ENV] == c[CACHELINE * k + LIVE_OUT_ENV]
    ensures Prefix(w1, k) == Prefix(w2, k) == at[..k]
    ensures StartIter(w1, k) == at[k] + 1 && MaxIter(w1, k) == mid
    ensures StartIter(w2, k) == mid && MaxIter(w2, k) == MaxIter(c, k)
  {
    RemSingle(n, w, at, k);
  }

  /** The two slices divide what was left between them. */
  lemma SlicesOwn(n: Nest, c: seq<Word>, w: seq<Word>, w1: seq<Word>, w2: seq<Word>, k: nat, at: Index, mid: int)
    requires k + 1 == n.levels && AtFork(n, c, w, w2, k, at, mid)
    requires w1 == w[CACHELINE * k + START_ITER := Int(at[k] + 1)]
    requires c[CACHELINE * k + LIVE_OUT_ENV].Reduction? && |c[CACHELINE * k + LIVE_OUT_ENV].slots| == 2
    ensures |Prefix(w1, k)| == |Prefix(w2, k)| == k
    ensures RemAll(n, c, at, k, |at|) == OwnWork(n, w1, k) + OwnWork(n, w2, k)
    ensures AllApart(OwnWork(n, w1, k), OwnWork(n, w2, k))
    ensures OwnWork(n, w2, k) == Work(n, at[..k], mid, MaxIter(c, k))
  {
    SplitWork(n, c, w, at, k, |at|, mid);
    SplitApart(n, w, at, k, mid, MaxIter(c, k));
    SlicesCanStart(n, c, w, w1, w2, k, at, mid);
  }

  lemma ReducedHalves(n: Nest, p: Index, a: int, mid: int, b: int, first: Stored, second: Stored)
    requires ValidNest(n) && a <= mid <= b
    requires first == Stored(Some(Fold(n, p, a, mid)), 1) && second == Stored(Some(Fold(n, p, mid, b)), 1)
    ensures Reduced(n, 1, n.zero, first, second, Fold(n, p, a, b))
  {
    FoldSplit(n, p, a, mid, b);
    MonoidLaws(n, first.value.value, second.value.value, second.value.value);
  }

  lemma ShallowHalves(n: Nest, p: Promotion, low: int, mid: int, high: int, a: Dag, b: Dag)
    requires low + 1 <= mid < high
    requires 0 <= (high - mid) - (mid - (low + 1)) <= 1
    requires Shallow(n, mid - (low + 1), a) && Shallow(n, high - mid, b)
    ensures n.levels == 1 ==> Pow2(Nesting(Par(p, a, b))) <= high - low
  {
    NestingPar(p, a, b);
    if Nesting(a) < Nesting(b) {
      assert Nesting(Par(p, a, b)) == 1 + Nesting(b);
    } else {
      assert Nesting(Par(p, a, b)) == 1 + Nesting(a);
    }
  }

  /** A promotion at an outer level `s`: the first task finishes the loops in progress with a leftover
      task, the second runs the slice of level `s` on the later half of its iterations. */
  method ForkLeftover(n: Nest, env: Environment, t: TaskTables, cxts: array<Word>, cxtsSecond: array<Word>,
                      receiving: nat, s: nat, tmem: TaskMem, ghost at: Index, ghost first: Slot, ghost second: Slot,
                      ghost c: seq<Word>, ghost mid: int, ghost sample: nat)
    returns (ghost d: Dag, ghost used: set<object>)
    requires Setting(n, env, t) && s < receiving && receiving + 1 == n.levels && cxts != cxtsSecond
    requires AtFork(n, c, cxts[..], cxtsSecond[..], s, at, mid)
    requires forall l :: s <= l < |at| ==> InProgress(c, l, at)
    requires KidsAt(c, receiving, first, second)
    requires first.State() == second.State() == UNWRITTEN
    modifies cxts, cxtsSecond, tmem, first
    ensures forall j :: 0 <= j < CACHELINE * s ==> cxts[j] == c[j]
    ensures s <= tmem.startingLevel && tmem.Valid() && env.rules.minChunk <= tmem.chunksize
    ensures Bag(d) == RemAll(n, c, at, s, |at|) && Legal(d)
    ensures PromotionAccounted(env.rules, sample, tmem.State(), d)
    ensures Reduced(n, receiving - s + 1, n.zero, first.State(), second.State(),
                    Fold(n, at[..receiving], at[receiving] + 1, MaxIter(c, receiving)))
    ensures fresh(used - {cxts, cxtsSecond, tmem, first})
    decreases |RemAll(n, c, at, s, |at|)|, 10
  {
    ghost var w, c2 := cxts[..], cxtsSecond[..];
    LeftoverCanStart(n, c, w, c2, receiving, s, at, mid, first, second);
    LeftoverOwns(n, c, w, c2, s, at, mid);
    var here := cxts[CACHELINE * receiving + LIVE_IN_ENV].prefix + [cxts[CACHELINE * receiving + START_ITER].n];
    SelectFinds(t.leftovers, n.levels, receiving, s);
    var leftover := t.leftovers[Select(t.leftovers, receiving, s)];
    ghost var d1, d2, m2, used1, used2 :=
      RunLeftoverAndSlice(n, env, t, leftover.0, leftover.1, cxts, cxtsSecond, tmem, here, at, first);
    used := used1 + used2;
    ghost var p := Promotion(sample, env.firstChunk(here), env.secondChunk(here));
    ghost var e := FirstAction(n, at[..s], mid, MaxIter(c, s));
    d := RecordFork(env.rules, p, tmem.State(), m2, RemAll(n, w, at, s, |at|), OwnWork(n, c2, s), d1, d2, e);
    ReducedLeftover(n, receiving - s + 1, first.State(), second.State(),
                    Fold(n, at[..receiving], at[receiving] + 1, MaxIter(c, receiving)));
  }

  lemma ReducedLeftover(n: Nest, rc: int, first: Stored, second: Stored, total: int)
    requires ValidNest(n) && rc > 1 && first == Stored(Some(total), 1) && second == UNWRITTEN
    ensures Reduced(n, rc, n.zero, first, second, total)
  {
    MonoidLaws(n, total, n.zero, n.zero);
  }

  /** `fork2join` of a leftover task and a slice. */
  method RunLeftoverAndSlice(n: Nest, env: Environment, t: TaskTables, receiving: nat, s: nat, cxts: array<Word>,
                             cxtsSecond: array<Word>, tmem: TaskMem, here: Index, ghost at: Index, ghost first: Slot)
    returns (ghost d1: Dag, ghost d2: Dag, ghost m2: Memory, ghost used1: set<object>, ghost used2: set<object>)
    requires Setting(n, env, t) && receiving + 1 == n.levels && cxts != cxtsSecond
    requires LeftoverReady(n, cxts[..], s, at, first) && CanStart(n, cxtsSecond[..], s, s, s, 1)
    modifies cxts, cxtsSecond, tmem, first
    ensures forall j :: 0 <= j < CACHELINE * s ==> cxts[j] == old(cxts[j])
    ensures s <= tmem.startingLevel && tmem.Valid() && env.rules.minChunk <= tmem.chunksize
    ensures TaskDone(env.rules, env.firstChunk(here), tmem.State(),
                     RemAll(n, old(cxts[..]), at, s, |at|), d1)
    ensures TaskDone(env.rules, env.secondChunk(here), m2, OwnWork(n, old(cxtsSecond[..]), s), d2)
    ensures first.State() == Stored(Some(RestTotal(n, old(cxts[..]), at)), old(first.writes) + 1)
    ensures used1 !! used2
    ensures fresh(used1 - {cxts, tmem, first}) && fresh(used2 - {cxtsSecond})
    decreases |RemAll(n, cxts[..], at, s, |at|)| + |OwnWork(n, cxtsSecond[..], s)|, 9
  {
    var tmemSecond := new TaskMem();
    assert Target(n, cxtsSecond[..], s, 1) == {};
    if env.secondRunsFirst(here) {
      d2, used2 := StartSlice(n, env, t, s, cxtsSecond, 1, tmemSecond, env.secondChunk(here));
      assert cxts[..] == old(cxts[..]);
      d1, used1 := StartLeftover(n, env, t, receiving, s, cxts, tmem, env.firstChunk(here), at, first);
    } else {
      d1, used1 := StartLeftover(n, env, t, receiving, s, cxts, tmem, env.firstChunk(here), at, first);
      assert cxtsSecond[..] == old(cxtsSecond[..]);
      d2, used2 := StartSlice(n, env, t, s, cxtsSecond, 1, tmemSecond, env.secondChunk(here));
    }
    m2 := tmemSecond.State();
  }

  /** The leftover task and the slice can start; the leaf's iterations all go to the leftover task. */
  lemma LeftoverCanStart(n: Nest, c: seq<Word>, w: seq<Word>, w2: seq<Word>, receiving: nat, s: nat, at: Index,
                         mid: int, first: Slot, second: Slot)
    requires s < receiving && receiving + 1 == n.levels && AtFork(n, c, w, w2, s, at, mid)
    requires forall l :: s <= l < |at| ==> InProgress(c, l, at)
    requires KidsAt(c, receiving, first, second)
    ensures LeftoverReady(n, w, s, at, first) && InProgress(w, receiving, at) && CanStart(n, w2, s, s, s, 1)
    ensures RestTotal(n, w, at) == Fold(n, at[..receiving], at[receiving] + 1, MaxIter(c, receiving))
  {
    forall l | s <= l < |at|
      ensures InProgress(w, l, at)
    {
      assert InProgress(c, l, at);
    }
  }

  /** They divide what was left between them. */
  lemma LeftoverOwns(n: Nest, c: seq<Word>, w: seq<Word>, w2: seq<Word>, s: nat, at: Index, mid: int)
    requires s < n.levels && AtFork(n, c, w, w2, s, at, mid)
    requires forall l :: s <= l < |at| ==> InProgress(c, l, at)
    ensures |Prefix(w2, s)| == s && OwnWork(n, w2, s) == Work(n, at[..s], mid, MaxIter(c, s))
    ensures RemAll(n, c, at, s, |at|) == RemAll(n, w, at, s, |at|) + OwnWork(n, w2, s)
    ensures AllApart(RemAll(n, w, at, s, |at|), OwnWork(n, w2, s))
  {
    assert OwnWork(n, w2, s) == Work(n, at[..s], mid, MaxIter(c, s));
    SplitWork(n, c, w, at, s, |at|, mid);
    SplitApart(n, w, at, s, mid, MaxIter(c, s));
  }

  /** The context a leftover task finds: `at` is in progress, and its slot is the first of the leaf's array. */
  ghost predicate LeftoverReady(n: Nest, c: seq<Word>, s: nat, at: Index, first: Slot) {
    && s + 1 < n.levels == |at| && TaskInvariant(n, c, s, s, at)
    && c[CACHELINE * (n.levels - 1) + LIVE_OUT_ENV].Reduction?
    && |c[CACHELINE * (n.levels - 1) + LIVE_OUT_ENV].slots| > 0
    && SlotOf(c, n.levels - 1, 0) == first
  }

  /** The leaf iterations after `at`, reduced. */
  ghost function RestTotal(n: Nest, c: seq<Word>, at: Index): int
    requires |at| == n.levels > 0 && |c| == CACHELINE * n.levels
  {
    Fold(n, at[..n.levels - 1], at[n.levels - 1] + 1, MaxIter(c, n.levels - 1))
  }

  /** The first task of such a promotion, with its task memory reset. */
  method StartLeftover(n: Nest, env: Environment, t: TaskTables, receiving: nat, s: nat, cxts: array<Word>,
                       tmem: TaskMem, chunk: int, ghost at: Index, ghost first: Slot)
    returns (ghost d: Dag, ghost used: set<object>)
    requires Setting(n, env, t) && env.rules.minChunk <= chunk <= LIMIT
    requires receiving + 1 == n.levels && LeftoverReady(n, cxts[..], s, at, first)
    modifies cxts, tmem, first
    ensures forall j :: 0 <= j < CACHELINE * s ==> cxts[j] == old(cxts[j])
    ensures s <= tmem.startingLevel && tmem.Valid() && env.rules.minChunk <= tmem.chunksize
    ensures TaskDone(env.rules, chunk, tmem.State(), RemAll(n, old(cxts[..]), at, s, |at|), d)
    ensures first.State() == Stored(Some(RestTotal(n, old(cxts[..]), at)), old(first.writes) + 1)
    ensures fresh(used - {cxts, tmem, first})
    decreases |RemAll(n, cxts[..], at, s, |at|)|, 8
  {
    tmem.Reset(s, chunk);
    d, used := Leftover(n, env, t, receiving, s, cxts, 0, tmem, at, first);
    used := used + {cxts, tmem};
  }

  /** The emitted leftover task: finish the loops in progress from the receiving level up to the
      splitting level, and stop early when a slice reports that outer levels have been completed. */
  method Leftover(n: Nest, env: Environment, t: TaskTables, receiving: nat, s: nat, cxts: array<Word>, myIndex: nat,
                  tmem: TaskMem, ghost at: Index, ghost first: Slot)
    returns (ghost d: Dag, ghost used: set<object>)
    requires Setting(n, env, t) && receiving + 1 == n.levels && myIndex == 0
    requires tmem.Valid() && env.rules.minChunk <= tmem.chunksize && tmem.startingLevel == s
    requires LeftoverReady(n, cxts[..], s, at, first)
    modifies cxts, tmem, first
    ensures tmem.Valid() && env.rules.minChunk <= tmem.chunksize
    ensures InLeftover(n, env.rules, old(cxts[..]), s, at, old(tmem.State()), cxts[..], tmem.Snapshot(), s, d)
    ensures first.State() == Stored(Some(RestTotal(n, old(cxts[..]), at)), old(first.writes) + 1)
    ensures fresh(used - {cxts, tmem, first})
    decreases |RemAll(n, cxts[..], at, s, |at|)|, 7
  {
    ghost var c, start := cxts[..], tmem.State();
    d, used := Done, {cxts, tmem};
    EnterLeftover(n, env.rules, c, s, at, tmem.Snapshot());
    var level, rc := receiving + 1, 0;
    while level > s && rc <= 0
      invariant s <= level <= receiving + 1
      invariant InLeftover(n, env.rules, c, s, at, start, cxts[..], tmem.Snapshot(), if rc > 0 then s else level, d)
      invariant tmem.Valid() && env.rules.minChunk <= tmem.chunksize
      invariant level <= receiving ==>
                  first.State() == Stored(Some(RestTotal(n, c, at)), old(first.writes) + 1)
      invariant level == receiving + 1 ==> rc == 0 && first.writes == old(first.writes)
      invariant fresh(used - {cxts, tmem, first})
      decreases level
    {
      level := level - 1;
      ghost var usedNow;
      rc, d, usedNow := LeftoverLevel(n, env, t, level, s, cxts, tmem, at, first, c, start, d);
      used := used + usedNow;
    }
  }

  /** The block of the leftover task for one level: start at the next iteration and run the slice. */
  method LeftoverLevel(n: Nest, env: Environment, t: TaskTables, level: nat, s: nat, cxts: array<Word>, tmem: TaskMem,
                       ghost at: Index, ghost first: Slot, ghost c: seq<Word>, ghost start: Memory, ghost before: Dag)
    returns (rc: int, ghost d: Dag, ghost used: set<object>)
    requires Setting(n, env, t) && s <= level < n.levels && LeftoverReady(n, c, s, at, first)
    requires tmem.Valid() && env.rules.minChunk <= tmem.chunksize
    requires InLeftover(n, env.rules, c, s, at, start, cxts[..], tmem.Snapshot(), level + 1, before)
    modifies cxts, tmem, if level + 1 == n.levels then {first} else {}
    ensures InLeftover(n, env.rules, c, s, at, start, cxts[..], tmem.Snapshot(), if rc > 0 then s else level, d)
    ensures tmem.Valid() && env.rules.minChunk <= tmem.chunksize
    ensures level + 1 == n.levels ==> first.State() == Stored(Some(RestTotal(n, c, at)), old(first.writes) + 1)
    ensures fresh(used - {cxts, tmem} - if level + 1 == n.levels then {first} else {})
    decreases |RemAll(n, c, at, s, |at|)|, 6
  {
    ghost var w, here := cxts[..], tmem.Snapshot();
    ghost var h, c1;
    rc, h, c1, used := NextIterations(n, env, t, level, s, cxts, tmem, at, first, c, start, before);
    d := RecordLevel(n, env.rules, c, s, at, start, w, here, level, before, c1, cxts[..], tmem.Snapshot(), rc, h);
  }

  /** Increment START of the level in the shared context and call the level's slice. */
  method NextIterations(n: Nest, env: Environment, t: TaskTables, level: nat, s: nat, cxts: array<Word>, tmem: TaskMem,
                        ghost at: Index, ghost first: Slot, ghost c: seq<Word>, ghost start: Memory, ghost before: Dag)
    returns (rc: int, ghost h: Dag, ghost c1: seq<Word>, ghost used: set<object>)
    requires Setting(n, env, t) && s <= level < n.levels && LeftoverReady(n, c, s, at, first)
    requires tmem.Valid() && env.rules.minChunk <= tmem.chunksize
    requires InLeftover(n, env.rules, c, s, at, start, cxts[..], tmem.Snapshot(), level + 1, before)
    modifies cxts, tmem, if level + 1 == n.levels then {first} else {}
    ensures NextStart(n, c, c1, at, level)
    ensures Prefix(c1, level) == at[..level] && StartIter(c1, level) == at[level] + 1
    ensures SliceDone(Call(n, env.rules, s, level, c1, old(tmem.Snapshot())), cxts[..], tmem.Snapshot(), rc, h)
    ensures tmem.Valid() && env.rules.minChunk <= tmem.chunksize
    ensures level + 1 == n.levels ==> first.State() == Stored(Some(RestTotal(n, c, at)), old(first.writes) + 1)
    ensures fresh(used - {cxts, tmem} - if level + 1 == n.levels then {first} else {})
    decreases |RemAll(n, c, at, s, |at|)|, 5
  {
    IncrementStart(n, level, s, cxts, at, first, c, env.rules, start, tmem.Snapshot(), before);
    c1 := cxts[..];
    rc, h, used := Slice(n, env, t, level, cxts, 0, tmem, s);
    used := used + {cxts, tmem};
  }

  /** The slice of the level can now be called for the iterations after `at`. */
  method IncrementStart(n: Nest, level: nat, s: nat, cxts: array<Word>, ghost at: Index, ghost first: Slot,
                        ghost c: seq<Word>, ghost rules: Rules, ghost start: Memory, ghost here: TaskState,
                        ghost before: Dag)
    requires s <= level < n.levels && LeftoverReady(n, c, s, at, first)
    requires InLeftover(n, rules, c, s, at, start, cxts[..], here, level + 1, before)
    modifies cxts
    ensures NextStart(n, c, cxts[..], at, level) && CanStart(n, cxts[..], s, here.level, level, 0)
    ensures Prefix(cxts[..], level) == at[..level] && StartIter(cxts[..], level) == at[level] + 1
    ensures Pending(n, cxts[..], s, level) <= |RemAll(n, c, at, s, |at|)|
    ensures Target(n, cxts[..], level, 0) == if level + 1 == n.levels then {first} else {}
    ensures level + 1 == n.levels ==>
              && cxts[CACHELINE * level + LIVE_OUT_ENV].Reduction?
              && |cxts[CACHELINE * level + LIVE_OUT_ENV].slots| > 0
              && SlotOf(cxts[..], level, 0) == first && Total(n, cxts[..], level) == RestTotal(n, c, at)
  {
    assert InProgress(c, level, at);
    cxts[CACHELINE * level + START_ITER] := Int(cxts[CACHELINE * level + START_ITER].n + 1);
    LevelCanStart(n, c, cxts[..], s, here.level, at, level);
    LeftoverWork(n, c, cxts[..], at, s, level);
    LevelTarget(n, c, cxts[..], s, at, level, first);
  }

  /** Only the leaf's slice writes a reduction slot, the one that the leftover task's result belongs in. */
  lemma LevelTarget(n: Nest, c: seq<Word>, c1: seq<Word>, s: nat, at: Index, level: nat, first: Slot)
    requires LeftoverReady(n, c, s, at, first) && s <= level < n.levels && |c1| == |c|
    requires c1[CACHELINE * level + LIVE_OUT_ENV] == c[CACHELINE * level + LIVE_OUT_ENV]
    requires MaxIter(c1, level) == MaxIter(c, level)
    requires Prefix(c1, level) == at[..level] && StartIter(c1, level) == at[level] + 1
    ensures Target(n, c1, level, 0) == if level + 1 == n.levels then {first} else {}
    ensures level + 1 == n.levels ==>
              && c1[CACHELINE * level + LIVE_OUT_ENV].Reduction? && |c1[CACHELINE * level + LIVE_OUT_ENV].slots| > 0
              && SlotOf(c1, level, 0) == first && Total(n, c1, level) == RestTotal(n, c, at)
  {
  }

  lemma LevelCanStart(n: Nest, c: seq<Word>, c1: seq<Word>, s: nat, startingLevel: nat, at: Index, level: nat)
    requires s <= level < |at| == n.levels && |c| == |c1| == CACHELINE * n.levels && s <= startingLevel
    requires forall i :: 0 <= i < CACHELINE * (level + 1) && i != CACHELINE * level + START_ITER ==> c1[i] == c[i]
    requires c1[CACHELINE * level + START_ITER] == Int(at[level] + 1)
    requires forall l :: s <= l < |at| ==> InProgress(c, l, at)
    requires forall l :: s <= l < level + 1 && l < startingLevel ==> NoneLeft(c, l, at)
    requires level + 1 == n.levels ==>
               c[CACHELINE * level + LIVE_OUT_ENV].Reduction? && |c[CACHELINE * level + LIVE_OUT_ENV].slots| > 0
    ensures NextStart(n, c, c1, at, level)
    ensures CanStart(n, c1, s, startingLevel, level, 0)
    ensures Prefix(c1, level) == at[..level] && StartIter(c1, level) == at[level] + 1
    ensures MaxIter(c1, level) == MaxIter(c, level)
  {
    var p := at[..level];
    assert InProgress(c, level, at);
    forall l | s <= l < level
      ensures InProgress(c1, l, p)
      ensures l < startingLevel ==> NoneLeft(c1, l, p)
    {
      assert InProgress(c, l, at);
      assert p[..l] == at[..l];
      assert l < startingLevel ==> NoneLeft(c, l, at);
    }
    assert level < startingLevel ==> NoneLeft(c, level, at);
  }

  /** The context of the root: its own line, and the reduction array if the root is the leaf. */
  method RootContext(n: Nest) returns (cxts: array<Word>, reduction: Slot)
    requires ValidNest(n)
    ensures fresh(cxts) && fresh(reduction) && reduction.State() == UNWRITTEN
    ensures CanStart(n, cxts[..], 0, 0, 0, 0) && Prefix(cxts[..], 0) == []
    ensures StartIter(cxts[..], 0) == n.bounds([]).lo && MaxIter(cxts[..], 0) == n.bounds([]).hi
    ensures n.levels == 1 ==> cxts[LIVE_OUT_ENV] == Reduction([reduction])
  {
    cxts := new Word[CACHELINE * n.levels](_ => Undef);
    reduction := new Slot();
    if n.levels == 1 {
      cxts[LIVE_OUT_ENV] := Reduction([reduction]);
    }
    cxts[LIVE_IN_ENV] := Env([]);
    cxts[START_ITER] := Int(n.bounds([]).lo);
    cxts[MAX_ITER] := Int(n.bounds([]).hi);
  }

  /** The code that replaces the original root loop: set up context, reduction array and task memory,
      run the root's slice, and combine the reduction with its initial value. */
  method RunNest(n: Nest, env: Environment, t: TaskTables, initial: int) returns (result: Option<int>, ghost d: Dag)
    requires Setting(n, env, t)
    ensures Implements(n, d)
    ensures n.levels == 1 ==> result == Some(n.plus(initial, Fold(n, [], n.bounds([]).lo, n.bounds([]).hi)))
    ensures n.levels > 1 ==> result == None
    ensures exists m: Memory :: 0 <= m.progress < m.chunk && Accounted(env.rules, Fresh(env.startChunk), m, d)
    ensures Heeds(env.rules.beat, d) && Paced(env.startChunk, d)
    ensures Shallow(n, n.bounds([]).hi - n.bounds([]).lo, d)
  {
    var cxts, reduction := RootContext(n);
    var tmem := new TaskMem();
    // heartbeat_start resets the task memory to level 0
    ghost var used;
    d, used := StartSlice(n, env, t, 0, cxts, 0, tmem, env.startChunk);
    assert Opened(0);
    AccountTask(env.rules, env.startChunk, tmem.State(), d);
    WorkIs(n, [], n.bounds([]).lo, n.bounds([]).hi);
    result := None;
    if n.levels == 1 {
      var v;
      v, used := reduction.Load(used);
      result := Some(n.plus(initial, v));
    }
  }
}
