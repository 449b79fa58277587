/** What slices and handler calls promise, stated on snapshots of the memory they share. */
module SliceContract {
  import opened LoopNest
  import opened ForkJoin
  import opened Accounts
  import opened Beats
  import opened TaskMemory
  import opened Context
  import opened HeartbeatSteps

  /** A call of the slice of level `k` by a task that started at level `root`: the context and the task memory
      it finds. */
  datatype Call = Call(n: Nest, rules: Rules, root: nat, k: nat, c: seq<Word>, task: TaskState)

  ghost predicate IsCall(call: Call) {
    && call.root <= call.k < call.n.levels && |call.c| == CACHELINE * call.n.levels
    && |Prefix(call.c, call.k)| == call.k
  }

  /** In a nest of one loop, promotions nest at most logarithmically in the number of iterations. */
  ghost predicate Shallow(n: Nest, iterations: int, d: Dag) {
    n.levels == 1 ==> Pow2(Nesting(d)) <= if iterations > 1 then iterations else 1
  }

  /** No level from `root` to `b` has an iteration after the current one. */
  ghost predicate NoneAround(c: seq<Word>, root: nat, b: nat, at: Index)
    requires b <= |at| && CACHELINE * b <= |c|
  {
    forall l :: root <= l < b ==> NoneLeft(c, l, at)
  }

  /** A task that has noticed a heartbeat has nothing left at the levels `root .. b`: it has either been
      promoted, which takes the outermost level with work left, or there was no work left. */
  ghost predicate Settled(rules: Rules, d: Dag, c: seq<Word>, root: nat, b: nat, at: Index)
    requires b <= |at| && CACHELINE * b <= |c|
  {
    Quiet(rules.beat, d) || NoneAround(c, root, b, at)
  }

  /** The slice returned `rc`, left the context as `w` and the task memory as `after`, and ran `d`: its own
      range, and when `rc > 0` everything left at the `rc` levels around it, the outermost of which is the one
      that was split. */
  ghost predicate Completes(call: Call, w: seq<Word>, after: TaskState, rc: int, d: Dag) {
    && IsCall(call) && rc >= -1
    && var n, k, c, p := call.n, call.k, call.c, Prefix(call.c, call.k);
    && Unwound(n, c, w, call.root, call.task.level, after.level, p, rc)
    && Did(n, c, p, rc, OwnWork(n, c, k), d)
    && (rc > 0 ==> !NoneLeft(c, k - rc, p))
    && (rc >= 0 ==> !Unforked(d)) && (rc < 0 && k + 1 == n.levels ==> Unforked(d))
    && Settled(call.rules, d, c, call.root, k - Positive(rc), p)
    && (MaxIter(c, k) <= StartIter(c, k) ==> d == Done)
    && Accounted(call.rules, call.task.memory, after.memory, d)
    && Shallow(n, MaxIter(c, k) - StartIter(c, k), d)
  }

  /** The same for a handler call that promoted, made with the iterations `at` in progress; `sample` is the
      polling count of the promoted task. */
  ghost predicate Promotes(n: Nest, rules: Rules, root: nat, c: seq<Word>, s: nat, sample: nat, at: Index,
                           w: seq<Word>, after: TaskState, rc: int, h: Dag)
  {
    && rc > 0 && |at| == n.levels
    && Unwound(n, c, w, root, s, after.level, at, rc)
    && !NoneLeft(c, |at| - rc, at)
    && Did(n, c, at, rc, multiset{}, h)
    && PromotionAccounted(rules, sample, after.memory, h)
    && (n.levels == 1 ==> Pow2(Nesting(h)) <= MaxIter(c, 0) - at[0])
  }

  // ---------- Sealed forms ----------

  // Methods that only pass these promises on need not look into them: the forms below unfold only next to a
  // mention of `Opened`.

  ghost predicate SliceDone(call: Call, w: seq<Word>, after: TaskState, rc: int, d: Dag) {
    forall u {:trigger Opened(u)} :: Opened(u) ==> Completes(call, w, after, rc, d)
  }

  ghost predicate HandlerDone(n: Nest, rules: Rules, root: nat, c: seq<Word>, s: nat, sample: nat, at: Index,
                              w: seq<Word>, after: TaskState, rc: int, h: Dag)
  {
    forall u {:trigger Opened(u)} :: Opened(u) ==> Promotes(n, rules, root, c, s, sample, at, w, after, rc, h)
  }

  lemma SealSlice(call: Call, w: seq<Word>, after: TaskState, rc: int, d: Dag)
    requires Completes(call, w, after, rc, d)
    ensures SliceDone(call, w, after, rc, d)
  {
  }

  lemma UnsealSlice(call: Call, w: seq<Word>, after: TaskState, rc: int, d: Dag)
    requires SliceDone(call, w, after, rc, d)
    ensures Completes(call, w, after, rc, d)
  {
    assert Opened(0);
  }

  lemma UnsealHandler(n: Nest, rules: Rules, root: nat, c: seq<Word>, s: nat, sample: nat, at: Index,
                      w: seq<Word>, after: TaskState, rc: int, h: Dag)
    requires HandlerDone(n, rules, root, c, s, sample, at, w, after, rc, h)
    ensures Promotes(n, rules, root, c, s, sample, at, w, after, rc, h)
  {
    assert Opened(0);
  }

  // ---------- The loops above the leaf ----------

  /** The loop of the call has finished the iterations before `i`; `slot` is where its inner leaf loop stores its
      result. */
  ghost predicate LoopState(call: Call, w: seq<Word>, after: TaskState, i: int, slot: Slot, d: Dag) {
    && IsCall(call)
    && var n, k, c, p := call.n, call.k, call.c, Prefix(call.c, call.k);
    && Running(n, c, w, call.root, after.level, p, i, slot)
    && call.task.level <= after.level
    && StartIter(c, k) <= i
    && Bag(d) == Work(n, p, StartIter(c, k), i) && Legal(d)
    && (Quiet(call.rules.beat, d) || (MaxIter(c, k) <= i && NoneAround(c, call.root, k, p)))
    && (i == StartIter(c, k) ==> d == Done)
    && Accounted(call.rules, call.task.memory, after.memory, d)
  }

  /** Its sealed form. */
  ghost predicate InLoop(call: Call, w: seq<Word>, after: TaskState, i: int, slot: Slot, d: Dag) {
    forall u {:trigger Opened(u)} :: Opened(u) ==> LoopState(call, w, after, i, slot, d)
  }

  lemma UnsealLoop(call: Call, w: seq<Word>, after: TaskState, i: int, slot: Slot, d: Dag)
    requires InLoop(call, w, after, i, slot, d)
    ensures LoopState(call, w, after, i, slot, d)
  {
    assert Opened(0);
  }

  lemma LoopFacts(call: Call, w: seq<Word>, after: TaskState, i: int, slot: Slot, d: Dag)
    requires InLoop(call, w, after, i, slot, d)
    ensures IsCall(call) && call.task.level <= after.level && StartIter(call.c, call.k) <= i
    ensures Running(call.n, call.c, w, call.root, after.level, Prefix(call.c, call.k), i, slot)
  {
    UnsealLoop(call, w, after, i, slot, d);
  }

  /** While iterations are left, the task has not noticed a heartbeat. */
  lemma NotPromotedYet(call: Call, w: seq<Word>, after: TaskState, i: int, slot: Slot, d: Dag)
    requires IsCall(call) && InLoop(call, w, after, i, slot, d) && i < MaxIter(call.c, call.k)
    ensures Quiet(call.rules.beat, d) && call.task.level <= after.level && StartIter(call.c, call.k) <= i
    ensures Bag(d) == Work(call.n, Prefix(call.c, call.k), StartIter(call.c, call.k), i) && Legal(d)
    ensures Accounted(call.rules, call.task.memory, after.memory, d)
  {
    UnsealLoop(call, w, after, i, slot, d);
  }

  lemma EnterLoop(call: Call, w: seq<Word>, slot: Slot)
    requires IsCall(call) && call.k + 1 < call.n.levels && call.rules.minChunk <= call.task.memory.chunk
    requires CanStart(call.n, call.c, call.root, call.task.level, call.k, 0)
    requires |w| == |call.c|
    requires forall j :: 0 <= j < |w| && j != CACHELINE * (call.k + 1) + LIVE_OUT_ENV ==> w[j] == call.c[j]
    requires call.k + 2 == call.n.levels ==> w[CACHELINE * (call.k + 1) + LIVE_OUT_ENV] == Reduction([slot])
    ensures InLoop(call, w, call.task, StartIter(call.c, call.k), slot, Done)
  {
    LegalDone();
    AccountStart(call.rules, call.task.memory);
    WorkEmpty(call.n, Prefix(call.c, call.k), StartIter(call.c, call.k), StartIter(call.c, call.k));
    assert LoopState(call, w, call.task, StartIter(call.c, call.k), slot, Done);
  }

  lemma LoopDone(call: Call, w: seq<Word>, after: TaskState, i: int, slot: Slot, d: Dag)
    requires IsCall(call) && InLoop(call, w, after, i, slot, d)
    requires i == if StartIter(call.c, call.k) <= MaxIter(call.c, call.k) then MaxIter(call.c, call.k)
                  else StartIter(call.c, call.k)
    ensures SliceDone(call, w, after, -1, d)
  {
    UnsealLoop(call, w, after, i, slot, d);
    DidOwnRange(call.n, call.c, call.k, i, d);
    assert Completes(call, w, after, -1, d);
  }

  /** The inner loop returned `rc <= 0`: iteration `i` is complete. */
  lemma IterationComplete(call: Call, c1: seq<Word>, w: seq<Word>, i: int, slot: Slot, before: Dag, here: TaskState,
                          w': seq<Word>, after: TaskState, rc: int, h: Dag)
    requires IsCall(call) && InLoop(call, w, here, i, slot, before) && i < MaxIter(call.c, call.k)
    requires ChildReady(call.n, call.c, c1, Prefix(call.c, call.k), i)
    requires rc <= 0 && SliceDone(Call(call.n, call.rules, call.root, call.k + 1, c1, here), w', after, rc, h)
    requires |w'| == |call.c|
    requires call.k + 2 == call.n.levels ==> w'[CACHELINE * (call.k + 1) + LIVE_OUT_ENV] == Reduction([slot])
    ensures var q := Prefix(call.c, call.k) + [i];
            InLoop(call, w', after, i + 1, slot, AfterIteration(call.n, q, before, h))
  {
    var n, p := call.n, Prefix(call.c, call.k);
    UnsealLoop(call, w, here, i, slot, before);
    ChildDone(call, c1, i, here, w', after, rc, h);
    IterationAccount(call, here.memory, after.memory, p + [i], before, h);
    CompleteWork(call, c1, i, before, here, w', after, rc, h);
    ChildSettled(call, c1, i, h, 0);
    StillRunning(n, call.c, c1, w', call.root, here.level, after.level, p, i, rc, slot);
    assert LoopState(call, w', after, i + 1, slot, AfterIteration(n, p + [i], before, h));
  }

  lemma CompleteWork(call: Call, c1: seq<Word>, i: int, before: Dag, here: TaskState, w': seq<Word>, after: TaskState,
                     rc: int, h: Dag)
    requires IsCall(call) && ChildReady(call.n, call.c, c1, Prefix(call.c, call.k), i)
    requires StartIter(call.c, call.k) <= i
    requires Bag(before) == Work(call.n, Prefix(call.c, call.k), StartIter(call.c, call.k), i) && Legal(before)
    requires rc <= 0 && SliceDone(Call(call.n, call.rules, call.root, call.k + 1, c1, here), w', after, rc, h)
    ensures var n, p := call.n, Prefix(call.c, call.k);
            && Bag(AfterIteration(n, p + [i], before, h)) == Work(n, p, StartIter(call.c, call.k), i + 1)
            && Legal(AfterIteration(n, p + [i], before, h))
  {
    ChildDid(call, c1, i, here, w', after, rc, h);
    InnerIteration(call.n, call.c, c1, Prefix(call.c, call.k), StartIter(call.c, call.k), i, rc, before, h);
  }

  /** What the call for an iteration's inner loop has done. */
  lemma ChildDone(call: Call, c1: seq<Word>, i: int, here: TaskState, w': seq<Word>, after: TaskState, rc: int, h: Dag)
    requires IsCall(call) && ChildReady(call.n, call.c, c1, Prefix(call.c, call.k), i)
    requires SliceDone(Call(call.n, call.rules, call.root, call.k + 1, c1, here), w', after, rc, h)
    ensures var n, q := call.n, Prefix(call.c, call.k) + [i];
            && Unwound(n, c1, w', call.root, here.level, after.level, q, rc)
            && Did(n, c1, q, rc, OwnWork(n, c1, call.k + 1), h)
            && (rc > 0 ==> !NoneLeft(c1, call.k + 1 - rc, q) && !Unforked(h))
            && Settled(call.rules, h, c1, call.root, call.k + 1 - Positive(rc), q)
            && Accounted(call.rules, here.memory, after.memory, h)
  {
    UnsealSlice(Call(call.n, call.rules, call.root, call.k + 1, c1, here), w', after, rc, h);
  }

  lemma ChildDid(call: Call, c1: seq<Word>, i: int, here: TaskState, w': seq<Word>, after: TaskState, rc: int, h: Dag)
    requires IsCall(call) && ChildReady(call.n, call.c, c1, Prefix(call.c, call.k), i)
    requires SliceDone(Call(call.n, call.rules, call.root, call.k + 1, c1, here), w', after, rc, h)
    ensures Did(call.n, c1, Prefix(call.c, call.k) + [i], rc, OwnWork(call.n, c1, call.k + 1), h)
  {
    ChildDone(call, c1, i, here, w', after, rc, h);
  }

  /** What the inner loop reports about the levels outside it holds of the loop itself. */
  lemma ChildSettled(call: Call, c1: seq<Word>, i: int, h: Dag, rc: nat)
    requires IsCall(call) && ChildReady(call.n, call.c, c1, Prefix(call.c, call.k), i) && rc <= call.k + 1
    requires Settled(call.rules, h, c1, call.root, call.k + 1 - rc, Prefix(call.c, call.k) + [i])
    ensures var b := if rc > 0 then call.k + 1 - rc else call.k;
            Settled(call.rules, h, call.c, call.root, b, Prefix(call.c, call.k))
    ensures rc == 0 && !Quiet(call.rules.beat, h) && call.root <= call.k ==> MaxIter(call.c, call.k) <= i + 1
    ensures 1 < rc && !NoneLeft(c1, call.k + 1 - rc, Prefix(call.c, call.k) + [i]) ==>
              !NoneLeft(call.c, call.k + 1 - rc, Prefix(call.c, call.k))
  {
    var p, b := Prefix(call.c, call.k), if rc > 0 then call.k + 1 - rc else call.k;
    if !Quiet(call.rules.beat, h) {
      forall l | call.root <= l < b
        ensures NoneLeft(call.c, l, p)
      {
        assert NoneLeft(c1, l, p + [i]);
      }
      if rc == 0 {
        assert NoneLeft(c1, call.k, p + [i]);
      }
    }
  }

  /** The inner loop returned `rc > 0`: the whole loop is complete, and so are `rc - 1` levels around it. */
  lemma IterationPromoted(call: Call, c1: seq<Word>, w: seq<Word>, i: int, slot: Slot, before: Dag, here: TaskState,
                          w': seq<Word>, after: TaskState, rc: int, h: Dag)
    requires IsCall(call) && InLoop(call, w, here, i, slot, before) && i < MaxIter(call.c, call.k)
    requires ChildReady(call.n, call.c, c1, Prefix(call.c, call.k), i)
    requires rc > 0 && SliceDone(Call(call.n, call.rules, call.root, call.k + 1, c1, here), w', after, rc, h)
    ensures SliceDone(call, w', after, rc - 1, AfterIteration(call.n, Prefix(call.c, call.k) + [i], before, h))
  {
    var n, p := call.n, Prefix(call.c, call.k);
    NotPromotedYet(call, w, here, i, slot, before);
    PromotedAccount(call, c1, i, here, w', after, rc, h);
    IterationAccount(call, here.memory, after.memory, p + [i], before, h);
    PromotedWork(call, c1, i, before, here, w', after, rc, h);
    PromotedLines(call, c1, i, here, w', after, rc, h);
    PromotedSettled(call, c1, i, here, w', after, rc, h);
    PromotedCompletes(call, w', after, rc, h, AfterIteration(n, p + [i], before, h));
  }

  /** These parts make up the promise of the slice. */
  lemma PromotedCompletes(call: Call, w': seq<Word>, after: TaskState, rc: int, h: Dag, d: Dag)
    requires IsCall(call) && call.k + 1 < call.n.levels && 0 < rc <= call.k + 1
    requires StartIter(call.c, call.k) < MaxIter(call.c, call.k)
    requires Unwound(call.n, call.c, w', call.root, call.task.level, after.level, Prefix(call.c, call.k), rc - 1)
    requires Did(call.n, call.c, Prefix(call.c, call.k), rc - 1, OwnWork(call.n, call.c, call.k), d)
    requires rc > 1 ==> !NoneLeft(call.c, call.k + 1 - rc, Prefix(call.c, call.k))
    requires Settled(call.rules, h, call.c, call.root, call.k + 1 - rc, Prefix(call.c, call.k))
    requires (Quiet(call.rules.beat, d) <==> Quiet(call.rules.beat, h)) && !Unforked(d)
    requires Accounted(call.rules, call.task.memory, after.memory, d)
    ensures SliceDone(call, w', after, rc - 1, d)
  {
    SealSlice(call, w', after, rc - 1, d);
  }

  lemma PromotedAccount(call: Call, c1: seq<Word>, i: int, here: TaskState, w': seq<Word>, after: TaskState, rc: int,
                        h: Dag)
    requires IsCall(call) && ChildReady(call.n, call.c, c1, Prefix(call.c, call.k), i)
    requires rc > 0 && SliceDone(Call(call.n, call.rules, call.root, call.k + 1, c1, here), w', after, rc, h)
    ensures Accounted(call.rules, here.memory, after.memory, h) && !Unforked(h)
  {
    ChildDone(call, c1, i, here, w', after, rc, h);
  }

  lemma PromotedSettled(call: Call, c1: seq<Word>, i: int, here: TaskState, w': seq<Word>, after: TaskState, rc: int,
                        h: Dag)
    requires IsCall(call) && ChildReady(call.n, call.c, c1, Prefix(call.c, call.k), i)
    requires rc > 0 && SliceDone(Call(call.n, call.rules, call.root, call.k + 1, c1, here), w', after, rc, h)
    ensures rc <= call.k + 1 && Settled(call.rules, h, call.c, call.root, call.k + 1 - rc, Prefix(call.c, call.k))
    ensures rc > 1 ==> !NoneLeft(call.c, call.k + 1 - rc, Prefix(call.c, call.k))
  {
    ChildDone(call, c1, i, here, w', after, rc, h);
    ChildSettled(call, c1, i, h, rc);
  }

  lemma PromotedWork(call: Call, c1: seq<Word>, i: int, before: Dag, here: TaskState, w': seq<Word>, after: TaskState,
                     rc: int, h: Dag)
    requires IsCall(call) && ChildReady(call.n, call.c, c1, Prefix(call.c, call.k), i)
    requires StartIter(call.c, call.k) <= i < MaxIter(call.c, call.k)
    requires Bag(before) == Work(call.n, Prefix(call.c, call.k), StartIter(call.c, call.k), i) && Legal(before)
    requires rc > 0 && SliceDone(Call(call.n, call.rules, call.root, call.k + 1, c1, here), w', after, rc, h)
    ensures var n, p := call.n, Prefix(call.c, call.k);
            Did(n, call.c, p, rc - 1, OwnWork(n, call.c, call.k), AfterIteration(n, p + [i], before, h))
  {
    ChildDid(call, c1, i, here, w', after, rc, h);
    assert |Prefix(call.c, call.k)| == call.k;
    InnerPromoted(call.n, call.c, c1, Prefix(call.c, call.k), i, rc, before, h);
  }

  lemma PromotedLines(call: Call, c1: seq<Word>, i: int, here: TaskState, w': seq<Word>, after: TaskState, rc: int,
                      h: Dag)
    requires IsCall(call) && call.task.level <= here.level
    requires ChildReady(call.n, call.c, c1, Prefix(call.c, call.k), i)
    requires rc > 0 && SliceDone(Call(call.n, call.rules, call.root, call.k + 1, c1, here), w', after, rc, h)
    ensures Unwound(call.n, call.c, w', call.root, call.task.level, after.level, Prefix(call.c, call.k), rc - 1)
    ensures call.k + 1 - rc <= after.level
  {
    ChildDone(call, c1, i, here, w', after, rc, h);
    UnwindLines(call.n, call.c, c1, w', call.root, here.level, after.level, Prefix(call.c, call.k), i, rc);
  }

  lemma IterationAccount(call: Call, m: Memory, m': Memory, q: Index, before: Dag, h: Dag)
    requires Quiet(call.rules.beat, before)
    requires Accounted(call.rules, call.task.memory, m, before) && Accounted(call.rules, m, m', h)
    ensures var d := AfterIteration(call.n, q, before, h);
            && Accounted(call.rules, call.task.memory, m', d)
            && (Quiet(call.rules.beat, d) <==> Quiet(call.rules.beat, h))
            && (Unforked(d) ==> Unforked(h))
  {
    var sum := SumUnder(call.n, q);
    UnforkedThen(Then(before, Act(Head(q))), h);
    UnforkedThen(Then(Then(before, Act(Head(q))), h), Act(Tail(q, sum)));
    AccountIteration(call.rules, call.task.memory, m, m', before, h, Head(q), Tail(q, sum));
  }

  // ---------- The leaf loop ----------

  /** Private accumulator and computation of the leaf loop after iterations `start .. i`. */
  ghost predicate LeafRun(n: Nest, at: Index, start: int, i: int, private: int, d: Dag)
    requires |at| < n.levels
  {
    private == Fold(n, at, start, i) && Bag(d) == Work(n, at, start, i) && Legal(d)
  }

  /** The leaf loop of the call has finished the iterations before `i` and has not been promoted; if it is
      `noticing`, its last poll has just noticed a heartbeat. */
  ghost predicate LeafState(call: Call, w: seq<Word>, after: TaskState, i: int, private: int, d: Dag,
                            noticing: bool)
  {
    && IsCall(call) && call.k + 1 == call.n.levels && SameButStart(call.c, w, call.k)
    && CanStart(call.n, call.c, call.root, call.task.level, call.k, 0)
    && after.level == call.task.level
    && StartIter(call.c, call.k) <= i
    && LeafRun(call.n, Prefix(call.c, call.k), StartIter(call.c, call.k), i, private, d)
    && Unforked(d) && (i == StartIter(call.c, call.k) ==> d == Done)
    && (if noticing then Noticing(call.rules.beat, d, Prefix(call.c, call.k) + [i - 1])
        else
          || Quiet(call.rules.beat, d)
          || (MaxIter(call.c, call.k) <= i && NoneAround(call.c, call.root, call.k, Prefix(call.c, call.k))))
    && Accounted(call.rules, call.task.memory, after.memory, d)
  }

  /** Its sealed form. */
  ghost predicate InLeaf(call: Call, w: seq<Word>, after: TaskState, i: int, private: int, d: Dag,
                         noticing: bool)
  {
    forall u {:trigger Opened(u)} :: Opened(u) ==> LeafState(call, w, after, i, private, d, noticing)
  }

  lemma UnsealLeaf(call: Call, w: seq<Word>, after: TaskState, i: int, private: int, d: Dag,
                   noticing: bool)
    requires InLeaf(call, w, after, i, private, d, noticing)
    ensures LeafState(call, w, after, i, private, d, noticing)
  {
    assert Opened(0);
  }

  lemma LeafFacts(call: Call, w: seq<Word>, after: TaskState, i: int, private: int, d: Dag,
                  noticing: bool)
    requires InLeaf(call, w, after, i, private, d, noticing)
    ensures IsCall(call) && call.k + 1 == call.n.levels && SameButStart(call.c, w, call.k)
    ensures after.level == call.task.level && StartIter(call.c, call.k) <= i
    ensures private == Fold(call.n, Prefix(call.c, call.k), StartIter(call.c, call.k), i)
  {
    UnsealLeaf(call, w, after, i, private, d, noticing);
  }

  lemma EnterLeaf(call: Call)
    requires IsCall(call) && call.k + 1 == call.n.levels && call.rules.minChunk <= call.task.memory.chunk
    requires CanStart(call.n, call.c, call.root, call.task.level, call.k, 0)
    ensures InLeaf(call, call.c, call.task, StartIter(call.c, call.k), call.n.zero, Done, false)
  {
    LegalDone();
    AccountStart(call.rules, call.task.memory);
    WorkEmpty(call.n, Prefix(call.c, call.k), StartIter(call.c, call.k), StartIter(call.c, call.k));
    assert LeafState(call, call.c, call.task, StartIter(call.c, call.k), call.n.zero, Done, false);
  }

  /** The computation after a chunk `h` and, if the chunk was full, the poll that follows it. */
  lemma RecordChunk(call: Call, w: seq<Word>, here: TaskState, iv: int, acc: int, before: Dag, high: int,
                    private: int, h: Dag, full: bool, after: TaskState)
    returns (d: Dag)
    requires IsCall(call) && InLeaf(call, w, here, iv, acc, before, false) && iv < high && iv < MaxIter(call.c, call.k)
    requires private == Fold(call.n, Prefix(call.c, call.k), StartIter(call.c, call.k), high)
    requires Bag(h) == Work(call.n, Prefix(call.c, call.k), iv, high) && Legal(h) && Straight(h, high - iv)
    requires EndsWith(h, Prefix(call.c, call.k) + [high - 1])
    requires here.memory.progress + (high - iv) <= here.memory.chunk
    requires full ==> here.memory.progress + (high - iv) == here.memory.chunk
    requires after == here.(memory := AfterChunk(here.memory, high - iv, full))
    ensures InLeaf(call, w, after, high, private, d, full && call.rules.beat(Prefix(call.c, call.k) + [high - 1]))
  {
    var q := Prefix(call.c, call.k) + [high - 1];
    UnsealLeaf(call, w, here, iv, acc, before, false);
    AppendChunk(call.n, Prefix(call.c, call.k), StartIter(call.c, call.k), iv, high, before, h, q);
    d := WithChunk(before, h, full, q);
    AccountChunk(call.rules, call.task.memory, here.memory, before, h, high - iv, full, q);
    assert LeafState(call, w, after, high, private, d, full && call.rules.beat(q));
  }

  /** At a heartbeat the handler has found nothing to split. */
  lemma BeatIgnored(call: Call, w: seq<Word>, here: TaskState, last: int, private: int, d: Dag, c1: seq<Word>)
    requires IsCall(call) && InLeaf(call, w, here, last + 1, private, d, true)
    requires SameButStart(call.c, c1, call.k)
    requires NoneAround(c1, call.root, call.k + 1, Prefix(call.c, call.k) + [last])
    ensures InLeaf(call, c1, here, last + 1, private, d, false)
  {
    UnsealLeaf(call, w, here, last + 1, private, d, true);
    var p := Prefix(call.c, call.k);
    forall l | call.root <= l < call.k
      ensures NoneLeft(call.c, l, p)
    {
      assert NoneLeft(c1, l, p + [last]);
    }
    assert NoneLeft(c1, call.k, p + [last]);
    assert LeafState(call, c1, here, last + 1, private, d, false);
  }

  /** The leaf loop has reached the end of its range without a promotion. */
  lemma LeafRangeDone(call: Call, w: seq<Word>, after: TaskState, i: int, private: int, d: Dag)
    requires IsCall(call) && InLeaf(call, w, after, i, private, d, false)
    requires i == if StartIter(call.c, call.k) <= MaxIter(call.c, call.k) then MaxIter(call.c, call.k)
                  else StartIter(call.c, call.k)
    ensures SliceDone(call, w, after, -1, d)
    ensures private == Fold(call.n, Prefix(call.c, call.k), StartIter(call.c, call.k), MaxIter(call.c, call.k))
  {
    UnsealLeaf(call, w, after, i, private, d, false);
    DidOwnRange(call.n, call.c, call.k, i, d);
    UnforkedNesting(d);
    assert Completes(call, w, after, -1, d);
  }

  /** The computation of a leaf slice that stops after the promotion `h`. */
  lemma RecordPromotion(call: Call, w: seq<Word>, here: TaskState, last: int, private: int, before: Dag,
                        c1: seq<Word>, w': seq<Word>, after: TaskState, rc: int, h: Dag)
    returns (d: Dag)
    requires IsCall(call) && InLeaf(call, w, here, last + 1, private, before, true) && here.memory.progress == 0
    requires StartIter(call.c, call.k) <= last < MaxIter(call.c, call.k)
    requires SameButStart(call.c, c1, call.k)
    requires HandlerDone(call.n, call.rules, call.root, c1, here.level, here.memory.polls,
                         Prefix(call.c, call.k) + [last], w', after, rc, h)
    ensures SliceDone(call, w', after, rc - 1, d)
  {
    var n, p := call.n, Prefix(call.c, call.k);
    UnsealLeaf(call, w, here, last + 1, private, before, true);
    UnsealHandler(n, call.rules, call.root, c1, here.level, here.memory.polls, p + [last], w', after, rc, h);
    d := Then(before, h);
    HandlerFinished(n, call.c, c1, p, last, rc, h);
    LeafPromoted(n, call.c, p, last, rc, before, h);
    AccountPromotion(call.rules, call.task.memory, here.memory, before, p + [last], after.memory, h);
    UnwindLines(n, call.c, c1, w', call.root, here.level, after.level, p, last, rc);
    PromotionSettled(call, c1, last, rc, after.level);
    assert Completes(call, w', after, rc - 1, d);
  }

  lemma PromotionSettled(call: Call, c1: seq<Word>, last: int, rc: int, s': nat)
    requires IsCall(call) && SameButStart(call.c, c1, call.k) && 0 < rc <= call.k + 1
    requires var at := Prefix(call.c, call.k) + [last];
             && (forall l :: call.root <= l < call.k + 1 - rc && l < s' ==> NoneLeft(c1, l, at))
             && call.k + 1 - rc <= s' && !NoneLeft(c1, call.k + 1 - rc, at)
    ensures NoneAround(call.c, call.root, call.k + 1 - rc, Prefix(call.c, call.k))
    ensures rc > 1 ==> !NoneLeft(call.c, call.k + 1 - rc, Prefix(call.c, call.k))
  {
    var p := Prefix(call.c, call.k);
    forall l | call.root <= l < call.k + 1 - rc
      ensures NoneLeft(call.c, l, p)
    {
      assert NoneLeft(c1, l, p + [last]);
    }
  }

  /** A leaf slice gives its loop another live-out entry, and restores it afterwards. */
  lemma LiveOutRestored(call: Call, c1: seq<Word>, w: seq<Word>, w': seq<Word>, after: TaskState, rc: int, d: Dag)
    requires SameButLiveOut(call, c1) && SliceDone(call.(c := c1), w, after, rc, d)
    requires |w'| == |w| && forall j :: 0 <= j < |w| && j != CACHELINE * call.k + LIVE_OUT_ENV ==> w'[j] == w[j]
    ensures SliceDone(call, w', after, rc, d)
    ensures rc < call.n.levels
  {
    RestoredWork(call, c1, w, after, rc, d);
    RestoredAccount(call, c1, w, after, rc, d);
    RestoredLines(call, c1, w, w', after, rc, d);
    RestoredRest(call, c1, w, after, rc, d);
    assert Completes(call, w', after, rc, d);
  }

  /** The context of the call with another live-out entry at the leaf. */
  ghost predicate SameButLiveOut(call: Call, c1: seq<Word>) {
    && IsCall(call) && call.k + 1 == call.n.levels && |c1| == |call.c|
    && forall j :: 0 <= j < |call.c| && j != CACHELINE * call.k + LIVE_OUT_ENV ==> c1[j] == call.c[j]
  }

  lemma RestoredWork(call: Call, c1: seq<Word>, w: seq<Word>, after: TaskState, rc: int, d: Dag)
    requires SameButLiveOut(call, c1) && SliceDone(call.(c := c1), w, after, rc, d)
    ensures -1 <= rc <= call.k
    ensures Did(call.n, call.c, Prefix(call.c, call.k), rc, OwnWork(call.n, call.c, call.k), d)
  {
    UnsealSlice(call.(c := c1), w, after, rc, d);
    var p := Prefix(call.c, call.k);
    assert OwnWork(call.n, c1, call.k) == OwnWork(call.n, call.c, call.k) && Prefix(c1, call.k) == p;
    RemFrame(call.n, c1, p, call.c, p, call.k - Positive(rc), call.k);
  }

  lemma RestoredAccount(call: Call, c1: seq<Word>, w: seq<Word>, after: TaskState, rc: int, d: Dag)
    requires SameButLiveOut(call, c1) && SliceDone(call.(c := c1), w, after, rc, d)
    ensures MaxIter(call.c, call.k) <= StartIter(call.c, call.k) ==> d == Done
    ensures Accounted(call.rules, call.task.memory, after.memory, d)
    ensures Shallow(call.n, MaxIter(call.c, call.k) - StartIter(call.c, call.k), d)
  {
    UnsealSlice(call.(c := c1), w, after, rc, d);
  }

  lemma RestoredLines(call: Call, c1: seq<Word>, w: seq<Word>, w': seq<Word>, after: TaskState, rc: int, d: Dag)
    requires SameButLiveOut(call, c1) && SliceDone(call.(c := c1), w, after, rc, d)
    requires |w'| == |w| && forall j :: 0 <= j < |w| && j != CACHELINE * call.k + LIVE_OUT_ENV ==> w'[j] == w[j]
    ensures Unwound(call.n, call.c, w', call.root, call.task.level, after.level, Prefix(call.c, call.k), rc)
  {
    UnsealSlice(call.(c := c1), w, after, rc, d);
    SameUnwound(call.n, call.c, c1, w, w', call.root, call.task.level, after.level, Prefix(call.c, call.k), rc);
  }

  lemma RestoredRest(call: Call, c1: seq<Word>, w: seq<Word>, after: TaskState, rc: int, d: Dag)
    requires SameButLiveOut(call, c1) && SliceDone(call.(c := c1), w, after, rc, d)
    ensures var n, k, c, p := call.n, call.k, call.c, Prefix(call.c, call.k);
            && -1 <= rc <= k && (rc > 0 ==> !NoneLeft(c, k - rc, p))
            && (rc >= 0 ==> !Unforked(d)) && (rc < 0 && k + 1 == n.levels ==> Unforked(d))
            && Settled(call.rules, d, c, call.root, k - Positive(rc), p)
  {
    UnsealSlice(call.(c := c1), w, after, rc, d);
    SameNoneLeft(call, c1);
  }

  lemma SameNoneLeft(call: Call, c1: seq<Word>)
    requires SameButLiveOut(call, c1)
    ensures forall l :: 0 <= l < call.k ==>
                          (NoneLeft(call.c, l, Prefix(call.c, call.k)) <==> NoneLeft(c1, l, Prefix(call.c, call.k)))
  {
  }

  // ---------- Tasks that start at a slice ----------

  /** A slice that a task starts with has done exactly its own range. */
  lemma RootDone(call: Call, w: seq<Word>, after: TaskState, rc: int, d: Dag)
    requires SliceDone(call, w, after, rc, d) && call.root == call.k == call.task.level
    ensures IsCall(call) && |w| == |call.c|
    ensures forall j :: 0 <= j < CACHELINE * call.k ==> w[j] == call.c[j]
    ensures call.k <= after.level
    ensures Bag(d) == OwnWork(call.n, call.c, call.k) && Legal(d)
    ensures Accounted(call.rules, call.task.memory, after.memory, d)
    ensures Shallow(call.n, MaxIter(call.c, call.k) - StartIter(call.c, call.k), d)
  {
    UnsealSlice(call, w, after, rc, d);
  }

  // ---------- Leftover tasks ----------

  /** A leftover task that finishes the levels from the leaf to `s` has finished all levels from `level` on. */
  ghost predicate InLeftover(n: Nest, rules: Rules, c: seq<Word>, s: nat, at: Index, start: Memory, w: seq<Word>,
                             after: TaskState, level: nat, d: Dag)
  {
    && s <= level <= |at| == n.levels && |c| == |w| == CACHELINE * n.levels
    && s <= after.level
    && (forall i :: 0 <= i < CACHELINE * level ==> w[i] == c[i])
    && (forall l :: s <= l < level && l < after.level ==> NoneLeft(c, l, at))
    && Bag(d) == RemAll(n, c, at, level, |at|) && Legal(d) && Settled(rules, d, c, s, level, at)
    && Accounted(rules, start, after.memory, d)
  }

  lemma EnterLeftover(n: Nest, rules: Rules, c: seq<Word>, s: nat, at: Index, task: TaskState)
    requires s < |at| == n.levels && |c| == CACHELINE * n.levels && task.level == s
    requires rules.minChunk <= task.memory.chunk
    ensures InLeftover(n, rules, c, s, at, task.memory, c, task, n.levels, Done)
  {
    LegalDone();
    AccountStart(rules, task.memory);
  }

  /** One more level of the leftover task: the level is complete, or, when its slice reports `rc > 0`, all are. */
  lemma RecordLevel(n: Nest, rules: Rules, c: seq<Word>, s: nat, at: Index, start: Memory, w: seq<Word>,
                    here: TaskState, level: nat, before: Dag, c1: seq<Word>, w': seq<Word>, after: TaskState,
                    rc: int, h: Dag)
    returns (d: Dag)
    requires InLeftover(n, rules, c, s, at, start, w, here, level + 1, before) && s <= level
    requires NextStart(n, c, c1, at, level) && Prefix(c1, level) == at[..level] && StartIter(c1, level) == at[level] + 1
    requires SliceDone(Call(n, rules, s, level, c1, here), w', after, rc, h)
    ensures InLeftover(n, rules, c, s, at, start, w', after, if rc > 0 then s else level, d)
  {
    UnsealSlice(Call(n, rules, s, level, c1, here), w', after, rc, h);
    d := Then(before, h);
    LeftoverStep(n, c, c1, at, level, rc, before, h);
    if !Quiet(rules.beat, before) {
      assert NoneLeft(c, level, at);
    }
    AccountThen(rules, start, here.memory, after.memory, before, h);
    LevelDone(n, c, c1, w', s, here.level, after.level, at, level, rc);
    if !Quiet(rules.beat, h) {
      LevelSettled(n, c, c1, s, at, level, Positive(rc));
    }
  }

  lemma LevelSettled(n: Nest, c: seq<Word>, c1: seq<Word>, s: nat, at: Index, level: nat, rc: nat)
    requires s <= level < |at| == n.levels && |c| == CACHELINE * n.levels
    requires NextStart(n, c, c1, at, level) && rc <= level
    requires NoneAround(c1, s, level - rc, at[..level])
    ensures NoneAround(c, s, level - rc, at)
  {
    forall l | s <= l < level - rc
      ensures NoneLeft(c, l, at)
    {
      assert NoneLeft(c1, l, at[..level]);
    }
  }

  /** The early exit is safe: levels the leftover skips have either been completed by the promotion
      that made the slice report `rc > 0`, or had no iteration left when it searched for work. */
  lemma LevelDone(n: Nest, c: seq<Word>, c1: seq<Word>, c2: seq<Word>, s: nat, s0: nat, s': nat, at: Index, level: nat,
                  rc: int)
    requires s <= level < |at| == n.levels && |c| == CACHELINE * n.levels
    requires NextStart(n, c, c1, at, level)
    requires s <= s0 && Unwound(n, c1, c2, s, s0, s', at[..level], rc)
    ensures var m := level - Positive(rc);
            && s <= m && (forall i :: 0 <= i < CACHELINE * m ==> c2[i] == c[i])
            && (forall l :: s <= l < m && l < s' ==> NoneLeft(c, l, at))
            && (rc > 0 ==> RemAll(n, c, at, m, |at|) == RemAll(n, c, at, s, |at|))
  {
    var m := level - Positive(rc);
    forall l | s <= l < m && l < s'
      ensures NoneLeft(c, l, at)
    {
      assert NoneLeft(c1, l, at[..level]);
    }
    if rc > 0 {
      RemNone(n, c, at, s, m);
      RemConcat(n, c, at, s, m, |at|);
    }
  }

  // ---------- The promotion handler ----------

  /** Splitting the outermost level that has work left: the handler has done everything left from there on. */
  lemma SplitDone(n: Nest, rules: Rules, root: nat, c: seq<Word>, s: nat, sample: nat, at: Index, w: seq<Word>,
                  after: TaskState, splitting: nat, h: Dag)
    requires TaskInvariant(n, c, root, s, at) && s <= splitting < |at| == n.levels && |w| == |c|
    requires (forall l :: root <= l < splitting ==> NoneLeft(c, l, at)) && !NoneLeft(c, splitting, at)
    requires forall j :: 0 <= j < CACHELINE * splitting ==> w[j] == c[j]
    requires splitting <= after.level
    requires Bag(h) == RemAll(n, c, at, splitting, |at|) && Legal(h)
    requires PromotionAccounted(rules, sample, after.memory, h)
    requires n.levels == 1 ==> Pow2(Nesting(h)) <= MaxIter(c, 0) - at[0]
    ensures HandlerDone(n, rules, root, c, s, sample, at, w, after, |at| - splitting, h)
  {
    assert Promotes(n, rules, root, c, s, sample, at, w, after, |at| - splitting, h);
  }
}
