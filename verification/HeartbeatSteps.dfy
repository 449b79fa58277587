/** How the work of a task composes: one lemma per step of the generated code. */
module HeartbeatSteps {
  import opened LoopNest
  import opened ForkJoin
  import opened Accounts
  import opened Context

  /** The slice task of level `k` can be called on context `c` by a task that started at `root`. */
  ghost predicate CanStart(n: Nest, c: seq<Word>, root: nat, startingLevel: nat, k: nat, myIndex: nat) {
    && k < n.levels && |c| == CACHELINE * n.levels
    && c[CACHELINE * k + START_ITER].Int? && 0 <= c[CACHELINE * k + START_ITER].n <= LIMIT
    && c[CACHELINE * k + MAX_ITER].Int? && 0 <= c[CACHELINE * k + MAX_ITER].n <= LIMIT
    && c[CACHELINE * k + LIVE_IN_ENV].Env? && |c[CACHELINE * k + LIVE_IN_ENV].prefix| == k
    && TaskInvariant(n, c, root, startingLevel, c[CACHELINE * k + LIVE_IN_ENV].prefix)
    && (k < startingLevel ==> c[CACHELINE * k + MAX_ITER].n <= c[CACHELINE * k + START_ITER].n)
    && (k + 1 == n.levels ==>
          c[CACHELINE * k + LIVE_OUT_ENV].Reduction? && myIndex < |c[CACHELINE * k + LIVE_OUT_ENV].slots|)
  }

  ghost function StartIter(c: seq<Word>, k: nat): int
    requires CACHELINE * (k + 1) <= |c|
  {
    Number(c[CACHELINE * k + START_ITER])
  }

  ghost function MaxIter(c: seq<Word>, k: nat): int
    requires CACHELINE * (k + 1) <= |c|
  {
    Number(c[CACHELINE * k + MAX_ITER])
  }

  ghost function Prefix(c: seq<Word>, k: nat): Index
    requires CACHELINE * (k + 1) <= |c|
  {
    if c[CACHELINE * k + LIVE_IN_ENV].Env? then c[CACHELINE * k + LIVE_IN_ENV].prefix else []
  }

  /** The iterations the slice of level `k` is asked to run. */
  ghost function OwnWork(n: Nest, c: seq<Word>, k: nat): multiset<Event>
    requires k < n.levels && CACHELINE * (k + 1) <= |c| && |Prefix(c, k)| == k
  {
    Work(n, Prefix(c, k), StartIter(c, k), MaxIter(c, k))
  }

  /** Everything the slice of level `k` may end up doing. */
  ghost function Pending(n: Nest, c: seq<Word>, root: nat, k: nat): nat
    requires root <= k < n.levels && CACHELINE * (k + 1) <= |c| && |Prefix(c, k)| == k
  {
    |OwnWork(n, c, k)| + |RemAll(n, c, Prefix(c, k), root, k)|
  }

  /** A slice that ran to the end of its range has done its own work and nothing else. */
  lemma DidOwnRange(n: Nest, c: seq<Word>, k: nat, i: int, d: Dag)
    requires k < n.levels && |c| == CACHELINE * n.levels && |Prefix(c, k)| == k
    requires i == if StartIter(c, k) <= MaxIter(c, k) then MaxIter(c, k) else StartIter(c, k)
    requires Bag(d) == Work(n, Prefix(c, k), StartIter(c, k), i) && Legal(d)
    ensures Did(n, c, Prefix(c, k), -1, OwnWork(n, c, k), d)
  {
    if MaxIter(c, k) < StartIter(c, k) {
      WorkEmpty(n, Prefix(c, k), StartIter(c, k), i);
      WorkEmpty(n, Prefix(c, k), StartIter(c, k), MaxIter(c, k));
    }
    assert RemAll(n, c, Prefix(c, k), k, k) == multiset{};
  }

  lemma Rotate<T>(a: multiset<T>, b: multiset<T>, c: multiset<T>)
    ensures (a + b) + c == (c + b) + a
  {
  }

  // ---------- Leaf loop ----------

  lemma LeafIteration(n: Nest, p: Index, start: int, low: int, d: Dag)
    requires |p| + 1 == n.levels && start <= low
    requires Bag(d) == Work(n, p, start, low) && Legal(d)
    ensures var d' := Then(d, Act(Body(p + [low])));
            Bag(d') == Work(n, p, start, low + 1) && Legal(d')
  {
    WorkSplit(n, p, start, low, low + 1);
    WorkOne(n, p, low);
    LegalAct(Body(p + [low]));
    LegalThen(d, Act(Body(p + [low])));
    forall x | x in Bag(d)
      ensures !MustPrecede(Body(p + [low]), x)
    {
      WorkUnder(n, p, start, low, x);
    }
  }

  lemma AppendChunk(n: Nest, p: Index, start: int, iv: int, high: int, d: Dag, h: Dag, q: Index)
    requires |p| + 1 == n.levels && start <= iv <= high
    requires Bag(d) == Work(n, p, start, iv) && Legal(d)
    requires Bag(h) == Work(n, p, iv, high) && Legal(h)
    ensures Bag(Then(d, h)) == Work(n, p, start, high) && Legal(Then(d, h))
    ensures Bag(Then(Then(d, h), Poll(q))) == Work(n, p, start, high) && Legal(Then(Then(d, h), Poll(q)))
  {
    WorkSplit(n, p, start, iv, high);
    forall x, y | x in Bag(d) && y in Bag(h)
      ensures !MustPrecede(y, x)
    {
      WorkUnder(n, p, start, iv, x);
      WorkUnder(n, p, iv, high, y);
      ApartAt(x.at, y.at, |p|);
    }
    LegalThen(d, h);
    LegalPoll(q);
    LegalThen(Then(d, h), Poll(q));
  }

  lemma HandlerCanStart(n: Nest, c: seq<Word>, c1: seq<Word>, root: nat, s: nat, k: nat, p: Index, last: int)
    requires k + 1 == n.levels && CanStart(n, c, root, s, k, 0) && Prefix(c, k) == p
    requires StartIter(c, k) <= last < MaxIter(c, k)
    requires |c1| == |c| && forall j :: 0 <= j < |c| && j != CACHELINE * k + START_ITER ==> c1[j] == c[j]
    requires c1[CACHELINE * k + START_ITER] == Int(last)
    ensures TaskInvariant(n, c1, root, s, p + [last])
    ensures s <= k
  {
    var q := p + [last];
    forall l | root <= l < |q|
      ensures InProgress(c1, l, q)
      ensures l < s ==> NoneLeft(c1, l, q)
    {
      assert q[..l] == p[..l];
      if l < k {
        assert InProgress(c, l, p);
        assert l < s ==> NoneLeft(c, l, p);
      }
    }
  }

  lemma SameExceptLiveOut(n: Nest, c: seq<Word>, c1: seq<Word>, root: nat, s: nat, k: nat, myIndex: nat)
    requires CanStart(n, c, root, s, k, myIndex) && |c1| == |c|
    requires forall j :: 0 <= j < |c| && j != CACHELINE * k + LIVE_OUT_ENV ==> c1[j] == c[j]
    requires c1[CACHELINE * k + LIVE_OUT_ENV].Reduction? && |c1[CACHELINE * k + LIVE_OUT_ENV].slots| > 0
    ensures CanStart(n, c1, root, s, k, 0)
    ensures OwnWork(n, c1, k) == OwnWork(n, c, k)
    ensures Pending(n, c1, root, k) == Pending(n, c, root, k)
    ensures forall a :: root <= a <= k ==> RemAll(n, c1, Prefix(c, k), a, k) == RemAll(n, c, Prefix(c, k), a, k)
  {
    var p := Prefix(c, k);
    forall l | root <= l < k
      ensures InProgress(c1, l, p)
      ensures l < s ==> NoneLeft(c1, l, p)
    {
      assert InProgress(c, l, p);
      assert l < s ==> NoneLeft(c, l, p);
    }
    forall a | root <= a <= k
      ensures RemAll(n, c1, p, a, k) == RemAll(n, c, p, a, k)
    {
      RemFrame(n, c, p, c1, p, a, k);
    }
  }

  /** What the handler is called with is less than what the leaf slice was called with. */
  lemma LeafHandlerWork(n: Nest, c: seq<Word>, c': seq<Word>, root: nat, k: nat, p: Index, last: int)
    requires root <= k < n.levels && |c| == |c'| == CACHELINE * n.levels
    requires Prefix(c, k) == p && |p| == k
    requires StartIter(c, k) <= last < MaxIter(c, k) == MaxIter(c', k)
    requires forall i :: 0 <= i < CACHELINE * k ==> c'[i] == c[i]
    ensures RemAll(n, c', p + [last], root, k) == RemAll(n, c, p, root, k)
    ensures RemAll(n, c', p + [last], root, k + 1)
            == RemAll(n, c, p, root, k) + Work(n, p, last + 1, MaxIter(c, k))
    ensures OwnWork(n, c, k) == Work(n, p, StartIter(c, k), last + 1) + Work(n, p, last + 1, MaxIter(c, k))
    ensures |RemAll(n, c', p + [last], root, k + 1)| < Pending(n, c, root, k)
  {
    var q := p + [last];
    assert q[..k] == p;
    RemFrame(n, c, p, c', q, root, k);
    WorkSplit(n, p, StartIter(c, k), last + 1, MaxIter(c, k));
    WorkEmpty(n, p, StartIter(c, k), last + 1);
    assert |Work(n, p, StartIter(c, k), last + 1)| > 0;
  }

  lemma LeafBeatWork(n: Nest, c: seq<Word>, root: nat, k: nat, p: Index, last: int)
    requires root <= k < n.levels && |c| == CACHELINE * n.levels
    requires Prefix(c, k) == p && |p| == k
    requires StartIter(c, k) <= last < MaxIter(c, k)
    ensures |RemAll(n, c, p, root, k)| + |Work(n, p, last + 1, MaxIter(c, k))| < Pending(n, c, root, k)
  {
    LeafHandlerWork(n, c, c, root, k, p, last);
  }

  /** After a handler call the caller's levels outside the unwound ones are as the callee left them. */
  lemma OuterNoneLeft(n: Nest, c: seq<Word>, c1: seq<Word>, root: nat, m: nat, s': nat, p: Index, last: int)
    requires |c| == |c1| == CACHELINE * n.levels && root <= m <= |p| < n.levels
    requires forall i :: 0 <= i < CACHELINE * m ==> c1[i] == c[i]
    requires forall l :: root <= l < m && l < s' ==> NoneLeft(c1, l, p + [last])
    ensures forall l :: root <= l < m && l < s' ==> NoneLeft(c, l, p)
  {
    forall l | root <= l < m && l < s'
      ensures NoneLeft(c, l, p)
    {
      assert NoneLeft(c1, l, p + [last]);
    }
  }

  /** Only the lines of the outer levels matter for what a call reports to its caller. */
  lemma SameUnwound(n: Nest, c: seq<Word>, c1: seq<Word>, w: seq<Word>, w': seq<Word>, root: nat, s: nat, s': nat,
                    p: Index, rc: int)
    requires |c| == |c1| == |w| == |w'| == CACHELINE * n.levels && |p| < n.levels
    requires forall i :: 0 <= i < CACHELINE * |p| ==> c1[i] == c[i] && w'[i] == w[i]
    requires Unwound(n, c1, w, root, s, s', p, rc)
    ensures Unwound(n, c, w', root, s, s', p, rc)
  {
    forall l | root <= l < |p| - Positive(rc) && l < s'
      ensures NoneLeft(c, l, p)
    {
      assert NoneLeft(c1, l, p);
    }
  }

  /** A caller that leaves its loop because its callee returned `rc > 0` reports `rc - 1`. */
  lemma UnwindLines(n: Nest, c: seq<Word>, c1: seq<Word>, c2: seq<Word>, root: nat, s: nat, s': nat, p: Index,
                    last: int, rc: int)
    requires root <= |p| < n.levels && |c| == |c1| == CACHELINE * n.levels
    requires forall i :: 0 <= i < CACHELINE * |p| ==> c1[i] == c[i]
    requires rc > 0 && Unwound(n, c1, c2, root, s, s', p + [last], rc)
    ensures Unwound(n, c, c2, root, s, s', p, rc - 1) && |p| + 1 - rc <= s'
  {
    OuterNoneLeft(n, c, c1, root, |p| + 1 - rc, s', p, last);
  }

  /** What ran before iteration `last + 1` is apart from everything left at the levels in progress. */
  lemma BeforeRemApart(n: Nest, c1: seq<Word>, p: Index, start: int, last: int, m: nat)
    requires |p| < n.levels && |c1| == CACHELINE * n.levels && m <= |p| + 1
    ensures AllApart(Work(n, p, start, last + 1), RemAll(n, c1, p + [last], m, |p| + 1))
  {
    var q := p + [last];
    assert q[..|p|] == p;
    forall e | e in Work(n, p, start, last + 1)
      ensures OnOrLeftOf(e.at, q, |p| + 1)
    {
      WorkUnder(n, p, start, last + 1, e);
    }
    RemApart(n, c1, q, m, |p| + 1, Work(n, p, start, last + 1));
  }

  /** `w` is the context `c` the leaf slice started with, except for START of its own line. */
  ghost predicate SameButStart(c: seq<Word>, w: seq<Word>, k: nat) {
    |w| == |c| && forall j :: 0 <= j < |c| && j != CACHELINE * k + START_ITER ==> w[j] == c[j]
  }

  /** A promotion received after leaf iteration `last` ran the rest of the leaf range and everything
      that was left at the `rc - 1` levels around it. */
  ghost predicate Finished(n: Nest, c: seq<Word>, p: Index, last: int, rc: int, h: Dag) {
    && |p| + 1 == n.levels && |c| == CACHELINE * n.levels && 0 < rc <= n.levels
    && Bag(h) == RemAll(n, c, p, |p| + 1 - rc, |p|) + Work(n, p, last + 1, MaxIter(c, |p|))
    && AllApart(Work(n, p, StartIter(c, |p|), last + 1), Bag(h))
    && Legal(h)
  }

  lemma HandlerFinished(n: Nest, c: seq<Word>, c1: seq<Word>, p: Index, last: int, rc: int, h: Dag)
    requires |p| + 1 == n.levels && |c| == |c1| == CACHELINE * n.levels
    requires Prefix(c, |p|) == p
    requires StartIter(c, |p|) <= last < MaxIter(c, |p|) == MaxIter(c1, |p|)
    requires forall i :: 0 <= i < CACHELINE * |p| ==> c1[i] == c[i]
    requires rc > 0 && Did(n, c1, p + [last], rc, multiset{}, h)
    ensures Finished(n, c, p, last, rc, h)
  {
    var m := |p| + 1 - rc;
    assert Bag(h) == RemAll(n, c1, p + [last], m, |p| + 1);
    LeafHandlerWork(n, c, c1, m, |p|, p, last);
    BeforeRemApart(n, c1, p, StartIter(c, |p|), last, m);
  }

  /** The leaf slice stops after a promotion: its own range is complete, and so is everything that
      was left at the levels the promotion unwinds. */
  lemma LeafPromoted(n: Nest, c: seq<Word>, p: Index, last: int, rc: int, d: Dag, h: Dag)
    requires |c| == CACHELINE * n.levels && |p| + 1 == n.levels && Prefix(c, |p|) == p
    requires StartIter(c, |p|) <= last < MaxIter(c, |p|)
    requires Bag(d) == Work(n, p, StartIter(c, |p|), last + 1) && Legal(d)
    requires Finished(n, c, p, last, rc, h)
    ensures Did(n, c, p, rc - 1, OwnWork(n, c, |p|), Then(d, h))
  {
    var k, m := |p|, |p| - Positive(rc - 1);
    var before, after := Work(n, p, StartIter(c, k), last + 1), Work(n, p, last + 1, MaxIter(c, k));
    WorkSplit(n, p, StartIter(c, k), last + 1, MaxIter(c, k));
    assert OwnWork(n, c, k) == before + after;
    AppendPromotion(d, h, before, after, RemAll(n, c, p, m, k));
  }

  lemma AppendPromotion(d: Dag, h: Dag, before: multiset<Event>, after: multiset<Event>, outer: multiset<Event>)
    requires Bag(d) == before && Legal(d) && Bag(h) == outer + after && Legal(h) && AllApart(before, outer + after)
    ensures Bag(Then(d, h)) == before + after + outer && Legal(Then(d, h))
  {
    AppendEvents(d, h, before, outer + after);
    Rotate(outer, after, before);
  }

  // ---------- Non-leaf loop ----------

  /** `c'` is `c` with the current iteration stored at level `|p|` and the child's line set up. */
  ghost predicate ChildReady(n: Nest, c: seq<Word>, c': seq<Word>, p: Index, i: int) {
    var k := |p|;
    && k + 1 < n.levels && |c| == |c'| == CACHELINE * n.levels
    && (forall j :: 0 <= j < CACHELINE * k ==> c'[j] == c[j])
    && c'[CACHELINE * k + START_ITER] == Int(i)
    && c'[CACHELINE * k + MAX_ITER] == c[CACHELINE * k + MAX_ITER]
    && c'[CACHELINE * k + LIVE_IN_ENV] == Env(p)
    && c'[CACHELINE * (k + 1) + START_ITER] == Int(n.bounds(p + [i]).lo)
    && c'[CACHELINE * (k + 1) + MAX_ITER] == Int(n.bounds(p + [i]).hi)
    && c'[CACHELINE * (k + 1) + LIVE_IN_ENV] == Env(p + [i])
  }

  /** Everything iteration `i` does in its inner loop. */
  ghost function Inner(n: Nest, q: Index): multiset<Event>
    requires |q| < n.levels
  {
    Work(n, q, n.bounds(q).lo, n.bounds(q).hi)
  }

  lemma WorkAround(n: Nest, p: Index, start: int, i: int, max: int)
    requires |p| + 1 < n.levels && start <= i < max
    ensures var q := p + [i];
            Work(n, p, start, max)
            == Work(n, p, start, i) + multiset{Head(q)} + Inner(n, q) + multiset{Tail(q, SumUnder(n, q))}
               + Work(n, p, i + 1, max)
  {
    WorkSplit(n, p, start, i, max);
    WorkSplit(n, p, i, i + 1, max);
    WorkOne(n, p, i);
  }

  lemma RemStep(n: Nest, c: seq<Word>, c1: seq<Word>, m: nat, p: Index, i: int)
    requires m <= |p| && ChildReady(n, c, c1, p, i)
    ensures RemAll(n, c1, p + [i], m, |p| + 1)
            == RemAll(n, c, p, m, |p|) + Work(n, p, i + 1, MaxIter(c, |p|))
  {
    var k, q := |p|, p + [i];
    assert q[..k] == p;
    RemFrame(n, c, p, c1, q, m, k);
  }

  /** The child's call is smaller than the call of its parent. */
  lemma ChildWork(n: Nest, c: seq<Word>, c': seq<Word>, root: nat, p: Index, i: int)
    requires root <= |p| && ChildReady(n, c, c', p, i)
    requires Prefix(c, |p|) == p
    requires StartIter(c, |p|) <= i < MaxIter(c, |p|)
    ensures Pending(n, c', root, |p| + 1) < Pending(n, c, root, |p|)
  {
    RemStep(n, c, c', root, p, i);
    WorkAround(n, p, StartIter(c, |p|), i, MaxIter(c, |p|));
  }

  /** State of the context while the loop at level `|p|` runs, before iteration `i`: the lines of the
      outer levels are as on entry (`c`), this level's own bound is the one loaded on entry, and if
      the task has been split at or below this level, no iteration is left. */
  ghost predicate Running(n: Nest, c: seq<Word>, w: seq<Word>, root: nat, s: nat, p: Index, i: int, slot: Slot) {
    var k := |p|;
    && root <= k && root <= s && k + 1 < n.levels && |c| == |w| == CACHELINE * n.levels
    && (forall j :: 0 <= j < CACHELINE * k ==> w[j] == c[j])
    && w[CACHELINE * k + MAX_ITER] == c[CACHELINE * k + MAX_ITER]
    && w[CACHELINE * k + LIVE_IN_ENV] == Env(p)
    && (k + 2 == n.levels ==> w[CACHELINE * (k + 1) + LIVE_OUT_ENV] == Reduction([slot]))
    && (forall l :: root <= l < k && l < s ==> NoneLeft(c, l, p))
    && (k < s ==> MaxIter(c, k) <= i)
  }

  lemma ChildCanStart(n: Nest, c: seq<Word>, w: seq<Word>, c1: seq<Word>, root: nat, s: nat, p: Index, i: int,
                      slot: Slot)
    requires ValidNest(n)
    requires Running(n, c, w, root, s, p, i, slot)
    requires ChildReady(n, w, c1, p, i)
    requires c1[CACHELINE * (|p| + 1) + LIVE_OUT_ENV] == w[CACHELINE * (|p| + 1) + LIVE_OUT_ENV]
    requires forall l :: root <= l < |p| ==> InProgress(c, l, p)
    requires c[CACHELINE * |p| + MAX_ITER].Int? && 0 <= i < MaxIter(c, |p|) <= LIMIT
    ensures ChildReady(n, c, c1, p, i)
    ensures CanStart(n, c1, root, s, |p| + 1, 0)
  {
    var q := p + [i];
    forall l | root <= l < |q|
      ensures InProgress(c1, l, q)
      ensures l < s ==> NoneLeft(c1, l, q)
    {
      assert q[..l] == p[..l];
      if l < |p| {
        assert InProgress(c, l, p);
        assert l < s ==> NoneLeft(c, l, p);
      }
    }
  }

  lemma StillRunning(n: Nest, c: seq<Word>, c1: seq<Word>, c2: seq<Word>, root: nat, s: nat, s': nat,
                     p: Index, i: int, rc: int, slot: Slot)
    requires root <= |p| && root <= s && ChildReady(n, c, c1, p, i)
    requires rc <= 0 && Unwound(n, c1, c2, root, s, s', p + [i], rc)
    requires |p| + 2 == n.levels ==> c2[CACHELINE * (|p| + 1) + LIVE_OUT_ENV] == Reduction([slot])
    ensures Running(n, c, c2, root, s', p, i + 1, slot)
  {
    OuterNoneLeft(n, c, c1, root, |p|, s', p, i);
    if |p| < s' {
      assert NoneLeft(c1, |p|, p + [i]);
    }
  }

  /** The loop's computation after iteration `i`, whose inner loop did `h`. */
  function AfterIteration(n: Nest, q: Index, d: Dag, h: Dag): Dag {
    Then(Then(Then(d, Act(Head(q))), h), Act(Tail(q, SumUnder(n, q))))
  }

  lemma AfterIterationEvents(n: Nest, q: Index, d: Dag, h: Dag)
    ensures Bag(AfterIteration(n, q, d, h))
            == Bag(d) + multiset{Head(q)} + Bag(h) + multiset{Tail(q, SumUnder(n, q))}
  {
    var d1 := Then(d, Act(Head(q)));
    LegalAct(Head(q));
    LegalAct(Tail(q, SumUnder(n, q)));
    LegalThen(d, Act(Head(q)));
    LegalThen(d1, h);
    LegalThen(Then(d1, h), Act(Tail(q, SumUnder(n, q))));
  }

  lemma IterationEvents(n: Nest, p: Index, start: int, i: int, d: Dag, h: Dag)
    requires |p| + 1 < n.levels && start <= i
    requires Bag(d) == Work(n, p, start, i)
    requires Bag(h) == Inner(n, p + [i])
    ensures Bag(AfterIteration(n, p + [i], d, h)) == Work(n, p, start, i + 1)
  {
    WorkAround(n, p, start, i, i + 1);
    WorkEmpty(n, p, i + 1, i + 1);
    AfterIterationEvents(n, p + [i], d, h);
  }

  lemma PromotedEvents(n: Nest, p: Index, start: int, i: int, max: int, outer: multiset<Event>, d: Dag, h: Dag)
    requires |p| + 1 < n.levels && start <= i < max
    requires Bag(d) == Work(n, p, start, i)
    requires Bag(h) == Inner(n, p + [i]) + (outer + Work(n, p, i + 1, max))
    ensures Bag(AfterIteration(n, p + [i], d, h)) == Work(n, p, start, max) + outer
  {
    var q := p + [i];
    WorkAround(n, p, start, i, max);
    AfterIterationEvents(n, q, d, h);
    IterationBag(Bag(d), multiset{Head(q)}, Inner(n, q), outer, Work(n, p, i + 1, max),
                 multiset{Tail(q, SumUnder(n, q))});
  }

  /** The child returned without unwinding this loop: iteration `i` is complete. */
  lemma InnerIteration(n: Nest, c: seq<Word>, c1: seq<Word>, p: Index, start: int, i: int, rc: int, d: Dag, h: Dag)
    requires ChildReady(n, c, c1, p, i) && start <= i
    requires Bag(d) == Work(n, p, start, i) && Legal(d)
    requires rc <= 0 && Did(n, c1, p + [i], rc, OwnWork(n, c1, |p| + 1), h)
    ensures Bag(AfterIteration(n, p + [i], d, h)) == Work(n, p, start, i + 1)
    ensures Legal(AfterIteration(n, p + [i], d, h))
  {
    var k, q := |p|, p + [i];
    assert Bag(h) == Inner(n, q) + RemAll(n, c1, q, k + 1, k + 1);
    IterationOrder(n, c1, p, start, i, k + 1, d, h);
    assert Bag(h) == Inner(n, q);
    IterationEvents(n, p, start, i, d, h);
  }

  /** The child unwinds this loop: the whole range is complete, and `rc - 1` outer levels as well. */
  lemma InnerPromoted(n: Nest, c: seq<Word>, c1: seq<Word>, p: Index, i: int, rc: int, d: Dag, h: Dag)
    requires ChildReady(n, c, c1, p, i)
    requires Prefix(c, |p|) == p && StartIter(c, |p|) <= i < MaxIter(c, |p|)
    requires Bag(d) == Work(n, p, StartIter(c, |p|), i) && Legal(d)
    requires rc > 0 && Did(n, c1, p + [i], rc, OwnWork(n, c1, |p| + 1), h)
    ensures Did(n, c, p, rc - 1, OwnWork(n, c, |p|), AfterIteration(n, p + [i], d, h))
  {
    var k := |p|;
    var m := k + 1 - rc;
    IterationOrder(n, c1, p, StartIter(c, k), i, m, d, h);
    RemStep(n, c, c1, m, p, i);
    PromotedEvents(n, p, StartIter(c, k), i, MaxIter(c, k), RemAll(n, c, p, m, k), d, h);
  }

  lemma IterationBag<T>(d: multiset<T>, head: multiset<T>, inner: multiset<T>, outer: multiset<T>,
                        later: multiset<T>, tail: multiset<T>)
    ensures d + head + (inner + (outer + later)) + tail == (d + head + inner + tail + later) + outer
  {
  }

  /** Head, inner work and tail of iteration `i` follow the iterations before it in a legal order,
      even when the inner work includes what was left at outer levels. */
  lemma IterationOrder(n: Nest, c1: seq<Word>, p: Index, start: int, i: int, m: nat, d: Dag, h: Dag)
    requires |p| + 1 < n.levels && |c1| == CACHELINE * n.levels && m <= |p| + 1 && start <= i
    requires Bag(d) == Work(n, p, start, i) && Legal(d)
    requires Bag(h) == Inner(n, p + [i]) + RemAll(n, c1, p + [i], m, |p| + 1) && Legal(h)
    ensures Legal(AfterIteration(n, p + [i], d, h))
  {
    var q := p + [i];
    BeforeApart(n, p, start, i);
    InsideOrder(n, q);
    BeforeRemApart(n, c1, p, start, i, m);
    WorkSplit(n, p, start, i, i + 1);
    WorkOne(n, p, i);
    OrderedIteration(d, Head(q), h, Tail(q, SumUnder(n, q)), Inner(n, q), RemAll(n, c1, q, m, |p| + 1),
                     Work(n, p, i, i + 1));
  }

  /** Earlier iterations are apart from iteration `i` and everything in it. */
  lemma BeforeApart(n: Nest, p: Index, start: int, i: int)
    requires |p| < n.levels && start <= i
    ensures AllApart(Work(n, p, start, i), Work(n, p, i, i + 1))
  {
    forall x, y | x in Work(n, p, start, i) && y in Work(n, p, i, i + 1)
      ensures Apart(x.at, y.at)
    {
      WorkUnder(n, p, start, i, x);
      WorkUnder(n, p, i, i + 1, y);
      ApartAt(x.at, y.at, |p|);
    }
  }

  /** Within an iteration: the head first, the tail last. */
  lemma InsideOrder(n: Nest, q: Index)
    requires |q| < n.levels
    ensures NoBackward(multiset{Head(q)}, Inner(n, q))
    ensures NoBackward(Inner(n, q), multiset{Tail(q, SumUnder(n, q))})
  {
    forall e | e in Inner(n, q)
      ensures !MustPrecede(e, Head(q)) && !MustPrecede(Tail(q, SumUnder(n, q)), e)
    {
      WorkUnder(n, q, n.bounds(q).lo, n.bounds(q).hi, e);
    }
  }

  lemma NoBackwardUnion(a: multiset<Event>, a': multiset<Event>, b: multiset<Event>, b': multiset<Event>)
    requires NoBackward(a, b) && NoBackward(a, b') && NoBackward(a', b) && NoBackward(a', b')
    ensures NoBackward(a + a', b + b')
  {
  }

  lemma OrderedIteration(d: Dag, head: Event, h: Dag, tail: Event,
                         own: multiset<Event>, rem: multiset<Event>, iteration: multiset<Event>)
    requires head.Head? && tail.Tail? && head.at == tail.at
    requires Legal(d) && Legal(h) && Bag(h) == own + rem
    requires iteration == multiset{head} + own + multiset{tail}
    requires AllApart(Bag(d), iteration)
    requires AllApart(Bag(d) + iteration, rem)
    requires NoBackward(multiset{head}, own) && NoBackward(own, multiset{tail})
    ensures Legal(Then(Then(Then(d, Act(head)), h), Act(tail)))
  {
    var d1 := Then(d, Act(head));
    LegalAct(head);
    LegalAct(tail);
    LegalThen(d, Act(head));
    LegalThen(d1, h);
    LegalThen(Then(d1, h), Act(tail));
    AllApartNoBackward(Bag(d), iteration);
    AllApartNoBackward(Bag(d) + iteration, rem);
    assert head in iteration && tail in iteration;
    NoBackwardUnion(Bag(d), multiset{head}, own, rem);
    forall x | x in Bag(Then(d1, h))
      ensures !MustPrecede(tail, x)
    {
      if x !in Bag(d) && x !in own && x != head {
        assert x in rem;
      }
    }
  }

  // ---------- Promotion: splitting what is left at one level ----------

  /** Lowering MAX at level `s` to `mid` hands exactly the iterations `mid ..` to the second task. */
  lemma {:induction false} SplitWork(n: Nest, c: seq<Word>, c1: seq<Word>, at: Index, s: nat, b: nat, mid: int)
    requires s < b <= |at| <= n.levels && |c| == CACHELINE * n.levels
    requires c1 == c[CACHELINE * s + MAX_ITER := Int(mid)]
    requires at[s] + 1 <= mid <= MaxIter(c, s)
    ensures RemAll(n, c, at, s, b) == RemAll(n, c1, at, s, b) + Work(n, at[..s], mid, MaxIter(c, s))
    decreases b - s
  {
    if b == s + 1 {
      RemSingle(n, c, at, s);
      RemSingle(n, c1, at, s);
      WorkSplit(n, at[..s], at[s] + 1, mid, MaxIter(c, s));
    } else {
      SplitWork(n, c, c1, at, s, b - 1, mid);
      SplitBag(RemAll(n, c1, at, s, b - 1), Work(n, at[..s], mid, MaxIter(c, s)), Rem(n, c, at, b - 1));
    }
  }

  lemma SplitBag<T>(a: multiset<T>, b: multiset<T>, c: multiset<T>)
    ensures (a + b) + c == (a + c) + b
  {
  }

  /** A range that is not empty has an action that is not tail work. */
  lemma FirstAction(n: Nest, p: Index, lo: int, hi: int) returns (e: Event)
    requires |p| < n.levels && lo < hi
    ensures e in Work(n, p, lo, hi) && !e.Tail?
  {
    var q := p + [hi - 1];
    e := if |q| == n.levels then Body(q) else Head(q);
    assert Iteration(n, q)[0] == e;
    assert e in Range(n, p, lo, hi);
    WorkIs(n, p, lo, hi);
  }

  /** The two tasks own independent work. */
  lemma SplitApart(n: Nest, c1: seq<Word>, at: Index, s: nat, mid: int, high: int)
    requires s < |at| <= n.levels && |c1| == CACHELINE * n.levels
    requires MaxIter(c1, s) == mid && at[s] < mid
    ensures AllApart(RemAll(n, c1, at, s, |at|), Work(n, at[..s], mid, high))
  {
    forall e, f | e in RemAll(n, c1, at, s, |at|) && f in Work(n, at[..s], mid, high)
      ensures Apart(e.at, f.at)
    {
      WorkUnder(n, at[..s], mid, high, f);
      FirstHalf(n, c1, at, s, |at|, e);
      ApartAt(e.at, f.at, s);
    }
  }

  lemma {:induction false} FirstHalf(n: Nest, c1: seq<Word>, at: Index, s: nat, b: nat, e: Event)
    requires s < b <= |at| <= n.levels && |c1| == CACHELINE * n.levels
    requires at[s] < MaxIter(c1, s)
    requires e in RemAll(n, c1, at, s, b)
    ensures s < |e.at| && e.at[s] < MaxIter(c1, s)
    decreases b - s
  {
    if e in RemAll(n, c1, at, s, b - 1) {
      assert s < b - 1;
      FirstHalf(n, c1, at, s, b - 1, e);
    } else {
      WorkUnder(n, at[..b - 1], at[b - 1] + 1, MaxIter(c1, b - 1), e);
      assert s < b - 1 ==> e.at[s] == e.at[..b - 1][s];
    }
  }

  // ---------- Leftover: finishing the loops in progress, innermost first ----------

  /** `c1` is `c` with the iteration after `at[level]` as the start of level `level`. */
  ghost predicate NextStart(n: Nest, c: seq<Word>, c1: seq<Word>, at: Index, level: nat) {
    && level < |at| <= n.levels && |c| == |c1| == CACHELINE * n.levels
    && (forall i :: 0 <= i < CACHELINE * level ==> c1[i] == c[i])
    && c1[CACHELINE * level + START_ITER] == Int(at[level] + 1)
    && c1[CACHELINE * level + MAX_ITER] == c[CACHELINE * level + MAX_ITER]
    && c1[CACHELINE * level + LIVE_IN_ENV] == Env(at[..level])
  }

  lemma LeftoverWork(n: Nest, c: seq<Word>, c1: seq<Word>, at: Index, m: nat, level: nat)
    requires NextStart(n, c, c1, at, level) && m <= level
    ensures OwnWork(n, c1, level) == Rem(n, c, at, level)
    ensures RemAll(n, c1, at[..level], m, level) == RemAll(n, c, at, m, level)
    ensures RemAll(n, c, at, m, |at|)
            == RemAll(n, c, at, m, level) + (Rem(n, c, at, level) + RemAll(n, c, at, level + 1, |at|))
    ensures Pending(n, c1, m, level) <= |RemAll(n, c, at, m, |at|)|
  {
    RemFrame(n, c, at, c1, at[..level], m, level);
    RemConcat(n, c, at, m, level, |at|);
    RemConcat(n, c, at, level, level + 1, |at|);
    RemSingle(n, c, at, level);
  }

  /** One more level of the leftover chain.  When the slice unwinds further levels, their work is
      already included. */
  lemma LeftoverStep(n: Nest, c: seq<Word>, c1: seq<Word>, at: Index, level: nat, rc: int, d: Dag, h: Dag)
    requires NextStart(n, c, c1, at, level)
    requires Bag(d) == RemAll(n, c, at, level + 1, |at|) && Legal(d)
    requires Did(n, c1, at[..level], rc, OwnWork(n, c1, level), h)
    ensures Bag(Then(d, h)) == RemAll(n, c, at, level - Positive(rc), |at|)
    ensures Legal(Then(d, h))
  {
    LeftoverDid(n, c, c1, at, level, rc, h);
    AppendLevels(n, c, at, level - Positive(rc), level + 1, d, h);
  }

  lemma AppendLevels(n: Nest, c: seq<Word>, at: Index, m: nat, b: nat, d: Dag, h: Dag)
    requires m <= b <= |at| <= n.levels && |c| == CACHELINE * n.levels
    requires Bag(d) == RemAll(n, c, at, b, |at|) && Legal(d)
    requires Bag(h) == RemAll(n, c, at, m, b) && Legal(h)
    ensures Bag(Then(d, h)) == RemAll(n, c, at, m, |at|) && Legal(Then(d, h))
  {
    RemConcatApart(n, c, at, m, b, |at|);
    RemConcat(n, c, at, m, b, |at|);
    AppendEvents(d, h, RemAll(n, c, at, b, |at|), RemAll(n, c, at, m, b));
  }

  lemma LeftoverDid(n: Nest, c: seq<Word>, c1: seq<Word>, at: Index, level: nat, rc: int, h: Dag)
    requires NextStart(n, c, c1, at, level)
    requires Did(n, c1, at[..level], rc, OwnWork(n, c1, level), h)
    ensures Positive(rc) <= level && Legal(h)
    ensures Bag(h) == RemAll(n, c, at, level - Positive(rc), level + 1)
  {
    var m := level - Positive(rc);
    RemFrame(n, c, at, c1, at[..level], m, level);
    RemConcat(n, c, at, m, level, level + 1);
    RemSingle(n, c, at, level);
    assert OwnWork(n, c1, level) == Rem(n, c, at, level);
  }

  lemma AppendEvents(d: Dag, h: Dag, a: multiset<Event>, b: multiset<Event>)
    requires Bag(d) == a && Bag(h) == b && Legal(d) && Legal(h) && AllApart(a, b)
    ensures Bag(Then(d, h)) == b + a && Legal(Then(d, h))
  {
    LegalThen(d, h);
    AllApartNoBackward(a, b);
  }
}
