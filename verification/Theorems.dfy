/** What the heartbeat execution of a nest guarantees, for every schedule of its tasks. */
module Theorems {
  import opened LoopNest
  import opened ForkJoin
  import opened Accounts
  import opened TaskMemory
  import opened Beats

  /** A run that has finished. */
  ghost predicate IsCompleteRun(d: Dag, run: seq<Config>) {
    IsRun(d, run) && run[|run| - 1].rest == Done
  }

  ghost function Trace(run: seq<Config>): seq<Event>
    requires |run| > 0
  {
    run[|run| - 1].trace
  }

  // ---------- Safety in every reachable state ----------

  /** Nothing has been lost, duplicated or reordered at any point of any schedule: what has been
      executed together with what the live tasks still own is the sequential work, each action once. */
  lemma EveryStateIsSafe(n: Nest, d: Dag, run: seq<Config>, k: nat, e: Event)
    requires n.levels >= 1 && Implements(n, d)
    requires IsRun(d, run) && k < |run|
    ensures multiset(run[k].trace) + Events(run[k].rest) == multiset(Sequential(n))
    ensures Causal(run[k].trace)
    ensures multiset(run[k].trace)[e] + Events(run[k].rest)[e] <= 1
    ensures OwnersDisjoint(run[k].rest)
  {
    Unseal(d);
    Reachable(d, run, k);
    RangeOnce(n, [], n.bounds([]).lo, n.bounds([]).hi, e);
    assert (multiset(run[k].trace) + Events(run[k].rest))[e] == multiset(Sequential(n))[e];
    OrderedOwners(run[k].rest);
  }

  /** Tasks that are live at the same time own different actions. */
  ghost predicate OwnersDisjoint(d: Dag) {
    match d
    case Done => true
    case Act(_) => true
    case Poll(_) => true
    case Then(a, b) => OwnersDisjoint(a) && OwnersDisjoint(b)
    case Par(_, a, b) => OwnersDisjoint(a) && OwnersDisjoint(b) && Events(a) !! Events(b)
  }

  lemma ApartDisjoint(a: multiset<Event>, b: multiset<Event>)
    requires AllApart(a, b)
    ensures a !! b
  {
    forall e | e in a
      ensures e !in b
    {
      if e in b {
        ApartNotNested(e.at, e.at);
      }
    }
  }

  lemma {:induction false} OrderedOwners(d: Dag)
    requires Ordered(d)
    ensures OwnersDisjoint(d)
  {
    match d
    case Done =>
    case Act(_) =>
    case Poll(_) =>
    case Then(a, b) =>
      OrderedOwners(a);
      OrderedOwners(b);
    case Par(_, a, b) =>
      OrderedOwners(a);
      OrderedOwners(b);
      ApartDisjoint(Events(a), Events(b));
  }

  /** The head of an iteration runs before, and its tail after, everything inside that iteration,
      wherever and by whichever task that was executed. */
  lemma TailComesLast(n: Nest, d: Dag, run: seq<Config>, k: nat, i: nat, j: nat)
    requires n.levels >= 1 && Implements(n, d)
    requires IsRun(d, run) && k < |run|
    requires i < |run[k].trace| && j < |run[k].trace|
    requires run[k].trace[i].at <= run[k].trace[j].at && run[k].trace[i] != run[k].trace[j]
    ensures run[k].trace[i].Head? ==> i < j
    ensures run[k].trace[i].Tail? ==> j < i
  {
    EveryStateIsSafe(n, d, run, k, run[k].trace[i]);
    var t := run[k].trace;
    assert t[i].Head? ==> MustPrecede(t[i], t[j]);
    assert t[i].Tail? ==> MustPrecede(t[j], t[i]);
  }

  // ---------- Every schedule ends in the state of the sequential run ----------

  /** The meaning of the nest is preserved: for independent iterations, every complete schedule of
      the heartbeat execution leaves the store exactly as the sequential nest does. */
  lemma MeaningPreserved<S(!new)>(n: Nest, d: Dag, run: seq<Config>, apply: (Event, S) -> S, s: S)
    requires n.levels >= 1 && Implements(n, d)
    requires IsCompleteRun(d, run)
    requires Independent(apply)
    ensures Effect(apply, Trace(run), s) == Effect(apply, Sequential(n), s)
  {
    Unseal(d);
    Reachable(d, run, |run| - 1);
    RangeCausal(n, [], n.bounds([]).lo, n.bounds([]).hi);
    SameEffect(apply, Trace(run), Sequential(n), s);
  }

  /** Every schedule can be continued until it is complete, and none is longer than the computation. */
  lemma {:induction false} EveryRunCompletes(d: Dag, run: seq<Config>) returns (full: seq<Config>)
    requires IsRun(d, run)
    ensures IsCompleteRun(d, full) && run <= full && |full| <= Size(d) + 1
    decreases Size(run[|run| - 1].rest)
  {
    var c := run[|run| - 1];
    RunsTerminate(d, run, |run| - 1);
    if c.rest == Done {
      full := run;
    } else {
      var e, d' := Progress(c.rest);
      StepShrinks(c.rest, e, d');
      var c' := Config(Extend(c.trace, e), d');
      assert Next(c, c');
      var longer := run + [c'];
      forall i | 0 <= i < |longer| - 1
        ensures Next(longer[i], longer[i + 1])
      {
        if i < |run| - 1 {
          assert Next(run[i], run[i + 1]);
        }
      }
      full := EveryRunCompletes(d, longer);
    }
  }

  // ---------- Which actions the sequential nest performs ----------

  /** `q` is an iteration of the nest: every component is within the bounds its prefix determines. */
  ghost predicate InSpace(n: Nest, q: Index) {
    forall l :: 0 <= l < |q| ==> n.bounds(q[..l]).lo <= q[l] < n.bounds(q[..l]).hi
  }

  ghost predicate Within(n: Nest, q: Index, k: nat) {
    forall l :: k <= l < |q| ==> n.bounds(q[..l]).lo <= q[l] < n.bounds(q[..l]).hi
  }

  /** The actions of a range are exactly those of the iterations in it. */
  lemma {:induction false} RangeIsSpace(n: Nest, p: Index, lo: int, hi: int, e: Event)
    requires |p| < n.levels
    ensures e in Range(n, p, lo, hi) <==>
              && Under(e.at, p, lo, hi) && Within(n, e.at, |p| + 1)
              && |e.at| <= n.levels && (e.Body? <==> |e.at| == n.levels)
              && (e.Tail? ==> e.sum == SumUnder(n, e.at))
    decreases n.levels - |p|, 0, hi - lo
  {
    if lo < hi {
      RangeIsSpace(n, p, lo, hi - 1, e);
      var q := p + [hi - 1];
      IterationIsSpace(n, q, e);
      if Under(e.at, p, lo, hi) && !Under(e.at, p, lo, hi - 1) {
        assert e.at[..|p| + 1] == q;
      }
      if |q| <= |e.at| && e.at[..|q|] == q {
        assert e.at[..|p|] == e.at[..|q|][..|p|] == p;
        assert e.at[|p|] == e.at[..|q|][|p|];
      }
    }
  }

  lemma {:induction false} IterationIsSpace(n: Nest, q: Index, e: Event)
    requires 0 < |q| <= n.levels
    ensures e in Iteration(n, q) <==>
              && |q| <= |e.at| && e.at[..|q|] == q && Within(n, e.at, |q|)
              && |e.at| <= n.levels && (e.Body? <==> |e.at| == n.levels)
              && (e.Tail? ==> e.sum == SumUnder(n, e.at))
    decreases n.levels - |q|, 1
  {
    if |q| < n.levels {
      var lo, hi := n.bounds(q).lo, n.bounds(q).hi;
      RangeIsSpace(n, q, lo, hi, e);
      if |e.at| == |q| {
        assert e.at[..|q|] == e.at;
      }
    } else if |e.at| == |q| {
      assert e.at[..|q|] == e.at;
    }
  }

  /** A leaf iteration is executed if and only if it belongs to the iteration space, and its tail work
      sees the left-to-right sum of exactly its leaf iterations. */
  lemma SequentialIsSpace(n: Nest, e: Event)
    requires n.levels >= 1
    ensures e in Sequential(n) <==>
              && 0 < |e.at| <= n.levels && InSpace(n, e.at) && (e.Body? <==> |e.at| == n.levels)
              && (e.Tail? ==> e.sum == SumUnder(n, e.at))
  {
    RangeIsSpace(n, [], n.bounds([]).lo, n.bounds([]).hi, e);
    if |e.at| > 0 {
      assert e.at[..0] == [];
    }
  }

  /** The tail work of an outer iteration sees the reduction of the contributions of its own row of leaf
      iterations, from the first to the last, and these are the leaf iterations of the nest under it. */
  lemma TailSeesItsRow(n: Nest, e: Event)
    requires n.levels >= 1 && e in Sequential(n) && e.Tail? && |e.at| + 1 == n.levels
    ensures var row := Row(e.at, n.bounds(e.at).lo, n.bounds(e.at).hi);
            && e.sum == Some(Contributions(n, row))
            && forall b :: b in row <==> b in Sequential(n) && b.Body? && e.at <= b.at
  {
    SequentialIsSpace(n, e);
    FoldReduces(n, e.at, n.bounds(e.at).lo, n.bounds(e.at).hi);
    forall b
      ensures b in Row(e.at, n.bounds(e.at).lo, n.bounds(e.at).hi) <==> b in Sequential(n) && b.Body? && e.at <= b.at
    {
      RowIsInside(n, e.at, b);
    }
  }

  lemma RowIsInside(n: Nest, p: Index, b: Event)
    requires |p| + 1 == n.levels && InSpace(n, p)
    ensures b in Row(p, n.bounds(p).lo, n.bounds(p).hi) <==> b in Sequential(n) && b.Body? && p <= b.at
  {
    RowHas(p, n.bounds(p).lo, n.bounds(p).hi, b);
    SequentialIsSpace(n, b);
    if |b.at| == n.levels && p <= b.at {
      InSpaceInside(n, p, b.at);
    }
  }

  lemma {:induction false} RowHas(p: Index, lo: int, hi: int, b: Event)
    ensures b in Row(p, lo, hi) <==> b.Body? && |b.at| == |p| + 1 && p <= b.at && lo <= b.at[|p|] < hi
    decreases hi - lo
  {
    if lo < hi {
      RowHas(p, lo, hi - 1, b);
      if |b.at| == |p| + 1 && p <= b.at && b.at[|p|] == hi - 1 {
        assert b.at == p + [hi - 1];
      }
    }
  }

  lemma InSpaceInside(n: Nest, p: Index, q: Index)
    requires InSpace(n, p) && p <= q && |q| == |p| + 1
    ensures InSpace(n, q) <==> n.bounds(p).lo <= q[|p|] < n.bounds(p).hi
  {
    assert q[..|p|] == p;
    forall l | 0 <= l < |p|
      ensures n.bounds(q[..l]).lo <= q[l] < n.bounds(q[..l]).hi
    {
      assert q[..l] == p[..l] && q[l] == p[l];
    }
  }

  // ---------- What promotion costs ----------

  function BodiesOf(t: seq<Event>): nat {
    if t == [] then 0 else (if t[0].Body? then 1 else 0) + BodiesOf(t[1..])
  }

  lemma {:induction false} BodiesConcat(a: seq<Event>, b: seq<Event>)
    ensures BodiesOf(a + b) == BodiesOf(a) + BodiesOf(b)
    decreases |a|
  {
    if a == [] {
      assert a + b == b;
    } else {
      assert (a + b)[1..] == a[1..] + b;
      BodiesConcat(a[1..], b);
    }
  }

  lemma {:induction false} BodiesPermuted(t: seq<Event>, u: seq<Event>)
    requires multiset(t) == multiset(u)
    ensures BodiesOf(t) == BodiesOf(u)
    decreases |u|
  {
    if u == [] {
      assert |multiset(t)| == 0;
    } else {
      var e, u' := u[0], u[1..];
      assert u == [e] + u';
      assert e in multiset(t);
      var i := FirstIndex(t, e);
      var a, b := t[..i], t[i + 1..];
      assert t == a + [e] + b;
      SameRest(a, e, b, u');
      BodiesPermuted(a + b, u');
      BodiesConcat(a + [e], b);
      BodiesConcat(a, [e]);
      BodiesConcat(a, b);
    }
  }

  lemma {:induction false} StepBodies(d: Dag, e: Option<Event>, d': Dag)
    requires Step(d, e, d')
    ensures Bodies(d) == (if e.Some? && e.value.Body? then 1 else 0) + Bodies(d')
  {
    match d
    case Act(_) =>
    case Poll(_) =>
    case Then(a, b) =>
      if !a.Done? {
        StepBodies(a, e, d'.first);
      }
    case Par(_, a, b) =>
      if a.Done? && b.Done? {
      } else if d'.right == b && Step(a, e, d'.left) {
        StepBodies(a, e, d'.left);
      } else {
        StepBodies(b, e, d'.right);
      }
  }

  lemma {:induction false} RunBodies(d: Dag, run: seq<Config>, k: nat)
    requires IsRun(d, run) && k < |run|
    ensures BodiesOf(run[k].trace) + Bodies(run[k].rest) == Bodies(d)
    decreases k
  {
    if k > 0 {
      RunBodies(d, run, k - 1);
      var c, c' := run[k - 1], run[k];
      assert Next(c, c');
      var e :| Step(c.rest, e, c'.rest) && c'.trace == Extend(c.trace, e);
      StepBodies(c.rest, e, c'.rest);
      if e.Some? {
        BodiesConcat(c.trace, [e.value]);
      }
    }
  }

  /** A complete computation executes as many leaf iterations as the sequential nest. */
  lemma SameLeafIterations(n: Nest, d: Dag)
    requires n.levels >= 1 && Implements(n, d)
    ensures Bodies(d) == BodiesOf(Sequential(n))
  {
    Unseal(d);
    var start := [Config([], d)];
    assert IsRun(d, start);
    var run := EveryRunCompletes(d, start);
    Reachable(d, run, |run| - 1);
    RunBodies(d, run, |run| - 1);
    BodiesPermuted(Trace(run), Sequential(n));
  }

  /** Polls and promotions are amortised against leaf iterations: with chunks of at least `c`
      iterations, `c` times the polls, and so `c` times the promotions, never exceeds the leaf
      iterations of the nest. */
  lemma Amortised(n: Nest, d: Dag, rules: Rules, start: int, m: Memory)
    requires n.levels >= 1 && Implements(n, d)
    requires 0 < rules.minChunk && 0 <= m.progress && Accounted(rules, Fresh(start), m, d)
    ensures rules.minChunk * Polls(d) <= BodiesOf(Sequential(n))
    ensures rules.minChunk * Forks(d) <= BodiesOf(Sequential(n))
  {
    var c := rules.minChunk;
    SameLeafIterations(n, d);
    UnsealAccount(rules, Fresh(start), m, d);
    PollCostIs(c, d);
    MulMono(c, Forks(d), Polls(d));
  }

  lemma MulMono(c: int, x: int, y: int)
    requires 0 < c && x <= y
    ensures c * x <= c * y
  {
  }

  // ---------- How often a task is promoted ----------

  /** Promotions of the task that runs `d`, not counting those of the tasks it forks. */
  function OwnPromotions(d: Dag): nat {
    match d
    case Done => 0
    case Act(_) => 0
    case Poll(_) => 0
    case Then(a, b) => OwnPromotions(a) + OwnPromotions(b)
    case Par(_, _, _) => 1
  }

  lemma {:induction false} UnpromotedOrTails(d: Dag)
    requires Forks(d) == 0 || OnlyTails(d)
    ensures OwnPromotions(d) == 0
  {
    match d
    case Done =>
    case Act(_) =>
    case Poll(_) =>
    case Then(a, b) =>
      UnpromotedOrTails(a);
      UnpromotedOrTails(b);
  }

  lemma {:induction false} OnceIsOnce(d: Dag)
    requires PromotedOnce(d)
    ensures OwnPromotions(d) <= 1
  {
    match d
    case Done =>
    case Act(_) =>
    case Poll(_) =>
    case Then(a, b) =>
      OnceIsOnce(a);
      OnceIsOnce(b);
      if Forks(a) > 0 {
        UnpromotedOrTails(b);
      } else {
        UnpromotedOrTails(a);
      }
    case Par(_, _, _) =>
  }

  /** Every task is promoted at most once: splitting the outermost loop with work leaves a task nothing but
      tail work when its promotion returns. */
  lemma PromotedAtMostOnce(d: Dag, rules: Rules, start: int, m: Memory)
    requires Accounted(rules, Fresh(start), m, d)
    ensures PromotedOnce(d) && OwnPromotions(d) <= 1
  {
    UnsealAccount(rules, Fresh(start), m, d);
    OnceIsOnce(d);
  }

  // ---------- What a task has polled for ----------

  /** `t` is one of the tasks that `d`, started with chunk size `start`, consists of: `d` itself or one of the
      tasks forked in it.  The chunk size `t` was started with is `c`. */
  predicate TaskIn(start: int, d: Dag, c: int, t: Dag)
    decreases d, 1
  {
    (c == start && t == d) || ForkedIn(d, c, t)
  }

  predicate ForkedIn(d: Dag, c: int, t: Dag)
    decreases d, 0
  {
    match d
    case Done => false
    case Act(_) => false
    case Poll(_) => false
    case Then(a, b) => ForkedIn(a, c, t) || ForkedIn(b, c, t)
    case Par(p, a, b) => TaskIn(p.firstChunk, a, c, t) || TaskIn(p.secondChunk, b, c, t)
  }

  lemma {:induction false} TaskIsExact(start: int, d: Dag, c: int, t: Dag)
    requires ExactTask(start, d) && TaskIn(start, d, c, t)
    ensures ExactTask(c, t) && Bodies(t) <= Bodies(d)
    decreases d, 1
  {
    if !(c == start && t == d) {
      ForkIsExact(d, c, t);
    }
  }

  lemma {:induction false} ForkIsExact(d: Dag, c: int, t: Dag)
    requires ExactForks(d) && ForkedIn(d, c, t)
    ensures ExactTask(c, t) && Bodies(t) <= Bodies(d)
    decreases d, 0
  {
    match d
    case Then(a, b) =>
      if ForkedIn(a, c, t) {
        ForkIsExact(a, c, t);
      } else {
        ForkIsExact(b, c, t);
      }
    case Par(p, a, b) =>
      if TaskIn(p.firstChunk, a, c, t) {
        TaskIsExact(p.firstChunk, a, c, t);
      } else {
        TaskIsExact(p.secondChunk, b, c, t);
      }
  }

  lemma {:induction false} OwnBodies(d: Dag)
    ensures Bodies(Own(d)) <= Bodies(d)
  {
    match d
    case Done =>
    case Act(_) =>
    case Poll(_) =>
    case Then(a, b) =>
      OwnBodies(a);
      OwnBodies(b);
    case Par(_, _, _) =>
  }

  lemma {:induction false} PromotedForks(d: Dag)
    ensures OwnPromotions(d) > 0 <==> Forks(d) > 0
  {
    match d
    case Done =>
    case Act(_) =>
    case Poll(_) =>
    case Then(a, b) =>
      PromotedForks(a);
      PromotedForks(b);
    case Par(_, _, _) =>
  }

  /** Chunk transfer, for every task of a run, promoted or not: the leaf iterations it has executed itself are
      its polls times the chunk size it started with, plus less than one chunk.  When it is promoted, nothing
      is outside a full chunk, and what the runtime samples is the number of its polls.  Therefore a sample
      times that chunk size never exceeds the leaf iterations of the nest. */
  lemma PollsCountChunks(n: Nest, d: Dag, start: int, c: int, t: Dag)
    requires n.levels >= 1 && Implements(n, d)
    requires ExactTask(start, d) && TaskIn(start, d, c, t)
    ensures c * Polls(Own(t)) <= Bodies(Own(t)) < c * Polls(Own(t)) + c
    ensures Bodies(Own(t)) <= BodiesOf(Sequential(n))
    ensures OwnPromotions(t) > 0 ==> c * Polls(Own(t)) == Bodies(Own(t)) && Samples(Polls(Own(t)), t)
  {
    TaskIsExact(start, d, c, t);
    PollCostIs(c, Own(t));
    OwnBodies(t);
    PromotedForks(t);
    SameLeafIterations(n, d);
  }

  /** Every task of a run polls after every full chunk and nowhere else, in the chunk size it started with. */
  lemma {:induction false} TaskIsPaced(start: int, d: Dag, c: int, t: Dag)
    requires Paced(start, d) && TaskIn(start, d, c, t)
    ensures Paced(c, t)
    decreases d, 1
  {
    if !(c == start && t == d) {
      ForkIsPaced(d, c, t);
    }
  }

  lemma {:induction false} ForkIsPaced(d: Dag, c: int, t: Dag)
    requires ForksPaced(d) && ForkedIn(d, c, t)
    ensures Paced(c, t)
    decreases d, 0
  {
    match d
    case Then(a, b) =>
      if ForkedIn(a, c, t) {
        ForkIsPaced(a, c, t);
      } else {
        ForkIsPaced(b, c, t);
      }
    case Par(p, a, b) =>
      if TaskIn(p.firstChunk, a, c, t) {
        TaskIsPaced(p.firstChunk, a, c, t);
      } else {
        TaskIsPaced(p.secondChunk, b, c, t);
      }
  }

  // ---------- When tasks are promoted ----------

  /** Without a noticed heartbeat the nest runs as a single task. */
  lemma NoBeatNoFork(beat: Index -> bool, d: Dag)
    requires Heeds(beat, d) && forall q :: Checked(q) in Items(d) ==> !beat(q)
    ensures Forks(d) == 0
  {
    forall i | 0 <= i < |Items(d)|
      ensures !IsNoticed(beat, Items(d)[i])
    {
      assert Items(d)[i] in Items(d);
    }
    assert NoneNoticed(beat, Items(d));
    QuietUnforked(beat, d);
  }

  lemma {:induction false} TaskHeeds(beat: Index -> bool, start: int, d: Dag, c: int, t: Dag)
    requires Heeds(beat, d) && TaskIn(start, d, c, t)
    ensures Heeds(beat, t) && forall e :: Events(t)[e] <= Events(d)[e]
    decreases d, 1
  {
    if !(c == start && t == d) {
      ForkedHeeds(beat, d, c, t);
    }
  }

  lemma {:induction false} ForkedHeeds(beat: Index -> bool, d: Dag, c: int, t: Dag)
    requires ForksHeed(beat, d) && ForkedIn(d, c, t)
    ensures Heeds(beat, t) && forall e :: Events(t)[e] <= Events(d)[e]
    decreases d, 0
  {
    match d
    case Then(a, b) =>
      if ForkedIn(a, c, t) {
        ForkedHeeds(beat, a, c, t);
      } else {
        ForkedHeeds(beat, b, c, t);
      }
    case Par(p, a, b) =>
      if TaskIn(p.firstChunk, a, c, t) {
        TaskHeeds(beat, p.firstChunk, a, c, t);
      } else {
        TaskHeeds(beat, p.secondChunk, b, c, t);
      }
  }

  /** A promotion of the task that runs `d` hands `e` over to its second task. */
  ghost predicate HandsOver(d: Dag, e: Event) {
    match d
    case Done => false
    case Act(_) => false
    case Poll(_) => false
    case Then(a, b) => HandsOver(a, e) || HandsOver(b, e)
    case Par(_, _, b) => e in Events(b)
  }

  lemma {:induction false} SplitHandsOver(beat: Index -> bool, d: Dag) returns (e: Event)
    requires ForksHeed(beat, d) && Split in Items(d)
    ensures HandsOver(d, e) && !e.Tail?
  {
    match d
    case Then(a, b) =>
      if Split in Items(a) {
        e := SplitHandsOver(beat, a);
      } else {
        e := SplitHandsOver(beat, b);
      }
    case Par(_, _, b) =>
      e :| e in Events(b) && !e.Tail?;
  }

  lemma {:induction false} RanOrHandedOver(d: Dag, e: Event)
    ensures Ran(e) in Items(d) || HandsOver(d, e) ==> Events(d)[e] >= 1
    ensures Ran(e) in Items(d) && HandsOver(d, e) ==> Events(d)[e] >= 2
    ensures Split !in Items(d) && e in Events(d) ==> Ran(e) in Items(d)
  {
    match d
    case Done =>
    case Act(x) =>
      assert Items(d)[0] == Ran(x);
    case Poll(_) =>
    case Then(a, b) =>
      RanOrHandedOver(a, e);
      RanOrHandedOver(b, e);
    case Par(_, _, _) =>
      assert Items(d)[0] == Split;
  }

  /** In a task that responds to heartbeats, the items before a noticed poll and after it contain no promotion,
      except directly after it. */
  lemma OnlySplitHere(beat: Index -> bool, s: seq<Item>, i: nat, j: nat)
    requires ItemsHeed(beat, s) && i < |s| && IsNoticed(beat, s[i]) && j < |s| && s[j].Split?
    ensures j == i + 1
  {
    assert HeedsAt(beat, s, j);
    assert HeedsAt(beat, s, i) && HeedsAt(beat, s, j - 1);
  }

  /** Heartbeats promote.  At a poll where a task of the run notices a heartbeat, it is promoted if and only if
      an iteration is left that it has not begun: a head or leaf iteration among its actions, including those of
      the tasks it forks, that it has not executed before. */
  lemma PromotedIffWorkLeft(n: Nest, d: Dag, beat: Index -> bool, start: int, c: int, t: Dag, i: nat)
    requires n.levels >= 1 && Implements(n, d) && Heeds(beat, d) && TaskIn(start, d, c, t)
    requires i < |Items(t)| && IsNoticed(beat, Items(t)[i])
    ensures SplitAt(Items(t), i + 1) <==> exists e :: e in Events(t) && !e.Tail? && Ran(e) !in Items(t)[..i]
  {
    TaskHeeds(beat, start, d, c, t);
    var s := Items(t);
    assert HeedsAt(beat, s, i);
    if SplitAt(s, i + 1) {
      assert s[i + 1] in s;
      var e := SplitHandsOver(beat, t);
      RanOrHandedOver(t, e);
      EachOnce(n, d, e);
      assert Ran(e) in s[..i] ==> Ran(e) in s;
    } else {
      forall e | e in Events(t) && !e.Tail?
        ensures Ran(e) in s[..i]
      {
        RanBefore(beat, t, i, e);
      }
    }
  }

  lemma EachOnce(n: Nest, d: Dag, e: Event)
    requires n.levels >= 1 && Implements(n, d)
    ensures Events(d)[e] <= 1
  {
    Unseal(d);
    RangeOnce(n, [], n.bounds([]).lo, n.bounds([]).hi, e);
  }

  lemma RanBefore(beat: Index -> bool, t: Dag, i: nat, e: Event)
    requires Heeds(beat, t) && i < |Items(t)| && IsNoticed(beat, Items(t)[i]) && !SplitAt(Items(t), i + 1)
    requires e in Events(t) && !e.Tail?
    ensures Ran(e) in Items(t)[..i]
  {
    var s := Items(t);
    if Split in s {
      var j :| 0 <= j < |s| && s[j] == Split;
      OnlySplitHere(beat, s, i, j);
    }
    RanOrHandedOver(t, e);
    var j :| 0 <= j < |s| && s[j] == Ran(e);
    assert HeedsAt(beat, s, i);
    assert s[..i][j] == Ran(e);
  }
}
