/** Fork-join computations and the machine that runs them with any interleaving.

  A run of the heartbeat program unfolds into a series-parallel computation: `Par` is one call of
  `fork2join`, `Then` is sequencing inside a task.  The machine executes one enabled action at a
  time and may switch between the live tasks at every step. */
module ForkJoin {
  import opened LoopNest

  datatype Dag =
    | Done
    | Act(event: Event)
    | Poll(at: Index)
    | Then(first: Dag, second: Dag)
    | Par(promotion: Promotion, left: Dag, right: Dag)

  /** What the runtime does at a promotion: it samples the polling count of the promoted task, and resets
      the memories of the two tasks to the chunk sizes of the threads that start them. */
  datatype Promotion = Promotion(sample: nat, firstChunk: int, secondChunk: int)

  // ---------- Measures of a computation ----------

  ghost function Events(d: Dag): multiset<Event> {
    match d
    case Done => multiset{}
    case Act(e) => multiset{e}
    case Poll(_) => multiset{}
    case Then(a, b) => Events(a) + Events(b)
    case Par(_, a, b) => Events(a) + Events(b)
  }

  /** Number of heartbeat polls; `Poll(q)` follows leaf iteration `q`. */
  function Polls(d: Dag): nat {
    match d
    case Done => 0
    case Act(_) => 0
    case Poll(_) => 1
    case Then(a, b) => Polls(a) + Polls(b)
    case Par(_, a, b) => Polls(a) + Polls(b)
  }

  /** `c` for every poll. */
  function PollCost(c: int, d: Dag): int {
    match d
    case Done => 0
    case Act(_) => 0
    case Poll(_) => c
    case Then(a, b) => PollCost(c, a) + PollCost(c, b)
    case Par(_, a, b) => PollCost(c, a) + PollCost(c, b)
  }

  /** Number of leaf iterations. */
  function Bodies(d: Dag): nat {
    match d
    case Done => 0
    case Act(e) => if e.Body? then 1 else 0
    case Poll(_) => 0
    case Then(a, b) => Bodies(a) + Bodies(b)
    case Par(_, a, b) => Bodies(a) + Bodies(b)
  }

  /** Number of promotions: every fork comes from one. */
  function Forks(d: Dag): nat {
    match d
    case Done => 0
    case Act(_) => 0
    case Poll(_) => 0
    case Then(a, b) => Forks(a) + Forks(b)
    case Par(_, a, b) => 1 + Forks(a) + Forks(b)
  }

  /** Nothing but tail work. */
  predicate OnlyTails(d: Dag) {
    match d
    case Done => true
    case Act(e) => e.Tail?
    case Poll(_) => false
    case Then(a, b) => OnlyTails(a) && OnlyTails(b)
    case Par(_, _, _) => false
  }

  /** Every task of the computation is promoted at most once: what it runs after the promotion is only
      the tail work of iterations it has left. */
  predicate PromotedOnce(d: Dag) {
    match d
    case Done => true
    case Act(_) => true
    case Poll(_) => true
    case Then(a, b) => PromotedOnce(a) && PromotedOnce(b) && (Forks(a) > 0 ==> OnlyTails(b))
    case Par(_, a, b) => PromotedOnce(a) && PromotedOnce(b)
  }

  /** What the task that runs `d` executes itself; the tasks it forks are left out. */
  function Own(d: Dag): Dag {
    match d
    case Done => d
    case Act(_) => d
    case Poll(_) => d
    case Then(a, b) => Then(Own(a), Own(b))
    case Par(_, _, _) => Done
  }

  /** The runtime takes the sample `k` at the promotions of the task that runs `d`. */
  predicate Samples(k: nat, d: Dag) {
    match d
    case Done => true
    case Act(_) => true
    case Poll(_) => true
    case Then(a, b) => Samples(k, a) && Samples(k, b)
    case Par(p, _, _) => p.sample == k
  }

  /** A task whose memory was reset to chunk size `chunk` has executed one full chunk for every poll, and less
      than one chunk since.  If it was promoted, no iteration is outside a full chunk and the runtime has
      sampled exactly its polls.  The same holds of all tasks it forks. */
  predicate ExactTask(chunk: int, d: Dag)
    decreases d, 1
  {
    && PollCost(chunk, Own(d)) <= Bodies(Own(d)) < PollCost(chunk, Own(d)) + chunk
    && (Forks(d) > 0 ==> Bodies(Own(d)) == PollCost(chunk, Own(d)) && Samples(Polls(Own(d)), d))
    && ExactForks(d)
  }

  predicate ExactForks(d: Dag)
    decreases d, 0
  {
    match d
    case Done => true
    case Act(_) => true
    case Poll(_) => true
    case Then(a, b) => ExactForks(a) && ExactForks(b)
    case Par(p, a, b) => ExactTask(p.firstChunk, a) && ExactTask(p.secondChunk, b)
  }

  lemma {:induction false} OwnUnforked(d: Dag, k: nat)
    requires Forks(d) == 0
    ensures Own(d) == d && ExactForks(d) && Samples(k, d)
  {
    match d
    case Done =>
    case Act(_) =>
    case Poll(_) =>
    case Then(a, b) =>
      OwnUnforked(a, k);
      OwnUnforked(b, k);
  }

  /** How deep promotions nest. */
  function Depth(d: Dag): nat {
    match d
    case Done => 0
    case Act(_) => 0
    case Poll(_) => 0
    case Then(a, b) => Max(Depth(a), Depth(b))
    case Par(_, a, b) => 1 + Max(Depth(a), Depth(b))
  }

  function Max(a: nat, b: nat): nat {
    if a < b then b else a
  }

  // ---------- Computations that keep the sequential order where it matters ----------

  /** Nothing in `b` has to precede something in `a`. */
  ghost predicate NoBackward(a: multiset<Event>, b: multiset<Event>) {
    forall x, y :: x in a && y in b ==> !MustPrecede(y, x)
  }

  /** The actions of `a` and of `b` belong to iterations that do not enclose one another. */
  ghost predicate AllApart(a: multiset<Event>, b: multiset<Event>) {
    forall x, y :: x in a && y in b ==> Apart(x.at, y.at)
  }

  /** Sequencing never runs an action before one it depends on, and parallel branches are
      independent of each other. */
  ghost predicate Ordered(d: Dag) {
    match d
    case Done => true
    case Act(_) => true
    case Poll(_) => true
    case Then(a, b) => Ordered(a) && Ordered(b) && NoBackward(Events(a), Events(b))
    case Par(_, a, b) => Ordered(a) && Ordered(b) && AllApart(Events(a), Events(b))
  }

  lemma AllApartNoBackward(a: multiset<Event>, b: multiset<Event>)
    requires AllApart(a, b)
    ensures NoBackward(a, b) && NoBackward(b, a)
  {
    forall x, y | x in a && y in b
      ensures !MustPrecede(y, x) && !MustPrecede(x, y)
    {
      ApartUnordered(x, y);
    }
  }

  // ---------- Sealed forms ----------

  // The code that builds computations treats them as black boxes.  These forms agree with the
  // definitions above (see the lemmas below) but do not unfold on their own.

  datatype Seals = Seals(bag: Dag -> multiset<Event>, legal: Dag -> bool, unforked: Dag -> bool,
                         nesting: Dag -> nat)

  ghost predicate SealedBy(s: Seals) {
    && (forall d {:trigger Events(d)} :: s.bag(d) == Events(d))
    && (forall d {:trigger Ordered(d)} :: s.legal(d) <==> Ordered(d))
    && (forall d {:trigger Forks(d)} :: s.unforked(d) <==> Forks(d) == 0)
    && (forall d {:trigger Depth(d)} :: s.nesting(d) == Depth(d))
  }

  lemma SealExists()
    ensures exists s :: SealedBy(s)
  {
    assert SealedBy(Seals(d => Events(d), d => Ordered(d), d => Forks(d) == 0, d => Depth(d)));
  }

  ghost function Seal(): (s: Seals)
    ensures SealedBy(s)
  {
    SealExists();
    var s :| SealedBy(s);
    s
  }

  /** The actions of `d`. */
  ghost function Bag(d: Dag): multiset<Event> {
    Seal().bag(d)
  }

  /** `d` keeps the sequential order where it matters. */
  ghost predicate Legal(d: Dag) {
    Seal().legal(d)
  }

  /** No promotion in `d`. */
  ghost predicate Unforked(d: Dag) {
    Seal().unforked(d)
  }

  /** How deep promotions nest in `d`. */
  ghost function Nesting(d: Dag): nat {
    Seal().nesting(d)
  }

  lemma Unseal(d: Dag)
    ensures Bag(d) == Events(d)
    ensures Legal(d) <==> Ordered(d)
    ensures Unforked(d) <==> Forks(d) == 0
    ensures Nesting(d) == Depth(d)
  {
    assert SealedBy(Seal());
    assert Events(d) == Events(d) && Ordered(d) == Ordered(d);
    assert Forks(d) >= 0 && Depth(d) >= 0;
  }

  lemma LegalThen(a: Dag, b: Dag)
    ensures Bag(Then(a, b)) == Bag(a) + Bag(b)
    ensures Legal(Then(a, b)) <==> Legal(a) && Legal(b) && NoBackward(Bag(a), Bag(b))
  {
    Unseal(a);
    Unseal(b);
    Unseal(Then(a, b));
  }

  lemma LegalPar(p: Promotion, a: Dag, b: Dag)
    ensures Bag(Par(p, a, b)) == Bag(a) + Bag(b)
    ensures Legal(Par(p, a, b)) <==> Legal(a) && Legal(b) && AllApart(Bag(a), Bag(b))
  {
    Unseal(a);
    Unseal(b);
    Unseal(Par(p, a, b));
  }

  lemma LegalAct(e: Event)
    ensures Bag(Act(e)) == multiset{e} && Legal(Act(e))
  {
    Unseal(Act(e));
  }

  lemma LegalDone()
    ensures Bag(Done) == multiset{} && Legal(Done) && Unforked(Done)
  {
    Unseal(Done);
  }

  lemma LegalPoll(q: Index)
    ensures Bag(Poll(q)) == multiset{} && Legal(Poll(q))
  {
    Unseal(Poll(q));
  }

  /** The computation `d` does the work of nest `n`, in an order that respects its iterations.
      `Heartbeat.RunNest` establishes this for any heartbeats, chunk sizes and task orders. */
  ghost predicate Implements(n: Nest, d: Dag)
    requires n.levels >= 1
  {
    Bag(d) == multiset(Sequential(n)) && Legal(d)
  }

  // ---------- The machine ----------

  /** `d` can take one step to `d'`; `e` is the action it executes, if any. */
  ghost predicate Step(d: Dag, e: Option<Event>, d': Dag) {
    match d
    case Done => false
    case Act(x) => e == Some(x) && d' == Done
    case Poll(_) => e == None && d' == Done
    case Then(a, b) =>
      if a.Done? then e == None && d' == b
      else d'.Then? && d'.second == b && Step(a, e, d'.first)
    case Par(p, a, b) =>
      if a.Done? && b.Done? then e == None && d' == Done
      else
        && d'.Par? && d'.promotion == p
        && ((d'.right == b && Step(a, e, d'.left)) || (d'.left == a && Step(b, e, d'.right)))
  }

  /** What has been executed so far, in order, and what is left. */
  datatype Config = Config(trace: seq<Event>, rest: Dag)

  ghost predicate Next(c: Config, c': Config) {
    exists e :: Step(c.rest, e, c'.rest) && c'.trace == Extend(c.trace, e)
  }

  ghost function Extend(t: seq<Event>, e: Option<Event>): seq<Event> {
    if e.Some? then t + [e.value] else t
  }

  /** A run of the machine from `d`, under some schedule. */
  ghost predicate IsRun(d: Dag, run: seq<Config>) {
    && |run| > 0
    && run[0] == Config([], d)
    && forall i :: 0 <= i < |run| - 1 ==> Next(run[i], run[i + 1])
  }

  // ---------- What every step keeps ----------

  ghost function One(e: Option<Event>): multiset<Event> {
    if e.Some? then multiset{e.value} else multiset{}
  }

  lemma {:induction false} StepConserves(d: Dag, e: Option<Event>, d': Dag)
    requires Step(d, e, d')
    ensures Events(d) == One(e) + Events(d')
  {
    match d
    case Act(_) =>
    case Poll(_) =>
    case Then(a, b) =>
      if !a.Done? {
        StepConserves(a, e, d'.first);
      }
    case Par(p, a, b) =>
      if a.Done? && b.Done? {
      } else if d'.right == b && Step(a, e, d'.left) {
        StepConserves(a, e, d'.left);
      } else {
        StepConserves(b, e, d'.right);
      }
  }

  lemma ThenStep(one: multiset<Event>, left: multiset<Event>, b: multiset<Event>)
    requires NoBackward(one + left, b) && NoBackward(one, left)
    ensures NoBackward(left, b) && NoBackward(one, left + b)
  {
    forall x, y | x in left && y in b
      ensures !MustPrecede(y, x)
    {
      assert x in one + left;
    }
    forall x, y | x in one && y in left + b
      ensures !MustPrecede(y, x)
    {
      assert x in one + left;
    }
  }

  lemma ParStep(one: multiset<Event>, left: multiset<Event>, b: multiset<Event>)
    requires AllApart(one + left, b) && NoBackward(one, left)
    ensures AllApart(left, b) && NoBackward(one, left + b)
  {
    AllApartNoBackward(one + left, b);
    ThenStep(one, left, b);
    forall x, y | x in left && y in b
      ensures Apart(x.at, y.at)
    {
      assert x in one + left;
    }
  }

  /** A step of the first part of a sequence, or of one of two parallel tasks. */
  lemma InnerStep(one: multiset<Event>, a: Dag, a': Dag, b: Dag, p: Promotion)
    requires Events(a) == one + Events(a') && Ordered(a') && Ordered(b) && NoBackward(one, Events(a'))
    ensures NoBackward(Events(a), Events(b)) ==> Ordered(Then(a', b)) && NoBackward(one, Events(Then(a', b)))
    ensures AllApart(Events(a), Events(b)) ==> Ordered(Par(p, a', b)) && NoBackward(one, Events(Par(p, a', b)))
    ensures AllApart(Events(b), Events(a)) ==> Ordered(Par(p, b, a')) && NoBackward(one, Events(Par(p, b, a')))
  {
    if NoBackward(Events(a), Events(b)) {
      ThenStep(one, Events(a'), Events(b));
    }
    if AllApart(Events(a), Events(b)) || AllApart(Events(b), Events(a)) {
      ParStep(one, Events(a'), Events(b));
      assert Events(Par(p, b, a')) == Events(a') + Events(b);
    }
  }

  /** A step keeps the computation ordered, and what it executes did not have to wait for
      anything that is still to come. */
  lemma {:induction false} StepOrdered(d: Dag, e: Option<Event>, d': Dag)
    requires Step(d, e, d') && Ordered(d)
    ensures Ordered(d')
    ensures NoBackward(One(e), Events(d'))
  {
    match d
    case Act(_) =>
    case Poll(_) =>
    case Then(a, b) =>
      if !a.Done? {
        StepOrdered(a, e, d'.first);
        StepConserves(a, e, d'.first);
        InnerStep(One(e), a, d'.first, b, Promotion(0, 0, 0));
      }
    case Par(p, a, b) =>
      if a.Done? && b.Done? {
      } else if d'.right == b && Step(a, e, d'.left) {
        StepOrdered(a, e, d'.left);
        StepConserves(a, e, d'.left);
        InnerStep(One(e), a, d'.left, b, p);
      } else {
        StepOrdered(b, e, d'.right);
        StepConserves(b, e, d'.right);
        InnerStep(One(e), b, d'.right, a, p);
      }
  }

  /** In every reachable state: executed and remaining actions together are exactly the actions of
      the computation, the executed ones are in a causal order, and none that remains had to come
      before one that was executed. */
  ghost predicate Invariant(total: multiset<Event>, c: Config) {
    && multiset(c.trace) + Events(c.rest) == total
    && Causal(c.trace)
    && Ordered(c.rest)
    && NoBackward(multiset(c.trace), Events(c.rest))
  }

  lemma NextKeepsInvariant(total: multiset<Event>, c: Config, c': Config)
    requires Invariant(total, c) && Next(c, c')
    ensures Invariant(total, c')
  {
    var e :| Step(c.rest, e, c'.rest) && c'.trace == Extend(c.trace, e);
    StepConserves(c.rest, e, c'.rest);
    StepOrdered(c.rest, e, c'.rest);
    var left := Events(c'.rest);
    assert multiset(c'.trace) == multiset(c.trace) + One(e);
    StillForward(multiset(c.trace), One(e), left);
    if e.Some? {
      ExtendCausal(c.trace, e.value, left);
    }
    Regroup(multiset(c.trace), One(e), left);
  }

  lemma Regroup(a: multiset<Event>, b: multiset<Event>, c: multiset<Event>)
    ensures a + (b + c) == (a + b) + c
  {
  }

  lemma StillForward(done: multiset<Event>, one: multiset<Event>, left: multiset<Event>)
    requires NoBackward(done, one + left) && NoBackward(one, left)
    ensures NoBackward(done + one, left)
  {
    forall x, y | x in done + one && y in left
      ensures !MustPrecede(y, x)
    {
      if x in done {
        assert y in one + left;
      }
    }
  }

  lemma ExtendCausal(t: seq<Event>, e: Event, left: multiset<Event>)
    requires Causal(t) && NoBackward(multiset(t), multiset{e} + left)
    ensures Causal(t + [e])
  {
    forall x, y | x in t && y in [e]
      ensures !MustPrecede(y, x)
    {
      assert x in multiset(t) && y in multiset{e} + left;
    }
    CausalConcat(t, [e]);
  }

  lemma {:induction false} Reachable(d: Dag, run: seq<Config>, k: nat)
    requires Ordered(d) && IsRun(d, run) && k < |run|
    ensures Invariant(Events(d), run[k])
    decreases k
  {
    if k > 0 {
      Reachable(d, run, k - 1);
      NextKeepsInvariant(Events(d), run[k - 1], run[k]);
    }
  }

  // ---------- Progress and termination ----------

  function Size(d: Dag): nat {
    match d
    case Done => 0
    case Act(_) => 1
    case Poll(_) => 1
    case Then(a, b) => 1 + Size(a) + Size(b)
    case Par(_, a, b) => 1 + Size(a) + Size(b)
  }

  /** No deadlock: an unfinished computation can always take a step. */
  lemma {:induction false} Progress(d: Dag) returns (e: Option<Event>, d': Dag)
    requires d != Done
    ensures Step(d, e, d')
  {
    match d
    case Act(x) => e, d' := Some(x), Done;
    case Poll(_) => e, d' := None, Done;
    case Then(a, b) =>
      if a.Done? {
        e, d' := None, b;
      } else {
        var a';
        e, a' := Progress(a);
        d' := Then(a', b);
      }
    case Par(p, a, b) =>
      if a.Done? && b.Done? {
        e, d' := None, Done;
      } else if !a.Done? {
        var a';
        e, a' := Progress(a);
        d' := Par(p, a', b);
      } else {
        var b';
        e, b' := Progress(b);
        d' := Par(p, a, b');
      }
  }

  /** No livelock: every step uses up part of the computation. */
  lemma {:induction false} StepShrinks(d: Dag, e: Option<Event>, d': Dag)
    requires Step(d, e, d')
    ensures Size(d') < Size(d)
  {
    match d
    case Act(_) =>
    case Poll(_) =>
    case Then(a, b) =>
      if !a.Done? {
        StepShrinks(a, e, d'.first);
      }
    case Par(p, a, b) =>
      if a.Done? && b.Done? {
      } else if d'.right == b && Step(a, e, d'.left) {
        StepShrinks(a, e, d'.left);
      } else {
        StepShrinks(b, e, d'.right);
      }
  }

  lemma {:induction false} RunsTerminate(d: Dag, run: seq<Config>, k: nat)
    requires IsRun(d, run) && k < |run|
    ensures k + Size(run[k].rest) <= Size(d)
    decreases k
  {
    if k > 0 {
      RunsTerminate(d, run, k - 1);
      var c, c' := run[k - 1], run[k];
      assert Next(c, c');
      var e :| Step(c.rest, e, c'.rest) && c'.trace == Extend(c.trace, e);
      StepShrinks(c.rest, e, c'.rest);
    }
  }

  // ---------- The effect on the store does not depend on the schedule ----------

  ghost function Effect<S>(apply: (Event, S) -> S, t: seq<Event>, s: S): S {
    if t == [] then s else Effect(apply, t[1..], apply(t[0], s))
  }

  /** What "iterations are independent" means: two actions commute unless one of them belongs to
      an iteration that encloses the other. */
  ghost predicate Independent<S(!new)>(apply: (Event, S) -> S) {
    forall x, y, s ::
      x != y && !MustPrecede(x, y) && !MustPrecede(y, x)
      ==> apply(y, apply(x, s)) == apply(x, apply(y, s))
  }

  lemma {:induction false} EffectConcat<S>(apply: (Event, S) -> S, a: seq<Event>, b: seq<Event>, s: S)
    ensures Effect(apply, a + b, s) == Effect(apply, b, Effect(apply, a, s))
    decreases |a|
  {
    if a == [] {
      assert a + b == b;
    } else {
      assert (a + b)[1..] == a[1..] + b;
      EffectConcat(apply, a[1..], b, apply(a[0], s));
    }
  }

  /** An action that is unordered with everything before it can be moved to the front. */
  lemma {:induction false} MoveToFront<S(!new)>(apply: (Event, S) -> S, a: seq<Event>, e: Event, s: S)
    requires Independent(apply)
    requires forall x :: x in a ==> x != e && !MustPrecede(x, e) && !MustPrecede(e, x)
    ensures Effect(apply, a + [e], s) == Effect(apply, [e] + a, s)
    decreases |a|
  {
    if a == [] {
      assert a + [e] == [e] + a;
    } else {
      assert a[0] in a;
      forall x | x in a[1..]
        ensures x in a
      {
      }
      assert (a + [e])[1..] == a[1..] + [e];
      assert ([e] + a[1..])[1..] == a[1..] && ([e] + a)[1..] == a && (a[..1] + [e])[1..] == [e];
      MoveToFront(apply, a[1..], e, apply(a[0], s));
      assert apply(e, apply(a[0], s)) == apply(a[0], apply(e, s));
    }
  }

  lemma CausalPart(a: seq<Event>, e: Event, b: seq<Event>)
    requires Causal(a + [e] + b)
    ensures Causal(a + b)
    ensures forall x :: x in a ==> !MustPrecede(e, x)
  {
    var t := a + [e] + b;
    forall i, j | 0 <= i < j < |a + b|
      ensures !MustPrecede((a + b)[j], (a + b)[i])
    {
      var i' := if i < |a| then i else i + 1;
      var j' := if j < |a| then j else j + 1;
      assert t[i'] == (a + b)[i] && t[j'] == (a + b)[j];
    }
    forall x | x in a
      ensures !MustPrecede(e, x)
    {
      var i :| 0 <= i < |a| && a[i] == x;
      assert t[i] == x && t[|a|] == e;
    }
  }

  function FirstIndex(t: seq<Event>, e: Event): (i: nat)
    requires e in t
    ensures i < |t| && t[i] == e && e !in t[..i]
  {
    if t[0] == e then 0
    else
      assert t == [t[0]] + t[1..];
      var i := 1 + FirstIndex(t[1..], e);
      assert t[..i] == [t[0]] + t[1..][..i - 1];
      i
  }

  /** If `u` starts with `e` and orders the actions of `a` after it, and `a` can come before `e`,
      then `e` is unordered with all of `a`. */
  lemma UnorderedWithPrefix(a: seq<Event>, e: Event, b: seq<Event>, u: seq<Event>)
    requires Causal(a + [e] + b) && Causal([e] + u)
    requires e !in a
    requires multiset(a + b) == multiset(u)
    ensures forall x :: x in a ==> x != e && !MustPrecede(x, e) && !MustPrecede(e, x)
  {
    CausalPart(a, e, b);
    forall x | x in a
      ensures x != e && !MustPrecede(x, e) && !MustPrecede(e, x)
    {
      assert x in a + b;
      assert x in multiset(u);
      var j :| 0 <= j < |u| && u[j] == x;
      assert ([e] + u)[j + 1] == x && ([e] + u)[0] == e;
    }
  }

  lemma EffectMove<S(!new)>(apply: (Event, S) -> S, a: seq<Event>, e: Event, b: seq<Event>, s: S)
    requires Independent(apply)
    requires forall x :: x in a ==> x != e && !MustPrecede(x, e) && !MustPrecede(e, x)
    ensures Effect(apply, a + [e] + b, s) == Effect(apply, a + b, apply(e, s))
  {
    MoveToFront(apply, a, e, s);
    EffectConcat(apply, a + [e], b, s);
    EffectConcat(apply, [e] + a, b, s);
    assert [e] + a + b == [e] + (a + b);
    assert ([e] + (a + b))[1..] == a + b;
  }

  /** Two causal orders of the same actions have the same effect. */
  lemma {:induction false} SameEffect<S(!new)>(apply: (Event, S) -> S, t: seq<Event>, u: seq<Event>, s: S)
    requires Independent(apply)
    requires Causal(t) && Causal(u)
    requires multiset(t) == multiset(u)
    ensures Effect(apply, t, s) == Effect(apply, u, s)
    decreases |u|
  {
    if u == [] {
      assert |multiset(t)| == 0;
    } else {
      var e, u' := u[0], u[1..];
      assert u == [e] + u';
      var a, b := SplitAtFirst(t, e, u');
      EffectMove(apply, a, e, b, s);
      SameEffect(apply, a + b, u', apply(e, s));
    }
  }

  /** Take the first occurrence of `u`'s first action out of `t`. */
  lemma SplitAtFirst(t: seq<Event>, e: Event, u: seq<Event>) returns (a: seq<Event>, b: seq<Event>)
    requires Causal(t) && Causal([e] + u)
    requires multiset(t) == multiset([e] + u)
    ensures t == a + [e] + b && multiset(a + b) == multiset(u)
    ensures Causal(a + b) && Causal(u)
    ensures forall x :: x in a ==> x != e && !MustPrecede(x, e) && !MustPrecede(e, x)
  {
    assert e in multiset([e] + u);
    var i := FirstIndex(t, e);
    a, b := t[..i], t[i + 1..];
    assert t == a + [e] + b;
    SameRest(a, e, b, u);
    CausalPart(a, e, b);
    CausalTail(e, u);
    UnorderedWithPrefix(a, e, b, u);
  }

  lemma CausalTail(e: Event, u: seq<Event>)
    requires Causal([e] + u)
    ensures Causal(u)
  {
    forall i, j | 0 <= i < j < |u|
      ensures !MustPrecede(u[j], u[i])
    {
      assert ([e] + u)[i + 1] == u[i] && ([e] + u)[j + 1] == u[j];
    }
  }

  lemma SameRest(a: seq<Event>, e: Event, b: seq<Event>, u: seq<Event>)
    requires multiset(a + [e] + b) == multiset([e] + u)
    ensures multiset(a + b) == multiset(u)
  {
    var one := multiset{e};
    assert multiset(a + [e] + b) == multiset(a + b) + one;
    assert multiset([e] + u) == multiset(u) + one;
    assert multiset(a + b) == multiset(a + b) + one - one;
    assert multiset(u) == multiset(u) + one - one;
  }
}
