/** What a run costs: polls and promotions are paid for by leaf iterations. */
module Accounts {
  import opened LoopNest
  import opened ForkJoin
  import opened TaskMemory
  import opened Beats

  /** What all tasks of a run have in common: no chunk size is below `minChunk`, and `beat` says after which leaf
      iterations a poll notices a heartbeat. */
  datatype Rules = Rules(minChunk: int, beat: Index -> bool)

  /** `d` was run by a task whose memory went from `m` to `m'`.
      Every poll is preceded by a full chunk.  The account of what the task itself executes is exact, up
      to the end or up to its promotion, where the runtime samples its polls.  No task is promoted twice, and
      promotions are where the heartbeats are. */
  ghost predicate AccountHolds(rules: Rules, m: Memory, m': Memory, d: Dag) {
    && rules.minChunk <= m'.chunk
    && PromotedOnce(d)
    && Forks(d) <= Polls(d)
    && PollCost(rules.minChunk, d) + m'.progress <= Bodies(d) + m.progress
    && (if Forks(d) == 0 then Unpromoted(m, m', d) else Promoted(m, d))
    && ExactForks(d)
    && Heeds(rules.beat, d)
    && Paces(m.chunk, m.progress, m'.progress, d)
  }

  ghost predicate Unpromoted(m: Memory, m': Memory, d: Dag) {
    && m'.chunk == m.chunk && m'.polls == m.polls + Polls(d)
    && PollCost(m.chunk, d) + m'.progress == Bodies(d) + m.progress
  }

  ghost predicate Promoted(m: Memory, d: Dag) {
    && Samples(m.polls + Polls(Own(d)), d)
    && PollCost(m.chunk, Own(d)) == Bodies(Own(d)) + m.progress
  }

  /** Account of what a promotion runs: the poll it was received at has been paid for before. */
  ghost predicate PromotionHolds(rules: Rules, sample: nat, m': Memory, h: Dag) {
    && rules.minChunk <= m'.chunk
    && PromotedOnce(h)
    && h.Par? && h.promotion.sample == sample
    && Forks(h) <= Polls(h) + 1
    && PollCost(rules.minChunk, h) + m'.progress <= Bodies(h)
    && ExactForks(h)
    && ForksHeed(rules.beat, h)
    && ForksPaced(h)
  }

  // ---------- Sealed forms ----------

  datatype AccountSeals = AccountSeals(account: (Rules, Memory, Memory, Dag) -> bool,
                                       promotion: (Rules, nat, Memory, Dag) -> bool)

  ghost predicate AccountsSealedBy(s: AccountSeals) {
    && (forall c, m, m', d {:trigger AccountHolds(c, m, m', d)} ::
          s.account(c, m, m', d) <==> AccountHolds(c, m, m', d))
    && (forall c, k, m', d {:trigger PromotionHolds(c, k, m', d)} ::
          s.promotion(c, k, m', d) <==> PromotionHolds(c, k, m', d))
  }

  lemma AccountSealExists()
    ensures exists s :: AccountsSealedBy(s)
  {
    assert AccountsSealedBy(AccountSeals((c, m, m', d) => AccountHolds(c, m, m', d),
                                         (c, k: nat, m', d) => PromotionHolds(c, k, m', d)));
  }

  ghost function AccountSeal(): (s: AccountSeals)
    ensures AccountsSealedBy(s)
  {
    AccountSealExists();
    var s :| AccountsSealedBy(s);
    s
  }

  ghost predicate Accounted(rules: Rules, m: Memory, m': Memory, d: Dag) {
    AccountSeal().account(rules, m, m', d)
  }

  ghost predicate PromotionAccounted(rules: Rules, sample: nat, m': Memory, h: Dag) {
    AccountSeal().promotion(rules, sample, m', h)
  }

  lemma UnsealAccount(rules: Rules, m: Memory, m': Memory, d: Dag)
    ensures Accounted(rules, m, m', d)
            <==> AccountHolds(rules, m, m', d)
  {
    assert AccountHolds(rules, m, m', d)
           == AccountHolds(rules, m, m', d);
  }

  lemma UnsealPromotion(rules: Rules, sample: nat, m': Memory, h: Dag)
    ensures PromotionAccounted(rules, sample, m', h) <==> PromotionHolds(rules, sample, m', h)
  {
    assert PromotionHolds(rules, sample, m', h) == PromotionHolds(rules, sample, m', h);
  }

  // ---------- Composition ----------

  lemma AccountStart(rules: Rules, m: Memory)
    requires rules.minChunk <= m.chunk
    ensures Accounted(rules, m, m, Done) && Quiet(rules.beat, Done)
  {
    QuietDone(rules.beat);
    UnsealAccount(rules, m, m, Done);
  }

  lemma {:induction false} StraightCounts(c: int, d: Dag, k: nat)
    requires Straight(d, k)
    ensures Bodies(d) == k && Polls(d) == 0 && Forks(d) == 0
    ensures PollCost(c, d) == 0 && PromotedOnce(d)
  {
    match d
    case Done =>
    case Then(a, Act(e)) => StraightCounts(c, a, k - 1);
  }

  lemma CountsThen(c: int, d: Dag, h: Dag)
    ensures Bodies(Then(d, h)) == Bodies(d) + Bodies(h)
    ensures Polls(Then(d, h)) == Polls(d) + Polls(h)
    ensures Forks(Then(d, h)) == Forks(d) + Forks(h)
    ensures PollCost(c, Then(d, h)) == PollCost(c, d) + PollCost(c, h)
  {
  }

  lemma UnpromotedThen(m: Memory, m1: Memory, m2: Memory, d: Dag, h: Dag)
    requires Unpromoted(m, m1, d) && Unpromoted(m1, m2, h)
    ensures Unpromoted(m, m2, Then(d, h))
  {
    CountsThen(m.chunk, d, h);
  }

  lemma OwnThen(c: int, k: nat, d: Dag, h: Dag)
    ensures Bodies(Own(Then(d, h))) == Bodies(Own(d)) + Bodies(Own(h))
    ensures Polls(Own(Then(d, h))) == Polls(Own(d)) + Polls(Own(h))
    ensures PollCost(c, Own(Then(d, h))) == PollCost(c, Own(d)) + PollCost(c, Own(h))
    ensures Samples(k, Then(d, h)) <==> Samples(k, d) && Samples(k, h)
    ensures ExactForks(Then(d, h)) <==> ExactForks(d) && ExactForks(h)
  {
    CountsThen(c, Own(d), Own(h));
  }

  lemma PromotedThen(m: Memory, m1: Memory, d: Dag, h: Dag)
    requires Forks(d) == 0 && Unpromoted(m, m1, d) && Promoted(m1, h)
    ensures Promoted(m, Then(d, h))
  {
    var k := m1.polls + Polls(Own(h));
    OwnUnforked(d, k);
    OwnThen(m.chunk, k, d, h);
  }

  /** Actions after a promotion, none of them a leaf iteration or a poll. */
  lemma PromotedTail(m: Memory, d: Dag, h: Dag)
    requires Promoted(m, d)
    requires Bodies(h) == 0 && Polls(h) == 0 && PollCost(m.chunk, h) == 0 && Forks(h) == 0
    ensures Promoted(m, Then(d, h))
  {
    var k := m.polls + Polls(Own(d));
    OwnUnforked(h, k);
    OwnThen(m.chunk, k, d, h);
  }

  /** The memory after a chunk of `k` iterations: a full one is polled, any other is carried over. */
  function AfterChunk(m: Memory, k: nat, full: bool): Memory {
    if full then Memory(m.chunk, 0, m.polls + 1) else Memory(m.chunk, m.progress + k, m.polls)
  }

  lemma {:induction false} StraightUnforked(d: Dag, k: nat)
    requires Straight(d, k)
    ensures ForksPaced(d)
  {
    match d
    case Done =>
    case Then(a, Act(e)) => StraightUnforked(a, k - 1);
  }

  /** A chunk that did not fill up is carried over. */
  lemma AccountPartialChunk(rules: Rules, m0: Memory, m: Memory, d: Dag, h: Dag, k: nat)
    requires AccountHolds(rules, m0, m, d) && Quiet(rules.beat, d)
    requires Straight(h, k) && m.progress + k <= m.chunk
    ensures AccountHolds(rules, m0, AfterChunk(m, k, false), Then(d, h)) && Forks(Then(d, h)) == 0
    ensures Quiet(rules.beat, Then(d, h))
  {
    QuietUnforked(rules.beat, d);
    StraightCounts(rules.minChunk, h, k);
    StraightCounts(m0.chunk, h, k);
    StraightHeeds(rules.beat, h, k);
    StraightInStep(m.chunk, m.progress, h, k);
    StraightUnforked(h, k);
    PacesThen(m0.chunk, m0.progress, m.progress, m.progress + k, d, h);
    HeedsThen(rules.beat, d, h);
    QuietThen(rules.beat, d, h);
    CountsThen(rules.minChunk, d, h);
    OwnUnforked(h, 0);
    UnpromotedThen(m0, m, AfterChunk(m, k, false), d, h);
  }

  /** A full chunk pays for the poll that follows it. */
  lemma AccountFullChunk(rules: Rules, m0: Memory, m: Memory, d: Dag, h: Dag, k: nat, q: Index)
    requires AccountHolds(rules, m0, m, d) && Quiet(rules.beat, d)
    requires Straight(h, k) && m.progress + k == m.chunk && EndsWith(h, q)
    ensures var d' := Then(Then(d, h), Poll(q));
            && AccountHolds(rules, m0, AfterChunk(m, k, true), d') && Forks(d') == 0
            && (rules.beat(q) ==> Noticing(rules.beat, d', q))
            && (!rules.beat(q) ==> Quiet(rules.beat, d'))
  {
    AccountPartialChunk(rules, m0, m, d, h, k);
    HeedsPoll(rules.beat, d, h, q);
    PacesThen(m0.chunk, m0.progress, m.chunk, 0, Then(d, h), Poll(q));
    CountsThen(rules.minChunk, Then(d, h), Poll(q));
    UnpromotedThen(m0, AfterChunk(m, k, false), AfterChunk(m, k, true), Then(d, h), Poll(q));
  }

  /** The computation after a chunk, polled after its last iteration `q` if it is full. */
  function WithChunk(d: Dag, h: Dag, full: bool, q: Index): Dag {
    if full then Then(Then(d, h), Poll(q)) else Then(d, h)
  }

  lemma AccountChunk(rules: Rules, m0: Memory, m: Memory, d: Dag, h: Dag, k: nat, full: bool, q: Index)
    requires Accounted(rules, m0, m, d) && Quiet(rules.beat, d)
    requires Straight(h, k) && m.progress + k <= m.chunk && (full ==> m.progress + k == m.chunk && EndsWith(h, q))
    ensures var d' := WithChunk(d, h, full, q);
            && Accounted(rules, m0, AfterChunk(m, k, full), d') && Unforked(d')
            && (full && rules.beat(q) ==> Noticing(rules.beat, d', q))
            && (!(full && rules.beat(q)) ==> Quiet(rules.beat, d'))
  {
    UnsealAccount(rules, m0, m, d);
    if full {
      AccountFullChunk(rules, m0, m, d, h, k, q);
    } else {
      AccountPartialChunk(rules, m0, m, d, h, k);
    }
    Unseal(WithChunk(d, h, full, q));
    UnsealAccount(rules, m0, AfterChunk(m, k, full), WithChunk(d, h, full, q));
  }

  lemma UnforkedThen(a: Dag, b: Dag)
    ensures Unforked(Then(a, b)) <==> Unforked(a) && Unforked(b)
  {
    Unseal(a);
    Unseal(b);
    Unseal(Then(a, b));
  }

  lemma NestingPar(p: Promotion, a: Dag, b: Dag)
    ensures Nesting(Par(p, a, b)) == 1 + Max(Nesting(a), Nesting(b))
  {
    Unseal(a);
    Unseal(b);
    Unseal(Par(p, a, b));
  }

  lemma UnforkedNesting(d: Dag)
    requires Unforked(d)
    ensures Nesting(d) == 0
  {
    Unseal(d);
    UnforkedIsFlat(d);
  }

  lemma {:induction false} UnforkedIsFlat(d: Dag)
    requires Forks(d) == 0
    ensures Depth(d) == 0
  {
    match d
    case Then(a, b) => UnforkedIsFlat(a); UnforkedIsFlat(b);
    case _ =>
  }

  lemma AccountPromotion(rules: Rules, m0: Memory, m: Memory, d: Dag, q: Index, m': Memory, h: Dag)
    requires Accounted(rules, m0, m, d) && m.progress == 0 && Noticing(rules.beat, d, q)
    requires PromotionAccounted(rules, m.polls, m', h)
    ensures Accounted(rules, m0, m', Then(d, h))
    ensures Nesting(Then(d, h)) == Nesting(h) && !Unforked(Then(d, h))
  {
    UnsealAccount(rules, m0, m, d);
    UnsealPromotion(rules, m.polls, m', h);
    NoticingUnforked(rules.beat, d, q);
    NoticingPolls(rules.beat, d, q);
    UnforkedIsFlat(d);
    Unseal(h);
    Unseal(Then(d, h));
    CountsThen(rules.minChunk, d, h);
    PromotedThen(m0, m, d, h);
    HeedsSplit(rules.beat, d, q, h);
    PacesThen(m0.chunk, m0.progress, m.progress, m'.progress, d, h);
    assert AccountHolds(rules, m0, m', Then(d, h));
    UnsealAccount(rules, m0, m', Then(d, h));
  }

  /** Two tasks that start with a fresh task memory; `e` is one of the actions handed over. */
  lemma AccountFork(rules: Rules, p: Promotion, m1: Memory, a: Dag, m2: Memory, b: Dag, e: Event)
    requires Accounted(rules, Fresh(p.firstChunk), m1, a) && 0 <= m1.progress < m1.chunk
    requires Accounted(rules, Fresh(p.secondChunk), m2, b) && 0 <= m2.progress < m2.chunk
    requires 1 <= p.firstChunk && 1 <= p.secondChunk
    requires e in Bag(b) && !e.Tail?
    ensures PromotionAccounted(rules, p.sample, m1, Par(p, a, b))
  {
    AccountTask(rules, p.firstChunk, m1, a);
    AccountTask(rules, p.secondChunk, m2, b);
    UnsealAccount(rules, Fresh(p.firstChunk), m1, a);
    UnsealAccount(rules, Fresh(p.secondChunk), m2, b);
    Unseal(b);
    UnsealPromotion(rules, p.sample, m1, Par(p, a, b));
  }

  /** The account of a task from its reset to its end. */
  lemma AccountTask(rules: Rules, chunk: int, m: Memory, d: Dag)
    requires Accounted(rules, Fresh(chunk), m, d) && 0 <= m.progress < m.chunk && 1 <= chunk
    ensures ExactTask(chunk, d) && Heeds(rules.beat, d) && Paced(chunk, d)
  {
    UnsealAccount(rules, Fresh(chunk), m, d);
    if Forks(d) == 0 {
      OwnUnforked(d, 0);
    }
  }

  /** A task goes on only while it has not noticed a heartbeat. */
  lemma AccountThen(rules: Rules, m0: Memory, m1: Memory, m2: Memory, d: Dag, h: Dag)
    requires Accounted(rules, m0, m1, d)
    requires Accounted(rules, m1, m2, h)
    requires Quiet(rules.beat, d) || h == Done
    ensures Accounted(rules, m0, m2, Then(d, h))
    ensures Quiet(rules.beat, Then(d, h)) <==> Quiet(rules.beat, d) && Quiet(rules.beat, h)
  {
    UnsealAccount(rules, m0, m1, d);
    UnsealAccount(rules, m1, m2, h);
    if Quiet(rules.beat, d) {
      QuietUnforked(rules.beat, d);
    }
    AccountHoldsThen(rules, m0, m1, m2, d, h);
    UnsealAccount(rules, m0, m2, Then(d, h));
    QuietThen(rules.beat, d, h);
  }

  lemma AccountHoldsThen(rules: Rules, m0: Memory, m1: Memory, m2: Memory, d: Dag, h: Dag)
    requires AccountHolds(rules, m0, m1, d) && AccountHolds(rules, m1, m2, h)
    requires (Forks(d) == 0 && Quiet(rules.beat, d)) || h == Done
    ensures AccountHolds(rules, m0, m2, Then(d, h))
  {
    if h == Done {
      assert Items(Then(d, h)) == Items(d);
    } else {
      PacesThen(m0.chunk, m0.progress, m1.progress, m2.progress, d, h);
    }
    HeedsThen(rules.beat, d, h);
    CountsThen(rules.minChunk, d, h);
    if Forks(d) > 0 {
      PromotedTail(m0, d, h);
    } else if Forks(h) > 0 {
      PromotedThen(m0, m1, d, h);
    } else {
      UnpromotedThen(m0, m1, m2, d, h);
    }
  }

  /** Heads and tails are free. */
  lemma AccountIteration(rules: Rules, m0: Memory, m1: Memory, m2: Memory, d: Dag, h: Dag, head: Event, tail: Event)
    requires Accounted(rules, m0, m1, d)
    requires Accounted(rules, m1, m2, h)
    requires Quiet(rules.beat, d) && head.Head? && tail.Tail?
    ensures Accounted(rules, m0, m2, Then(Then(Then(d, Act(head)), h), Act(tail)))
    ensures Quiet(rules.beat, Then(Then(Then(d, Act(head)), h), Act(tail))) <==> Quiet(rules.beat, h)
  {
    AccountFree(rules, m0, m1, d, head);
    AccountThen(rules, m0, m1, m2, Then(d, Act(head)), h);
    AccountFree(rules, m0, m2, Then(Then(d, Act(head)), h), tail);
  }

  lemma AccountFree(rules: Rules, m0: Memory, m: Memory, d: Dag, e: Event)
    requires Accounted(rules, m0, m, d)
    requires e.Tail? || (e.Head? && Quiet(rules.beat, d))
    ensures Accounted(rules, m0, m, Then(d, Act(e)))
    ensures Quiet(rules.beat, Then(d, Act(e))) <==> Quiet(rules.beat, d)
  {
    var d' := Then(d, Act(e));
    UnsealAccount(rules, m0, m, d);
    QuietAct(rules.beat, e);
    QuietThen(rules.beat, d, Act(e));
    HeedsThen(rules.beat, d, Act(e));
    PacesFree(m0.chunk, m0.progress, m.progress, d, e);
    if Quiet(rules.beat, d) {
      QuietUnforked(rules.beat, d);
    }
    CountsThen(rules.minChunk, d, Act(e));
    OwnUnforked(Act(e), 0);
    OwnThen(m0.chunk, 0, d, Act(e));
    if Forks(d) > 0 {
      PromotedTail(m0, d, Act(e));
    } else {
      UnpromotedThen(m0, m, m, d, Act(e));
    }
    assert AccountHolds(rules, m0, m, d');
    UnsealAccount(rules, m0, m, d');
  }

  // ---------- The cost of polls ----------

  lemma {:induction false} PollCostIs(c: int, d: Dag)
    ensures PollCost(c, d) == c * Polls(d)
  {
    match d
    case Done =>
    case Act(_) =>
    case Poll(_) =>
    case Then(a, b) =>
      PollCostIs(c, a);
      PollCostIs(c, b);
      Distribute(c, Polls(a), Polls(b));
    case Par(_, a, b) =>
      PollCostIs(c, a);
      PollCostIs(c, b);
      Distribute(c, Polls(a), Polls(b));
  }

  lemma Distribute(c: int, x: int, y: int)
    ensures c * (x + y) == c * x + c * y
  {
  }
}
