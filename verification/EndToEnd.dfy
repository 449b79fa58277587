/** From the loops of a nest to the final state of the program. */
module EndToEnd {
  import opened LoopNest
  import opened ForkJoin
  import opened Accounts
  import opened Beats
  import opened TaskMemory
  import opened Tables
  import opened NestAnalysis
  import opened Heartbeat
  import opened Theorems

  /** What every schedule of the computation `d` does to the state `s`: what the sequential nest does. */
  ghost predicate ActsAsSequential<S(!new)>(n: Nest, d: Dag, apply: (Event, S) -> S, s: S)
    requires n.levels >= 1
  {
    forall run :: IsCompleteRun(d, run) ==> Effect(apply, Trace(run), s) == Effect(apply, Sequential(n), s)
  }

  /** Analyse the loops, build the tables, and run the nest with heartbeats. */
  method CompileAndRun<S(!new)>(g: CallGraph, loops: seq<nat>, n: Nest, env: Environment, initial: int,
                                ghost apply: (Event, S) -> S, ghost s: S)
    returns (result: Option<int>, ghost d: Dag)
    requires Acyclic(g) && Closed(g, loops) && OneLoopPerLevel(g, loops) && NoRepeat(loops)
    requires forall l, m :: l in loops && m in loops ==> Root(g, l) == Root(g, m)
    requires n.levels == |loops| && ValidNest(n) && MergesRight(n) && ValidEnvironment(env)
    requires Independent(apply)
    ensures ActsAsSequential(n, d, apply, s)
    ensures result == if n.levels > 1 then None
                      else Some(n.plus(initial, Fold(n, [], n.bounds([]).lo, n.bounds([]).hi)))
    ensures result.Some? ==> result.value == n.plus(initial, Contributions(n, Sequential(n)))
    ensures PromotedOnce(d) && OwnPromotions(d) <= 1
    ensures env.rules.minChunk * Polls(d) <= BodiesOf(Sequential(n))
    ensures env.rules.minChunk * Forks(d) <= BodiesOf(Sequential(n))
    ensures ExactTask(env.startChunk, d)
    ensures Heeds(env.rules.beat, d) && Paced(env.startChunk, d)
    ensures (forall q :: Checked(q) in Items(d) ==> !env.rules.beat(q)) ==> Forks(d) == 0
  {
    var t, numLevels := BuildTables(g, loops);
    result, d := RunNest(n, env, t, initial);
    forall run | IsCompleteRun(d, run)
      ensures Effect(apply, Trace(run), s) == Effect(apply, Sequential(n), s)
    {
      MeaningPreserved(n, d, run, apply, s);
    }
    ghost var m: Memory :| 0 <= m.progress < m.chunk && Accounted(env.rules, Fresh(env.startChunk), m, d);
    Amortised(n, d, env.rules, env.startChunk, m);
    AccountTask(env.rules, env.startChunk, m, d);
    PromotedAtMostOnce(d, env.rules, env.startChunk, m);
    if n.levels == 1 {
      FoldReduces(n, [], n.bounds([]).lo, n.bounds([]).hi);
    }
    if forall q :: Checked(q) in Items(d) ==> !env.rules.beat(q) {
      NoBeatNoFork(env.rules.beat, d);
    }
  }
}
