/** What the samples of a thread stand for: the link between the runs of `Heartbeat` and adaptive control. */
module ThreadSamples {
  import opened LoopNest
  import opened ForkJoin
  import opened ChunkControl
  import opened Theorems

  /** A task and the chunk size its memory was reset to. */
  datatype Started = Started(chunk: int, task: Dag)

  /** A thread has started the tasks `tasks`, one after the other, and taken the samples `seen`.  A task does not
      fork before its promotion, so nothing else happens on its thread between its start, where it gets the
      thread's chunk size, and its sample. */
  ghost predicate History(ctl: Control, tasks: seq<Started>, seen: seq<nat>)
    requires ValidControl(ctl)
  {
    if tasks == [] then seen == []
    else
      var earlier, last := tasks[..|tasks| - 1], tasks[|tasks| - 1];
      if OwnPromotions(last.task) == 0 then
        History(ctl, earlier, seen) && last.chunk == ChunkAfter(ctl, seen)
      else
        && seen != [] && History(ctl, earlier, seen[..|seen| - 1])
        && last.chunk == ChunkAfter(ctl, seen[..|seen| - 1])
        && Samples(seen[|seen| - 1], last.task)
  }

  lemma {:induction false} OneSample(d: Dag, k: nat, k': nat)
    requires OwnPromotions(d) > 0 && Samples(k, d) && Samples(k', d)
    ensures k == k'
  {
    match d
    case Then(a, b) =>
      if OwnPromotions(a) > 0 {
        OneSample(a, k, k');
      } else {
        OneSample(b, k, k');
      }
    case Par(_, _, _) =>
  }

  /** Every sample of a thread stands for at most the leaf iterations of the nest. */
  lemma {:induction false} HistoryBounded(n: Nest, d: Dag, start: int, ctl: Control, tasks: seq<Started>,
                                          seen: seq<nat>)
    requires n.levels >= 1 && Implements(n, d) && ExactTask(start, d)
    requires ValidControl(ctl) && History(ctl, tasks, seen)
    requires forall i :: 0 <= i < |tasks| ==> TaskIn(start, d, tasks[i].chunk, tasks[i].task)
    ensures Bounded(ctl, seen, BodiesOf(Sequential(n)))
  {
    if tasks != [] {
      var earlier, last := tasks[..|tasks| - 1], tasks[|tasks| - 1];
      var before := if OwnPromotions(last.task) == 0 then seen else seen[..|seen| - 1];
      HistoryBounded(n, d, start, ctl, earlier, before);
      if OwnPromotions(last.task) > 0 {
        PollsCountChunks(n, d, start, last.chunk, last.task);
        OneSample(last.task, seen[|seen| - 1], Polls(Own(last.task)));
        LastBounded(ctl, seen, last.chunk, BodiesOf(Sequential(n)));
      }
    }
  }

  lemma LastBounded(ctl: Control, seen: seq<nat>, chunk: int, total: int)
    requires ValidControl(ctl) && seen != [] && Bounded(ctl, seen[..|seen| - 1], total)
    requires chunk == ChunkAfter(ctl, seen[..|seen| - 1]) && chunk * seen[|seen| - 1] <= total
    ensures Bounded(ctl, seen, total)
  {
    var before := seen[..|seen| - 1];
    forall i | 0 <= i < |seen|
      ensures BoundedAt(ctl, seen, i, total)
    {
      if i < |seen| - 1 {
        EarlierBounded(ctl, seen, i, total);
      } else {
        Commutes(chunk, seen[i]);
      }
    }
  }

  lemma Commutes(x: int, y: int)
    ensures x * y == y * x
  {
  }

  /** The chunk sizes a thread hands out during a run: at least 1, and never above both the initial size and
      the leaf iterations of the nest. */
  lemma ThreadChunkBounded(n: Nest, d: Dag, start: int, ctl: Control, tasks: seq<Started>, seen: seq<nat>)
    requires n.levels >= 1 && Implements(n, d) && ExactTask(start, d)
    requires ValidControl(ctl) && History(ctl, tasks, seen)
    requires forall i :: 0 <= i < |tasks| ==> TaskIn(start, d, tasks[i].chunk, tasks[i].task)
    ensures var total := BodiesOf(Sequential(n));
            1 <= ChunkAfter(ctl, seen) <= if ctl.initial < total then total else ctl.initial
  {
    HistoryBounded(n, d, start, ctl, tasks, seen);
    ChunkBounded(ctl, seen, BodiesOf(Sequential(n)));
  }
}
