/** When a task is promoted: exactly where it notices a heartbeat while work is left. */
module Beats {
  import opened LoopNest
  import opened ForkJoin

  /** What a task does itself, one after the other: actions, polls after a leaf iteration, and promotions. */
  datatype Item = Ran(event: Event) | Checked(at: Index) | Split

  function Items(d: Dag): seq<Item> {
    match d
    case Done => []
    case Act(e) => [Ran(e)]
    case Poll(q) => [Checked(q)]
    case Then(a, b) => Items(a) + Items(b)
    case Par(_, _, _) => [Split]
  }

  /** A poll that notices a heartbeat. */
  predicate IsNoticed(beat: Index -> bool, x: Item) {
    x.Checked? && beat(x.at)
  }

  /** From item `j` on the task only runs tail work. */
  ghost predicate TailsFrom(s: seq<Item>, j: nat) {
    forall k :: j <= k < |s| ==> s[k].Ran? && s[k].event.Tail?
  }

  ghost predicate SplitAt(s: seq<Item>, j: nat) {
    j < |s| && s[j].Split?
  }

  /** A poll belongs to the leaf iteration it follows.  A promotion happens only at a poll that notices a
      heartbeat.  A poll that notices a heartbeat is the task's last: either it is promoted there or it has
      nothing left, and then runs nothing but tail work. */
  ghost predicate HeedsAt(beat: Index -> bool, s: seq<Item>, i: nat)
    requires i < |s|
  {
    match s[i]
    case Ran(_) => true
    case Checked(q) =>
      && i > 0 && s[i - 1] == Ran(Body(q))
      && (beat(q) ==> TailsFrom(s, if SplitAt(s, i + 1) then i + 2 else i + 1))
    case Split => i > 0 && IsNoticed(beat, s[i - 1])
  }

  ghost predicate ItemsHeed(beat: Index -> bool, s: seq<Item>) {
    forall i :: 0 <= i < |s| ==> HeedsAt(beat, s, i)
  }

  /** The task that runs `d` responds to heartbeats as above, and so do all tasks it forks.  It forks only
      when it has an iteration to hand over. */
  ghost predicate Heeds(beat: Index -> bool, d: Dag)
    decreases d, 1
  {
    ItemsHeed(beat, Items(d)) && ForksHeed(beat, d)
  }

  ghost predicate ForksHeed(beat: Index -> bool, d: Dag)
    decreases d, 0
  {
    match d
    case Done => true
    case Act(_) => true
    case Poll(_) => true
    case Then(a, b) => ForksHeed(beat, a) && ForksHeed(beat, b)
    case Par(_, a, b) => Heeds(beat, a) && Heeds(beat, b) && exists e :: e in Events(b) && !e.Tail?
  }

  // ---------- Polling after every full chunk ----------

  /** A straight line of `k` leaf iterations. */
  ghost predicate Straight(d: Dag, k: nat) {
    match d
    case Done => k == 0
    case Then(a, Act(e)) => e.Body? && k > 0 && Straight(a, k - 1)
    case _ => false
  }

  /** Leaf iterations since the last poll after the items `s`, if there were `progress` before. */
  function Progressed(progress: int, s: seq<Item>): int
    decreases |s|
  {
    if s == [] then progress else Progressed(After(progress, s[0]), s[1..])
  }

  function After(progress: int, x: Item): int {
    match x
    case Ran(e) => if e.Body? then progress + 1 else progress
    case Checked(_) => 0
    case Split => progress
  }

  /** With chunks of `chunk` iterations, of which `progress` have been run before, the task polls after every
      full chunk and nowhere else. */
  ghost predicate InStep(chunk: int, progress: int, s: seq<Item>)
    decreases |s|
  {
    s != [] ==>
      && (s[0].Checked? ==> progress == chunk) && (s[0].Ran? && s[0].event.Body? ==> progress < chunk)
      && InStep(chunk, After(progress, s[0]), s[1..])
  }

  lemma {:induction false} InStepConcat(chunk: int, progress: int, s: seq<Item>, t: seq<Item>)
    ensures Progressed(progress, s + t) == Progressed(Progressed(progress, s), t)
    ensures InStep(chunk, progress, s + t)
            <==> InStep(chunk, progress, s) && InStep(chunk, Progressed(progress, s), t)
    decreases |s|
  {
    if s == [] {
      assert s + t == t;
    } else {
      assert (s + t)[1..] == s[1..] + t;
      InStepConcat(chunk, After(progress, s[0]), s[1..], t);
    }
  }

  lemma SingleInStep(chunk: int, progress: int, x: Item)
    ensures Progressed(progress, [x]) == After(progress, x)
    ensures InStep(chunk, progress, [x])
            <==> (x.Checked? ==> progress == chunk) && (x.Ran? && x.event.Body? ==> progress < chunk)
  {
    assert [x][1..] == [];
  }

  lemma {:induction false} StraightInStep(chunk: int, progress: int, d: Dag, k: nat)
    requires Straight(d, k) && progress + k <= chunk
    ensures InStep(chunk, progress, Items(d)) && Progressed(progress, Items(d)) == progress + k
  {
    match d
    case Done =>
    case Then(a, Act(e)) =>
      StraightInStep(chunk, progress, a, k - 1);
      InStepConcat(chunk, progress, Items(a), [Ran(e)]);
      SingleInStep(chunk, progress + k - 1, Ran(e));
  }

  /** The task that runs `d` was started with chunk size `chunk` and polls after every full chunk, and so do the
      tasks it forks, with the chunk sizes they were started with. */
  ghost predicate Paced(chunk: int, d: Dag)
    decreases d, 1
  {
    InStep(chunk, 0, Items(d)) && ForksPaced(d)
  }

  ghost predicate ForksPaced(d: Dag)
    decreases d, 0
  {
    match d
    case Done => true
    case Act(_) => true
    case Poll(_) => true
    case Then(a, b) => ForksPaced(a) && ForksPaced(b)
    case Par(p, a, b) => Paced(p.firstChunk, a) && Paced(p.secondChunk, b)
  }

  /** What the items of a task say about its polls, from memory state to memory state. */
  ghost predicate Paces(chunk: int, progress: int, progress': int, d: Dag) {
    && InStep(chunk, progress, Items(d)) && ForksPaced(d)
    && (Forks(d) == 0 ==> Progressed(progress, Items(d)) == progress')
  }

  lemma PacesThen(chunk: int, x: int, y: int, z: int, a: Dag, b: Dag)
    requires Paces(chunk, x, y, a) && Forks(a) == 0 && Paces(chunk, y, z, b)
    ensures Paces(chunk, x, z, Then(a, b))
  {
    InStepConcat(chunk, x, Items(a), Items(b));
  }

  /** Actions that are not leaf iterations change nothing. */
  lemma PacesFree(chunk: int, x: int, y: int, d: Dag, e: Event)
    requires Paces(chunk, x, y, d) && !e.Body?
    ensures Paces(chunk, x, y, Then(d, Act(e)))
  {
    InStepConcat(chunk, x, Items(d), [Ran(e)]);
    SingleInStep(chunk, Progressed(x, Items(d)), Ran(e));
  }

  // ---------- Noticed heartbeats ----------

  ghost predicate NoneNoticed(beat: Index -> bool, s: seq<Item>) {
    forall i :: 0 <= i < |s| ==> !IsNoticed(beat, s[i])
  }

  /** The task has not noticed a heartbeat.  Sealed: it unfolds only next to a mention of `Opened`. */
  ghost predicate Quiet(beat: Index -> bool, d: Dag) {
    forall u {:trigger Opened(u)} :: Opened(u) ==> NoneNoticed(beat, Items(d))
  }

  /** It has just noticed its first heartbeat, after leaf iteration `q`. */
  ghost predicate Noticing(beat: Index -> bool, d: Dag, q: Index) {
    forall u {:trigger Opened(u)} :: Opened(u) ==> NoticesLast(beat, Items(d), q)
  }

  ghost predicate NoticesLast(beat: Index -> bool, s: seq<Item>, q: Index) {
    |s| > 0 && s[|s| - 1] == Checked(q) && beat(q) && NoneNoticed(beat, s[..|s| - 1])
  }

  lemma QuietDone(beat: Index -> bool)
    ensures Quiet(beat, Done) && Heeds(beat, Done)
  {
    assert Opened(0);
  }

  lemma QuietAct(beat: Index -> bool, e: Event)
    ensures Quiet(beat, Act(e)) && Heeds(beat, Act(e))
  {
    assert Opened(0);
  }

  lemma QuietThen(beat: Index -> bool, a: Dag, b: Dag)
    ensures Quiet(beat, Then(a, b)) <==> Quiet(beat, a) && Quiet(beat, b)
  {
    assert Opened(0);
    var s, t := Items(a), Items(b);
    if NoneNoticed(beat, s + t) {
      forall i | 0 <= i < |s|
        ensures !IsNoticed(beat, s[i])
      {
        assert s[i] == (s + t)[i];
      }
      forall i | 0 <= i < |t|
        ensures !IsNoticed(beat, t[i])
      {
        assert t[i] == (s + t)[|s| + i];
      }
    }
  }

  // ---------- Composition ----------

  ghost predicate OnlyTailItems(s: seq<Item>) {
    TailsFrom(s, 0)
  }

  lemma ItemsHeedThen(beat: Index -> bool, s: seq<Item>, t: seq<Item>)
    requires ItemsHeed(beat, s) && ItemsHeed(beat, t)
    requires NoneNoticed(beat, s) || OnlyTailItems(t)
    ensures ItemsHeed(beat, s + t)
  {
    forall i | 0 <= i < |s + t|
      ensures HeedsAt(beat, s + t, i)
    {
      if i < |s| {
        assert HeedsAt(beat, s, i);
        assert IsNoticed(beat, s[i]) ==> !SplitAt(t, 0);
      } else {
        assert HeedsAt(beat, t, i - |s|);
      }
    }
  }

  lemma HeedsThen(beat: Index -> bool, a: Dag, b: Dag)
    requires Heeds(beat, a) && Heeds(beat, b)
    requires Quiet(beat, a) || OnlyTailItems(Items(b))
    ensures Heeds(beat, Then(a, b))
  {
    if Quiet(beat, a) {
      assert Opened(0);
    }
    ItemsHeedThen(beat, Items(a), Items(b));
  }

  lemma {:induction false} StraightHeeds(beat: Index -> bool, d: Dag, k: nat)
    requires Straight(d, k)
    ensures Quiet(beat, d) && Heeds(beat, d)
  {
    match d
    case Done => QuietDone(beat);
    case Then(a, Act(e)) =>
      StraightHeeds(beat, a, k - 1);
      QuietAct(beat, e);
      QuietThen(beat, a, Act(e));
      HeedsThen(beat, a, Act(e));
  }

  /** The last action of `d` is leaf iteration `q`. */
  ghost predicate EndsWith(d: Dag, q: Index) {
    d.Then? && d.second == Act(Body(q))
  }

  /** A poll after leaf iteration `q`. */
  lemma HeedsPoll(beat: Index -> bool, d: Dag, h: Dag, q: Index)
    requires Quiet(beat, Then(d, h)) && Heeds(beat, Then(d, h)) && EndsWith(h, q)
    ensures Heeds(beat, Then(Then(d, h), Poll(q)))
    ensures beat(q) ==> Noticing(beat, Then(Then(d, h), Poll(q)), q)
    ensures !beat(q) ==> Quiet(beat, Then(Then(d, h), Poll(q)))
  {
    assert Opened(0);
    var s := Items(Then(d, h));
    assert Items(h) == Items(h.first) + [Ran(Body(q))];
    var s' := s + [Checked(q)];
    assert Items(Then(Then(d, h), Poll(q))) == s' && s'[..|s|] == s;
    forall i | 0 <= i < |s'|
      ensures HeedsAt(beat, s', i)
    {
      if i < |s| {
        assert HeedsAt(beat, s, i) && !IsNoticed(beat, s[i]);
      }
    }
  }

  /** A promotion at the poll that has just noticed a heartbeat. */
  lemma HeedsSplit(beat: Index -> bool, d: Dag, q: Index, h: Dag)
    requires Noticing(beat, d, q) && Heeds(beat, d) && h.Par? && ForksHeed(beat, h)
    ensures Heeds(beat, Then(d, h))
  {
    assert Opened(0);
    var s := Items(d);
    var s' := s + [Split];
    assert Items(Then(d, h)) == s';
    forall i | 0 <= i < |s'|
      ensures HeedsAt(beat, s', i)
    {
      if i < |s| - 1 {
        assert HeedsAt(beat, s, i) && s[..|s| - 1][i] == s[i];
      } else if i == |s| - 1 {
        assert HeedsAt(beat, s, i);
      }
    }
  }

  // ---------- Promotions of a task ----------

  lemma {:induction false} ForksAreSplits(d: Dag)
    ensures Forks(d) > 0 <==> Split in Items(d)
  {
    match d
    case Done =>
    case Act(_) =>
    case Poll(_) =>
    case Then(a, b) =>
      ForksAreSplits(a);
      ForksAreSplits(b);
    case Par(_, _, _) =>
      assert Items(d)[0] == Split;
  }

  /** Without a noticed heartbeat there is no promotion. */
  lemma QuietUnforked(beat: Index -> bool, d: Dag)
    requires Heeds(beat, d) && Quiet(beat, d)
    ensures Forks(d) == 0
  {
    assert Opened(0);
    var s := Items(d);
    forall i | 0 <= i < |s|
      ensures s[i] != Split
    {
      assert HeedsAt(beat, s, i);
    }
    ForksAreSplits(d);
  }

  lemma {:induction false} CheckedPolls(d: Dag, q: Index)
    requires Checked(q) in Items(d)
    ensures Polls(d) > 0
  {
    match d
    case Poll(_) =>
    case Then(a, b) =>
      if Checked(q) in Items(a) {
        CheckedPolls(a, q);
      } else {
        CheckedPolls(b, q);
      }
  }

  lemma NoticingPolls(beat: Index -> bool, d: Dag, q: Index)
    requires Noticing(beat, d, q)
    ensures Polls(d) > 0
  {
    assert Opened(0);
    CheckedPolls(d, q);
  }

  /** Nothing is promoted before the poll that notices the first heartbeat. */
  lemma NoticingUnforked(beat: Index -> bool, d: Dag, q: Index)
    requires Heeds(beat, d) && Noticing(beat, d, q)
    ensures Forks(d) == 0
  {
    assert Opened(0);
    var s := Items(d);
    forall i | 0 <= i < |s|
      ensures s[i] != Split
    {
      assert HeedsAt(beat, s, i);
      if 0 < i < |s| - 1 {
        assert s[..|s| - 1][i - 1] == s[i - 1];
      }
    }
    ForksAreSplits(d);
  }
}
