/** Chunking of the leaf loop refines the unchunked loop.

  The unchunked leaf loop polls after every iteration; the chunked one polls after every full chunk,
  where a chunk that did not fill up in one invocation of the loop is continued in the next.  Both are
  the same loop for different heartbeat patterns: the chunked loop misses the polls inside a chunk. */
module LeafChunking {
  import opened LoopNest
  import opened ForkJoin
  import opened Accounts
  import opened Beats
  import opened HeartbeatSteps
  import opened TaskMemory
  import opened Context

  /** How a leaf loop ended: the first iteration it did not execute, its private accumulator, the return
      code of the handler, and the values of START the handler was called with. */
  datatype LeafResult = LeafResult(next: int, private: int, rc: int, calls: seq<int>)

  /** The unchunked loop, before iteration `i`. */
  function Unchunked(n: Nest, at: Index, i: int, max: int, beat: int -> bool, handler: int -> int,
                     private: int, calls: seq<int>): LeafResult
    decreases max - i, 1
  {
    if max <= i then LeafResult(i, private, 0, calls)
    else AfterBody(n, at, i, max, beat, handler, n.plus(private, n.leaf(at + [i])), calls)
  }

  /** The unchunked loop after the body of iteration `i`, at its poll. */
  function AfterBody(n: Nest, at: Index, i: int, max: int, beat: int -> bool, handler: int -> int,
                     private: int, calls: seq<int>): LeafResult
    requires i < max
    decreases max - i, 0
  {
    if !beat(i) then Unchunked(n, at, i + 1, max, beat, handler, private, calls)
    else if handler(i) > 0 then LeafResult(i + 1, private, handler(i), calls + [i])
    else Unchunked(n, at, i + 1, max, beat, handler, private, calls + [i])
  }

  /** The iterations `i .. stop` after which there is a heartbeat, in order. */
  function BeatsIn(beat: int -> bool, i: int, stop: int): (s: seq<int>)
    decreases stop - i
  {
    if stop <= i then [] else (if beat(i) then [i] else []) + BeatsIn(beat, i + 1, stop)
  }

  lemma {:induction false} BeatsInOrder(beat: int -> bool, i: int, stop: int)
    ensures var s := BeatsIn(beat, i, stop);
            && (forall j :: j in s <==> i <= j < stop && beat(j))
            && (forall a, b :: 0 <= a < b < |s| ==> s[a] < s[b])
    decreases stop - i
  {
    if i < stop {
      BeatsInOrder(beat, i + 1, stop);
      var rest := BeatsIn(beat, i + 1, stop);
      forall a, b | beat(i) && 0 <= a < b < 1 + |rest|
        ensures ([i] + rest)[a] < ([i] + rest)[b]
      {
        assert rest[b - 1] in rest;
      }
    }
  }

  /** What an unchunked loop that runs on from iteration `i` does: the handler is called after exactly the
      iterations with a heartbeat, and the loop ends after the first of them for which the handler returns a
      positive code, or at its bound. */
  ghost predicate EndsAtBeat(r: LeafResult, i: int, max: int, beat: int -> bool, handler: int -> int,
                             calls: seq<int>)
  {
    && i <= r.next <= max && r.calls == calls + BeatsIn(beat, i, r.next)
    && (forall j :: i <= j < r.next - 1 && beat(j) ==> handler(j) <= 0)
    && (r.rc > 0 ==> i < r.next && beat(r.next - 1) && r.rc == handler(r.next - 1))
    && (r.rc <= 0 ==> r.rc == 0 && r.next == max && (i < max && beat(max - 1) ==> handler(max - 1) <= 0))
  }

  lemma {:induction false} UnchunkedIs(n: Nest, at: Index, start: int, i: int, max: int, beat: int -> bool,
                                       handler: int -> int, private: int, calls: seq<int>)
    requires start <= i <= max && private == Fold(n, at, start, i)
    ensures var r := Unchunked(n, at, i, max, beat, handler, private, calls);
            r.private == Fold(n, at, start, r.next) && EndsAtBeat(r, i, max, beat, handler, calls)
    decreases max - i
  {
    if i < max {
      var private' := n.plus(private, n.leaf(at + [i]));
      var calls' := if beat(i) then calls + [i] else calls;
      if beat(i) && handler(i) > 0 {
        assert BeatsIn(beat, i, i + 1) == [i] + BeatsIn(beat, i + 1, i + 1);
      } else {
        UnchunkedIs(n, at, start, i + 1, max, beat, handler, private', calls');
        var r := Unchunked(n, at, i + 1, max, beat, handler, private', calls');
        BeatFirst(r, i, max, beat, handler, calls);
      }
    }
  }

  lemma BeatFirst(r: LeafResult, i: int, max: int, beat: int -> bool, handler: int -> int, calls: seq<int>)
    requires i < max && (beat(i) ==> handler(i) <= 0)
    requires EndsAtBeat(r, i + 1, max, beat, handler, if beat(i) then calls + [i] else calls)
    ensures EndsAtBeat(r, i, max, beat, handler, calls)
  {
    var first := if beat(i) then [i] else [];
    assert BeatsIn(beat, i, r.next) == first + BeatsIn(beat, i + 1, r.next);
    assert calls + first + BeatsIn(beat, i + 1, r.next) == calls + (first + BeatsIn(beat, i + 1, r.next));
    assert calls + first == if beat(i) then calls + [i] else calls;
  }

  // Sealed forms, which unfold only next to a mention of `Opened`: the loop gives `goal` when it goes on before
  // iteration `i`, or after the body of iteration `last`.

  ghost predicate Reaches(n: Nest, at: Index, i: int, max: int, beat: int -> bool, handler: int -> int,
                          private: int, calls: seq<int>, goal: LeafResult)
  {
    forall u {:trigger Opened(u)} :: Opened(u) ==> Unchunked(n, at, i, max, beat, handler, private, calls) == goal
  }

  ghost predicate ReachesAfter(n: Nest, at: Index, last: int, max: int, beat: int -> bool, handler: int -> int,
                               private: int, calls: seq<int>, goal: LeafResult)
    requires last < max
  {
    forall u {:trigger Opened(u)} :: Opened(u) ==> AfterBody(n, at, last, max, beat, handler, private, calls) == goal
  }

  /** Iteration `i` ends a full chunk, when the current chunk ends with iteration `end`. */
  predicate EndsChunk(end: int, chunksize: int, i: int)
    requires chunksize > 0
    decreases i - end
  {
    i == end || (i > end && EndsChunk(end + chunksize, chunksize, i))
  }

  /** The heartbeats the chunked loop notices. */
  function AtChunkEnds(end: int, chunksize: int, beat: int -> bool): int -> bool
    requires chunksize > 0
  {
    i => EndsChunk(end, chunksize, i) && beat(i)
  }

  /** The chunk that iteration `iv` belongs to ends with iteration `next`. */
  predicate CurrentEnd(end: int, chunksize: int, iv: int, next: int)
    requires chunksize > 0
  {
    EndsChunk(end, chunksize, next) && next - chunksize < iv <= next
  }

  /** `remaining` iterations from `iv` on are left of the current chunk. */
  predicate InChunk(end: int, chunksize: int, iv: int, remaining: int)
    requires chunksize > 0
  {
    CurrentEnd(end, chunksize, iv, iv + remaining - 1)
  }

  lemma {:induction false} NextEnd(end: int, chunksize: int, next: int)
    requires chunksize > 0 && EndsChunk(end, chunksize, next)
    ensures EndsChunk(end, chunksize, next + chunksize)
    decreases next - end
  {
    if next != end {
      NextEnd(end + chunksize, chunksize, next);
    }
  }

  lemma {:induction false} EndsAreApart(end: int, chunksize: int, i: int, next: int)
    requires chunksize > 0 && EndsChunk(end, chunksize, i) && EndsChunk(end, chunksize, next)
    requires next - chunksize < i <= next
    ensures i == next
    decreases next - end
  {
    if end < i {
      EndsAreApart(end + chunksize, chunksize, i, next);
    }
  }

  /** Within a chunk, only its last iteration is followed by a poll. */
  lemma QuietUntilEnd(end: int, chunksize: int, iv: int, next: int, high: int, beat: int -> bool)
    requires chunksize > 0 && CurrentEnd(end, chunksize, iv, next)
    requires iv < high <= next + 1
    ensures forall i :: iv <= i < high - 1 ==> !AtChunkEnds(end, chunksize, beat)(i)
    ensures AtChunkEnds(end, chunksize, beat)(high - 1) <==> high == next + 1 && beat(high - 1)
  {
    forall i | iv <= i < high && EndsChunk(end, chunksize, i)
      ensures i == next
    {
      EndsAreApart(end, chunksize, i, next);
    }
  }

  /** The inner loop: the iterations `iv .. high` without a poll between them. */
  method RunChunk(n: Nest, at: Index, iv: int, high: int, before: int, ghost start: int, ghost max: int,
                  ghost noticed: int -> bool, ghost handler: int -> int, ghost calls: seq<int>)
    returns (private: int, ghost d: Dag)
    requires |at| + 1 == n.levels && start <= iv < high <= max
    requires forall i :: iv <= i < high - 1 ==> !noticed(i)
    ensures before == Fold(n, at, start, iv) ==> private == Fold(n, at, start, high)
    ensures Bag(d) == Work(n, at, iv, high) && Legal(d) && Straight(d, high - iv) && EndsWith(d, at + [high - 1])
    ensures AfterBody(n, at, high - 1, max, noticed, handler, private, calls)
            == Unchunked(n, at, iv, max, noticed, handler, before, calls)
  {
    private, d := before, Done;
    LegalDone();
    WorkEmpty(n, at, iv, iv);
    var low := iv;
    while low < high
      invariant iv <= low <= high
      invariant before == Fold(n, at, start, iv) ==> private == Fold(n, at, start, low)
      invariant Bag(d) == Work(n, at, iv, low) && Legal(d) && Straight(d, low - iv)
      invariant low == iv ==> private == before
      invariant low > iv ==> EndsWith(d, at + [low - 1])
      invariant low > iv ==> AfterBody(n, at, low - 1, max, noticed, handler, private, calls)
                             == Unchunked(n, at, iv, max, noticed, handler, before, calls)
    {
      LeafIteration(n, at, iv, low, d);
      private := n.plus(private, n.leaf(at + [low]));
      d := Then(d, Act(Body(at + [low])));
      low := low + 1;
    }
  }

  /** One round of the outer loop up to the poll: run what remains of the chunk; there is `more` of the chunk
      to run if it did not fill up.  `end` is where the first chunk of the loop ends. */
  method Round(n: Nest, at: Index, iv: int, max: int, before: int, tmem: TaskMem, ghost start: int,
               ghost size: int, ghost end: int, ghost beat: int -> bool, ghost handler: int -> int,
               ghost calls: seq<int>, ghost goal: LeafResult)
    returns (private: int, ghost d: Dag, high: int, more: bool)
    requires |at| + 1 == n.levels && 0 <= start <= iv < max <= LIMIT && tmem.Valid() && tmem.chunksize == size
    requires InChunk(end, size, iv, tmem.remaining)
    modifies tmem`remaining
    ensures iv < high <= max && tmem.Valid()
    ensures before == Fold(n, at, start, iv) ==> private == Fold(n, at, start, high)
    ensures Bag(d) == Work(n, at, iv, high) && Legal(d) && Straight(d, high - iv) && EndsWith(d, at + [high - 1])
    ensures Reaches(n, at, iv, max, AtChunkEnds(end, size, beat), handler, before, calls, goal) ==>
              ReachesAfter(n, at, high - 1, max, AtChunkEnds(end, size, beat), handler, private, calls, goal)
    ensures AtChunkEnds(end, size, beat)(high - 1) <==> !more && beat(high - 1)
    ensures more ==> high == max && tmem.Progress() == old(tmem.Progress()) + (high - iv)
    ensures !more ==> tmem.Progress() == 0 && old(tmem.Progress()) + (high - iv) == size
    ensures !more ==> high == iv + old(tmem.remaining) && InChunk(end, size, high, tmem.remaining)
  {
    var chunk := tmem.remaining;
    high := ChunkEnd(iv, chunk, max);
    QuietUntilEnd(end, size, iv, iv + chunk - 1, high, beat);
    private, d := RunChunk(n, at, iv, high, before, start, max, AtChunkEnds(end, size, beat), handler, calls);
    more := tmem.UpdateAndHasRemaining(high - iv, chunk);
    NextEnd(end, size, iv + chunk - 1);
  }

  /** After iteration `last`: the loop ends if there is more of the chunk to run; otherwise poll, and call the
      handler if there is a heartbeat. */
  method AtPoll(n: Nest, at: Index, last: int, max: int, more: bool, beat: int -> bool, handler: int -> int,
                private: int, calls: seq<int>, ghost noticed: int -> bool, ghost goal: LeafResult)
    returns (calls': seq<int>, result: Option<LeafResult>)
    requires last < max && (more ==> last + 1 == max) && (noticed(last) <==> !more && beat(last))
    requires ReachesAfter(n, at, last, max, noticed, handler, private, calls, goal)
    ensures result.Some? ==> result.value == goal && goal.next == last + 1 && (goal.rc <= 0 ==> last + 1 == max)
    ensures result.None? ==> !more && Reaches(n, at, last + 1, max, noticed, handler, private, calls', goal)
  {
    assert Opened(0);
    calls', result := calls, None;
    if more {
      result := Some(LeafResult(last + 1, private, 0, calls));
      assert Unchunked(n, at, last + 1, max, noticed, handler, private, calls) == result.value;
    } else if beat(last) {
      var rc;
      rc, calls' := handler(last), calls + [last];
      if rc > 0 {
        result := Some(LeafResult(last + 1, private, rc, calls'));
      }
    }
  }

  /** A round, its poll and, if there is a heartbeat, the handler: the loop ends with `result`, or goes on. */
  method RoundAndPoll(n: Nest, at: Index, iv: int, max: int, before: int, calls: seq<int>, beat: int -> bool,
                      handler: int -> int, tmem: TaskMem, ghost size: int, ghost end: int, ghost goal: LeafResult)
    returns (private: int, high: int, calls': seq<int>, polled: bool, result: Option<LeafResult>)
    requires |at| + 1 == n.levels && 0 <= iv < max <= LIMIT && tmem.Valid() && tmem.chunksize == size
    requires InChunk(end, size, iv, tmem.remaining)
    requires Reaches(n, at, iv, max, AtChunkEnds(end, size, beat), handler, before, calls, goal)
    modifies tmem`remaining
    ensures iv < high <= max && tmem.Valid()
    ensures result.Some? ==> result.value == goal && goal.next == high && (goal.rc <= 0 ==> high == max)
    ensures result.None? ==> polled && InChunk(end, size, high, tmem.remaining)
    ensures result.None? ==>
              Reaches(n, at, high, max, AtChunkEnds(end, size, beat), handler, private, calls', goal)
    ensures tmem.Progress() + (if polled then size else 0) == old(tmem.Progress()) + (high - iv)
  {
    ghost var d;
    var more;
    private, d, high, more := Round(n, at, iv, max, before, tmem, iv, size, end, beat, handler, calls, goal);
    polled := !more;
    calls', result :=
      AtPoll(n, at, high - 1, max, more, beat, handler, private, calls, AtChunkEnds(end, size, beat), goal);
  }

  /** The chunked leaf loop.  It does exactly what the unchunked loop does when heartbeats are noticed
      at the ends of full chunks only: the same iterations in the same order, the same private value on
      all three exits, and the handler sees the last iteration executed in START.  How much of the
      current chunk is used up is carried over in the task memory: every poll is for one full chunk. */
  method ChunkedLoop(n: Nest, at: Index, start: int, max: int, beat: int -> bool, handler: int -> int, tmem: TaskMem)
    returns (result: LeafResult, polls: nat)
    requires |at| + 1 == n.levels && 0 <= start <= max <= LIMIT && tmem.Valid()
    modifies tmem`remaining
    ensures tmem.Valid()
    ensures result == Unchunked(n, at, start, max,
                                AtChunkEnds(start + old(tmem.remaining) - 1, tmem.chunksize, beat), handler, n.zero, [])
    ensures EndsAtBeat(result, start, max, AtChunkEnds(start + old(tmem.remaining) - 1, tmem.chunksize, beat),
                       handler, [])
    ensures result.private == Fold(n, at, start, result.next)
    ensures polls * tmem.chunksize + tmem.Progress() == result.next - start + old(tmem.Progress())
  {
    ghost var end, size := start + tmem.remaining - 1, tmem.chunksize;
    ghost var goal := Unchunked(n, at, start, max, AtChunkEnds(end, size, beat), handler, n.zero, []);
    UnchunkedIs(n, at, start, start, max, AtChunkEnds(end, size, beat), handler, n.zero, []);
    var private, calls, iv := n.zero, [], start;
    polls := 0;
    while iv < max
      invariant start <= iv <= max && tmem.Valid() && tmem.chunksize == size
      invariant InChunk(end, size, iv, tmem.remaining)
      invariant Reaches(n, at, iv, max, AtChunkEnds(end, size, beat), handler, private, calls, goal)
      invariant polls * size + tmem.Progress() == iv - start + old(tmem.Progress())
    {
      var polled, ended;
      private, iv, calls, polled, ended :=
        RoundAndPoll(n, at, iv, max, private, calls, beat, handler, tmem, size, end, goal);
      OneMore(polls, size);
      if polled {
        polls := polls + 1;
      }
      if ended.Some? {
        return ended.value, polls;
      }
    }
    assert Opened(0);
    return LeafResult(iv, private, 0, calls), polls;
  }

  lemma OneMore(polls: nat, size: int)
    ensures (polls + 1) * size == polls * size + size
  {
  }
}
