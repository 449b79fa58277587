/** Per-task memory of the runtime, and chunk transfer between leaf loop invocations. */
module TaskMemory {
  import opened LoopNest
  import opened Context

  /** A task memory as far as polls are concerned: chunk size, leaf iterations since the last poll or reset,
      and polls since the last reset. */
  datatype Memory = Memory(chunk: int, progress: int, polls: nat)

  /** A memory that has just been reset. */
  function Fresh(chunk: int): Memory {
    Memory(chunk, 0, 0)
  }

  /** A snapshot of a task memory. */
  datatype TaskState = TaskState(level: nat, memory: Memory)

  class TaskMem {
    var startingLevel: nat
    var chunksize: int
    var remaining: int
    var pollingCount: nat

    constructor ()
    {
      startingLevel, chunksize, remaining, pollingCount := 0, 1, 1, 0;
    }

    /** A chunk is in progress with at least one iteration to go. */
    ghost predicate Valid()
      reads this
    {
      1 <= remaining <= chunksize <= LIMIT
    }

    /** Leaf iterations executed since the last poll or reset. */
    ghost function Progress(): int
      reads this
    {
      chunksize - remaining
    }

    ghost function State(): Memory
      reads this
    {
      Memory(chunksize, Progress(), pollingCount)
    }

    ghost function Snapshot(): TaskState
      reads this
    {
      TaskState(startingLevel, State())
    }

    /** `task_memory_reset`; `chunk` is the chunk size tracked by the worker thread. */
    method Reset(level: nat, chunk: int)
      requires 1 <= chunk <= LIMIT
      modifies this
      ensures Valid() && Snapshot() == TaskState(level, Fresh(chunk))
    {
      startingLevel := level;
      pollingCount := 0;
      chunksize := chunk;
      remaining := chunksize;
    }

    /** `update_and_has_remaining_chunksize`, called after a chunk of at most `chunk` iterations,
        where `chunk` is what `get_chunksize` returned before it. */
    method UpdateAndHasRemaining(iterations: int, chunk: int) returns (more: bool)
      requires Valid()
      requires chunk == remaining && 0 <= iterations <= chunk
      modifies this`remaining
      ensures Valid()
      ensures more <==> iterations < chunk
      ensures more ==> Progress() == old(Progress()) + iterations
      ensures !more ==> Progress() == 0 && old(Progress()) + iterations == chunksize
    {
      if iterations == chunk {
        remaining := chunksize;
        more := false;
      } else {
        remaining := remaining - iterations;
        more := true;
      }
    }
  }
}
