/** The context array `cxts`: one cache line of eight 64-bit words per loop level, of which four are
  used.  All facts here are about snapshots (`cxts[..]`), so they hold for any context array. */
module Context {
  import opened LoopNest
  import opened ForkJoin

  const CACHELINE: nat := 8
  const START_ITER: nat := 0
  const MAX_ITER: nat := 1
  const LIVE_IN_ENV: nat := 2
  const LIVE_OUT_ENV: nat := 3

  /** Unsigned 64-bit arithmetic. */
  function Add64(a: int, b: int): int { (a + b) % WORD }
  function Sub64(a: int, b: int): int { (a - b) % WORD }

  /** Where the promotion handler splits the iterations after `low`. */
  function Midpoint(low: int, high: int): int { Add64(Add64(low, 1), high) / 2 }

  /** The midpoint of the promotion handler lies between its bounds if and only if the sum does not wrap;
      bounds below 2^63 are sufficient. */
  lemma MidpointExact(low: int, high: int)
    requires 0 <= low && low + 2 <= high < WORD
    ensures low + 1 <= Midpoint(low, high) < high <==> low + 1 + high < WORD
    ensures high <= LIMIT ==> low + 1 + high < WORD
  {
  }

  /** The end of a chunk is the smaller of `iv + chunk` and `max` if and only if the sum does not wrap. */
  lemma ChunkEndExact(iv: int, chunk: int, max: int)
    requires 0 <= iv < max < WORD && 1 <= chunk < WORD
    ensures var high := if Add64(iv, chunk) < max then Add64(iv, chunk) else max;
            high == (if iv + chunk < max then iv + chunk else max) <==> iv + chunk < WORD
    ensures iv <= LIMIT && chunk < LIMIT ==> iv + chunk < WORD
  {
  }

  /** Where the chunk that starts with iteration `iv` ends: `umin(iv + chunk, max)`. */
  method ChunkEnd(iv: int, chunk: int, max: int) returns (high: int)
    requires 0 <= iv < max <= LIMIT && 1 <= chunk <= LIMIT
    ensures high == if iv + chunk < max then iv + chunk else max
  {
    var sum := Add64(iv, chunk);
    high := if sum < max then sum else max;
  }

  /** What a slot holds, and how often it has been written. */
  datatype Stored = Stored(value: Option<int>, writes: nat)

  const UNWRITTEN: Stored := Stored(None, 0)

  /** One entry of a reduction array; `None` until a task stores its result there. */
  class Slot {
    var value: Option<int>
    ghost var writes: nat

    constructor ()
      ensures State() == UNWRITTEN
    {
      value, writes := None, 0;
    }

    ghost function State(): Stored
      reads this
    {
      Stored(value, writes)
    }

    /** Accesses are recorded in the set `used`. */
    method Store(v: int, ghost used: set<object>) returns (ghost used': set<object>)
      modifies this
      ensures State() == Stored(Some(v), old(writes) + 1)
      ensures used' == used + {this}
    {
      value, writes := Some(v), writes + 1;
      used' := used + {this};
    }

    method Load(ghost used: set<object>) returns (v: int, ghost used': set<object>)
      requires value.Some?
      ensures value == Some(v)
      ensures used' == used + {this}
    {
      v := value.value;
      used' := used + {this};
    }
  }

  /** A word of the context array: not yet written, a number, the live-in environment (captured
      outer iteration) or the live-out environment (reduction array, indexed by `myIndex`). */
  datatype Word = Undef | Int(n: int) | Env(prefix: Index) | Reduction(slots: seq<Slot>)

  function Number(w: Word): int {
    if w.Int? then w.n else 0
  }

  // ---------- Lines of loops that are in progress ----------

  /** The loop at level `l` is executing iteration `at[l]` under the outer iteration `at[..l]`. */
  ghost predicate InProgress(c: seq<Word>, l: nat, at: Index)
    requires l < |at| && CACHELINE * (l + 1) <= |c|
  {
    && c[CACHELINE * l + START_ITER] == Int(at[l])
    && c[CACHELINE * l + MAX_ITER].Int?
    && 0 <= at[l] < c[CACHELINE * l + MAX_ITER].n <= LIMIT
    && c[CACHELINE * l + LIVE_IN_ENV] == Env(at[..l])
  }

  /** No iteration follows the current one at level `l`. */
  ghost predicate NoneLeft(c: seq<Word>, l: nat, at: Index)
    requires l < |at| && CACHELINE * (l + 1) <= |c|
  {
    Number(c[CACHELINE * l + MAX_ITER]) <= at[l] + 1
  }

  /** Invariant of a task that started at level `root` and currently has its loops `root .. |at|` in
      progress at iteration `at`: no loop outside `startingLevel` has an iteration left. */
  ghost predicate TaskInvariant(n: Nest, c: seq<Word>, root: nat, startingLevel: nat, at: Index) {
    && |c| == CACHELINE * n.levels
    && root <= |at| <= n.levels
    && root <= startingLevel
    && (forall l :: root <= l < |at| ==> InProgress(c, l, at))
    && (forall l :: root <= l < |at| && l < startingLevel ==> NoneLeft(c, l, at))
  }

  // ---------- Work that is left after the iterations in progress ----------

  ghost function Rem(n: Nest, c: seq<Word>, at: Index, l: nat): multiset<Event>
    requires l < |at| <= n.levels && CACHELINE * (l + 1) <= |c|
  {
    Work(n, at[..l], at[l] + 1, Number(c[CACHELINE * l + MAX_ITER]))
  }

  /** The iterations after the current one at levels `a .. b`. */
  ghost function RemAll(n: Nest, c: seq<Word>, at: Index, a: nat, b: nat): multiset<Event>
    requires a <= b <= |at| <= n.levels && CACHELINE * b <= |c|
    decreases b - a
  {
    if a == b then multiset{} else RemAll(n, c, at, a, b - 1) + Rem(n, c, at, b - 1)
  }

  lemma {:induction false} RemConcat(n: Nest, c: seq<Word>, at: Index, a: nat, m: nat, b: nat)
    requires a <= m <= b <= |at| <= n.levels && CACHELINE * b <= |c|
    ensures RemAll(n, c, at, a, b) == RemAll(n, c, at, a, m) + RemAll(n, c, at, m, b)
    decreases b - m
  {
    if m < b {
      RemConcat(n, c, at, a, m, b - 1);
    }
  }

  lemma RemSingle(n: Nest, c: seq<Word>, at: Index, l: nat)
    requires l < |at| <= n.levels && CACHELINE * (l + 1) <= |c|
    ensures RemAll(n, c, at, l, l + 1) == Rem(n, c, at, l)
  {
    assert RemAll(n, c, at, l, l) == multiset{};
  }

  /** Only the lines `a .. b` and the iterations up to `b` matter. */
  lemma {:induction false} RemFrame(n: Nest, c: seq<Word>, at: Index, c': seq<Word>, at': Index, a: nat, b: nat)
    requires a <= b <= |at| <= n.levels && b <= |at'| <= n.levels
    requires CACHELINE * b <= |c| && CACHELINE * b <= |c'|
    requires at[..b] == at'[..b]
    requires forall i :: CACHELINE * a <= i < CACHELINE * b ==> c[i] == c'[i]
    ensures RemAll(n, c, at, a, b) == RemAll(n, c', at', a, b)
    decreases b - a
  {
    if a < b {
      assert at[..b - 1] == at[..b][..b - 1] == at'[..b][..b - 1] == at'[..b - 1];
      assert at[b - 1] == at[..b][b - 1] == at'[..b][b - 1] == at'[b - 1];
      RemFrame(n, c, at, c', at', a, b - 1);
    }
  }

  lemma {:induction false} RemNone(n: Nest, c: seq<Word>, at: Index, a: nat, b: nat)
    requires a <= b <= |at| <= n.levels && CACHELINE * b <= |c|
    requires forall l :: a <= l < b ==> NoneLeft(c, l, at)
    ensures RemAll(n, c, at, a, b) == multiset{}
    decreases b - a
  {
    if a < b {
      RemNone(n, c, at, a, b - 1);
      assert NoneLeft(c, b - 1, at);
      WorkEmpty(n, at[..b - 1], at[b - 1] + 1, Number(c[CACHELINE * (b - 1) + MAX_ITER]));
    }
  }

  // ---------- Remaining work lies to the right of the iterations in progress ----------

  /** `q` branches off `at` at one of the levels `a .. b`, towards a later iteration. */
  ghost predicate RightOf(q: Index, at: Index, a: nat, b: nat) {
    exists l :: a <= l < b && l < |at| && l < |q| && q[..l] == at[..l] && q[l] > at[l]
  }

  lemma {:induction false} RemRightOf(n: Nest, c: seq<Word>, at: Index, a: nat, b: nat, e: Event)
    requires a <= b <= |at| <= n.levels && CACHELINE * b <= |c|
    requires e in RemAll(n, c, at, a, b)
    ensures RightOf(e.at, at, a, b)
    decreases b - a
  {
    if e in RemAll(n, c, at, a, b - 1) {
      RemRightOf(n, c, at, a, b - 1, e);
    } else {
      assert e in Rem(n, c, at, b - 1);
      WorkUnder(n, at[..b - 1], at[b - 1] + 1, Number(c[CACHELINE * (b - 1) + MAX_ITER]), e);
    }
  }

  /** `p` is on `at` up to level `b - 1`, or to its left there. */
  ghost predicate OnOrLeftOf(p: Index, at: Index, b: nat) {
    0 < b <= |p| && b <= |at| && p[..b - 1] == at[..b - 1] && p[b - 1] <= at[b - 1]
  }

  lemma RightOfApart(p: Index, q: Index, at: Index, a: nat, b: nat)
    requires OnOrLeftOf(p, at, b) && RightOf(q, at, a, b)
    ensures Apart(p, q)
  {
    var l :| a <= l < b && l < |at| && l < |q| && q[..l] == at[..l] && q[l] > at[l];
    if l < b - 1 {
      assert p[l] == p[..b - 1][l] == at[..b - 1][l] == at[l];
    }
    ApartAt(p, q, l);
  }

  /** Everything in `x` is on or left of `at`; the remaining work is right of it. */
  lemma RemApart(n: Nest, c: seq<Word>, at: Index, a: nat, b: nat, x: multiset<Event>)
    requires a <= b <= |at| <= n.levels && CACHELINE * b <= |c|
    requires forall e :: e in x ==> OnOrLeftOf(e.at, at, b)
    ensures AllApart(x, RemAll(n, c, at, a, b))
  {
    var r := RemAll(n, c, at, a, b);
    forall e, f | e in x && f in r
      ensures Apart(e.at, f.at)
    {
      RemRightOf(n, c, at, a, b, f);
      RightOfApart(e.at, f.at, at, a, b);
    }
  }

  /** Work remaining at inner levels is on `at` for all outer levels. */
  lemma RemOnSpine(n: Nest, c: seq<Word>, at: Index, m: nat, b: nat)
    requires 0 < m <= b <= |at| <= n.levels && CACHELINE * b <= |c|
    ensures forall e :: e in RemAll(n, c, at, m, b) ==> OnOrLeftOf(e.at, at, m)
  {
    forall e | e in RemAll(n, c, at, m, b)
      ensures OnOrLeftOf(e.at, at, m)
    {
      RemRightOf(n, c, at, m, b, e);
      var l :| m <= l < b && l < |at| && l < |e.at| && e.at[..l] == at[..l] && e.at[l] > at[l];
      assert e.at[..m - 1] == e.at[..l][..m - 1] == at[..l][..m - 1] == at[..m - 1];
      assert e.at[m - 1] == e.at[..l][m - 1] == at[..l][m - 1] == at[m - 1];
    }
  }

  lemma RemConcatApart(n: Nest, c: seq<Word>, at: Index, a: nat, m: nat, b: nat)
    requires a <= m <= b <= |at| <= n.levels && CACHELINE * b <= |c|
    ensures AllApart(RemAll(n, c, at, m, b), RemAll(n, c, at, a, m))
  {
    if a < m {
      RemOnSpine(n, c, at, m, b);
      RemApart(n, c, at, a, m, RemAll(n, c, at, m, b));
    }
  }

  // ---------- What a slice or a handler call has done when it returns ----------

  function Positive(rc: int): nat {
    if rc > 0 then rc else 0
  }

  /** The lines of the context after a call made at iteration `at` that returned `rc`, as seen by the
      caller: the `rc` innermost levels in progress have been unwound, the lines of all other
      levels are as before, and no level left of `startingLevel` has an iteration left. */
  ghost predicate Unwound(n: Nest, c: seq<Word>, c': seq<Word>, root: nat, s: nat, s': nat, at: Index, rc: int) {
    var k := |at| - Positive(rc);
    && |c| == |c'| == CACHELINE * n.levels
    && root <= k && |at| <= n.levels
    && (forall i :: 0 <= i < CACHELINE * k ==> c'[i] == c[i])
    && s <= s'
    && (rc > 0 ==> k <= s')
    && (forall l :: root <= l < k && l < s' ==> NoneLeft(c, l, at))
  }

  /** The call did its `own` work and everything that was left at the levels it unwound. */
  ghost predicate Did(n: Nest, c: seq<Word>, at: Index, rc: int, own: multiset<Event>, d: Dag) {
    && Positive(rc) <= |at| <= n.levels && |c| == CACHELINE * n.levels
    && Bag(d) == own + RemAll(n, c, at, |at| - Positive(rc), |at|)
    && Legal(d)
  }
}
