/** Adaptive chunk size control: what a worker thread of the runtime tracks between heartbeats.

  Polling counts are sampled at every promotion.  At the end of a window of samples the chunk size is
  scaled so that the sampled interval would be polled about `ratio` times. */
module ChunkControl {
  import opened TaskMemory

  const INT64_MAX: int := 0x7fff_ffff_ffff_ffff

  /** `minimal` selects the variant that aims at the minimum polling count of a window, otherwise the
      maximum; `window` is the number of samples of a window, `ratio` the targeted polling count. */
  datatype Control = Control(minimal: bool, window: nat, ratio: nat, initial: int)

  predicate ValidControl(ctl: Control) {
    1 <= ctl.window && 1 <= ctl.ratio && 1 <= ctl.initial
  }

  // ---------- The value of a window ----------

  function Neutral(minimal: bool): int {
    if minimal then INT64_MAX else 0
  }

  /** The smallest (largest) of the samples, starting from the neutral value. */
  function Extreme(minimal: bool, samples: seq<nat>): (v: int)
    ensures v >= 0
  {
    if samples == [] then Neutral(minimal)
    else
      var v, p := Extreme(minimal, samples[..|samples| - 1]), samples[|samples| - 1];
      if minimal then (if p < v then p else v) else (if p > v then p else v)
  }

  /** Polling counts of a task fit into a signed 64-bit word. */
  ghost predicate FitInWord(s: seq<nat>) {
    forall i :: 0 <= i < |s| ==> s[i] <= INT64_MAX
  }

  /** The value of a window is one of its samples, and no sample is smaller (larger). */
  lemma {:induction false} ExtremeOf(minimal: bool, s: seq<nat>, i: nat)
    requires FitInWord(s) && i < |s|
    ensures Extreme(minimal, s) in s
    ensures if minimal then Extreme(minimal, s) <= s[i] else s[i] <= Extreme(minimal, s)
  {
    var before, last := s[..|s| - 1], s[|s| - 1];
    if |s| == 1 {
      assert Extreme(minimal, before) == Neutral(minimal);
      assert s[0] in s;
    } else {
      ExtremeOf(minimal, before, if i < |s| - 1 then i else 0);
      assert s == before + [last];
      assert last in s;
    }
  }

  /** Polling counts that do not fit are no problem for an upper bound: some sample is at least as large. */
  lemma {:induction false} ExtremeAtMost(minimal: bool, s: seq<nat>) returns (i: nat)
    requires s != []
    ensures i < |s| && Extreme(minimal, s) <= s[i]
  {
    var before, last := s[..|s| - 1], |s| - 1;
    if |s| == 1 || Extreme(minimal, s) == s[last] {
      assert |s| == 1 ==> Extreme(minimal, before) == Neutral(minimal);
      i := last;
    } else {
      i := ExtremeAtMost(minimal, before);
    }
  }

  // ---------- The new chunk size ----------

  /** Computed exactly: rounding of floating-point numbers is not modelled. */
  function Scaled(ctl: Control, value: int, chunk: int): real
    requires ValidControl(ctl)
  {
    value as real / ctl.ratio as real * chunk as real
  }

  /** The new chunk size: the scaled one without its fraction, but at least 1. */
  function Adjusted(ctl: Control, value: int, chunk: int): (c: int)
    requires ValidControl(ctl) && 0 <= value && 1 <= chunk
    ensures c >= 1
  {
    var scaled := Scaled(ctl, value, chunk).Floor;
    if scaled > 0 then scaled else 1
  }

  lemma AdjustedBounds(ctl: Control, value: int, chunk: int)
    requires ValidControl(ctl) && 0 <= value && 1 <= chunk
    ensures var c := Adjusted(ctl, value, chunk);
            && value * chunk < (c + 1) * ctl.ratio
            && (ctl.ratio <= value * chunk ==> c * ctl.ratio <= value * chunk)
            && (value * chunk < ctl.ratio ==> c == 1)
  {
    ScaledBounds(ctl, value, chunk);
    MulNonNegative(value, chunk);
    Clamped(Scaled(ctl, value, chunk).Floor, value * chunk, ctl.ratio);
  }

  lemma ScaledBounds(ctl: Control, value: int, chunk: int)
    requires ValidControl(ctl)
    ensures var f := Scaled(ctl, value, chunk).Floor;
            f * ctl.ratio <= value * chunk < (f + 1) * ctl.ratio
  {
    var y := Scaled(ctl, value, chunk);
    Rescale(value as real, ctl.ratio as real, chunk as real);
    Product(value, chunk);
    FloorBounds(y, value * chunk, ctl.ratio);
  }

  lemma FloorBounds(y: real, x: int, r: int)
    requires y * r as real == x as real && 1 <= r
    ensures y.Floor * r <= x < (y.Floor + 1) * r
  {
    var f := y.Floor;
    Product(f, r);
    Product(f + 1, r);
    assert f as real <= y < (f + 1) as real;
    ScaleUp(y, (f + 1) as real, r as real);
    assert (x as real) < ((f + 1) * r) as real;
    ScaleAtMost(f as real, y, r as real);
    assert (f * r) as real <= x as real;
  }

  lemma ScaleAtMost(a: real, b: real, r: real)
    requires a <= b && 0.0 < r
    ensures a * r <= b * r
  {
  }

  lemma MulNonNegative(a: int, b: int)
    requires 0 <= a && 0 <= b
    ensures 0 <= a * b
  {
  }

  lemma Clamped(f: int, x: int, r: int)
    requires f * r <= x < (f + 1) * r && 0 <= x && 1 <= r
    ensures var c := if f > 0 then f else 1;
            x < (c + 1) * r && (r <= x ==> c * r <= x) && (x < r ==> c == 1)
  {
    assert (f + 1) * r == f * r + r;
    if f > 1 {
      MulMono(2, f, r);
    } else if f < 0 {
      MulMono(f + 1, 0, r);
    }
  }

  lemma Rescale(v: real, r: real, k: real)
    requires 0.0 < r
    ensures v / r * k * r == v * k
  {
    assert v / r * r == v;
  }

  lemma Product(a: int, b: int)
    ensures a as real * b as real == (a * b) as real
  {
  }

  lemma ScaleUp(a: real, b: real, r: real)
    requires a < b && 0.0 < r
    ensures a * r < b * r
  {
  }

  /** The target is met: an interval in which a task polled `value` times with the old chunk size will be
      polled at least `ratio` and less than twice `ratio` times with the new one. */
  lemma OnTarget(ctl: Control, value: int, chunk: int)
    requires ValidControl(ctl) && 1 <= chunk
    requires 0 <= value && ctl.ratio <= value * chunk
    ensures ctl.ratio <= value * chunk / Adjusted(ctl, value, chunk) < 2 * ctl.ratio
  {
    var c := Adjusted(ctl, value, chunk);
    AdjustedBounds(ctl, value, chunk);
    Between(value * chunk, c, ctl.ratio);
  }

  lemma Between(x: int, c: int, r: int)
    requires 1 <= c && 1 <= r
    requires c * r <= x < (c + 1) * r
    ensures r <= x / c < 2 * r
  {
    assert (c + 1) * r == c * r + r;
    assert (2 * r) * c == c * r + c * r && r <= c * r;
    if x / c < r {
      MulMono(x / c + 1, r, c);
    }
    if 2 * r <= x / c {
      MulMono(2 * r, x / c, c);
    }
  }

  lemma MulMono(a: int, b: int, c: int)
    requires a <= b && 0 <= c
    ensures a * c <= b * c
  {
  }

  // ---------- Any history of samples ----------

  /** The samples of the window that is not complete yet. */
  function CurrentWindow(ctl: Control, seen: seq<nat>): (w: seq<nat>)
    requires ValidControl(ctl)
    ensures |w| < ctl.window && |w| <= |seen|
  {
    if seen == [] then []
    else
      var w := CurrentWindow(ctl, seen[..|seen| - 1]);
      if |w| + 1 == ctl.window then [] else w + [seen[|seen| - 1]]
  }

  /** Windows are consecutive blocks of `window` samples. */
  lemma {:induction false} WindowIsBlock(ctl: Control, seen: seq<nat>)
    requires ValidControl(ctl)
    ensures |CurrentWindow(ctl, seen)| == |seen| % ctl.window
    ensures CurrentWindow(ctl, seen) == seen[|seen| - |CurrentWindow(ctl, seen)|..]
  {
    if seen != [] {
      var before := seen[..|seen| - 1];
      WindowIsBlock(ctl, before);
      ModStep(|before|, ctl.window);
      assert CurrentWindow(ctl, seen) == []
             || CurrentWindow(ctl, seen) == CurrentWindow(ctl, before) + [seen[|seen| - 1]];
    }
  }

  /** The sample `p` completes a window after the samples `seen`. */
  predicate CompletesWindow(ctl: Control, seen: seq<nat>)
    requires ValidControl(ctl)
  {
    |CurrentWindow(ctl, seen)| + 1 == ctl.window
  }

  /** The chunk size a thread hands out after the samples `seen`: it changes only when a window is
      complete, according to the extreme sample of exactly that window. */
  function ChunkAfter(ctl: Control, seen: seq<nat>): (c: int)
    requires ValidControl(ctl)
    ensures c >= 1
  {
    if seen == [] then ctl.initial
    else
      var before, p := seen[..|seen| - 1], seen[|seen| - 1];
      if CompletesWindow(ctl, before)
      then Adjusted(ctl, Extreme(ctl.minimal, CurrentWindow(ctl, before) + [p]), ChunkAfter(ctl, before))
      else ChunkAfter(ctl, before)
  }

  /** Until the first window is complete, a thread hands out the initial chunk size. */
  lemma {:induction false} FirstWindow(ctl: Control, seen: seq<nat>)
    requires ValidControl(ctl) && |seen| < ctl.window
    ensures ChunkAfter(ctl, seen) == ctl.initial && CurrentWindow(ctl, seen) == seen
  {
    if seen != [] {
      var before, p := seen[..|seen| - 1], seen[|seen| - 1];
      FirstWindow(ctl, before);
      assert before + [p] == seen;
    }
  }

  lemma WindowStep(ctl: Control, seen: seq<nat>, p: nat)
    requires ValidControl(ctl)
    ensures CompletesWindow(ctl, seen) <==> (|seen| + 1) % ctl.window == 0
    ensures CurrentWindow(ctl, seen + [p])
            == if CompletesWindow(ctl, seen) then [] else CurrentWindow(ctl, seen) + [p]
  {
    WindowIsBlock(ctl, seen + [p]);
    assert (seen + [p])[..|seen|] == seen;
  }

  lemma ModStep(n: nat, w: nat)
    requires 1 <= w
    ensures (n + 1) % w == if n % w + 1 == w then 0 else n % w + 1
  {
    var q, m := n / w, n % w;
    assert n + 1 == q * w + (m + 1);
    if m + 1 == w {
      assert n + 1 == (q + 1) * w + 0;
      ModIs(n + 1, w, q + 1, 0);
    } else {
      ModIs(n + 1, w, q, m + 1);
    }
  }

  lemma ModIs(n: nat, w: nat, q: nat, m: nat)
    requires 1 <= w && n == q * w + m && m < w
    ensures n % w == m
  {
    var d := n / w - q;
    assert d * w == m - n % w;
    if d > 0 {
      MulMono(1, d, w);
    } else if d < 0 {
      MulMono(d, -1, w);
    }
  }

  /** The thread-local state of a worker. */
  class Worker {
    const ctl: Control
    var heartbeatCount: nat
    var pollingCount: int
    var chunksize: int
    ghost var seen: seq<nat>

    constructor (ctl: Control)
      requires ValidControl(ctl)
      ensures Valid() && this.ctl == ctl && seen == []
    {
      this.ctl := ctl;
      heartbeatCount, pollingCount, chunksize, seen := 0, Neutral(ctl.minimal), ctl.initial, [];
    }

    ghost predicate Valid()
      reads this
    {
      && ValidControl(ctl)
      && heartbeatCount == |seen|
      && pollingCount == Extreme(ctl.minimal, CurrentWindow(ctl, seen))
      && chunksize == ChunkAfter(ctl, seen)
    }

    /** `runtime_memory_update`, at a promotion by a task that has polled `tmem.pollingCount` times. */
    method Update(tmem: TaskMem)
      requires Valid()
      modifies this
      ensures Valid() && seen == old(seen) + [tmem.pollingCount]
    {
      ghost var before := seen;
      heartbeatCount := heartbeatCount + 1;
      seen := seen + [tmem.pollingCount];
      WindowStep(ctl, before, tmem.pollingCount);
      ChunkStep(ctl, before, tmem.pollingCount);
      NextSample(ctl.minimal, CurrentWindow(ctl, before), tmem.pollingCount);
      if ctl.minimal {
        if tmem.pollingCount < pollingCount {
          pollingCount := tmem.pollingCount;
        }
      } else {
        if tmem.pollingCount > pollingCount {
          pollingCount := tmem.pollingCount;
        }
      }
      if heartbeatCount % ctl.window == 0 {
        chunksize := NewChunksize(ctl, pollingCount, chunksize);
        pollingCount := Neutral(ctl.minimal);
      }
    }
  }

  lemma ChunkStep(ctl: Control, seen: seq<nat>, p: nat)
    requires ValidControl(ctl)
    ensures ChunkAfter(ctl, seen + [p])
            == if CompletesWindow(ctl, seen)
               then Adjusted(ctl, Extreme(ctl.minimal, CurrentWindow(ctl, seen) + [p]), ChunkAfter(ctl, seen))
               else ChunkAfter(ctl, seen)
  {
    assert (seen + [p])[..|seen|] == seen;
  }

  method NewChunksize(ctl: Control, pollingCount: int, chunksize: int) returns (c: int)
    requires ValidControl(ctl) && 0 <= pollingCount && 1 <= chunksize
    ensures c == Adjusted(ctl, pollingCount, chunksize)
  {
    var target := pollingCount as real / ctl.ratio as real;
    var newChunksize := target * chunksize as real;
    c := if newChunksize.Floor > 0 then newChunksize.Floor else 1;
  }

  lemma NextSample(minimal: bool, w: seq<nat>, p: nat)
    ensures Extreme(minimal, w + [p])
            == var v := Extreme(minimal, w); if minimal then (if p < v then p else v) else (if p > v then p else v)
  {
    assert (w + [p])[..|w|] == w;
  }

  // ---------- What chunk sizes can be reached ----------

  /** Every sample stands for at most `total` iterations, counted in the chunk size in force. */
  ghost predicate Bounded(ctl: Control, seen: seq<nat>, total: int)
    requires ValidControl(ctl)
  {
    forall i :: 0 <= i < |seen| ==> BoundedAt(ctl, seen, i, total)
  }

  ghost predicate BoundedAt(ctl: Control, seen: seq<nat>, i: nat, total: int)
    requires ValidControl(ctl) && i < |seen|
  {
    seen[i] * ChunkAfter(ctl, seen[..i]) <= total
  }

  lemma EarlierBounded(ctl: Control, seen: seq<nat>, i: nat, total: int)
    requires ValidControl(ctl) && i < |seen| - 1
    ensures BoundedAt(ctl, seen[..|seen| - 1], i, total) <==> BoundedAt(ctl, seen, i, total)
  {
    assert seen[..|seen| - 1][..i] == seen[..i];
  }

  /** The chunk size is constant during a window. */
  lemma {:induction false} SameChunkInWindow(ctl: Control, seen: seq<nat>, i: nat)
    requires ValidControl(ctl)
    requires |seen| - |CurrentWindow(ctl, seen)| <= i <= |seen|
    ensures ChunkAfter(ctl, seen[..i]) == ChunkAfter(ctl, seen)
    decreases |seen| - i
  {
    if i == |seen| {
      assert seen[..i] == seen;
    } else {
      var before, p := seen[..|seen| - 1], seen[|seen| - 1];
      assert seen == before + [p];
      WindowStep(ctl, before, p);
      SameChunkInWindow(ctl, before, i);
      assert before[..i] == seen[..i];
    }
  }

  /** Adaptive control never raises the chunk size above the number of iterations a sample can stand for. */
  lemma {:induction false} ChunkBounded(ctl: Control, seen: seq<nat>, total: int)
    requires ValidControl(ctl) && Bounded(ctl, seen, total)
    ensures 1 <= ChunkAfter(ctl, seen) <= (if ctl.initial < total then total else ctl.initial)
  {
    if seen != [] {
      var before, p := seen[..|seen| - 1], seen[|seen| - 1];
      forall i | 0 <= i < |before|
        ensures BoundedAt(ctl, before, i, total)
      {
        EarlierBounded(ctl, seen, i, total);
      }
      assert seen == before + [p];
      ChunkBounded(ctl, before, total);
      ChunkStep(ctl, before, p);
      if CompletesWindow(ctl, before) {
        WindowBounded(ctl, before, p, total);
      }
    }
  }

  lemma WindowBounded(ctl: Control, before: seq<nat>, p: nat, total: int)
    requires ValidControl(ctl) && Bounded(ctl, before + [p], total)
    ensures var w := CurrentWindow(ctl, before) + [p];
            var c := Adjusted(ctl, Extreme(ctl.minimal, w), ChunkAfter(ctl, before));
            c <= 1 || c <= total
  {
    var w := CurrentWindow(ctl, before) + [p];
    var j := ExtremeAtMost(ctl.minimal, w);
    SampleBounded(ctl, before, p, total, j);
    MulMono(Extreme(ctl.minimal, w), w[j], ChunkAfter(ctl, before));
    AdjustedAtMost(ctl, Extreme(ctl.minimal, w), ChunkAfter(ctl, before), total);
  }

  lemma SampleBounded(ctl: Control, before: seq<nat>, p: nat, total: int, j: nat)
    requires ValidControl(ctl) && Bounded(ctl, before + [p], total)
    requires j <= |CurrentWindow(ctl, before)|
    ensures (CurrentWindow(ctl, before) + [p])[j] * ChunkAfter(ctl, before) <= total
  {
    var i := |before| - |CurrentWindow(ctl, before)| + j;
    WindowIsBlock(ctl, before);
    SameChunkInWindow(ctl, before, i);
    assert (before + [p])[..i] == before[..i];
    assert BoundedAt(ctl, before + [p], i, total);
  }

  lemma AdjustedAtMost(ctl: Control, value: int, chunk: int, total: int)
    requires ValidControl(ctl) && 0 <= value && 1 <= chunk && value * chunk <= total
    ensures Adjusted(ctl, value, chunk) <= 1 || Adjusted(ctl, value, chunk) <= total
  {
    AdjustedBounds(ctl, value, chunk);
    AtMostProduct(Adjusted(ctl, value, chunk), ctl.ratio, value * chunk);
  }

  lemma AtMostProduct(c: int, r: int, x: int)
    requires 1 <= r && 0 <= c && (r <= x ==> c * r <= x) && (x < r ==> c == 1)
    ensures c <= 1 || c <= x
  {
    if r <= x {
      MulMono(1, r, c);
    }
  }
}
