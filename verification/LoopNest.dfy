/** The loop nest a program hands to the heartbeat compiler, and what running it sequentially means.

  A nest has one loop per level.  The bounds of the loop at level `k` may depend on the iteration
  numbers of the `k` loops around it, so nests are irregular in general.  The iterations of a loop
  are independent; the innermost loop may reduce a value with an associative operator. */
module LoopNest {

  datatype Option<+T> = None | Some(value: T)

  /** Iteration numbers of the enclosing loops, outermost first. */
  type Index = seq<int>

  datatype Bounds = Bounds(lo: int, hi: int)

  /** `leaf` is the contribution of one innermost iteration to the reduction; `zero` and `plus` are the
      identity and the operator of that reduction.  `combine` is the operator with which the generated code
      merges the results of promoted tasks: always an addition, whatever `plus` is. */
  datatype Nest = Nest(levels: nat, bounds: Index -> Bounds,
                       leaf: Index -> int, zero: int, plus: (int, int) -> int, combine: (int, int) -> int)

  /** Largest loop bound the transformation supports: a signed 64-bit value read as unsigned. */
  const LIMIT: int := 0x8000_0000_0000_0000

  /** Number of values of a 64-bit word. */
  const WORD: int := 0x1_0000_0000_0000_0000

  /** Predicates stated as `forall u :: Opened(u) ==> ...` unfold only next to a mention of `Opened`. */
  ghost predicate Opened(u: nat) {
    u >= 0
  }

  function Pow2(e: nat): (r: nat)
    ensures r >= 1
  {
    if e == 0 then 1 else 2 * Pow2(e - 1)
  }

  ghost predicate IdentityAt(zero: int, plus: (int, int) -> int, x: int) {
    plus(zero, x) == x && plus(x, zero) == x
  }

  ghost predicate AssociativeAt(plus: (int, int) -> int, x: int, y: int, z: int) {
    plus(plus(x, y), z) == plus(x, plus(y, z))
  }

  /** The operator is associative with an identity; nothing says it is commutative. */
  ghost predicate IsMonoid(zero: int, plus: (int, int) -> int) {
    && (forall x :: IdentityAt(zero, plus, x))
    && (forall x, y, z :: AssociativeAt(plus, x, y, z))
  }

  ghost predicate ValidNest(n: Nest) {
    && n.levels >= 1
    && (forall p :: 0 <= n.bounds(p).lo <= LIMIT && 0 <= n.bounds(p).hi <= LIMIT)
    && IsMonoid(n.zero, n.plus)
  }

  /** The reduction is one that the generated code merges with the right operator.  In a nest of one loop,
      results are only ever merged in threes: the private value and those of two tasks. */
  ghost predicate MergesRight(n: Nest) {
    && (n.levels > 1 ==> forall x, y :: SameAt(n.combine, n.plus, x, y))
    && (forall x, y, z :: SameTwiceAt(n.combine, n.plus, x, y, z))
  }

  ghost predicate SameAt(f: (int, int) -> int, g: (int, int) -> int, x: int, y: int) {
    f(x, y) == g(x, y)
  }

  ghost predicate SameTwiceAt(f: (int, int) -> int, g: (int, int) -> int, x: int, y: int, z: int) {
    f(f(x, y), z) == g(g(x, y), z)
  }

  lemma MergesOne(n: Nest, x: int, y: int)
    requires MergesRight(n) && n.levels > 1
    ensures n.combine(x, y) == n.plus(x, y)
  {
    assert SameAt(n.combine, n.plus, x, y);
  }

  lemma MergesTwo(n: Nest, x: int, y: int, z: int)
    requires MergesRight(n)
    ensures n.combine(n.combine(x, y), z) == n.plus(n.plus(x, y), z)
  {
    assert SameTwiceAt(n.combine, n.plus, x, y, z);
  }

  /** Observable actions.  `Head(p)` is what iteration `p` of a non-leaf loop does before its inner
      loop, `Tail(p, sum)` what it does afterwards; `sum` is the result of the leaf loop when that is
      the inner loop.  `Body(p)` is one leaf iteration. */
  datatype Event =
    | Head(at: Index)
    | Body(at: Index)
    | Tail(at: Index, sum: Option<int>)

  /** Left-to-right reduction of leaf iterations `lo .. hi` under the outer iteration `p`. */
  function Fold(n: Nest, p: Index, lo: int, hi: int): int
    decreases hi - lo
  {
    if hi <= lo then n.zero else n.plus(Fold(n, p, lo, hi - 1), n.leaf(p + [hi - 1]))
  }

  /** The value the tail of iteration `p` sees: the leaf sum if the inner loop is the leaf. */
  function SumUnder(n: Nest, p: Index): Option<int> {
    if |p| + 1 == n.levels then Some(Fold(n, p, n.bounds(p).lo, n.bounds(p).hi)) else None
  }

  /** Actions of iterations `lo .. hi` of the loop at level `|p|`, in sequential order. */
  function Range(n: Nest, p: Index, lo: int, hi: int): seq<Event>
    requires |p| < n.levels
    decreases n.levels - |p|, 0, hi - lo
  {
    if hi <= lo then [] else Range(n, p, lo, hi - 1) + Iteration(n, p + [hi - 1])
  }

  /** Actions of the single iteration `p` of the loop at level `|p| - 1`. */
  function Iteration(n: Nest, p: Index): seq<Event>
    requires 0 < |p| <= n.levels
    decreases n.levels - |p|, 1
  {
    if |p| == n.levels then [Body(p)]
    else [Head(p)] + Range(n, p, n.bounds(p).lo, n.bounds(p).hi) + [Tail(p, SumUnder(n, p))]
  }

  /** The sequential run of the whole nest. */
  function Sequential(n: Nest): seq<Event>
    requires n.levels >= 1
  {
    Range(n, [], n.bounds([]).lo, n.bounds([]).hi)
  }

  /** The same actions without their order.  The definition is sealed: it unfolds only next to a
      mention of `Range`, which keeps proofs about bags of actions from unrolling the nest. */
  ghost function Work(n: Nest, p: Index, lo: int, hi: int): multiset<Event>
    requires |p| < n.levels
  {
    BagExists(n);
    var bag :| IsBag(n, bag);
    bag(p, lo, hi)
  }

  ghost predicate IsBag(n: Nest, bag: (Index, int, int) -> multiset<Event>) {
    forall p, lo, hi {:trigger Range(n, p, lo, hi)} ::
      |p| < n.levels ==> bag(p, lo, hi) == multiset(Range(n, p, lo, hi))
  }

  lemma BagExists(n: Nest)
    ensures exists bag :: IsBag(n, bag)
  {
    var bag := (p: Index, lo: int, hi: int) => if |p| < n.levels then multiset(Range(n, p, lo, hi)) else multiset{};
    assert IsBag(n, bag);
  }

  lemma WorkIs(n: Nest, p: Index, lo: int, hi: int)
    requires |p| < n.levels
    ensures Work(n, p, lo, hi) == multiset(Range(n, p, lo, hi))
  {
    assert |Range(n, p, lo, hi)| >= 0;
  }

  // ---------- Splitting a range ----------

  lemma {:induction false} RangeSplit(n: Nest, p: Index, a: int, b: int, c: int)
    requires |p| < n.levels
    requires a <= b <= c
    ensures Range(n, p, a, c) == Range(n, p, a, b) + Range(n, p, b, c)
    decreases c - b
  {
    if b == c {
      assert Range(n, p, b, c) == [];
    } else {
      RangeSplit(n, p, a, b, c - 1);
      assert Range(n, p, a, c) == Range(n, p, a, b) + (Range(n, p, b, c - 1) + Iteration(n, p + [c - 1]));
    }
  }

  lemma WorkSplit(n: Nest, p: Index, a: int, b: int, c: int)
    requires |p| < n.levels
    requires a <= b <= c
    ensures Work(n, p, a, c) == Work(n, p, a, b) + Work(n, p, b, c)
  {
    RangeSplit(n, p, a, b, c);
  }

  lemma WorkEmpty(n: Nest, p: Index, a: int, c: int)
    requires |p| < n.levels
    ensures Work(n, p, a, c) == multiset{} <==> c <= a
  {
    WorkIs(n, p, a, c);
    if a < c {
      assert |Iteration(n, p + [c - 1])| > 0;
      assert |Range(n, p, a, c)| > 0;
      assert Range(n, p, a, c)[0] in Work(n, p, a, c);
    }
  }

  /** One iteration, as a multiset: its head, its inner range and its tail. */
  lemma WorkOne(n: Nest, p: Index, i: int)
    requires |p| < n.levels
    ensures Work(n, p, i, i + 1) == multiset(Iteration(n, p + [i]))
    ensures |p| + 1 == n.levels ==> Work(n, p, i, i + 1) == multiset{Body(p + [i])}
    ensures |p| + 1 < n.levels ==>
              Work(n, p, i, i + 1) ==
              multiset{Head(p + [i])} + Work(n, p + [i], n.bounds(p + [i]).lo, n.bounds(p + [i]).hi)
              + multiset{Tail(p + [i], SumUnder(n, p + [i]))}
  {
    assert Range(n, p, i, i) == [];
    assert Range(n, p, i, i + 1) == Iteration(n, p + [i]);
  }

  lemma MonoidLaws(n: Nest, x: int, y: int, z: int)
    requires IsMonoid(n.zero, n.plus)
    ensures n.plus(n.zero, x) == x && n.plus(x, n.zero) == x
    ensures n.plus(n.plus(x, y), z) == n.plus(x, n.plus(y, z))
  {
    assert IdentityAt(n.zero, n.plus, x);
    assert AssociativeAt(n.plus, x, y, z);
  }

  lemma {:induction false} FoldSplit(n: Nest, p: Index, a: int, b: int, c: int)
    requires IsMonoid(n.zero, n.plus)
    requires a <= b <= c
    ensures Fold(n, p, a, c) == n.plus(Fold(n, p, a, b), Fold(n, p, b, c))
    decreases c - b
  {
    if b == c {
      assert Fold(n, p, b, c) == n.zero;
      assert IdentityAt(n.zero, n.plus, Fold(n, p, a, b));
    } else {
      var x, y, z := Fold(n, p, a, b), Fold(n, p, b, c - 1), n.leaf(p + [c - 1]);
      FoldSplit(n, p, a, b, c - 1);
      MonoidLaws(n, x, y, z);
    }
  }

  // ---------- Which contributions are reduced ----------

  /** The contributions of the leaf iterations among some actions, reduced in the order of the actions. */
  function Contributions(n: Nest, t: seq<Event>): int {
    if t == [] then n.zero
    else
      var before, e := Contributions(n, t[..|t| - 1]), t[|t| - 1];
      if e.Body? then n.plus(before, n.leaf(e.at)) else before
  }

  /** A row of leaf iterations under the outer iteration `p`. */
  function Row(p: Index, lo: int, hi: int): seq<Event>
    decreases hi - lo
  {
    if hi <= lo then [] else Row(p, lo, hi - 1) + [Body(p + [hi - 1])]
  }

  lemma {:induction false} RowAt(p: Index, lo: int, hi: int, j: nat)
    requires j < hi - lo
    ensures |Row(p, lo, hi)| == hi - lo && Row(p, lo, hi)[j] == Body(p + [lo + j])
    decreases hi - lo
  {
    if j < hi - 1 - lo {
      RowAt(p, lo, hi - 1, j);
    } else if lo < hi - 1 {
      RowAt(p, lo, hi - 1, 0);
    }
  }

  /** `Fold` reduces the contributions of exactly the leaf iterations that its range runs, each under its own
      outer iteration. */
  lemma {:induction false} FoldReduces(n: Nest, p: Index, lo: int, hi: int)
    requires |p| + 1 == n.levels
    ensures Range(n, p, lo, hi) == Row(p, lo, hi)
    ensures Fold(n, p, lo, hi) == Contributions(n, Row(p, lo, hi))
    decreases hi - lo
  {
    if lo < hi {
      FoldReduces(n, p, lo, hi - 1);
      var t := Row(p, lo, hi);
      assert t[..|t| - 1] == Row(p, lo, hi - 1);
    }
  }

  lemma FoldOne(n: Nest, p: Index, i: int)
    requires IsMonoid(n.zero, n.plus)
    ensures Fold(n, p, i, i) == n.zero && Fold(n, p, i, i + 1) == n.leaf(p + [i])
  {
    MonoidLaws(n, n.leaf(p + [i]), n.zero, n.zero);
    assert Fold(n, p, i, i) == n.zero;
  }

  // ---------- Where the actions of a range are ----------

  /** Two iterations are apart when neither encloses the other: they differ at a common level. */
  ghost predicate Apart(p: Index, q: Index) {
    exists l :: 0 <= l < |p| && l < |q| && p[l] != q[l]
  }

  lemma ApartAt(p: Index, q: Index, l: int)
    requires 0 <= l < |p| && l < |q| && p[l] != q[l]
    ensures Apart(p, q) && Apart(q, p)
    ensures !(p <= q) && !(q <= p)
  {
  }

  lemma ApartNotNested(p: Index, q: Index)
    requires Apart(p, q)
    ensures !(p <= q) && !(q <= p) && p != q
  {
  }

  /** `q` lies in iterations `lo .. hi` of the loop entered under `p`. */
  ghost predicate Under(q: Index, p: Index, lo: int, hi: int) {
    |p| < |q| && q[..|p|] == p && lo <= q[|p|] < hi
  }

  lemma {:induction false} RangeUnder(n: Nest, p: Index, lo: int, hi: int, e: Event)
    requires |p| < n.levels
    requires e in Range(n, p, lo, hi)
    ensures Under(e.at, p, lo, hi)
    ensures |e.at| <= n.levels && (e.Body? <==> |e.at| == n.levels)
    decreases n.levels - |p|, hi - lo
  {
    if e in Range(n, p, lo, hi - 1) {
      RangeUnder(n, p, lo, hi - 1, e);
    } else {
      var q := p + [hi - 1];
      assert e in Iteration(n, q);
      if |q| < n.levels && e != Head(q) && e != Tail(q, SumUnder(n, q)) {
        RangeUnder(n, q, n.bounds(q).lo, n.bounds(q).hi, e);
        assert e.at[..|p|] == q[..|p|] == p && e.at[|p|] == q[|p|];
      }
    }
  }

  lemma WorkUnder(n: Nest, p: Index, lo: int, hi: int, e: Event)
    requires |p| < n.levels
    requires e in Work(n, p, lo, hi)
    ensures Under(e.at, p, lo, hi)
    ensures |e.at| <= n.levels && (e.Body? <==> |e.at| == n.levels)
  {
    WorkIs(n, p, lo, hi);
    RangeUnder(n, p, lo, hi, e);
  }

  // ---------- The order a sequential run keeps ----------

  /** `x` has to happen before `y`: the head of an iteration comes before everything inside that
      iteration, and the tail after it. */
  predicate MustPrecede(x: Event, y: Event) {
    x != y && ((x.Head? && x.at <= y.at) || (y.Tail? && y.at <= x.at))
  }

  lemma ApartUnordered(x: Event, y: Event)
    requires Apart(x.at, y.at)
    ensures !MustPrecede(x, y) && !MustPrecede(y, x)
  {
    ApartNotNested(x.at, y.at);
  }

  /** No action comes after one it has to precede. */
  ghost predicate Causal(t: seq<Event>) {
    forall i, j :: 0 <= i < j < |t| ==> !MustPrecede(t[j], t[i])
  }

  lemma CausalConcat(a: seq<Event>, b: seq<Event>)
    requires Causal(a) && Causal(b)
    requires forall x, y :: x in a && y in b ==> !MustPrecede(y, x)
    ensures Causal(a + b)
  {
    var t := a + b;
    forall i, j | 0 <= i < j < |t|
      ensures !MustPrecede(t[j], t[i])
    {
      if i < |a| <= j {
        assert t[i] == a[i] && t[j] == b[j - |a|];
        assert a[i] in a && b[j - |a|] in b;
      }
    }
  }

  lemma {:induction false} RangeCausal(n: Nest, p: Index, lo: int, hi: int)
    requires |p| < n.levels
    ensures Causal(Range(n, p, lo, hi))
    decreases n.levels - |p|, 0, hi - lo
  {
    if lo < hi {
      RangeCausal(n, p, lo, hi - 1);
      IterationCausal(n, p + [hi - 1]);
      forall x, y | x in Range(n, p, lo, hi - 1) && y in Iteration(n, p + [hi - 1])
        ensures !MustPrecede(y, x)
      {
        RangeUnder(n, p, lo, hi - 1, x);
        WorkOne(n, p, hi - 1);
        WorkUnder(n, p, hi - 1, hi, y);
        ApartAt(x.at, y.at, |p|);
        ApartUnordered(x, y);
      }
      CausalConcat(Range(n, p, lo, hi - 1), Iteration(n, p + [hi - 1]));
    }
  }

  lemma {:induction false} IterationCausal(n: Nest, p: Index)
    requires 0 < |p| <= n.levels
    ensures Causal(Iteration(n, p))
    decreases n.levels - |p|, 1
  {
    if |p| < n.levels {
      var lo, hi := n.bounds(p).lo, n.bounds(p).hi;
      RangeCausal(n, p, lo, hi);
      forall e | e in Range(n, p, lo, hi)
        ensures !MustPrecede(e, Head(p)) && !MustPrecede(Tail(p, SumUnder(n, p)), e)
      {
        RangeUnder(n, p, lo, hi, e);
      }
      CausalConcat([Head(p)], Range(n, p, lo, hi));
      CausalConcat([Head(p)] + Range(n, p, lo, hi), [Tail(p, SumUnder(n, p))]);
    }
  }

  /** Iteration `p` does not come after iteration `q`: the first components that differ decide. */
  ghost predicate NotAfter(p: Index, q: Index) {
    p == [] || q == [] || p[0] < q[0] || (p[0] == q[0] && NotAfter(p[1..], q[1..]))
  }

  lemma {:induction false} NotAfterAt(p: Index, q: Index, l: nat)
    requires l < |p| && l < |q| && p[..l] == q[..l] && p[l] < q[l]
    ensures NotAfter(p, q)
  {
    if l > 0 {
      assert p[0] == p[..l][0] == q[..l][0] == q[0];
      assert p[1..][..l - 1] == p[..l][1..] && q[1..][..l - 1] == q[..l][1..];
      NotAfterAt(p[1..], q[1..], l - 1);
    }
  }

  lemma {:induction false} NotAfterInside(p: Index, q: Index)
    requires p <= q
    ensures NotAfter(p, q) && NotAfter(q, p)
  {
    if p != [] {
      NotAfterInside(p[1..], q[1..]);
    }
  }

  /** The iterations are in the order in which nested loops visit them. */
  ghost predicate InLoopOrder(t: seq<Event>) {
    forall i, j :: 0 <= i < j < |t| ==> NotAfter(t[i].at, t[j].at)
  }

  lemma LoopOrderConcat(a: seq<Event>, b: seq<Event>)
    requires InLoopOrder(a) && InLoopOrder(b)
    requires forall x, y :: x in a && y in b ==> NotAfter(x.at, y.at)
    ensures InLoopOrder(a + b)
  {
  }

  /** The actions of a range are in loop order. */
  lemma {:induction false} RangeInOrder(n: Nest, p: Index, lo: int, hi: int)
    requires |p| < n.levels
    ensures InLoopOrder(Range(n, p, lo, hi))
    decreases n.levels - |p|, 0, hi - lo
  {
    if lo < hi {
      RangeInOrder(n, p, lo, hi - 1);
      IterationInOrder(n, p + [hi - 1]);
      forall x, y | x in Range(n, p, lo, hi - 1) && y in Iteration(n, p + [hi - 1])
        ensures NotAfter(x.at, y.at)
      {
        RangeUnder(n, p, lo, hi - 1, x);
        WorkOne(n, p, hi - 1);
        WorkUnder(n, p, hi - 1, hi, y);
        NotAfterAt(x.at, y.at, |p|);
      }
      LoopOrderConcat(Range(n, p, lo, hi - 1), Iteration(n, p + [hi - 1]));
    }
  }

  lemma {:induction false} IterationInOrder(n: Nest, p: Index)
    requires 0 < |p| <= n.levels
    ensures InLoopOrder(Iteration(n, p))
    decreases n.levels - |p|, 1
  {
    if |p| < n.levels {
      var lo, hi := n.bounds(p).lo, n.bounds(p).hi;
      var head, inner, tail := [Head(p)], Range(n, p, lo, hi), [Tail(p, SumUnder(n, p))];
      RangeInOrder(n, p, lo, hi);
      NotAfterInside(p, p);
      forall e | e in inner
        ensures NotAfter(p, e.at) && NotAfter(e.at, p)
      {
        RangeUnder(n, p, lo, hi, e);
        NotAfterInside(p, e.at);
      }
      LoopOrderConcat(head, inner);
      LoopOrderConcat(head + inner, tail);
    }
  }

  // ---------- No action happens twice ----------

  lemma {:induction false} RangeOnce(n: Nest, p: Index, lo: int, hi: int, e: Event)
    requires |p| < n.levels
    ensures multiset(Range(n, p, lo, hi))[e] <= 1
    decreases n.levels - |p|, 0, hi - lo
  {
    if lo < hi {
      var a, b := Range(n, p, lo, hi - 1), Iteration(n, p + [hi - 1]);
      RangeOnce(n, p, lo, hi - 1, e);
      IterationOnce(n, p + [hi - 1], e);
      if e in a && e in b {
        RangeUnder(n, p, lo, hi - 1, e);
        WorkOne(n, p, hi - 1);
        WorkUnder(n, p, hi - 1, hi, e);
        assert false;
      }
      assert multiset(a + b) == multiset(a) + multiset(b);
    }
  }

  lemma {:induction false} IterationOnce(n: Nest, p: Index, e: Event)
    requires 0 < |p| <= n.levels
    ensures multiset(Iteration(n, p))[e] <= 1
    decreases n.levels - |p|, 1
  {
    if |p| < n.levels {
      var lo, hi := n.bounds(p).lo, n.bounds(p).hi;
      var r := Range(n, p, lo, hi);
      RangeOnce(n, p, lo, hi, e);
      if e in r {
        RangeUnder(n, p, lo, hi, e);
      }
      assert multiset([Head(p)] + r + [Tail(p, SumUnder(n, p))])
             == multiset{Head(p)} + multiset(r) + multiset{Tail(p, SumUnder(n, p))};
    }
  }
}
