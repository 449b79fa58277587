/** For which reductions the promoted execution is right.

  The reduction blocks of a leaf slice merge the results of promoted tasks with an addition, while the
  loop body and the final merge with the initial value use the operator of the reduction. */
module ReductionOperator {
  import opened LoopNest
  import opened Context

  /** What the reduction blocks compute after a handler call that returned `rc`: `first` is read after a
      promotion, `second` only after one at the leaf. */
  function Merged(combine: (int, int) -> int, rc: int, private: int, first: int, second: int): int {
    if rc < 1 then private
    else if rc > 1 then combine(private, first)
    else combine(combine(private, first), second)
  }

  /** A nest with the given reduction in its leaf loop. */
  function Reducing(levels: nat, leaf: Index -> int, zero: int, plus: (int, int) -> int, combine: (int, int) -> int)
    : Nest
  {
    Nest(levels, _ => Bounds(0, 0), leaf, zero, plus, combine)
  }

  /** The handler, called by the leaf loop after iteration `last` of `a .. max`, can return `rc`: it splits the
      leaf loop only when two iterations are left, and returns more than 1 only when there is an outer loop. */
  predicate CanReturn(levels: nat, a: int, last: int, max: int, rc: int) {
    0 <= a <= last < max <= LIMIT && 1 <= rc <= levels && (rc == 1 ==> max - last >= 2)
  }

  /** The value that is merged then, under the outer iteration `p`, is the reduction of `a .. max`.  The leaf's
      iterations after `last` are divided at the handler's midpoint, or all finished by the leftover task. */
  ghost predicate MergedRight(n: Nest, p: Index, a: int, last: int, max: int, rc: int) {
    var mid := if rc == 1 then Midpoint(last, max) else max;
    Merged(n.combine, rc, Fold(n, p, a, last + 1), Fold(n, p, last + 1, mid), Fold(n, p, mid, max))
    == Fold(n, p, a, max)
  }

  /** Whatever the leaf loop computes and whenever it is promoted, the merged value is right. */
  ghost predicate AlwaysRight(levels: nat, zero: int, plus: (int, int) -> int, combine: (int, int) -> int) {
    forall leaf: Index -> int, p: Index, a, last, max, rc ::
      |p| + 1 == levels && CanReturn(levels, a, last, max, rc) ==>
        MergedRight(Reducing(levels, leaf, zero, plus, combine), p, a, last, max, rc)
  }

  /** The condition on the reduction that `MergesRight` states is exact: with it every merge is right, and
      without it some loop is merged wrongly. */
  lemma RightIffMergesRight(levels: nat, zero: int, plus: (int, int) -> int, combine: (int, int) -> int)
    requires levels >= 1 && IsMonoid(zero, plus)
    ensures AlwaysRight(levels, zero, plus, combine)
            <==> MergesRight(Reducing(levels, _ => zero, zero, plus, combine))
  {
    var n := Reducing(levels, _ => zero, zero, plus, combine);
    if MergesRight(n) {
      forall leaf: Index -> int, p: Index, a, last, max, rc |
        |p| + 1 == levels && CanReturn(levels, a, last, max, rc)
        ensures MergedRight(Reducing(levels, leaf, zero, plus, combine), p, a, last, max, rc)
      {
        RightWhenMerges(Reducing(levels, leaf, zero, plus, combine), p, a, last, max, rc);
      }
    }
    if AlwaysRight(levels, zero, plus, combine) {
      forall x, y, z
        ensures SameTwiceAt(combine, plus, x, y, z)
      {
        ThreeIterations(levels, zero, plus, combine, x, y, z);
      }
      if levels > 1 {
        forall x, y
          ensures SameAt(combine, plus, x, y)
        {
          TwoIterations(levels, zero, plus, combine, x, y);
        }
      }
    }
  }

  lemma RightWhenMerges(n: Nest, p: Index, a: int, last: int, max: int, rc: int)
    requires IsMonoid(n.zero, n.plus) && MergesRight(n)
    requires CanReturn(n.levels, a, last, max, rc)
    ensures MergedRight(n, p, a, last, max, rc)
  {
    if rc > 1 {
      FoldSplit(n, p, a, last + 1, max);
      MergesOne(n, Fold(n, p, a, last + 1), Fold(n, p, last + 1, max));
    } else {
      var mid := Midpoint(last, max);
      MidpointExact(last, max);
      FoldSplit(n, p, a, last + 1, mid);
      FoldSplit(n, p, a, mid, max);
      MergesTwo(n, Fold(n, p, a, last + 1), Fold(n, p, last + 1, mid), Fold(n, p, mid, max));
    }
  }

  /** A leaf loop whose first three iterations contribute `x`, `y` and `z`. */
  function Contributing(levels: nat, x: int, y: int, z: int, zero: int, plus: (int, int) -> int,
                        combine: (int, int) -> int): Nest
    requires levels >= 1
  {
    Reducing(levels, q => if |q| != levels || q[levels - 1] == 0 then x else if q[levels - 1] == 1 then y else z, zero,
             plus, combine)
  }

  lemma FirstFolds(n: Nest, p: Index, x: int, y: int, z: int)
    requires |p| + 1 == n.levels && IsMonoid(n.zero, n.plus)
    requires n == Contributing(n.levels, x, y, z, n.zero, n.plus, n.combine)
    ensures Fold(n, p, 2, 2) == n.zero && Fold(n, p, 0, 1) == x && Fold(n, p, 1, 2) == y && Fold(n, p, 2, 3) == z
    ensures Fold(n, p, 0, 2) == n.plus(x, y) && Fold(n, p, 0, 3) == n.plus(n.plus(x, y), z)
  {
    MonoidLaws(n, x, y, z);
    MonoidLaws(n, y, z, x);
    MonoidLaws(n, z, x, y);
    assert n.leaf(p + [0]) == x && n.leaf(p + [1]) == y && n.leaf(p + [2]) == z;
    assert Fold(n, p, 0, 0) == Fold(n, p, 1, 1) == Fold(n, p, 2, 2) == n.zero;
  }

  /** Two iterations, the second of which a leftover task runs. */
  lemma TwoIterations(levels: nat, zero: int, plus: (int, int) -> int, combine: (int, int) -> int, x: int, y: int)
    requires levels > 1 && IsMonoid(zero, plus) && AlwaysRight(levels, zero, plus, combine)
    ensures combine(x, y) == plus(x, y)
  {
    var n, p := Contributing(levels, x, y, y, zero, plus, combine), seq(levels - 1, _ => 0);
    FirstFolds(n, p, x, y, y);
    assert CanReturn(levels, 0, 0, 2, 2) && n == Reducing(levels, n.leaf, zero, plus, combine);
    assert MergedRight(n, p, 0, 0, 2, 2);
  }

  /** Three iterations, promoted after the first. */
  lemma ThreeIterations(levels: nat, zero: int, plus: (int, int) -> int, combine: (int, int) -> int,
                        x: int, y: int, z: int)
    requires levels >= 1 && IsMonoid(zero, plus) && AlwaysRight(levels, zero, plus, combine)
    ensures combine(combine(x, y), z) == plus(plus(x, y), z)
  {
    var n, p := Contributing(levels, x, y, z, zero, plus, combine), seq(levels - 1, _ => 0);
    FirstFolds(n, p, x, y, z);
    assert CanReturn(levels, 0, 0, 3, 1) && n == Reducing(levels, n.leaf, zero, plus, combine);
    assert MergedRight(n, p, 0, 0, 3, 1);
  }

  /** A product is merged wrongly: three iterations that contribute 2, 3 and 4, promoted after the first one, give
      2 + 3 + 4 instead of 24. */
  lemma ProductFails()
    ensures var n := Contributing(1, 2, 3, 4, 1, (x, y) => x * y, (x, y) => x + y);
            && CanReturn(n.levels, 0, 0, 3, 1) && Midpoint(0, 3) == 2
            && Fold(n, [], 0, 3) == 24
            && Merged(n.combine, 1, Fold(n, [], 0, 1), Fold(n, [], 1, 2), Fold(n, [], 2, 3)) == 9
            && !MergedRight(n, [], 0, 0, 3, 1)
  {
    var n := Contributing(1, 2, 3, 4, 1, (x, y) => x * y, (x, y) => x + y);
    assert n.leaf([] + [0]) == 2 && n.leaf([] + [1]) == 3 && n.leaf([] + [2]) == 4;
    assert Fold(n, [], 0, 0) == 1 && Fold(n, [], 1, 1) == 1 && Fold(n, [], 2, 2) == 1;
    assert Fold(n, [], 0, 1) == 2 && Fold(n, [], 1, 2) == 3 && Fold(n, [], 2, 3) == 4;
    assert Fold(n, [], 0, 2) == 6;
  }
}
