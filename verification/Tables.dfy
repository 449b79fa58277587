/** The tables through which the promotion handler reaches the generated tasks. */
module Tables {

  /** `slices[l]` is the level whose slice task is entry `l` of the slice table; `leftovers[i]` is the
      (receiving, splitting) pair for which leftover task `i` was generated. */
  datatype TaskTables = TaskTables(slices: seq<nat>, leftovers: seq<(nat, nat)>)

  ghost predicate SliceTable(slices: seq<nat>, levels: nat) {
    |slices| == levels && forall l :: 0 <= l < levels ==> slices[l] == l
  }

  /** One leftover task for every pair of a receiving level and a lower splitting level. */
  ghost predicate LeftoverTable(pairs: seq<(nat, nat)>, levels: nat) {
    && (forall i :: 0 <= i < |pairs| ==> pairs[i].1 < pairs[i].0 < levels)
    && (forall i, j :: 0 <= i < j < |pairs| ==> pairs[i] != pairs[j])
    && (forall r, s :: 0 <= s < r < levels ==> (r, s) in pairs)
  }

  ghost predicate Complete(t: TaskTables, levels: nat) {
    SliceTable(t.slices, levels) && LeftoverTable(t.leftovers, levels)
  }

  /** The decision chain of the generated selector, from block `i` on.  The last block does not
      compare: it returns its index unconditionally. */
  function SelectFrom(pairs: seq<(nat, nat)>, receiving: nat, splitting: nat, i: nat): nat
    requires i < |pairs|
    decreases |pairs| - i
  {
    if i == |pairs| - 1 then i
    else if receiving == pairs[i].0 && splitting == pairs[i].1 then i
    else SelectFrom(pairs, receiving, splitting, i + 1)
  }

  /** `leftover_task_index_selector`: with a single leftover task it is the constant 0. */
  function Select(pairs: seq<(nat, nat)>, receiving: nat, splitting: nat): nat
    requires |pairs| > 0
  {
    if |pairs| == 1 then 0 else SelectFrom(pairs, receiving, splitting, 0)
  }

  lemma {:induction false} SelectFromFinds(pairs: seq<(nat, nat)>, r: nat, s: nat, i: nat)
    requires i < |pairs|
    requires (r, s) in pairs[i..]
    ensures SelectFrom(pairs, r, s, i) < |pairs|
    ensures pairs[SelectFrom(pairs, r, s, i)] == (r, s)
    decreases |pairs| - i
  {
    if i < |pairs| - 1 && pairs[i] != (r, s) {
      assert pairs[i..] == [pairs[i]] + pairs[i + 1..];
      SelectFromFinds(pairs, r, s, i + 1);
    }
  }

  /** The selector returns the leftover task generated for exactly this pair. */
  lemma SelectFinds(pairs: seq<(nat, nat)>, levels: nat, r: nat, s: nat)
    requires LeftoverTable(pairs, levels)
    requires s < r < levels
    ensures |pairs| > 0 && Select(pairs, r, s) < |pairs|
    ensures pairs[Select(pairs, r, s)] == (r, s)
  {
    assert (r, s) in pairs;
    if |pairs| > 1 {
      assert pairs[0..] == pairs;
      SelectFromFinds(pairs, r, s, 0);
    }
  }

  /** Loops of one nest, as enumerated by `std::set<LoopContent *>`: in any order, one per level. */
  ghost predicate OnePerLevel(levelOf: seq<nat>) {
    && (forall i :: 0 <= i < |levelOf| ==> levelOf[i] < |levelOf|)
    && (forall i, j :: 0 <= i < j < |levelOf| ==> levelOf[i] != levelOf[j])
    && (forall l :: 0 <= l < |levelOf| ==> l in levelOf)
  }

  /** Leftover tasks received at level `r`, for the first `j` loops of the enumeration. */
  function PairsFor(levelOf: seq<nat>, r: nat, j: nat): seq<(nat, nat)>
    requires j <= |levelOf|
  {
    if j == 0 then []
    else PairsFor(levelOf, r, j - 1) + if levelOf[j - 1] < r then [(r, levelOf[j - 1])] else []
  }

  function AllPairs(levelOf: seq<nat>, i: nat): seq<(nat, nat)>
    requires i <= |levelOf|
  {
    if i == 0 then []
    else AllPairs(levelOf, i - 1) + PairsFor(levelOf, levelOf[i - 1], |levelOf|)
  }

  /** `createLeftoverTasks`: the leftover tasks in the order in which they are generated. */
  method CreateLeftoverTasks(levelOf: seq<nat>) returns (pairs: seq<(nat, nat)>)
    requires OnePerLevel(levelOf)
    ensures LeftoverTable(pairs, |levelOf|)
  {
    pairs := [];
    for i := 0 to |levelOf|
      invariant pairs == AllPairs(levelOf, i)
    {
      var receiving := levelOf[i];
      ghost var before := pairs;
      if receiving == 0 {
        RootHasNoPairs(levelOf, |levelOf|);
      } else {
        for j := 0 to |levelOf|
          invariant pairs == before + PairsFor(levelOf, receiving, j)
        {
          var splitting := levelOf[j];
          if splitting < receiving {
            pairs := pairs + [(receiving, splitting)];
          }
        }
      }
    }
    AllPairsTable(levelOf);
  }

  lemma {:induction false} RootHasNoPairs(levelOf: seq<nat>, j: nat)
    requires j <= |levelOf|
    ensures PairsFor(levelOf, 0, j) == []
  {
    if j > 0 {
      RootHasNoPairs(levelOf, j - 1);
    }
  }

  lemma {:induction false} PairsForMembers(levelOf: seq<nat>, r: nat, j: nat, p: (nat, nat))
    requires j <= |levelOf|
    ensures p in PairsFor(levelOf, r, j) <==> p.0 == r && p.1 < r && p.1 in levelOf[..j]
  {
    if j > 0 {
      PairsForMembers(levelOf, r, j - 1, p);
      assert levelOf[..j] == levelOf[..j - 1] + [levelOf[j - 1]];
    }
  }

  lemma InConcat<T>(a: seq<T>, b: seq<T>, x: T)
    ensures x in a + b <==> x in a || x in b
  {
    if x in a {
      var i :| 0 <= i < |a| && a[i] == x;
      assert (a + b)[i] == x;
    }
    if x in b {
      var i :| 0 <= i < |b| && b[i] == x;
      assert (a + b)[|a| + i] == x;
    }
  }

  lemma {:induction false} AllPairsMembers(levelOf: seq<nat>, i: nat, p: (nat, nat))
    requires i <= |levelOf|
    ensures p in AllPairs(levelOf, i) <==> p.1 < p.0 && p.0 in levelOf[..i] && p.1 in levelOf
  {
    if i > 0 {
      AllPairsMembers(levelOf, i - 1, p);
      PairsForMembers(levelOf, levelOf[i - 1], |levelOf|, p);
      assert levelOf[..|levelOf|] == levelOf;
      InConcat(AllPairs(levelOf, i - 1), PairsFor(levelOf, levelOf[i - 1], |levelOf|), p);
      InConcat(levelOf[..i - 1], [levelOf[i - 1]], p.0);
      assert levelOf[..i] == levelOf[..i - 1] + [levelOf[i - 1]];
    }
  }

  ghost predicate Distinct(pairs: seq<(nat, nat)>) {
    forall x, y :: 0 <= x < y < |pairs| ==> pairs[x] != pairs[y]
  }

  lemma DistinctConcat(a: seq<(nat, nat)>, b: seq<(nat, nat)>)
    requires Distinct(a) && Distinct(b)
    requires forall p :: p in b ==> p !in a
    ensures Distinct(a + b)
  {
    forall x, y | 0 <= x < y < |a + b|
      ensures (a + b)[x] != (a + b)[y]
    {
      if x < |a| <= y {
        assert (a + b)[x] == a[x] && (a + b)[y] == b[y - |a|];
        assert a[x] in a && b[y - |a|] in b;
      }
    }
  }

  lemma {:induction false} PairsForDistinct(levelOf: seq<nat>, r: nat, j: nat)
    requires OnePerLevel(levelOf)
    requires j <= |levelOf|
    ensures Distinct(PairsFor(levelOf, r, j))
  {
    if j > 0 {
      PairsForDistinct(levelOf, r, j - 1);
      if levelOf[j - 1] < r {
        PairsForMembers(levelOf, r, j - 1, (r, levelOf[j - 1]));
        DistinctConcat(PairsFor(levelOf, r, j - 1), [(r, levelOf[j - 1])]);
      }
    }
  }

  lemma BlockIsNew(levelOf: seq<nat>, i: nat, p: (nat, nat))
    requires OnePerLevel(levelOf) && i < |levelOf|
    requires p in PairsFor(levelOf, levelOf[i], |levelOf|)
    ensures p !in AllPairs(levelOf, i)
  {
    PairsForMembers(levelOf, levelOf[i], |levelOf|, p);
    AllPairsMembers(levelOf, i, p);
  }

  lemma {:induction false} AllPairsDistinct(levelOf: seq<nat>, i: nat)
    requires OnePerLevel(levelOf)
    requires i <= |levelOf|
    ensures Distinct(AllPairs(levelOf, i))
  {
    if i > 0 {
      AllPairsDistinct(levelOf, i - 1);
      PairsForDistinct(levelOf, levelOf[i - 1], |levelOf|);
      BlockAppends(levelOf, i - 1);
    }
  }

  lemma BlockAppends(levelOf: seq<nat>, i: nat)
    requires OnePerLevel(levelOf) && i < |levelOf|
    requires Distinct(AllPairs(levelOf, i)) && Distinct(PairsFor(levelOf, levelOf[i], |levelOf|))
    ensures Distinct(AllPairs(levelOf, i) + PairsFor(levelOf, levelOf[i], |levelOf|))
  {
    var a, b := AllPairs(levelOf, i), PairsFor(levelOf, levelOf[i], |levelOf|);
    forall p | p in b
      ensures p !in a
    {
      BlockIsNew(levelOf, i, p);
    }
    DistinctConcat(a, b);
  }

  lemma AllPairsTable(levelOf: seq<nat>)
    requires OnePerLevel(levelOf)
    ensures LeftoverTable(AllPairs(levelOf, |levelOf|), |levelOf|)
  {
    var all := AllPairs(levelOf, |levelOf|);
    assert levelOf[..|levelOf|] == levelOf;
    AllPairsDistinct(levelOf, |levelOf|);
    forall i | 0 <= i < |all|
      ensures all[i].1 < all[i].0 < |levelOf|
    {
      AllPairsMembers(levelOf, |levelOf|, all[i]);
    }
    forall r, s | 0 <= s < r < |levelOf|
      ensures (r, s) in all
    {
      AllPairsMembers(levelOf, |levelOf|, (r, s));
    }
  }
}
