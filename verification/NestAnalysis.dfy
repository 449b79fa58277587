/** The analyses that find the loop nests of a program and give every loop its level.

  Every loop has been outlined into a function of its own.  The caller of that function is either the
  function of the enclosing loop or, for the root loop of a nest, an ordinary function. */
module NestAnalysis {
  import opened LoopNest
  import opened Tables

  /** `caller[l]` is the loop whose function calls the function of loop `l`, if it is a loop; `order` is a
      topological order of the functions: there is no recursion among outlined loops. */
  datatype CallGraph = CallGraph(caller: seq<Option<nat>>, order: seq<nat>)

  predicate Acyclic(g: CallGraph) {
    && |g.order| == |g.caller|
    && forall l {:trigger g.caller[l]} :: 0 <= l < |g.caller| && g.caller[l].Some? ==>
         g.caller[l].value < |g.caller| && g.order[g.caller[l].value] < g.order[l]
  }

  /** Number of loops around `l`. */
  function Depth(g: CallGraph, l: nat): nat
    requires Acyclic(g) && l < |g.caller|
    decreases g.order[l]
  {
    if g.caller[l].None? then 0 else Depth(g, g.caller[l].value) + 1
  }

  /** The outermost loop around `l`. */
  function Root(g: CallGraph, l: nat): (r: nat)
    requires Acyclic(g) && l < |g.caller|
    ensures r < |g.caller|
    decreases g.order[l]
  {
    if g.caller[l].None? then l else Root(g, g.caller[l].value)
  }

  /** `l` and the loops around it. */
  function Enclosing(g: CallGraph, l: nat): (s: set<nat>)
    requires Acyclic(g) && l < |g.caller|
    ensures l in s
    decreases g.order[l]
  {
    {l} + if g.caller[l].None? then {} else Enclosing(g, g.caller[l].value)
  }

  lemma {:induction false} EnclosingBefore(g: CallGraph, l: nat, m: nat)
    requires Acyclic(g) && l < |g.caller| && m in Enclosing(g, l)
    ensures m < |g.caller| && g.order[m] <= g.order[l]
    ensures Depth(g, m) <= Depth(g, l) && Root(g, m) == Root(g, l)
    decreases g.order[l]
  {
    if m != l {
      EnclosingBefore(g, g.caller[l].value, m);
    }
  }

  // ---------- What the recorded maps say ----------

  /** Level and root are right for the loops visited so far, which include the loops around them. */
  ghost predicate LevelsRight(g: CallGraph, level: map<nat, nat>, root: map<nat, nat>)
    requires Acyclic(g)
  {
    && root.Keys == level.Keys
    && (forall l {:trigger level[l]} :: l in level ==>
          l < |g.caller| && level[l] == Depth(g, l) && root[l] == Root(g, l))
    && (forall l {:trigger CallerIn(g, level, l)} :: l in level ==> CallerIn(g, level, l))
  }

  ghost predicate CallerIn(g: CallGraph, level: map<nat, nat>, l: nat) {
    l < |g.caller| && g.caller[l].Some? ==> g.caller[l].value in level
  }

  /** Every level of a visited loop has an entry, which is a visited loop of that level. */
  ghost predicate LoopsRight(level: map<nat, nat>, loop: map<nat, nat>) {
    && (forall l {:trigger level[l]} :: l in level ==> level[l] in loop)
    && (forall d {:trigger loop[d]} :: d in loop ==> loop[d] in level && level[loop[d]] == d)
  }

  ghost predicate CallersRight(g: CallGraph, level: map<nat, nat>, caller: map<nat, nat>) {
    && (forall l {:trigger caller[l]} :: l in caller ==> l < |g.caller| && g.caller[l] == Some(caller[l]))
    && (forall l {:trigger g.caller[l]} :: l in level && l < |g.caller| && g.caller[l].Some? ==> l in caller)
  }

  /** Nests are numbered consecutively; each has one root loop and consists of the visited loops with
      that root. */
  ghost predicate NestsRight(level: map<nat, nat>, root: map<nat, nat>, nestOf: map<nat, nat>, roots: seq<nat>,
                             nests: seq<set<nat>>)
  {
    && root.Keys == level.Keys && |roots| == |nests|
    && (forall l {:trigger root[l]} :: l in level ==> root[l] in nestOf)
    && (forall r {:trigger nestOf[r]} :: r in nestOf ==>
          nestOf[r] < |roots| && roots[nestOf[r]] == r && r in level && root[r] == r)
    && (forall i :: 0 <= i < |roots| ==> roots[i] in nestOf && nestOf[roots[i]] == i)
    && (forall i, l {:trigger l in nests[i]} :: 0 <= i < |nests| ==>
          (l in nests[i] <==> l in level && root[l] == roots[i]))
  }

  /** The nests partition the loops: every loop is in exactly one nest, the one of its root loop. */
  lemma NestsPartition(g: CallGraph, level: map<nat, nat>, root: map<nat, nat>, nestOf: map<nat, nat>,
                       roots: seq<nat>, nests: seq<set<nat>>, l: nat)
    returns (i: nat)
    requires Acyclic(g) && LevelsRight(g, level, root) && NestsRight(level, root, nestOf, roots, nests)
    requires l in level
    ensures i < |nests| && roots[i] == Root(g, l)
    ensures forall j :: 0 <= j < |nests| ==> (l in nests[j] <==> j == i)
  {
    i := nestOf[root[l]];
    forall j | 0 <= j < |nests|
      ensures l in nests[j] <==> j == i
    {
      assert l in nests[j] <==> root[l] == roots[j];
    }
  }

  lemma AddRoot(level: map<nat, nat>, root: map<nat, nat>, nestOf: map<nat, nat>, roots: seq<nat>,
                nests: seq<set<nat>>, l: nat)
    requires NestsRight(level, root, nestOf, roots, nests) && l !in level
    ensures NestsRight(level[l := 0], root[l := l], nestOf[l := |roots|], roots + [l], nests + [{l}])
  {
    var roots', nests', nestOf' := roots + [l], nests + [{l}], nestOf[l := |roots|];
    forall i | 0 <= i < |roots'|
      ensures roots'[i] in nestOf' && nestOf'[roots'[i]] == i
    {
      if i < |roots| {
        assert roots[i] in nestOf && roots[i] in level;
      }
    }
    forall i, m | 0 <= i < |nests'|
      ensures m in nests'[i] <==> m in level[l := 0] && root[l := l][m] == roots'[i]
    {
      if i < |roots| {
        assert roots[i] in nestOf && roots[i] in level;
        assert m in nests[i] <==> m in level && root[m] == roots[i];
      } else if m in level {
        assert root[m] in nestOf && root[m] in level;
      }
    }
  }

  lemma AddNested(level: map<nat, nat>, root: map<nat, nat>, nestOf: map<nat, nat>, roots: seq<nat>,
                  nests: seq<set<nat>>, l: nat, caller: nat)
    requires NestsRight(level, root, nestOf, roots, nests) && l !in level && caller in level
    ensures var i := nestOf[root[caller]];
            NestsRight(level[l := level[caller] + 1], root[l := root[caller]], nestOf, roots,
                       nests[i := nests[i] + {l}])
  {
    var i := nestOf[root[caller]];
    var level', root', nests' := level[l := level[caller] + 1], root[l := root[caller]], nests[i := nests[i] + {l}];
    forall j, m | 0 <= j < |nests'|
      ensures m in nests'[j] <==> m in level' && root'[m] == roots[j]
    {
      assert m in nests[j] <==> m in level && root[m] == roots[j];
    }
  }

  lemma AddLevel(g: CallGraph, level: map<nat, nat>, root: map<nat, nat>, l: nat, d: nat, r: nat)
    requires Acyclic(g) && LevelsRight(g, level, root)
    requires l < |g.caller| && CallerIn(g, level, l)
    requires d == Depth(g, l) && r == Root(g, l)
    ensures LevelsRight(g, level[l := d], root[l := r])
  {
    var level', root' := level[l := d], root[l := r];
    forall m | m in level'
      ensures m < |g.caller| && level'[m] == Depth(g, m) && root'[m] == Root(g, m)
      ensures CallerIn(g, level', m)
    {
      if m != l {
        assert level[m] == level'[m];
        assert CallerIn(g, level, m);
      }
    }
  }

  lemma AddLoop(level: map<nat, nat>, loop: map<nat, nat>, l: nat, d: nat)
    requires LoopsRight(level, loop) && l !in level
    ensures LoopsRight(level[l := d], loop[d := l])
  {
  }

  /** Everything recorded by the nest analysis. */
  datatype Findings = Findings(level: map<nat, nat>, loop: map<nat, nat>, root: map<nat, nat>, caller: map<nat, nat>,
                               nestOf: map<nat, nat>, roots: seq<nat>, nests: seq<set<nat>>)

  ghost predicate AllRight(g: CallGraph, f: Findings) {
    && Acyclic(g)
    && LevelsRight(g, f.level, f.root)
    && LoopsRight(f.level, f.loop)
    && CallersRight(g, f.level, f.caller)
    && NestsRight(f.level, f.root, f.nestOf, f.roots, f.nests)
  }

  ghost predicate SealedBy(seal: (CallGraph, Findings) -> bool) {
    forall g, f {:trigger AllRight(g, f)} :: seal(g, f) <==> AllRight(g, f)
  }

  lemma SealExists()
    ensures exists seal :: SealedBy(seal)
  {
    assert SealedBy((g, f) => AllRight(g, f));
  }

  /** Sealed form of `AllRight`: it unfolds only next to a mention of `AllRight`. */
  ghost predicate Right(g: CallGraph, f: Findings) {
    SealExists();
    var seal :| SealedBy(seal);
    seal(g, f)
  }

  lemma Unseal(g: CallGraph, f: Findings)
    ensures Right(g, f) <==> AllRight(g, f)
  {
    assert AllRight(g, f) == AllRight(g, f);
  }

  lemma LevelsOf(g: CallGraph, f: Findings)
    requires Right(g, f)
    ensures Acyclic(g) && LevelsRight(g, f.level, f.root)
  {
    Unseal(g, f);
  }

  lemma LoopsOf(g: CallGraph, f: Findings)
    requires Right(g, f)
    ensures LoopsRight(f.level, f.loop)
  {
    Unseal(g, f);
  }

  lemma CallersOf(g: CallGraph, f: Findings)
    requires Right(g, f)
    ensures CallersRight(g, f.level, f.caller)
  {
    Unseal(g, f);
  }

  lemma NestsOf(g: CallGraph, f: Findings)
    requires Right(g, f)
    ensures NestsRight(f.level, f.root, f.nestOf, f.roots, f.nests)
  {
    Unseal(g, f);
  }

  /** A loop called from outside starts a new nest. */
  function WithRoot(f: Findings, l: nat): Findings {
    Findings(f.level[l := 0], f.loop[0 := l], f.root[l := l], f.caller,
             f.nestOf[l := |f.roots|], f.roots + [l], f.nests + [{l}])
  }

  lemma RootRecorded(g: CallGraph, f: Findings, l: nat)
    requires Acyclic(g) && Right(g, f) && l < |g.caller| && l !in f.level && g.caller[l].None?
    ensures Right(g, WithRoot(f, l))
  {
    LevelRecorded(g, f, l, 0, l);
    NestsOf(g, f);
    AddRoot(f.level, f.root, f.nestOf, f.roots, f.nests, l);
    Unseal(g, WithRoot(f, l));
  }

  /** A loop whose caller has been recorded joins the nest of its caller, one level further in. */
  function WithNested(f: Findings, l: nat, caller: nat): Findings
    requires caller in f.level && caller in f.root && f.root[caller] in f.nestOf
    requires f.nestOf[f.root[caller]] < |f.nests|
  {
    var nest := f.nestOf[f.root[caller]];
    f.(level := f.level[l := f.level[caller] + 1], loop := f.loop[f.level[caller] + 1 := l],
       root := f.root[l := f.root[caller]], nests := f.nests[nest := f.nests[nest] + {l}])
  }

  lemma CallerRecorded(g: CallGraph, f: Findings, caller: nat)
    requires Right(g, f) && caller in f.level
    ensures caller in f.root && f.root[caller] in f.nestOf && f.nestOf[f.root[caller]] < |f.nests|
  {
    NestsOf(g, f);
  }

  lemma NestedRecorded(g: CallGraph, f: Findings, l: nat, caller: nat)
    requires Acyclic(g) && Right(g, f) && l < |g.caller| && l !in f.level && g.caller[l] == Some(caller)
    requires caller in f.level && l in f.caller
    ensures caller in f.root && f.root[caller] in f.nestOf && f.nestOf[f.root[caller]] < |f.nests|
    ensures Right(g, WithNested(f, l, caller))
  {
    CallerRecorded(g, f, caller);
    CallerLevel(g, f, l, caller);
    LevelRecorded(g, f, l, f.level[caller] + 1, f.root[caller]);
    NestedNest(g, f, l, caller);
    var f' := WithNested(f, l, caller);
    assert AllRight(g, f');
    Unseal(g, f');
  }

  lemma NestedNest(g: CallGraph, f: Findings, l: nat, caller: nat)
    requires Right(g, f) && l !in f.level
    requires caller in f.level && caller in f.root && f.root[caller] in f.nestOf
    requires f.nestOf[f.root[caller]] < |f.nests|
    ensures var f' := WithNested(f, l, caller); NestsRight(f'.level, f'.root, f'.nestOf, f'.roots, f'.nests)
  {
    NestsOf(g, f);
    AddNested(f.level, f.root, f.nestOf, f.roots, f.nests, l, caller);
  }

  lemma LevelRecorded(g: CallGraph, f: Findings, l: nat, d: nat, r: nat)
    requires Right(g, f) && Acyclic(g) && l < |g.caller| && l !in f.level
    requires g.caller[l].Some? ==> g.caller[l].value in f.level && l in f.caller
    requires d == Depth(g, l) && r == Root(g, l)
    ensures LevelsRight(g, f.level[l := d], f.root[l := r])
    ensures LoopsRight(f.level[l := d], f.loop[d := l])
    ensures CallersRight(g, f.level[l := d], f.caller)
  {
    assert LevelsRight(g, f.level[l := d], f.root[l := r]) by {
      LevelsOf(g, f);
      AddLevel(g, f.level, f.root, l, d, r);
    }
    assert LoopsRight(f.level[l := d], f.loop[d := l]) by {
      LoopsOf(g, f);
      AddLoop(f.level, f.loop, l, d);
    }
    assert CallersRight(g, f.level[l := d], f.caller) by {
      CallersOf(g, f);
      AddCaller(g, f.level, f.caller, l, d);
    }
  }

  lemma CallerLevel(g: CallGraph, f: Findings, l: nat, caller: nat)
    requires Right(g, f) && Acyclic(g) && l < |g.caller| && g.caller[l] == Some(caller)
    requires caller in f.level && caller in f.root
    ensures f.level[caller] + 1 == Depth(g, l) && f.root[caller] == Root(g, l)
  {
    LevelsOf(g, f);
  }

  /** The loops around a visited loop have been visited. */
  lemma {:induction false} EnclosingVisited(g: CallGraph, f: Findings, l: nat)
    requires Acyclic(g) && Right(g, f) && l in f.level && l < |g.caller|
    ensures Enclosing(g, l) <= f.level.Keys
    decreases g.order[l]
  {
    LevelsOf(g, f);
    assert CallerIn(g, f.level, l);
    if g.caller[l].Some? {
      EnclosingVisited(g, f, g.caller[l].value);
    }
  }

  lemma AddCaller(g: CallGraph, level: map<nat, nat>, caller: map<nat, nat>, l: nat, d: nat)
    requires CallersRight(g, level, caller)
    requires l < |g.caller| && g.caller[l].Some? ==> l in caller
    ensures CallersRight(g, level[l := d], caller)
  {
  }

  /** The caller of `l` may be recorded before `l` itself. */
  lemma CallerNoted(g: CallGraph, f: Findings, l: nat, c: nat)
    requires Right(g, f) && l < |g.caller| && g.caller[l] == Some(c)
    ensures Right(g, f.(caller := f.caller[l := c]))
  {
    Unseal(g, f);
    var f' := f.(caller := f.caller[l := c]);
    assert CallersRight(g, f'.level, f'.caller);
    Unseal(g, f');
  }

  // ---------- The analyses ----------

  /** The fields of the pass that the analyses fill in. */
  class Analysis {
    var loopToLevel: map<nat, nat>
    var levelToLoop: map<nat, nat>
    var loopToRoot: map<nat, nat>
    var loopToCallerLoop: map<nat, nat>
    var rootToNestID: map<nat, nat>
    var nestIDToRoot: seq<nat>
    var nestIDToLoops: seq<set<nat>>

    ghost function Found(): Findings
      reads this
    {
      Findings(loopToLevel, levelToLoop, loopToRoot, loopToCallerLoop, rootToNestID, nestIDToRoot, nestIDToLoops)
    }

    constructor ()
      ensures Found() == Findings(map[], map[], map[], map[], map[], [], [])
    {
      loopToLevel, levelToLoop, loopToRoot, loopToCallerLoop := map[], map[], map[], map[];
      rootToNestID, nestIDToRoot, nestIDToLoops := map[], [], [];
    }

    /** A loop called from outside starts a new nest. */
    method RecordRoot(g: CallGraph, l: nat)
      requires Acyclic(g) && Right(g, Found())
      requires l < |g.caller| && l !in loopToLevel && g.caller[l].None?
      modifies this
      ensures Right(g, Found()) && loopToLevel.Keys == old(loopToLevel.Keys) + {l}
      ensures loopToCallerLoop == old(loopToCallerLoop)
    {
      RootRecorded(g, Found(), l);
      loopToLevel := loopToLevel[l := 0];
      levelToLoop := levelToLoop[0 := l];
      loopToRoot := loopToRoot[l := l];
      rootToNestID := rootToNestID[l := |nestIDToRoot|];
      nestIDToRoot := nestIDToRoot + [l];
      nestIDToLoops := nestIDToLoops + [{l}];
    }

    /** A loop whose caller has been recorded joins the nest of its caller, one level further in. */
    method RecordNested(g: CallGraph, l: nat, caller: nat)
      requires Acyclic(g) && Right(g, Found())
      requires l < |g.caller| && l !in loopToLevel && g.caller[l] == Some(caller)
      requires caller in loopToLevel && l in loopToCallerLoop
      modifies this
      ensures Right(g, Found()) && loopToLevel.Keys == old(loopToLevel.Keys) + {l}
      ensures loopToCallerLoop == old(loopToCallerLoop)
    {
      NestedRecorded(g, Found(), l, caller);
      var nest := rootToNestID[loopToRoot[caller]];
      levelToLoop := levelToLoop[loopToLevel[caller] + 1 := l];
      loopToLevel := loopToLevel[l := loopToLevel[caller] + 1];
      loopToRoot := loopToRoot[l := loopToRoot[caller]];
      nestIDToLoops := nestIDToLoops[nest := nestIDToLoops[nest] + {l}];
    }

    /** `setLoopNestAndRoot`: record `l`, and before it the loops around it that are not recorded yet. */
    method SetLoopNestAndRoot(g: CallGraph, l: nat)
      requires Acyclic(g) && Right(g, Found())
      requires l < |g.caller| && l !in loopToLevel
      modifies this
      ensures Right(g, Found())
      ensures loopToLevel.Keys == old(loopToLevel.Keys) + Enclosing(g, l)
      ensures forall m :: m in old(loopToCallerLoop) ==> m in loopToCallerLoop
      decreases g.order[l]
    {
      if g.caller[l].None? {
        RecordRoot(g, l);
        return;
      }
      var caller := g.caller[l].value;
      CallerNoted(g, Found(), l, caller);
      loopToCallerLoop := loopToCallerLoop[l := caller];
      if caller !in loopToLevel {
        SetLoopNestAndRoot(g, caller);
        if l in Enclosing(g, caller) {
          EnclosingBefore(g, caller, l);
        }
      } else {
        EnclosingVisited(g, Found(), caller);
      }
      RecordNested(g, l, caller);
    }

    /** Visit the given loops, in the order in which the set of loops enumerates them. */
    method Visit(g: CallGraph, loops: seq<nat>)
      requires Acyclic(g) && Right(g, Found()) && loopToLevel.Keys == {}
      requires Closed(g, loops)
      modifies this
      ensures Right(g, Found()) && loopToLevel.Keys == Elements(loops)
    {
      for i := 0 to |loops|
        invariant Right(g, Found())
        invariant loopToLevel.Keys <= Elements(loops)
        invariant forall j :: 0 <= j < i ==> loops[j] in loopToLevel
      {
        assert loops[i] in loops;
        if loops[i] !in loopToLevel {
          SetLoopNestAndRoot(g, loops[i]);
        }
      }
    }

    /** `performLoopNestAnalysis`, on all loops of the program. */
    method PerformLoopNestAnalysis(g: CallGraph, loops: seq<nat>)
      requires Acyclic(g) && Found() == Findings(map[], map[], map[], map[], map[], [], [])
      requires forall l: nat :: l in loops <==> l < |g.caller|
      modifies this
      ensures Right(g, Found()) && loopToLevel.Keys == Elements(loops)
    {
      NothingFound(g);
      EverythingClosed(g, loops);
      Visit(g, loops);
    }

    /** `performLoopLevelAnalysis`, on the loops of one nest. */
    method PerformLoopLevelAnalysis(g: CallGraph, loops: seq<nat>) returns (rootLoop: nat, numLevels: nat)
      requires Acyclic(g) && Found() == Findings(map[], map[], map[], map[], map[], [], [])
      requires loops != [] && Closed(g, loops)
      requires forall l, m :: l in loops && m in loops ==> Root(g, l) == Root(g, m)
      modifies this
      ensures Right(g, Found()) && loopToLevel.Keys == Elements(loops)
      ensures forall l :: l in loops ==> Root(g, l) == rootLoop && Depth(g, l) < numLevels
      ensures exists l :: l in loops && Depth(g, l) + 1 == numLevels
    {
      NothingFound(g);
      Visit(g, loops);
      LevelsOf(g, Found());
      var highestLevel := 0;
      var pairs := loopToLevel.Keys;
      assert loops[0] in pairs;
      ghost var done: set<nat> := {};
      while pairs != {}
        invariant pairs + done == loopToLevel.Keys
        invariant forall l :: l in done ==> loopToLevel[l] <= highestLevel
        invariant highestLevel == 0 || exists l :: l in loopToLevel && loopToLevel[l] == highestLevel
        decreases pairs
      {
        var l :| l in pairs;
        if loopToLevel[l] > highestLevel {
          highestLevel := loopToLevel[l];
        }
        pairs, done := pairs - {l}, done + {l};
      }
      numLevels := highestLevel + 1;
      var some :| some in loopToRoot;
      rootLoop := loopToRoot[some];
      forall l | l in loops
        ensures Root(g, l) == rootLoop && Depth(g, l) < numLevels
      {
        assert l in done && loopToLevel[l] == Depth(g, l);
        assert some in loops && loopToLevel[some] == Depth(g, some);
      }
    }

    /** `createSliceTasks`: entry `level` is the slice task generated for the loop of that level. */
    method CreateSliceTasks(g: CallGraph, numLevels: nat) returns (sliceTasks: seq<nat>)
      requires Acyclic(g) && Right(g, Found())
      requires exists l :: l in loopToLevel && loopToLevel[l] + 1 == numLevels
      ensures SliceTable(sliceTasks, numLevels)
    {
      sliceTasks := [];
      ghost var deepest :| deepest in loopToLevel && loopToLevel[deepest] + 1 == numLevels;
      for level := 0 to numLevels
        invariant |sliceTasks| == level
        invariant forall k :: 0 <= k < level ==> sliceTasks[k] == k
      {
        LevelPresent(g, Found(), deepest, level);
        var loop := levelToLoop[level];
        sliceTasks := sliceTasks + [loopToLevel[loop]];
      }
    }
  }

  /** A set of loops that contains, with each loop, the loops around it. */
  ghost predicate Closed(g: CallGraph, loops: seq<nat>)
    requires Acyclic(g)
  {
    forall l :: l in loops ==> l < |g.caller| && forall m :: m in Enclosing(g, l) ==> m in loops
  }

  lemma EverythingClosed(g: CallGraph, loops: seq<nat>)
    requires Acyclic(g)
    requires forall l: nat :: l in loops <==> l < |g.caller|
    ensures Closed(g, loops)
  {
    forall l, m | l in loops && m in Enclosing(g, l)
      ensures m in loops
    {
      EnclosingBefore(g, l, m);
    }
  }

  lemma NothingFound(g: CallGraph)
    requires Acyclic(g)
    ensures Right(g, Findings(map[], map[], map[], map[], map[], [], []))
  {
    Unseal(g, Findings(map[], map[], map[], map[], map[], [], []));
  }

  // ---------- The tables of a nest ----------

  lemma {:induction false} EnclosingAt(g: CallGraph, l: nat, d: nat) returns (m: nat)
    requires Acyclic(g) && l < |g.caller| && d <= Depth(g, l)
    ensures m in Enclosing(g, l) && m < |g.caller| && Depth(g, m) == d
    decreases g.order[l]
  {
    if d == Depth(g, l) {
      m := l;
    } else {
      m := EnclosingAt(g, g.caller[l].value, d);
    }
  }

  /** There is no gap between the levels: each has a loop in `levelToLoop`, and that loop is of this level. */
  lemma LevelPresent(g: CallGraph, f: Findings, l: nat, d: nat)
    requires Acyclic(g) && Right(g, f) && l in f.level && d <= f.level[l]
    ensures d in f.loop && f.loop[d] in f.level && f.level[f.loop[d]] == d
  {
    LevelsOf(g, f);
    var m := EnclosingAt(g, l, d);
    EnclosingVisited(g, f, l);
    assert f.level[m] == d;
    LoopsOf(g, f);
  }

  /** Neither loops of the same level nor loops of different nests: what the pass supports. */
  ghost predicate OneLoopPerLevel(g: CallGraph, loops: seq<nat>)
    requires Acyclic(g) && Closed(g, loops)
  {
    forall l, m :: l in loops && m in loops && Depth(g, l) == Depth(g, m) ==> l == m
  }

  /** `levelToLoop` is the inverse of `loopToLevel`. */
  lemma LevelsInverse(g: CallGraph, f: Findings, loops: seq<nat>, l: nat)
    requires Acyclic(g) && Right(g, f) && Closed(g, loops) && OneLoopPerLevel(g, loops)
    requires f.level.Keys == Elements(loops)
    requires l in loops
    ensures f.level[l] == Depth(g, l)
    ensures Depth(g, l) in f.loop && f.loop[Depth(g, l)] == l
  {
    LevelsOf(g, f);
    assert f.level[l] == Depth(g, l);
    LoopsOf(g, f);
    var m := f.loop[f.level[l]];
    assert f.level[m] == Depth(g, m);
  }

  function LevelOf(g: CallGraph, loops: seq<nat>): (s: seq<nat>)
    requires Acyclic(g) && forall i :: 0 <= i < |loops| ==> loops[i] < |g.caller|
    ensures |s| == |loops| && forall i :: 0 <= i < |s| ==> s[i] == Depth(g, loops[i])
  {
    seq(|loops|, i requires 0 <= i < |loops| => Depth(g, loops[i]))
  }

  ghost predicate NoRepeat(s: seq<nat>) {
    forall i, j :: 0 <= i < j < |s| ==> s[i] != s[j]
  }

  /** The numbers below `n`. */
  function Below(n: nat): (s: set<nat>)
    ensures |s| == n && forall d: nat :: d in s <==> d < n
  {
    if n == 0 then {} else Below(n - 1) + {n - 1}
  }

  function Elements(s: seq<nat>): set<nat> {
    set x | x in s
  }

  lemma {:induction false} NoRepeatSize(s: seq<nat>)
    requires NoRepeat(s)
    ensures |Elements(s)| == |s|
  {
    if s != [] {
      var t, last := s[..|s| - 1], s[|s| - 1];
      NoRepeatSize(t);
      assert s == t + [last] && last !in Elements(t);
      assert Elements(s) == Elements(t) + {last};
    }
  }

  lemma LevelsDistinct(g: CallGraph, loops: seq<nat>)
    requires Acyclic(g) && Closed(g, loops) && OneLoopPerLevel(g, loops) && NoRepeat(loops)
    ensures forall i :: 0 <= i < |loops| ==> loops[i] < |g.caller|
    ensures NoRepeat(LevelOf(g, loops))
  {
    assert forall i :: 0 <= i < |loops| ==> loops[i] in loops;
  }

  lemma LevelsCovered(g: CallGraph, loops: seq<nat>, deepest: nat, d: nat)
    requires Acyclic(g) && Closed(g, loops) && forall i :: 0 <= i < |loops| ==> loops[i] < |g.caller|
    requires deepest in loops && d <= Depth(g, deepest)
    ensures d in LevelOf(g, loops)
  {
    var m := EnclosingAt(g, deepest, d);
    assert m in loops;
    var i :| 0 <= i < |loops| && loops[i] == m;
    assert LevelOf(g, loops)[i] == d;
  }

  /** In a nest with one loop per level, any enumeration of the loops gives every level exactly once. */
  lemma EnumeratesLevels(g: CallGraph, loops: seq<nat>, numLevels: nat)
    requires Acyclic(g) && Closed(g, loops) && OneLoopPerLevel(g, loops) && NoRepeat(loops)
    requires forall l :: l in loops ==> Depth(g, l) < numLevels
    requires exists l :: l in loops && Depth(g, l) + 1 == numLevels
    ensures |loops| == numLevels && (forall i :: 0 <= i < |loops| ==> loops[i] < |g.caller|)
    ensures OnePerLevel(LevelOf(g, loops))
  {
    LevelsDistinct(g, loops);
    var levelOf := LevelOf(g, loops);
    forall i | 0 <= i < |levelOf|
      ensures levelOf[i] < numLevels
    {
      assert loops[i] in loops;
    }
    var deepest :| deepest in loops && Depth(g, deepest) + 1 == numLevels;
    forall d: nat | d < numLevels
      ensures d in levelOf
    {
      LevelsCovered(g, loops, deepest, d);
    }
    SameSize(levelOf, numLevels);
  }

  lemma SameSize(s: seq<nat>, n: nat)
    requires NoRepeat(s)
    requires forall d: nat :: d in s <==> d < n
    ensures |s| == n
  {
    assert Elements(s) == Below(n);
    NoRepeatSize(s);
  }

  /** From the loops of a nest to the tables its promotion handler uses. */
  method BuildTables(g: CallGraph, loops: seq<nat>) returns (t: TaskTables, numLevels: nat)
    requires Acyclic(g) && loops != [] && Closed(g, loops) && OneLoopPerLevel(g, loops) && NoRepeat(loops)
    requires forall l, m :: l in loops && m in loops ==> Root(g, l) == Root(g, m)
    ensures numLevels == |loops| && Complete(t, numLevels)
  {
    var analysis := new Analysis();
    var rootLoop;
    rootLoop, numLevels := analysis.PerformLoopLevelAnalysis(g, loops);
    EnumeratesLevels(g, loops, numLevels);
    ghost var deepest :| deepest in loops && Depth(g, deepest) + 1 == numLevels;
    LevelsInverse(g, analysis.Found(), loops, deepest);
    var sliceTasks := analysis.CreateSliceTasks(g, numLevels);
    var leftovers := CreateLeftoverTasks(LevelOf(g, loops));
    t := TaskTables(sliceTasks, leftovers);
  }
}
