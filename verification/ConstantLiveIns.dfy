/** Constant live-ins: arguments of the root loop that inner loops receive unchanged.

  Instead of copying such a value into the environment of every level, the generated code stores it
  once in a table, and the slice tasks read it from there. */
module ConstantLiveIns {
  import opened LoopNest
  import opened NestAnalysis

  /** A value as far as the analysis looks at it; `SMax` is a call of the intrinsic `llvm.smax`, of which
      only the first operand matters. */
  datatype Value = Argument(index: nat) | SMax(first: Value) | Computed

  /** How an argument is used: by the instructions that govern the loop's induction variable, as an operand
      of the call of an inner loop's function, or in any other way. */
  datatype Use = Governing | Passed(callee: nat, position: nat) | Other

  /** `uses[a]` are the uses of argument `a`; `operands` are the operands of the only call of the function. */
  datatype LoopFunction = LoopFunction(uses: seq<seq<Use>>, operands: seq<Value>, start: Value, exit: Value)

  datatype Program = Program(graph: CallGraph, functions: seq<LoopFunction>)

  /** An argument of the function of a loop. */
  type Arg = (nat, nat)

  predicate IsArg(p: Program, x: Arg) {
    x.0 < |p.functions| && x.1 < |p.functions[x.0].uses|
  }

  /** The argument that is passed for `x`, if it is an argument of the caller that is passed unchanged. */
  function Passes(p: Program, x: Arg): Option<Arg>
    requires Acyclic(p.graph) && x.0 < |p.functions| == |p.graph.caller| && x.1 < |p.functions[x.0].operands|
  {
    if p.graph.caller[x.0].Some? && p.functions[x.0].operands[x.1].Argument?
    then Some((p.graph.caller[x.0].value, p.functions[x.0].operands[x.1].index))
    else None
  }

  /** Uses and call operands describe the same calls. */
  ghost predicate WellFormed(p: Program) {
    && Acyclic(p.graph) && |p.functions| == |p.graph.caller|
    && (forall l {:trigger p.functions[l]} :: 0 <= l < |p.functions| ==>
          |p.functions[l].operands| == |p.functions[l].uses|)
    && (forall x, u {:trigger Has(p, x, u)} :: IsArg(p, x) && Has(p, x, u) ==>
          IsArg(p, (u.callee, u.position)) && Passes(p, (u.callee, u.position)) == Some(x))
    && (forall x {:trigger Passes(p, x)} :: IsArg(p, x) && Passes(p, x).Some? ==>
          IsArg(p, Passes(p, x).value) && Has(p, Passes(p, x).value, Passed(x.0, x.1)))
  }

  ghost predicate Has(p: Program, x: Arg, u: Use) {
    IsArg(p, x) && u.Passed? && u in p.functions[x.0].uses[x.1]
  }

  // ---------- Where the value of an argument comes from ----------

  /** Following the operands outwards: the index of the root loop's argument that `x` is a copy of. */
  function Origin(p: Program, x: Arg): Option<nat>
    requires WellFormed(p) && IsArg(p, x)
    decreases p.graph.order[x.0]
  {
    if p.graph.caller[x.0].None? then Some(x.1)
    else
      var y := Passes(p, x);
      if y.None? then None else Origin(p, y.value)
  }

  /** `x` is `y`, or receives `y` through one or more calls. */
  ghost predicate CopyOf(p: Program, x: Arg, y: Arg)
    requires WellFormed(p) && IsArg(p, x)
    decreases p.graph.order[x.0]
  {
    x == y || (Passes(p, x).Some? && CopyOf(p, Passes(p, x).value, y))
  }

  lemma {:induction false} CopyOfRoot(p: Program, x: Arg, root: nat, index: nat)
    requires WellFormed(p) && IsArg(p, x)
    requires root < |p.functions| && p.graph.caller[root].None?
    ensures CopyOf(p, x, (root, index)) <==> Root(p.graph, x.0) == root && Origin(p, x) == Some(index)
    decreases p.graph.order[x.0]
  {
    if p.graph.caller[x.0].Some? && Passes(p, x).Some? {
      CopyOfRoot(p, Passes(p, x).value, root, index);
    }
  }

  /** Copies are further inside. */
  lemma {:induction false} CopyIsInside(p: Program, x: Arg, y: Arg)
    requires WellFormed(p) && IsArg(p, x) && CopyOf(p, x, y)
    ensures IsArg(p, y) && p.graph.order[y.0] <= p.graph.order[x.0]
    decreases p.graph.order[x.0]
  {
    if x != y {
      CopyIsInside(p, Passes(p, x).value, y);
    }
  }

  lemma {:induction false} CopyOfCopy(p: Program, x: Arg, y: Arg, z: Arg)
    requires WellFormed(p) && IsArg(p, x) && IsArg(p, y)
    requires CopyOf(p, x, y) && CopyOf(p, y, z)
    ensures CopyOf(p, x, z)
    decreases p.graph.order[x.0]
  {
    if x != y {
      CopyOfCopy(p, Passes(p, x).value, y, z);
    }
  }

  /** Exploring inwards from `y`: a copy other than `y` itself is a copy of an argument `y` is passed to. */
  lemma {:induction false} CopyThroughUse(p: Program, x: Arg, y: Arg) returns (u: Use)
    requires WellFormed(p) && IsArg(p, x) && IsArg(p, y)
    requires CopyOf(p, x, y) && x != y
    ensures Has(p, y, u) && CopyOf(p, x, (u.callee, u.position))
    decreases p.graph.order[x.0]
  {
    var z := Passes(p, x).value;
    if z == y {
      u := Passed(x.0, x.1);
      assert (u.callee, u.position) == x;
    } else {
      u := CopyThroughUse(p, z, y);
    }
  }

  lemma UseMakesCopy(p: Program, x: Arg, y: Arg, u: Use)
    requires WellFormed(p) && IsArg(p, x) && Has(p, y, u)
    requires CopyOf(p, x, (u.callee, u.position))
    ensures CopyOf(p, x, y) && x != y
  {
    var z := (u.callee, u.position);
    assert Passes(p, z) == Some(y);
    assert CopyOf(p, z, y);
    CopyOfCopy(p, x, z, y);
    CopyIsInside(p, x, z);
  }

  // ---------- Which arguments a loop reads from the table ----------

  /** `isArgStartOrExitValue` */
  predicate IsStartOrExit(f: LoopFunction, a: nat) {
    || f.start == Argument(a) || f.exit == Argument(a)
    || f.start == SMax(Argument(a)) || f.exit == SMax(Argument(a))
  }

  /** The caller needs the value of an argument that it uses itself, or that it passes to an inner loop as
      a bound, because then it stores the bound into the context. */
  predicate NeedsFor(p: Program, u: Use) {
    match u
    case Governing => false
    case Passed(callee, position) => callee < |p.functions| && IsStartOrExit(p.functions[callee], position)
    case Other => true
  }

  predicate NeedsFirst(p: Program, uses: seq<Use>, k: nat)
    requires k <= |uses|
  {
    k > 0 && (NeedsFirst(p, uses, k - 1) || NeedsFor(p, uses[k - 1]))
  }

  predicate Needs(p: Program, x: Arg)
    requires IsArg(p, x)
  {
    var uses := p.functions[x.0].uses[x.1];
    NeedsFirst(p, uses, |uses|)
  }

  lemma {:induction false} NeedsFirstIs(p: Program, uses: seq<Use>, k: nat)
    requires k <= |uses|
    ensures NeedsFirst(p, uses, k) <==> exists i :: 0 <= i < k && NeedsFor(p, uses[i])
  {
    if k > 0 {
      NeedsFirstIs(p, uses, k - 1);
    }
  }

  // ---------- The analysis ----------

  ghost predicate AreCopies(p: Program, y: Arg, s: set<Arg>)
    requires WellFormed(p)
  {
    forall x :: x in s <==> IsArg(p, x) && CopyOf(p, x, y)
  }

  lemma CopiesExist(p: Program, y: Arg)
    requires WellFormed(p)
    ensures exists s :: AreCopies(p, y, s)
  {
    var s := set l: nat, a: nat | l < |p.functions| && a < |p.functions[l].uses| && CopyOf(p, (l, a), y) :: (l, a);
    assert AreCopies(p, y, s);
  }

  /** All copies of `y`. */
  ghost function Copies(p: Program, y: Arg): (s: set<Arg>)
    requires WellFormed(p)
    ensures AreCopies(p, y, s)
  {
    CopiesExist(p, y);
    var s :| AreCopies(p, y, s);
    s
  }

  ghost function Needing(p: Program, s: set<Arg>): set<Arg> {
    set x | x in s && IsArg(p, x) && Needs(p, x)
  }

  /** Copies of the argument `y` is passed to by its use `k`. */
  ghost function CopiesByUse(p: Program, y: Arg, k: nat): set<Arg>
    requires WellFormed(p) && IsArg(p, y) && k < |p.functions[y.0].uses[y.1]|
  {
    var u := p.functions[y.0].uses[y.1][k];
    if u.Passed? then Copies(p, (u.callee, u.position)) else {}
  }

  /** Copies made by the first `k` uses of `y`. */
  ghost function CopiesByUses(p: Program, y: Arg, k: nat): set<Arg>
    requires WellFormed(p) && IsArg(p, y) && k <= |p.functions[y.0].uses[y.1]|
  {
    if k == 0 then {} else CopiesByUses(p, y, k - 1) + CopiesByUse(p, y, k - 1)
  }

  ghost function NeededForUse(p: Program, y: Arg, k: nat): set<Arg>
    requires IsArg(p, y) && k < |p.functions[y.0].uses[y.1]|
  {
    if NeedsFor(p, p.functions[y.0].uses[y.1][k]) then {y} else {}
  }

  /** Which of `y` and the copies made by its first `k` uses are needed. */
  ghost function NeedingByUses(p: Program, y: Arg, k: nat): set<Arg>
    requires WellFormed(p) && IsArg(p, y) && k <= |p.functions[y.0].uses[y.1]|
  {
    (if NeedsFirst(p, p.functions[y.0].uses[y.1], k) then {y} else {}) + Needing(p, CopiesByUses(p, y, k))
  }

  lemma {:induction false} UseIncluded(p: Program, y: Arg, i: nat, k: nat, x: Arg)
    requires WellFormed(p) && IsArg(p, y) && i < k <= |p.functions[y.0].uses[y.1]|
    requires x in CopiesByUse(p, y, i)
    ensures x in CopiesByUses(p, y, k)
    decreases k
  {
    if i < k - 1 {
      UseIncluded(p, y, i, k - 1, x);
    }
  }

  lemma {:induction false} MadeByUse(p: Program, y: Arg, k: nat, x: Arg) returns (i: nat)
    requires WellFormed(p) && IsArg(p, y) && k <= |p.functions[y.0].uses[y.1]|
    requires x in CopiesByUses(p, y, k)
    ensures i < k && x in CopiesByUse(p, y, i)
  {
    if x in CopiesByUse(p, y, k - 1) {
      i := k - 1;
    } else {
      i := MadeByUse(p, y, k - 1, x);
    }
  }

  /** Exploring the uses of `y` inwards finds all its copies, and only these. */
  lemma ExplorationFinds(p: Program, y: Arg)
    requires WellFormed(p) && IsArg(p, y)
    ensures Copies(p, y) == {y} + CopiesByUses(p, y, |p.functions[y.0].uses[y.1]|)
  {
    var uses := p.functions[y.0].uses[y.1];
    forall x
      ensures x in Copies(p, y) <==> x in {y} + CopiesByUses(p, y, |uses|)
    {
      if x in Copies(p, y) && x != y {
        var u := CopyThroughUse(p, x, y);
        var i :| 0 <= i < |uses| && uses[i] == u;
        UseIncluded(p, y, i, |uses|, x);
      }
      if x in CopiesByUses(p, y, |uses|) {
        var i := MadeByUse(p, y, |uses|, x);
        assert uses[i] in uses && Has(p, y, uses[i]);
        UseMakesCopy(p, x, y, uses[i]);
      }
    }
  }

  lemma NeedingUnion(p: Program, s: set<Arg>, t: set<Arg>)
    ensures Needing(p, s + t) == Needing(p, s) + Needing(p, t)
  {
  }

  /** What has been recorded: arguments that are not put into environments, arguments read from the table
      with the index of the root's argument they are copies of, and the indices that occur. */
  datatype Record = Record(skipped: set<Arg>, constants: map<Arg, nat>, indices: set<nat>)

  ghost function All(s: set<Arg>, index: nat): map<Arg, nat> {
    map x | x in s :: index
  }

  ghost function Extended(r: Record, reached: set<Arg>, needing: set<Arg>, index: nat): Record {
    Record(r.skipped + reached, r.constants + All(needing, index),
           r.indices + if needing == {} then {} else {index})
  }

  lemma ExtendedTwice(r: Record, s: set<Arg>, s': set<Arg>, t: set<Arg>, t': set<Arg>, index: nat)
    ensures Extended(Extended(r, s, s', index), t, t', index) == Extended(r, s + t, s' + t', index)
  {
    assert r.constants + All(s', index) + All(t', index) == r.constants + All(s' + t', index);
  }

  function Top(s: seq<nat>): (t: nat)
    ensures forall i :: 0 <= i < |s| ==> s[i] <= t
  {
    if s == [] then 0
    else
      var t := Top(s[..|s| - 1]);
      if t < s[|s| - 1] then s[|s| - 1] else t
  }

  class Analysis {
    var loopToSkippedLiveIns: set<Arg>
    var loopToConstantLiveIns: map<Arg, nat>
    var constantLiveInsArgIndex: set<nat>

    constructor ()
      ensures Recorded() == Record({}, map[], {})
    {
      loopToSkippedLiveIns, loopToConstantLiveIns, constantLiveInsArgIndex := {}, map[], {};
    }

    ghost function Recorded(): Record
      reads this
    {
      Record(loopToSkippedLiveIns, loopToConstantLiveIns, constantLiveInsArgIndex)
    }

    /** `x` is a constant live-in. */
    method RecordConstant(x: Arg, index: nat)
      modifies this
      ensures Recorded() == Extended(old(Recorded()), {}, {x}, index)
    {
      loopToConstantLiveIns := loopToConstantLiveIns[x := index];
      constantLiveInsArgIndex := constantLiveInsArgIndex + {index};
    }

    /** `performConstantLiveInAnalysis`, up to the numbering: every argument of the root loop is followed. */
    method PerformConstantLiveInAnalysis(p: Program, root: nat)
      requires WellFormed(p) && root < |p.functions| && p.graph.caller[root].None?
      requires Recorded() == Record({}, map[], {})
      modifies this
      ensures Described(p, root, |p.functions[root].uses|, Recorded())
    {
      for index := 0 to |p.functions[root].uses|
        invariant Described(p, root, index, Recorded())
      {
        ghost var r := Recorded();
        ConstantLiveInToLoop(p, (root, index), index);
        ArgumentDescribed(p, root, index, r);
      }
    }

    /** `constantLiveInToLoop`: `x` receives the root's argument `index`; follow it inwards. */
    method ConstantLiveInToLoop(p: Program, x: Arg, index: nat)
      requires WellFormed(p) && IsArg(p, x)
      modifies this
      ensures Recorded() == Extended(old(Recorded()), Copies(p, x), Needing(p, Copies(p, x)), index)
      decreases Top(p.graph.order) - p.graph.order[x.0], 1
    {
      ghost var start := Recorded();
      loopToSkippedLiveIns := loopToSkippedLiveIns + {x};
      var uses := p.functions[x.0].uses[x.1];
      NothingFollowed(p, x, index, start);
      for k := 0 to |uses|
        invariant Recorded() == AfterUses(p, x, k, index, start)
      {
        FollowUse(p, x, k, index);
        UseFollowed(p, x, k, index, start);
      }
      AllFollowed(p, x, index, start);
    }

    /** One use of `x`. */
    method FollowUse(p: Program, x: Arg, k: nat, index: nat)
      requires WellFormed(p) && IsArg(p, x) && k < |p.functions[x.0].uses[x.1]|
      modifies this
      ensures Recorded() == Extended(Extended(old(Recorded()), {}, NeededForUse(p, x, k), index),
                                     CopiesByUse(p, x, k), Needing(p, CopiesByUse(p, x, k)), index)
      decreases Top(p.graph.order) - p.graph.order[x.0], 0
    {
      ghost var start := Recorded();
      NothingAdded(start, index);
      var u := p.functions[x.0].uses[x.1][k];
      if u.Passed? {
        var y := (u.callee, u.position);
        assert Has(p, x, u);
        if IsStartOrExit(p.functions[y.0], y.1) {
          RecordConstant(x, index);
        }
        ConstantLiveInToLoop(p, y, index);
      } else {
        if u.Other? {
          RecordConstant(x, index);
        }
        NothingAdded(Recorded(), index);
        assert Needing(p, {}) == {};
      }
    }
  }

  // ---------- What the analysis records ----------

  /** The record is right for the arguments `0 .. k` of the root loop: it contains exactly their copies. */
  ghost predicate Described(p: Program, root: nat, k: nat, r: Record)
    requires WellFormed(p)
  {
    && SkippedRight(p, root, k, r.skipped)
    && ConstantsRight(p, root, k, r.constants)
    && r.indices == r.constants.Values
  }

  ghost predicate SkippedRight(p: Program, root: nat, k: nat, skipped: set<Arg>)
    requires WellFormed(p)
  {
    forall x :: x in skipped <==> IsArg(p, x) && CopyOfFirst(p, root, k, x)
  }

  ghost predicate ConstantsRight(p: Program, root: nat, k: nat, constants: map<Arg, nat>)
    requires WellFormed(p)
  {
    && (forall x :: x in constants <==> IsArg(p, x) && CopyOfFirst(p, root, k, x) && Needs(p, x))
    && (forall x :: x in constants ==> Origin(p, x) == Some(constants[x]))
  }

  ghost predicate CopyOfFirst(p: Program, root: nat, k: nat, x: Arg)
    requires WellFormed(p) && IsArg(p, x)
  {
    Root(p.graph, x.0) == root && Origin(p, x).Some? && Origin(p, x).value < k
  }

  lemma ArgumentDescribed(p: Program, root: nat, k: nat, r: Record)
    requires WellFormed(p) && root < |p.functions| && p.graph.caller[root].None?
    requires Described(p, root, k, r)
    ensures var s := Copies(p, (root, k)); Described(p, root, k + 1, Extended(r, s, Needing(p, s), k))
  {
    var s := Copies(p, (root, k));
    CopiesOfArgument(p, root, k);
    ArgumentSkipped(p, root, k, r.skipped, s);
    ArgumentConstant(p, root, k, r.constants, s);
    NewConstants(p, root, k, r.constants, s);
  }

  /** `s` are the copies of the root's argument `k`. */
  ghost predicate AreCopiesOfArgument(p: Program, root: nat, k: nat, s: set<Arg>)
    requires WellFormed(p)
  {
    forall x :: x in s <==> IsArg(p, x) && Root(p.graph, x.0) == root && Origin(p, x) == Some(k)
  }

  lemma CopiesOfArgument(p: Program, root: nat, k: nat)
    requires WellFormed(p) && root < |p.functions| && p.graph.caller[root].None?
    ensures AreCopiesOfArgument(p, root, k, Copies(p, (root, k)))
  {
    forall x | IsArg(p, x)
      ensures x in Copies(p, (root, k)) <==> Root(p.graph, x.0) == root && Origin(p, x) == Some(k)
    {
      CopyOfRoot(p, x, root, k);
    }
  }

  lemma ArgumentSkipped(p: Program, root: nat, k: nat, skipped: set<Arg>, s: set<Arg>)
    requires WellFormed(p) && SkippedRight(p, root, k, skipped) && AreCopiesOfArgument(p, root, k, s)
    ensures SkippedRight(p, root, k + 1, skipped + s)
  {
  }

  lemma ArgumentConstant(p: Program, root: nat, k: nat, constants: map<Arg, nat>, s: set<Arg>)
    requires WellFormed(p) && ConstantsRight(p, root, k, constants) && AreCopiesOfArgument(p, root, k, s)
    ensures ConstantsRight(p, root, k + 1, constants + All(Needing(p, s), k))
  {
  }

  lemma NewConstants(p: Program, root: nat, k: nat, constants: map<Arg, nat>, s: set<Arg>)
    requires WellFormed(p) && ConstantsRight(p, root, k, constants) && AreCopiesOfArgument(p, root, k, s)
    ensures (constants + All(Needing(p, s), k)).Values
            == constants.Values + if Needing(p, s) == {} then {} else {k}
  {
    ValuesAdded(constants, Needing(p, s), k);
  }

  lemma ValuesAdded(m: map<Arg, nat>, s: set<Arg>, k: nat)
    requires forall x :: x in s ==> x !in m
    ensures (m + All(s, k)).Values == m.Values + if s == {} then {} else {k}
  {
    var m' := m + All(s, k);
    forall i | i in m.Values
      ensures i in m'.Values
    {
      var x :| x in m && m[x] == i;
      assert x in m' && m'[x] == i;
    }
    if s != {} {
      var x :| x in s;
      assert x in m' && m'[x] == k;
    }
  }

  lemma NothingFollowed(p: Program, x: Arg, index: nat, r: Record)
    requires WellFormed(p) && IsArg(p, x)
    ensures Record(r.skipped + {x}, r.constants, r.indices)
            == AfterUses(p, x, 0, index, r)
  {
    assert {x} + CopiesByUses(p, x, 0) == {x} && NeedingByUses(p, x, 0) == {};
  }

  lemma AllFollowed(p: Program, x: Arg, index: nat, r: Record)
    requires WellFormed(p) && IsArg(p, x)
    ensures AfterUses(p, x, |p.functions[x.0].uses[x.1]|, index, r)
            == Extended(r, Copies(p, x), Needing(p, Copies(p, x)), index)
  {
    ExplorationFinds(p, x);
    NeedingFinds(p, x);
  }

  lemma NothingAdded(r: Record, index: nat)
    ensures Extended(r, {}, {}, index) == r
  {
  }

  lemma NeedingFinds(p: Program, y: Arg)
    requires WellFormed(p) && IsArg(p, y)
    ensures NeedingByUses(p, y, |p.functions[y.0].uses[y.1]|) == Needing(p, Copies(p, y))
  {
    ExplorationFinds(p, y);
  }

  /** The record `r` when `x` and its first `k` uses have been followed. */
  ghost function AfterUses(p: Program, x: Arg, k: nat, index: nat, r: Record): Record
    requires WellFormed(p) && IsArg(p, x) && k <= |p.functions[x.0].uses[x.1]|
  {
    Extended(r, {x} + CopiesByUses(p, x, k), NeedingByUses(p, x, k), index)
  }

  lemma UseFollowed(p: Program, x: Arg, k: nat, index: nat, r: Record)
    requires WellFormed(p) && IsArg(p, x) && k < |p.functions[x.0].uses[x.1]|
    ensures Extended(Extended(AfterUses(p, x, k, index, r), {}, NeededForUse(p, x, k), index),
                     CopiesByUse(p, x, k), Needing(p, CopiesByUse(p, x, k)), index)
            == AfterUses(p, x, k + 1, index, r)
  {
    var reached, needing := {x} + CopiesByUses(p, x, k), NeedingByUses(p, x, k);
    var own, s := NeededForUse(p, x, k), CopiesByUse(p, x, k);
    ReachedNext(p, x, k);
    NeedingNext(p, x, k);
    ExtendedThrice(r, reached, needing, own, s, Needing(p, s), index);
  }

  lemma ReachedNext(p: Program, x: Arg, k: nat)
    requires WellFormed(p) && IsArg(p, x) && k < |p.functions[x.0].uses[x.1]|
    ensures {x} + CopiesByUses(p, x, k) + CopiesByUse(p, x, k) == {x} + CopiesByUses(p, x, k + 1)
  {
    assert CopiesByUses(p, x, k + 1) == CopiesByUses(p, x, k) + CopiesByUse(p, x, k);
  }

  lemma NeedingNext(p: Program, x: Arg, k: nat)
    requires WellFormed(p) && IsArg(p, x) && k < |p.functions[x.0].uses[x.1]|
    ensures NeedingByUses(p, x, k) + NeededForUse(p, x, k) + Needing(p, CopiesByUse(p, x, k))
            == NeedingByUses(p, x, k + 1)
  {
    assert CopiesByUses(p, x, k + 1) == CopiesByUses(p, x, k) + CopiesByUse(p, x, k);
    NeedingUnion(p, CopiesByUses(p, x, k), CopiesByUse(p, x, k));
  }

  lemma ExtendedThrice(r: Record, reached: set<Arg>, needing: set<Arg>, own: set<Arg>, s: set<Arg>, t: set<Arg>,
                       index: nat)
    ensures Extended(Extended(Extended(r, reached, needing, index), {}, own, index), s, t, index)
            == Extended(r, reached + s, needing + own + t, index)
  {
    ExtendedTwice(r, reached, needing, {}, own, index);
    ExtendedTwice(r, reached + {}, needing + own, s, t, index);
    assert reached + {} == reached;
  }
}
