/** The table of constant live-ins: how the root loop fills it, and what the slice tasks read from it. */
module ConstantTable {
  import opened LoopNest
  import opened NestAnalysis
  import opened ConstantLiveIns

  // ---------- Activations of loop functions ----------

  /** A value of an argument: an integer of some width, in two's complement, or a pointer. */
  datatype Constant = Integer(width: nat, value: int) | Pointer(address: int)

  /** One activation of the function of a loop. */
  datatype Frame = Frame(loop: nat, args: seq<Constant>)

  /** The calls that are active while some iteration of the innermost of these loops runs.  An operand that
      is not an argument of the caller may have any value. */
  ghost predicate Activation(p: Program, frames: seq<Frame>)
    requires WellFormed(p)
  {
    && |frames| > 0
    && (forall i :: 0 <= i < |frames| ==> IsFrame(p, frames[i]))
    && p.graph.caller[frames[0].loop].None?
    && forall i :: 0 <= i < |frames| - 1 ==> Calls(p, frames[i], frames[i + 1])
  }

  ghost predicate IsFrame(p: Program, f: Frame)
    requires WellFormed(p)
  {
    f.loop < |p.functions| && |f.args| == |p.functions[f.loop].uses|
  }

  ghost predicate Calls(p: Program, f: Frame, g: Frame)
    requires WellFormed(p) && IsFrame(p, f) && IsFrame(p, g)
  {
    && p.graph.caller[g.loop] == Some(f.loop)
    && forall a {:trigger g.args[a]} :: 0 <= a < |g.args| && Passes(p, (g.loop, a)).Some? ==>
         Passes(p, (g.loop, a)).value.1 < |f.args| && g.args[a] == f.args[Passes(p, (g.loop, a)).value.1]
  }

  /** In every activation, an argument with an origin has the value of that argument of the root loop. */
  lemma {:induction false} OriginHolds(p: Program, frames: seq<Frame>, a: nat)
    requires WellFormed(p) && Activation(p, frames)
    requires var f := frames[|frames| - 1]; a < |f.args| && Origin(p, (f.loop, a)).Some?
    ensures var f, index := frames[|frames| - 1], Origin(p, (frames[|frames| - 1].loop, a)).value;
            && frames[0].loop == Root(p.graph, f.loop)
            && index < |frames[0].args| && f.args[a] == frames[0].args[index]
    decreases |frames|
  {
    if |frames| > 1 {
      var outer := frames[..|frames| - 1];
      var f, g := frames[|frames| - 2], frames[|frames| - 1];
      assert Calls(p, frames[|frames| - 2], frames[|frames| - 1]);
      assert forall i :: 0 <= i < |outer| - 1 ==> Calls(p, frames[i], frames[i + 1]);
      OriginHolds(p, outer, Passes(p, (g.loop, a)).value.1);
    }
  }

  // ---------- Values in 64-bit words ----------

  datatype Type = IntegerType(width: nat) | PointerType

  function TypeOf(c: Constant): Type {
    match c
    case Integer(w, _) => IntegerType(w)
    case Pointer(_) => PointerType
  }

  predicate ValidConstant(c: Constant) {
    match c
    case Integer(w, v) => w >= 1 && 0 - Pow2(w - 1) <= v < Pow2(w - 1)
    case Pointer(a) => 0 <= a < WORD
  }

  /** Sign extension or truncation to 64 bits, as an unsigned word. */
  function ToWord(c: Constant): int {
    match c
    case Integer(_, v) => v % WORD
    case Pointer(a) => a
  }

  /** The integer that the lowest `width` bits of a two's complement number stand for. */
  function Signed(width: nat, bits: int): int
    requires width >= 1
  {
    if bits < Pow2(width - 1) then bits else bits - Pow2(width)
  }

  /** Truncation or sign extension of a 64-bit word to the type of the argument. */
  function FromWord(t: Type, word: int): Constant
    requires t.IntegerType? ==> t.width >= 1
  {
    match t
    case IntegerType(w) => Integer(w, if w <= 64 then Signed(w, word % Pow2(w)) else Signed(64, word))
    case PointerType => Pointer(word)
  }

  lemma {:induction false} Pow2Splits(a: nat, b: nat)
    requires a <= b
    ensures Pow2(b) == Pow2(b - a) * Pow2(a) && Pow2(b) >= Pow2(a)
    decreases b - a
  {
    if a < b {
      Pow2Splits(a, b - 1);
    }
  }

  lemma WordIsPow2()
    ensures Pow2(64) == WORD && Pow2(63) == LIMIT
  {
    assert Pow2(4) == 16;
    Pow2Splits(4, 8);
    Pow2Splits(8, 16);
    Pow2Splits(16, 32);
    Pow2Splits(32, 64);
  }

  lemma ModOfMod(v: int, k: int, m: int)
    requires 0 < k && 0 < m
    ensures v % (k * m) % m == v % m
  {
    var q, r := v / (k * m), v % (k * m);
    assert v == (q * k) * m + r;
    ModPlusMultiple(r, q * k, m);
  }

  lemma ModPlusMultiple(r: int, q: int, m: int)
    requires 0 < m
    ensures (q * m + r) % m == r % m
  {
    Quotient((q * m + r) / m - q - r / m, r % m - (q * m + r) % m, m);
  }

  lemma Quotient(d: int, x: int, m: int)
    requires 0 < m && d * m == x && -m < x < m
    ensures d == 0 && x == 0
  {
    if d >= 1 {
      MulAtLeast(d, m);
    }
    if d <= -1 {
      MulAtLeast(-d, m);
    }
  }

  lemma MulAtLeast(d: int, m: int)
    requires 1 <= d && 0 < m
    ensures d * m >= m && (-d) * m == -(d * m)
  {
  }

  lemma SignedMod(w: nat, v: int)
    requires w >= 1 && 0 - Pow2(w - 1) <= v < Pow2(w - 1)
    ensures Signed(w, v % Pow2(w)) == v
  {
    WrapsOnce(v, Pow2(w));
  }

  lemma WrapsOnce(v: int, m: int)
    requires 0 < m && -m <= v < m
    ensures v % m == if v < 0 then v + m else v
  {
    if v < 0 {
      ModPlusMultiple(v + m, -1, m);
    }
  }

  lemma SignedRange(w: nat, bits: int)
    requires w >= 1 && 0 <= bits < Pow2(w)
    ensures 0 - Pow2(w - 1) <= Signed(w, bits) < Pow2(w - 1)
  {
  }

  /** A value survives the way through the table if and only if it fits into a signed 64-bit word; so values
      of all integer types up to 64 bits do, and pointers. */
  lemma RoundTrip(c: Constant)
    requires ValidConstant(c)
    ensures FromWord(TypeOf(c), ToWord(c)) == c <==> c.Pointer? || -LIMIT <= c.value < LIMIT
    ensures c.Integer? && c.width <= 64 ==> -LIMIT <= c.value < LIMIT
  {
    WordIsPow2();
    if c.Integer? {
      var w, v := c.width, c.value;
      if w <= 64 {
        Pow2Splits(w, 64);
        Pow2Splits(w - 1, 63);
        ModOfMod(v, Pow2(64 - w), Pow2(w));
        SignedMod(w, v);
      } else if -LIMIT <= v < LIMIT {
        SignedMod(64, v);
      } else {
        SignedRange(64, v % WORD);
      }
    }
  }

  // ---------- The table ----------

  /** Slots number the recorded argument indices consecutively. */
  ghost predicate Numbering(indices: set<nat>, slot: map<nat, nat>) {
    && slot.Keys == indices
    && (forall i :: i in slot ==> slot[i] < |slot|)
    && (forall i, j :: i in slot && j in slot && slot[i] == slot[j] ==> i == j)
  }

  /** The end of `performConstantLiveInAnalysis`; `order` is how the set of indices is enumerated. */
  method NumberConstants(order: seq<nat>) returns (slot: map<nat, nat>)
    requires NoRepeat(order)
    ensures Numbering(Elements(order), slot) && |slot| == |order|
    ensures forall k :: 0 <= k < |order| ==> slot[order[k]] == k
  {
    slot := map[];
    var index := 0;
    for k := 0 to |order|
      invariant index == k == |slot|
      invariant forall i :: i in slot ==> slot[i] < k && order[slot[i]] == i
      invariant forall j :: 0 <= j < k ==> order[j] in slot && slot[order[j]] == j
    {
      slot := slot[order[k] := index];
      index := index + 1;
    }
    assert slot.Keys == Elements(order);
  }

  /** The table holds the arguments of the root loop. */
  ghost predicate Filled(slot: map<nat, nat>, args: seq<Constant>, table: seq<int>) {
    |table| == |slot| && forall i :: i in slot ==>
      i < |args| && slot[i] < |table| && table[slot[i]] == ToWord(args[i])
  }

  /** The stores the compiler emits before the root's slice is called, in any order of the slots. */
  method FillTable(slot: map<nat, nat>, args: seq<Constant>) returns (constantLiveIns: array<int>)
    requires Numbering(slot.Keys, slot) && forall i :: i in slot ==> i < |args|
    ensures fresh(constantLiveIns) && Filled(slot, args, constantLiveIns[..])
  {
    constantLiveIns := new int[|slot|];
    var pairs := slot.Keys;
    while pairs != {}
      invariant pairs <= slot.Keys && constantLiveIns.Length == |slot|
      invariant forall i :: i in slot && i !in pairs ==> constantLiveIns[slot[i]] == ToWord(args[i])
      decreases pairs
    {
      var i :| i in pairs;
      constantLiveIns[slot[i]] := ToWord(args[i]);
      pairs := pairs - {i};
    }
  }

  /** What a slice task of loop `l` loads for its constant live-in `a`. */
  function Loaded(r: Record, slot: map<nat, nat>, table: seq<int>, t: Type, x: Arg): Constant
    requires x in r.constants && r.constants[x] in slot && slot[r.constants[x]] < |table|
    requires t.IntegerType? ==> t.width >= 1
  {
    FromWord(t, table[slot[r.constants[x]]])
  }

  /** Wherever a slice task runs, it finds in the table exactly the value the original loop function would
      have received as this argument. */
  lemma ConstantsArrive(p: Program, r: Record, slot: map<nat, nat>, table: seq<int>, frames: seq<Frame>, a: nat)
    requires WellFormed(p) && Activation(p, frames)
    requires Described(p, frames[0].loop, |p.functions[frames[0].loop].uses|, r)
    requires Numbering(r.indices, slot) && Filled(slot, frames[0].args, table)
    requires var x := (frames[|frames| - 1].loop, a); x in r.constants
    requires a < |frames[|frames| - 1].args| && ValidConstant(frames[|frames| - 1].args[a])
    ensures var f := frames[|frames| - 1];
            && r.constants[(f.loop, a)] in slot && slot[r.constants[(f.loop, a)]] < |table|
            && (Loaded(r, slot, table, TypeOf(f.args[a]), (f.loop, a)) == f.args[a]
                <==> f.args[a].Pointer? || -LIMIT <= f.args[a].value < LIMIT)
  {
    var f := frames[|frames| - 1];
    OriginHolds(p, frames, a);
    assert r.constants[(f.loop, a)] in r.constants.Values;
    RoundTrip(f.args[a]);
  }

  // ---------- What a slice task needs the values of its arguments for ----------

  /** The argument of a loop's function that bounds the loop, if it is bounded by one.  For a bound that is the
      `llvm.smax` of an argument, the transformation looks through the intrinsic. */
  function BoundBy(bound: Value): Option<nat> {
    match bound
    case Argument(a) => Some(a)
    case SMax(Argument(a)) => Some(a)
    case _ => None
  }

  /** Operand `a` of the call of inner loop `g`, when the caller has the arguments `args`: one of them, or
      `computed` by instructions of the caller. */
  function Operand(p: Program, g: nat, a: nat, args: seq<Constant>, computed: (nat, seq<Constant>) -> Constant)
    : Constant
    requires g < |p.functions| && a < |p.functions[g].operands|
  {
    match p.functions[g].operands[a]
    case Argument(i) => if i < |args| then args[i] else computed(a, args)
    case _ => computed(a, args)
  }

  /** What the slice task of the caller stores as START or MAX of inner loop `g` whose function has this bound:
      the operand that is passed for it, or a constant. */
  function StoredBound(p: Program, g: nat, bound: Value, args: seq<Constant>,
                       computed: (nat, seq<Constant>) -> Constant): Option<Constant>
    requires g < |p.functions|
  {
    match BoundBy(bound)
    case Some(a) => if a < |p.functions[g].operands| then Some(Operand(p, g, a, args, computed)) else None
    case None => None
  }

  ghost predicate HasOther(p: Program, x: Arg) {
    IsArg(p, x) && Other in p.functions[x.0].uses[x.1]
  }

  /** The arguments of loop `f` are given twice. */
  ghost predicate BothArgs(p: Program, f: nat, args: seq<Constant>, args': seq<Constant>) {
    f < |p.functions| && |args| == |args'| == |p.functions[f].uses|
  }

  /** An instruction of loop `f` that computes an operand of a call is another use of the arguments it reads. */
  ghost predicate ComputedFromOthers(p: Program, f: nat, computed: (nat, seq<Constant>) -> Constant) {
    forall a: nat, args, args' ::
      BothArgs(p, f, args, args') && (forall i :: 0 <= i < |args| && HasOther(p, (f, i)) ==> args[i] == args'[i])
      ==> computed(a, args) == computed(a, args')
  }

  ghost predicate SameBounds(p: Program, g: nat, args: seq<Constant>, args': seq<Constant>,
                             computed: (nat, seq<Constant>) -> Constant)
    requires g < |p.functions|
  {
    var f := p.functions[g];
    && StoredBound(p, g, f.start, args, computed) == StoredBound(p, g, f.start, args', computed)
    && StoredBound(p, g, f.exit, args, computed) == StoredBound(p, g, f.exit, args', computed)
  }

  /** The environments and the table are enough: if two activations of loop `f` agree on its arguments that are
      recorded as constants and on those that are not left out of the environments, then they store the same
      bounds for every inner loop `g`. */
  lemma BoundsArrive(p: Program, root: nat, r: Record, f: nat, g: nat, args: seq<Constant>, args': seq<Constant>,
                     computed: (nat, seq<Constant>) -> Constant)
    requires WellFormed(p) && root < |p.functions| && p.graph.caller[root].None?
    requires Described(p, root, |p.functions[root].uses|, r)
    requires g < |p.functions| && p.graph.caller[g] == Some(f)
    requires BothArgs(p, f, args, args') && Root(p.graph, f) == root
    requires ComputedFromOthers(p, f, computed)
    requires forall i :: 0 <= i < |args| && ((f, i) in r.constants || (f, i) !in r.skipped) ==> args[i] == args'[i]
    ensures SameBounds(p, g, args, args', computed)
  {
    forall i | 0 <= i < |args| && HasOther(p, (f, i))
      ensures args[i] == args'[i]
    {
      NothingIsLost(p, root, r, (f, i));
    }
    BoundArrives(p, root, r, f, g, args, args', computed, p.functions[g].start);
    BoundArrives(p, root, r, f, g, args, args', computed, p.functions[g].exit);
  }

  lemma BoundArrives(p: Program, root: nat, r: Record, f: nat, g: nat, args: seq<Constant>, args': seq<Constant>,
                     computed: (nat, seq<Constant>) -> Constant, bound: Value)
    requires WellFormed(p) && root < |p.functions| && p.graph.caller[root].None?
    requires Described(p, root, |p.functions[root].uses|, r)
    requires g < |p.functions| && p.graph.caller[g] == Some(f)
    requires BothArgs(p, f, args, args') && Root(p.graph, f) == root
    requires forall a: nat :: computed(a, args) == computed(a, args')
    requires forall i :: 0 <= i < |args| && ((f, i) in r.constants || (f, i) !in r.skipped) ==> args[i] == args'[i]
    requires bound == p.functions[g].start || bound == p.functions[g].exit
    ensures StoredBound(p, g, bound, args, computed) == StoredBound(p, g, bound, args', computed)
  {
    var a := BoundBy(bound);
    if a.Some? && a.value < |p.functions[g].operands| && p.functions[g].operands[a.value].Argument? {
      var i := p.functions[g].operands[a.value].index;
      PassedBoundNeeded(p, f, g, a.value);
      NeedsRecorded(p, root, r, (f, i));
    }
  }

  /** An argument that is passed for a bound of an inner loop is needed. */
  lemma PassedBoundNeeded(p: Program, f: nat, g: nat, a: nat)
    requires WellFormed(p) && g < |p.functions| && p.graph.caller[g] == Some(f)
    requires a < |p.functions[g].operands| && p.functions[g].operands[a].Argument?
    requires BoundBy(p.functions[g].start) == Some(a) || BoundBy(p.functions[g].exit) == Some(a)
    ensures var x := (f, p.functions[g].operands[a].index); IsArg(p, x) && Needs(p, x)
  {
    var x := (f, p.functions[g].operands[a].index);
    assert Passes(p, (g, a)) == Some(x);
    assert Has(p, x, Passed(g, a));
    var uses := p.functions[x.0].uses[x.1];
    var i :| 0 <= i < |uses| && uses[i] == Passed(g, a);
    NeedsFirstIs(p, uses, |uses|);
  }

  lemma NeedsRecorded(p: Program, root: nat, r: Record, x: Arg)
    requires WellFormed(p) && root < |p.functions| && p.graph.caller[root].None?
    requires Described(p, root, |p.functions[root].uses|, r)
    requires IsArg(p, x) && Root(p.graph, x.0) == root
    ensures x in r.skipped <==> Origin(p, x).Some?
    ensures x in r.constants <==> x in r.skipped && Needs(p, x)
  {
    OriginIsArgument(p, x);
  }

  /** The bounds of inner loop `g` are different for two activations that differ in argument `x` only. */
  ghost predicate BoundsDiffer(p: Program, g: nat, x: Arg, args: seq<Constant>, args': seq<Constant>,
                               computed: (nat, seq<Constant>) -> Constant)
    requires g < |p.functions|
  {
    && BothArgs(p, x.0, args, args') && ComputedFromOthers(p, x.0, computed)
    && (forall i :: 0 <= i < |args| && i != x.1 ==> args[i] == args'[i])
    && !SameBounds(p, g, args, args', computed)
  }

  /** Some bound of inner loop `g` changes with argument `x` alone. */
  ghost predicate BoundsDependOn(p: Program, g: nat, x: Arg)
    requires g < |p.functions|
  {
    exists args, args', computed :: BoundsDiffer(p, g, x, args, args', computed)
  }

  /** The slice task of loop `x.0` needs the value of argument `x`: some instruction of it uses the value, or
      it determines what is stored as a bound of an inner loop. */
  ghost predicate Matters(p: Program, x: Arg)
    requires WellFormed(p)
  {
    || HasOther(p, x)
    || exists g: nat :: g < |p.functions| && p.graph.caller[g] == Some(x.0) && BoundsDependOn(p, g, x)
  }

  /** An argument that is left out of the environments is in the table if and only if the transformed loop needs
      its value; and exactly the copies of root arguments are left out. */
  lemma NothingIsLost(p: Program, root: nat, r: Record, x: Arg)
    requires WellFormed(p) && root < |p.functions| && p.graph.caller[root].None?
    requires Described(p, root, |p.functions[root].uses|, r)
    requires IsArg(p, x) && Root(p.graph, x.0) == root
    ensures x in r.skipped <==> Origin(p, x).Some?
    ensures x in r.constants <==> x in r.skipped && Matters(p, x)
    ensures HasOther(p, x) ==> Matters(p, x)
  {
    NeedsRecorded(p, root, r, x);
    if Needs(p, x) {
      NeededMatters(p, x);
    }
    if Matters(p, x) {
      MattersNeeded(p, x);
    }
  }

  lemma NeededMatters(p: Program, x: Arg)
    requires WellFormed(p) && IsArg(p, x) && Needs(p, x)
    ensures Matters(p, x)
  {
    var uses := p.functions[x.0].uses[x.1];
    NeedsFirstIs(p, uses, |uses|);
    var i :| 0 <= i < |uses| && NeedsFor(p, uses[i]);
    if uses[i].Passed? {
      BoundVaries(p, x, uses[i].callee, uses[i].position);
    }
  }

  /** The bound of inner loop `g` that `x` is passed for is different for two values of `x`. */
  lemma BoundVaries(p: Program, x: Arg, g: nat, a: nat)
    requires WellFormed(p) && IsArg(p, x) && Has(p, x, Passed(g, a))
    requires g < |p.functions| && IsStartOrExit(p.functions[g], a)
    ensures p.graph.caller[g] == Some(x.0) && BoundsDependOn(p, g, x)
  {
    assert Passes(p, (g, a)) == Some(x);
    var computed := (k: nat, s: seq<Constant>) => Pointer(0);
    var args := seq(|p.functions[x.0].uses|, _ => Pointer(0));
    var args' := args[x.1 := Pointer(1)];
    assert BothArgs(p, x.0, args, args') && ComputedFromOthers(p, x.0, computed);
    assert Operand(p, g, a, args, computed) == Pointer(0) && Operand(p, g, a, args', computed) == Pointer(1);
    assert BoundsDiffer(p, g, x, args, args', computed);
  }

  lemma MattersNeeded(p: Program, x: Arg)
    requires WellFormed(p) && IsArg(p, x) && Matters(p, x)
    ensures Needs(p, x)
  {
    if HasOther(p, x) {
      var uses := p.functions[x.0].uses[x.1];
      NeedsFirstIs(p, uses, |uses|);
      var i :| 0 <= i < |uses| && uses[i] == Other;
      assert NeedsFor(p, uses[i]);
    } else {
      var g: nat :| g < |p.functions| && p.graph.caller[g] == Some(x.0) && BoundsDependOn(p, g, x);
      var args, args', computed :| BoundsDiffer(p, g, x, args, args', computed);
      assert (x.0, x.1) == x;
      OthersAgree(p, x.0, args, args', computed);
      if StoredBound(p, g, p.functions[g].start, args, computed)
         != StoredBound(p, g, p.functions[g].start, args', computed) {
        VariesNeeded(p, x, g, args, args', computed, p.functions[g].start);
      } else {
        VariesNeeded(p, x, g, args, args', computed, p.functions[g].exit);
      }
    }
  }

  lemma OthersAgree(p: Program, f: nat, args: seq<Constant>, args': seq<Constant>,
                    computed: (nat, seq<Constant>) -> Constant)
    requires ComputedFromOthers(p, f, computed) && BothArgs(p, f, args, args')
    requires forall i :: 0 <= i < |args| && HasOther(p, (f, i)) ==> args[i] == args'[i]
    ensures forall a: nat :: computed(a, args) == computed(a, args')
  {
  }

  lemma VariesNeeded(p: Program, x: Arg, g: nat, args: seq<Constant>, args': seq<Constant>,
                     computed: (nat, seq<Constant>) -> Constant, bound: Value)
    requires WellFormed(p) && IsArg(p, x) && g < |p.functions| && p.graph.caller[g] == Some(x.0)
    requires BothArgs(p, x.0, args, args') && forall a: nat :: computed(a, args) == computed(a, args')
    requires forall i :: 0 <= i < |args| && i != x.1 ==> args[i] == args'[i]
    requires bound == p.functions[g].start || bound == p.functions[g].exit
    requires StoredBound(p, g, bound, args, computed) != StoredBound(p, g, bound, args', computed)
    ensures Needs(p, x)
  {
    var a := BoundBy(bound).value;
    assert computed(a, args) == computed(a, args');
    assert p.functions[g].operands[a] == Argument(x.1);
    PassedBoundNeeded(p, x.0, g, a);
  }

  lemma {:induction false} OriginIsArgument(p: Program, x: Arg)
    requires WellFormed(p) && IsArg(p, x)
    ensures Origin(p, x).Some? ==>
              Root(p.graph, x.0) < |p.functions| && Origin(p, x).value < |p.functions[Root(p.graph, x.0)].uses|
    decreases p.graph.order[x.0]
  {
    if p.graph.caller[x.0].Some? && Passes(p, x).Some? {
      OriginIsArgument(p, Passes(p, x).value);
    }
  }
}
