/** Which schedules the machine has: the tasks of a fork interleave freely, a sequence runs in sequence. */
module Schedules {
  import opened LoopNest
  import opened ForkJoin
  import opened Theorems

  /** Some complete run of `d` executes the actions `t`. */
  ghost predicate IsTrace(d: Dag, t: seq<Event>) {
    exists run :: IsCompleteRun(d, run) && Trace(run) == t
  }

  /** `t` merges `a` and `b`, each in its own order. */
  ghost predicate Interleaving(a: seq<Event>, b: seq<Event>, t: seq<Event>)
    decreases |t|
  {
    if t == [] then a == [] && b == []
    else
      || (a != [] && a[0] == t[0] && Interleaving(a[1..], b, t[1..]))
      || (b != [] && b[0] == t[0] && Interleaving(a, b[1..], t[1..]))
  }

  // ---------- Traces step by step ----------

  /** From `d` the machine can go on to execute exactly `t` and finish. */
  ghost predicate Leads(d: Dag, t: seq<Event>)
    decreases Size(d)
  {
    if d == Done then t == []
    else exists e, d' :: LeadsBy(d, t, e, d')
  }

  /** The first step executes `e`, if it is an action, and leaves `d'`. */
  ghost predicate LeadsBy(d: Dag, t: seq<Event>, e: Option<Event>, d': Dag)
    decreases Size(d), 0
  {
    && Step(d, e, d') && Size(d') < Size(d)
    && if e.Some? then t != [] && t[0] == e.value && Leads(d', t[1..]) else Leads(d', t)
  }

  lemma NothingLeft(t: seq<Event>)
    ensures Leads(Done, t) <==> t == []
  {
  }

  lemma LeadsStep(d: Dag, e: Option<Event>, d': Dag, t: seq<Event>)
    requires Step(d, e, d') && Leads(d', t)
    ensures Leads(d, Extend([], e) + t)
  {
    StepShrinks(d, e, d');
    assert Extend([], e) + t == if e.Some? then [e.value] + t else t;
    assert LeadsBy(d, Extend([], e) + t, e, d');
  }

  ghost predicate Path(c: Config, run: seq<Config>) {
    && |run| > 0 && run[0] == c && run[|run| - 1].rest == Done
    && forall i :: 0 <= i < |run| - 1 ==> Next(run[i], run[i + 1])
  }

  lemma {:induction false} PathLeads(c: Config, run: seq<Config>) returns (t: seq<Event>)
    requires Path(c, run)
    ensures Leads(c.rest, t) && Trace(run) == c.trace + t
    decreases |run|
  {
    if |run| == 1 {
      t := [];
    } else {
      assert Next(run[0], run[1]);
      var e :| Step(c.rest, e, run[1].rest) && run[1].trace == Extend(c.trace, e);
      var rest := run[1..];
      forall i | 0 <= i < |rest| - 1
        ensures Next(rest[i], rest[i + 1])
      {
        assert Next(run[i + 1], run[i + 2]);
      }
      var t' := PathLeads(run[1], rest);
      LeadsStep(c.rest, e, run[1].rest, t');
      t := Extend([], e) + t';
    }
  }

  lemma {:induction false} LeadsPath(c: Config, t: seq<Event>) returns (run: seq<Config>)
    requires Leads(c.rest, t)
    ensures Path(c, run) && Trace(run) == c.trace + t
    decreases Size(c.rest)
  {
    if c.rest == Done {
      run := [c];
    } else {
      var e, d' :| LeadsBy(c.rest, t, e, d');
      var c' := Config(Extend(c.trace, e), d');
      var t' := if e.Some? then t[1..] else t;
      var rest := LeadsPath(c', t');
      run := [c] + rest;
      assert Next(c, c');
      forall i | 0 <= i < |run| - 1
        ensures Next(run[i], run[i + 1])
      {
        if i > 0 {
          assert Next(rest[i - 1], rest[i]);
        }
      }
    }
  }

  lemma TraceIsLeads(d: Dag, t: seq<Event>)
    ensures IsTrace(d, t) <==> Leads(d, t)
  {
    if IsTrace(d, t) {
      var run :| IsCompleteRun(d, run) && Trace(run) == t;
      var t' := PathLeads(Config([], d), run);
      assert t' == t;
    }
    if Leads(d, t) {
      var run := LeadsPath(Config([], d), t);
      assert IsCompleteRun(d, run) && Trace(run) == t;
    }
  }

  // ---------- Sequences ----------

  lemma {:induction false} ThenLeads(a: Dag, b: Dag, ta: seq<Event>, tb: seq<Event>)
    requires Leads(a, ta) && Leads(b, tb)
    ensures Leads(Then(a, b), ta + tb)
    decreases Size(a)
  {
    if a == Done {
      assert ta + tb == tb;
      LeadsStep(Then(a, b), None, b, tb);
      assert Extend([], None) + tb == tb;
    } else {
      var e, a' :| LeadsBy(a, ta, e, a');
      var ta' := if e.Some? then ta[1..] else ta;
      ThenLeads(a', b, ta', tb);
      LeadsStep(Then(a, b), e, Then(a', b), ta' + tb);
      assert Extend([], e) + (ta' + tb) == ta + tb;
    }
  }

  lemma {:induction false} LeadsThen(a: Dag, b: Dag, t: seq<Event>) returns (ta: seq<Event>, tb: seq<Event>)
    requires Leads(Then(a, b), t)
    ensures Leads(a, ta) && Leads(b, tb) && t == ta + tb
    decreases Size(a)
  {
    var e, d' :| LeadsBy(Then(a, b), t, e, d');
    if a.Done? {
      ta, tb := [], t;
    } else {
      var a' := d'.first;
      StepShrinks(a, e, a');
      var ta';
      ta', tb := LeadsThen(a', b, if e.Some? then t[1..] else t);
      LeadsStep(a, e, a', ta');
      ta := Extend([], e) + ta';
    }
  }

  // ---------- Forks ----------

  lemma InterleaveLeft(e: Option<Event>, a: seq<Event>, b: seq<Event>, t: seq<Event>)
    requires Interleaving(a, b, t)
    ensures Interleaving(Extend([], e) + a, b, Extend([], e) + t)
  {
    var a', t' := Extend([], e) + a, Extend([], e) + t;
    if e.Some? {
      assert a'[1..] == a && t'[1..] == t;
    } else {
      assert a' == a && t' == t;
    }
  }

  lemma InterleaveRight(e: Option<Event>, a: seq<Event>, b: seq<Event>, t: seq<Event>)
    requires Interleaving(a, b, t)
    ensures Interleaving(a, Extend([], e) + b, Extend([], e) + t)
  {
    var b', t' := Extend([], e) + b, Extend([], e) + t;
    if e.Some? {
      assert b'[1..] == b && t'[1..] == t;
    } else {
      assert b' == b && t' == t;
    }
  }

  lemma {:induction false} LeadsPar(p: Promotion, a: Dag, b: Dag, t: seq<Event>)
    returns (ta: seq<Event>, tb: seq<Event>)
    requires Leads(Par(p, a, b), t)
    ensures Leads(a, ta) && Leads(b, tb) && Interleaving(ta, tb, t)
    decreases Size(a) + Size(b)
  {
    var e, d' :| LeadsBy(Par(p, a, b), t, e, d');
    var t' := if e.Some? then t[1..] else t;
    assert t == Extend([], e) + t';
    if a.Done? && b.Done? {
      NothingLeft(t');
      ta, tb := [], [];
    } else if d'.right == b && Step(a, e, d'.left) {
      StepShrinks(a, e, d'.left);
      ta, tb := LeadsPar(p, d'.left, b, t');
      LeadsStep(a, e, d'.left, ta);
      InterleaveLeft(e, ta, tb, t');
      ta := Extend([], e) + ta;
    } else {
      StepShrinks(b, e, d'.right);
      ta, tb := LeadsPar(p, a, d'.right, t');
      LeadsStep(b, e, d'.right, tb);
      InterleaveRight(e, ta, tb, t');
      tb := Extend([], e) + tb;
    }
  }

  lemma {:induction false} ParLeads(p: Promotion, a: Dag, b: Dag, ta: seq<Event>, tb: seq<Event>, t: seq<Event>)
    requires Leads(a, ta) && Leads(b, tb) && Interleaving(ta, tb, t)
    ensures Leads(Par(p, a, b), t)
    decreases Size(a) + Size(b)
  {
    var d := Par(p, a, b);
    if a == Done && b == Done {
      assert Interleaving([], [], t) ==> t == [];
      LeadsStep(d, None, Done, []);
      assert Extend([], None) + [] == t;
    } else if a != Done && Silent(a, ta) {
      var a' :| LeadsBy(a, ta, None, a');
      ParLeads(p, a', b, ta, tb, t);
      LeadsStep(d, None, Par(p, a', b), t);
      assert Extend([], None) + t == t;
    } else if b != Done && Silent(b, tb) {
      var b' :| LeadsBy(b, tb, None, b');
      ParLeads(p, a, b', ta, tb, t);
      LeadsStep(d, None, Par(p, a, b'), t);
      assert Extend([], None) + t == t;
    } else {
      FirstActs(p, a, b, ta, tb, t);
    }
  }

  /** The next step of `d` on the way to `t` executes no action. */
  ghost predicate Silent(d: Dag, t: seq<Event>) {
    exists d' :: LeadsBy(d, t, None, d')
  }

  /** Both tasks are about to execute an action or have finished. */
  lemma {:induction false} FirstActs(p: Promotion, a: Dag, b: Dag, ta: seq<Event>, tb: seq<Event>, t: seq<Event>)
    requires Leads(a, ta) && Leads(b, tb) && Interleaving(ta, tb, t)
    requires (a != Done || b != Done) && (a == Done || !Silent(a, ta)) && (b == Done || !Silent(b, tb))
    ensures Leads(Par(p, a, b), t)
    decreases Size(a) + Size(b), 0
  {
    var d := Par(p, a, b);
    if ta != [] && t != [] && ta[0] == t[0] && Interleaving(ta[1..], tb, t[1..]) {
      var e, a' :| LeadsBy(a, ta, e, a');
      ParLeads(p, a', b, ta[1..], tb, t[1..]);
      LeadsStep(d, e, Par(p, a', b), t[1..]);
      assert Extend([], e) + t[1..] == t;
    } else if t != [] {
      var e, b' :| LeadsBy(b, tb, e, b');
      ParLeads(p, a, b', ta, tb[1..], t[1..]);
      LeadsStep(d, e, Par(p, a, b'), t[1..]);
      assert Extend([], e) + t[1..] == t;
    } else {
      NotStuck(a, ta);
      NotStuck(b, tb);
    }
  }

  /** A computation that goes on to execute nothing takes silent steps. */
  lemma NotStuck(d: Dag, t: seq<Event>)
    requires Leads(d, t) && t == []
    ensures d == Done || Silent(d, t)
  {
    if d != Done {
      var e, d' :| LeadsBy(d, t, e, d');
      assert e == None;
    }
  }

  // ---------- The schedules of a computation ----------

  /** The tasks of a fork can be scheduled in every way: the traces of a fork are exactly the interleavings of
      the traces of its tasks. */
  lemma ForkInterleaves(p: Promotion, a: Dag, b: Dag, t: seq<Event>)
    ensures IsTrace(Par(p, a, b), t)
            <==> exists ta, tb :: IsTrace(a, ta) && IsTrace(b, tb) && Interleaving(ta, tb, t)
  {
    TraceIsLeads(Par(p, a, b), t);
    if IsTrace(Par(p, a, b), t) {
      var ta, tb := LeadsPar(p, a, b, t);
      TraceIsLeads(a, ta);
      TraceIsLeads(b, tb);
    }
    if ta, tb :| IsTrace(a, ta) && IsTrace(b, tb) && Interleaving(ta, tb, t) {
      TraceIsLeads(a, ta);
      TraceIsLeads(b, tb);
      ParLeads(p, a, b, ta, tb, t);
    }
  }

  /** Inside a task, the second part starts when the first has finished, with everything it forked. */
  lemma SequenceRuns(a: Dag, b: Dag, t: seq<Event>)
    ensures IsTrace(Then(a, b), t) <==> exists ta, tb :: IsTrace(a, ta) && IsTrace(b, tb) && t == ta + tb
  {
    TraceIsLeads(Then(a, b), t);
    if IsTrace(Then(a, b), t) {
      var ta, tb := LeadsThen(a, b, t);
      TraceIsLeads(a, ta);
      TraceIsLeads(b, tb);
    }
    if ta, tb :| IsTrace(a, ta) && IsTrace(b, tb) && t == ta + tb {
      TraceIsLeads(a, ta);
      TraceIsLeads(b, tb);
      ThenLeads(a, b, ta, tb);
    }
  }

  /** An action is executed, once; a poll and a finished task execute nothing. */
  lemma SingleStep(e: Event, q: Index, t: seq<Event>)
    ensures IsTrace(Act(e), t) <==> t == [e]
    ensures IsTrace(Poll(q), t) <==> t == []
    ensures IsTrace(Done, t) <==> t == []
  {
    TraceIsLeads(Act(e), t);
    TraceIsLeads(Poll(q), t);
    TraceIsLeads(Done, t);
    LeadsStep(Act(e), Some(e), Done, []);
    LeadsStep(Poll(q), None, Done, []);
    assert Extend([], Some(e)) + [] == [e] && Extend([], None) + [] == [];
    if Leads(Act(e), t) {
      var x, d' :| LeadsBy(Act(e), t, x, d');
      NothingLeft(t[1..]);
      assert t == [t[0]] + t[1..];
    }
    if Leads(Poll(q), t) {
      var x, d' :| LeadsBy(Poll(q), t, x, d');
      NothingLeft(t);
    }
  }
}
