/** How many steps an interleaving has: each uses up a part of a program, so every one ends. */
module PlaybookBounds {
  import opened Common
  import opened PlaybookModel
  import opened PlaybookThreads

  /** Taking the lock, each command, giving the lock back; other steps are one. */
  function StepCost(step: Step): nat {
    if step.Section? then |step.commands| + 2 else 1
  }

  function Cost(steps: seq<Step>): nat {
    if steps == [] then 0
    else
      var n := |steps| - 1;
      Cost(steps[..n]) + StepCost(steps[n])
  }

  /** The steps a thread has taken. */
  function Spent(prog: Program, m: Machine, t: Tid): nat {
    if t in m.pcs && m.pcs[t] <= |prog(t)| then
      Cost(prog(t)[..m.pcs[t]]) + if m.lock.Some? && m.lock.value.tid == t then 1 + m.lock.value.issued else 0
    else 0
  }

  lemma CostOne(steps: seq<Step>, n: nat)
    requires n < |steps|
    ensures Cost(steps[..n + 1]) == Cost(steps[..n]) + StepCost(steps[n])
  {
    assert steps[..n + 1][..n] == steps[..n];
  }

  lemma {:induction false} CostPart(steps: seq<Step>, n: nat)
    requires n < |steps|
    ensures Cost(steps[..n]) + StepCost(steps[n]) <= Cost(steps)
    decreases |steps|
  {
    var last := |steps| - 1;
    if n < last {
      CostPart(steps[..last], n);
      assert steps[..last][..n] == steps[..n];
    }
  }

  lemma LockedSpends(prog: Program, m: Machine, n: Machine, t: Tid)
    requires Counted(prog, m) && (Acquire(prog, m, n, t) || Issue(prog, m, n, t))
    ensures Spent(prog, n, t) == Spent(prog, m, t) + 1
  {
  }

  /** A thread that moves on has spent what its step costs. */
  lemma MovingSpends(prog: Program, m: Machine, n: Machine, t: Tid)
    requires Counted(prog, m) && StepOf(prog, m, n, t) && !Acquire(prog, m, n, t) && !Issue(prog, m, n, t)
    ensures Spent(prog, n, t) == Spent(prog, m, t) + 1
  {
    var pc := m.pcs[t];
    CostOne(prog(t), pc);
    Moves(prog, m, n, t);
  }

  lemma Moves(prog: Program, m: Machine, n: Machine, t: Tid)
    requires Counted(prog, m) && StepOf(prog, m, n, t) && !Acquire(prog, m, n, t) && !Issue(prog, m, n, t)
    ensures t in n.pcs && n.pcs[t] == m.pcs[t] + 1
    ensures var step := prog(t)[m.pcs[t]];
      if step.Section? then
        m.lock == Some(Holder(t, |step.commands|)) && n.lock == None
      else n.lock == m.lock && (m.lock.Some? ==> m.lock.value.tid != t)
  {
  }

  lemma OthersSpend(prog: Program, m: Machine, n: Machine, t: Tid, u: Tid)
    requires Counted(prog, m) && StepOf(prog, m, n, t) && u != t
    ensures Spent(prog, n, u) == Spent(prog, m, u)
  {
    OthersStay(prog, m, n, t, u);
    if u in n.pcs && u !in m.pcs {
      assert prog(u)[..0] == [];
    }
  }

  // ----- sums over threads

  function Total(f: Tid -> nat, tids: seq<Tid>): nat {
    if tids == [] then 0 else Total(f, tids[..|tids| - 1]) + f(tids[|tids| - 1])
  }

  lemma {:induction false} TotalSame(f: Tid -> nat, g: Tid -> nat, tids: seq<Tid>)
    requires forall t :: t in tids ==> f(t) == g(t)
    ensures Total(f, tids) == Total(g, tids)
    decreases |tids|
  {
    if tids != [] {
      var n := |tids| - 1;
      assert tids[n] in tids && forall t :: t in tids[..n] ==> t in tids;
      TotalSame(f, g, tids[..n]);
    }
  }

  lemma {:induction false} TotalGrows(f: Tid -> nat, g: Tid -> nat, tids: seq<Tid>, t: Tid)
    requires Distinct(tids) && t in tids && g(t) == f(t) + 1
    requires forall u :: u in tids && u != t ==> g(u) == f(u)
    ensures Total(g, tids) == Total(f, tids) + 1
    decreases |tids|
  {
    var n := |tids| - 1;
    var rest := tids[..n];
    assert tids == rest + [tids[n]];
    if tids[n] == t {
      assert t !in rest;
      TotalSame(f, g, rest);
    } else {
      TotalGrows(f, g, rest, t);
      assert g(tids[n]) == f(tids[n]);
    }
  }

  lemma {:induction false} TotalBound(f: Tid -> nat, g: Tid -> nat, tids: seq<Tid>)
    requires forall t :: t in tids ==> f(t) <= g(t)
    ensures Total(f, tids) <= Total(g, tids)
    ensures Total(f, tids) == Total(g, tids) ==> forall t :: t in tids ==> f(t) == g(t)
    decreases |tids|
  {
    if tids != [] {
      var n := |tids| - 1;
      assert tids == tids[..n] + [tids[n]];
      assert tids[n] in tids && forall t :: t in tids[..n] ==> t in tids;
      TotalBound(f, g, tids[..n]);
    }
  }

  lemma {:induction false} TotalNone(f: Tid -> nat, tids: seq<Tid>)
    requires forall t :: t in tids ==> f(t) == 0
    ensures Total(f, tids) == 0
  {
    if tids != [] {
      assert tids[|tids| - 1] in tids && forall t :: t in tids[..|tids| - 1] ==> t in tids;
      TotalNone(f, tids[..|tids| - 1]);
    }
  }

  // ----- how long an interleaving is

  /** The threads that have anything to do. */
  ghost predicate AllOf(prog: Program, tids: seq<Tid>) {
    Distinct(tids) && forall t :: prog(t) != [] ==> t in tids
  }

  function SpentIn(prog: Program, m: Machine): Tid -> nat {
    t => Spent(prog, m, t)
  }

  function CostOf(prog: Program): Tid -> nat {
    t => Cost(prog(t))
  }

  lemma StepSpends(prog: Program, m: Machine, n: Machine, t: Tid, tids: seq<Tid>)
    requires Counted(prog, m) && StepOf(prog, m, n, t) && AllOf(prog, tids)
    ensures Total(SpentIn(prog, n), tids) == Total(SpentIn(prog, m), tids) + 1
  {
    assert prog(t) != [];
    if Acquire(prog, m, n, t) || Issue(prog, m, n, t) {
      LockedSpends(prog, m, n, t);
    } else {
      MovingSpends(prog, m, n, t);
    }
    forall u | u in tids && u != t ensures SpentIn(prog, n)(u) == SpentIn(prog, m)(u) {
      OthersSpend(prog, m, n, t, u);
    }
    TotalGrows(SpentIn(prog, m), SpentIn(prog, n), tids, t);
  }

  lemma InitialSpent(prog: Program, t: Tid)
    ensures Spent(prog, Initial, t) == 0
  {
    if t == Main { assert prog(t)[..0] == []; }
  }

  /** After `i` steps the threads have together taken `i` steps. */
  lemma {:induction false} StepsSpent(prog: Program, ms: seq<Machine>, i: nat, tids: seq<Tid>)
    requires OneParent(prog) && Behaviour(prog, ms) && i < |ms| && AllOf(prog, tids)
    ensures Total(SpentIn(prog, ms[i]), tids) == i
  {
    if i == 0 {
      forall t ensures SpentIn(prog, ms[0])(t) == 0 { InitialSpent(prog, t); }
      TotalNone(SpentIn(prog, ms[0]), tids);
    } else {
      StepsSpent(prog, ms, i - 1, tids);
      Always(prog, ms, i - 1);
      assert Next(prog, ms[i - 1], ms[i - 1 + 1]);
      var t :| StepOf(prog, ms[i - 1], ms[i], t);
      StepSpends(prog, ms[i - 1], ms[i], t, tids);
    }
  }

  /** A thread never takes more steps than its program has, and as many only when it is finished. */
  lemma SpentBound(prog: Program, m: Machine, t: Tid)
    requires Counted(prog, m)
    ensures Spent(prog, m, t) <= Cost(prog(t))
    ensures Spent(prog, m, t) == Cost(prog(t)) <==> Finished(prog, m, t) || prog(t) == []
  {
    if t in m.pcs && m.pcs[t] < |prog(t)| {
      CostPart(prog(t), m.pcs[t]);
    } else if t in m.pcs {
      assert prog(t)[..m.pcs[t]] == prog(t);
    } else if prog(t) != [] {
      CostPart(prog(t), 0);
    }
  }
}
