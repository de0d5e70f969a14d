/** What threads mark, and what they have issued when they do, in every interleaving. */
module PlaybookMarks {
  import opened Common
  import opened PlaybookModel
  import opened PlaybookThreads

  /** The marks of a program's steps, in order. */
  function Events(steps: seq<Step>): seq<Event> {
    if steps == [] then []
    else
      var n := |steps| - 1;
      Events(steps[..n]) + if steps[n].Mark? then [steps[n].event] else []
  }

  /** What one thread marked, in order. */
  function MarksBy(marks: seq<MarkEntry>, t: Tid): seq<Event> {
    if marks == [] then []
    else
      var n := |marks| - 1;
      MarksBy(marks[..n], t) + if marks[n].tid == t then [marks[n].event] else []
  }

  // ----- what every step keeps

  predicate MarkAt(prog: Program, t: Tid, pc: nat) {
    pc < |prog(t)| && prog(t)[pc].Mark?
  }

  /** The thread has passed the mark, and had issued exactly what comes before it in its program. */
  ghost predicate Placed(prog: Program, m: Machine, e: MarkEntry) {
    && e.tid in m.pcs && e.pc < m.pcs[e.tid] <= |prog(e.tid)| && prog(e.tid)[e.pc] == Mark(e.event)
    && e.at <= |m.log| && By(m.log[..e.at], e.tid) == Commands(prog(e.tid)[..e.pc])
  }

  ghost predicate AllPlaced(prog: Program, m: Machine) {
    forall a :: 0 <= a < |m.marks| ==> Placed(prog, m, m.marks[a])
  }

  ghost predicate MarksInOrder(m: Machine) {
    forall a, b :: 0 <= a < b < |m.marks| && m.marks[a].tid == m.marks[b].tid ==> m.marks[a].pc < m.marks[b].pc
  }

  predicate Noted(m: Machine, t: Tid, pc: nat) {
    exists a :: 0 <= a < |m.marks| && m.marks[a].tid == t && m.marks[a].pc == pc
  }

  /** Threads have noted every mark they have passed. */
  ghost predicate AllNoted(prog: Program, m: Machine) {
    forall t, pc: nat {:trigger Noted(m, t, pc)} ::
      t in m.pcs && pc < m.pcs[t] && MarkAt(prog, t, pc) ==> Noted(m, t, pc)
  }

  /** The marks a thread has passed. */
  function EventsSoFar(prog: Program, m: Machine, t: Tid): seq<Event>
    requires Counted(prog, m)
  {
    if t in m.pcs then Events(prog(t)[..m.pcs[t]]) else []
  }

  ghost predicate MarksOnScript(prog: Program, m: Machine)
    requires Counted(prog, m)
  {
    forall t :: MarksBy(m.marks, t) == EventsSoFar(prog, m, t)
  }

  ghost predicate MarkInv(prog: Program, m: Machine) {
    && Counted(prog, m) && AllPlaced(prog, m) && MarksInOrder(m) && AllNoted(prog, m) && MarksOnScript(prog, m)
  }

  /** Only marking changes the marks; places in programs and the log only grow. */
  lemma MarksGrow(prog: Program, m: Machine, n: Machine, t: Tid)
    requires StepOf(prog, m, n, t)
    ensures m.log <= n.log
    ensures n.marks == m.marks || Remark(prog, m, n, t)
    ensures |m.marks| <= |n.marks| && forall a :: 0 <= a < |m.marks| ==> n.marks[a] == m.marks[a]
  {
  }

  lemma PlacesGrow(prog: Program, m: Machine, n: Machine, t: Tid, u: Tid)
    requires Counted(prog, m) && StepOf(prog, m, n, t) && u in m.pcs
    ensures u in n.pcs && m.pcs[u] <= n.pcs[u] <= |prog(u)|
  {
  }

  lemma StillPlaced(prog: Program, m: Machine, n: Machine, t: Tid, e: MarkEntry)
    requires Counted(prog, m) && Placed(prog, m, e) && StepOf(prog, m, n, t)
    ensures Placed(prog, n, e)
  {
    PlacesGrow(prog, m, n, t, e.tid);
    MarksGrow(prog, m, n, t);
    assert n.log[..e.at] == m.log[..e.at];
  }

  /** A thread that marks does not hold the lock, so it has issued its sections whole. */
  lemma NewPlaced(prog: Program, m: Machine, n: Machine, t: Tid)
    requires Counted(prog, m) && OnScript(prog, m) && Remark(prog, m, n, t)
    ensures Placed(prog, n, n.marks[|m.marks|])
  {
    assert m.log[..|m.log|] == m.log;
    assert By(m.log, t) == SoFar(prog, m, t);
  }

  lemma KeepsPlaced(prog: Program, m: Machine, n: Machine, t: Tid)
    requires Counted(prog, m) && OnScript(prog, m) && AllPlaced(prog, m) && StepOf(prog, m, n, t)
    ensures AllPlaced(prog, n)
  {
    MarksGrow(prog, m, n, t);
    if Remark(prog, m, n, t) { NewPlaced(prog, m, n, t); }
    forall a | 0 <= a < |m.marks| ensures Placed(prog, n, n.marks[a]) {
      StillPlaced(prog, m, n, t, m.marks[a]);
    }
  }

  lemma KeepsMarksInOrder(prog: Program, m: Machine, n: Machine, t: Tid)
    requires AllPlaced(prog, m) && MarksInOrder(m) && StepOf(prog, m, n, t)
    ensures MarksInOrder(n)
  {
    MarksGrow(prog, m, n, t);
    forall a, b | 0 <= a < b < |n.marks| && n.marks[a].tid == n.marks[b].tid
      ensures n.marks[a].pc < n.marks[b].pc
    {
      assert Placed(prog, m, m.marks[a]);
    }
  }

  lemma StillNoted(m: Machine, n: Machine, t: Tid, pc: nat)
    requires |m.marks| <= |n.marks| && forall a :: 0 <= a < |m.marks| ==> n.marks[a] == m.marks[a]
    requires Noted(m, t, pc)
    ensures Noted(n, t, pc)
  {
    var a :| 0 <= a < |m.marks| && m.marks[a].tid == t && m.marks[a].pc == pc;
    assert n.marks[a] == m.marks[a];
  }

  /** A mark that is passed after the step was passed before it, or by it. */
  lemma PassedBefore(prog: Program, m: Machine, n: Machine, t: Tid, u: Tid, pc: nat)
    requires StepOf(prog, m, n, t) && u in n.pcs && pc < n.pcs[u] && MarkAt(prog, u, pc)
    ensures (u in m.pcs && pc < m.pcs[u]) || (Remark(prog, m, n, t) && u == t && pc == m.pcs[t])
  {
  }

  lemma KeepsNoted(prog: Program, m: Machine, n: Machine, t: Tid)
    requires AllNoted(prog, m) && StepOf(prog, m, n, t)
    ensures AllNoted(prog, n)
  {
    MarksGrow(prog, m, n, t);
    forall u, pc: nat | u in n.pcs && pc < n.pcs[u] && MarkAt(prog, u, pc) ensures Noted(n, u, pc) {
      PassedBefore(prog, m, n, t, u, pc);
      if u in m.pcs && pc < m.pcs[u] {
        assert Noted(m, u, pc);
        StillNoted(m, n, u, pc);
      } else {
        assert n.marks[|m.marks|].tid == u && n.marks[|m.marks|].pc == pc;
      }
    }
  }

  lemma MarksByOne(marks: seq<MarkEntry>, e: MarkEntry, t: Tid)
    ensures MarksBy(marks + [e], t) == MarksBy(marks, t) + if e.tid == t then [e.event] else []
  {
    assert (marks + [e])[..|marks|] == marks;
  }

  lemma EventsOne(steps: seq<Step>, n: nat)
    requires n < |steps|
    ensures Events(steps[..n + 1]) == Events(steps[..n]) + if steps[n].Mark? then [steps[n].event] else []
  {
    assert steps[..n + 1][..n] == steps[..n];
  }

  lemma OthersEvents(prog: Program, m: Machine, n: Machine, t: Tid, u: Tid)
    requires Counted(prog, m) && Counted(prog, n) && StepOf(prog, m, n, t) && u != t
    ensures EventsSoFar(prog, n, u) == EventsSoFar(prog, m, u)
  {
    OthersStay(prog, m, n, t, u);
    if u in n.pcs && u !in m.pcs {
      assert prog(u)[..0] == [];
    }
  }

  /** Where the step leaves its own thread. */
  lemma OwnPlace(prog: Program, m: Machine, n: Machine, t: Tid)
    requires StepOf(prog, m, n, t)
    ensures t in m.pcs && t in n.pcs && m.pcs[t] < |prog(t)|
    ensures n.pcs[t] == m.pcs[t] || n.pcs[t] == m.pcs[t] + 1
    ensures prog(t)[m.pcs[t]].Mark? <==> Remark(prog, m, n, t)
    ensures Remark(prog, m, n, t) ==> n.pcs[t] == m.pcs[t] + 1
  {
  }

  lemma OwnEvents(prog: Program, m: Machine, n: Machine, t: Tid)
    requires Counted(prog, m) && Counted(prog, n) && StepOf(prog, m, n, t)
    ensures EventsSoFar(prog, n, t) ==
      EventsSoFar(prog, m, t) + if Remark(prog, m, n, t) then [prog(t)[m.pcs[t]].event] else []
  {
    OwnPlace(prog, m, n, t);
    EventsOne(prog(t), m.pcs[t]);
  }

  lemma KeepsMarksOnScript(prog: Program, m: Machine, n: Machine, t: Tid)
    requires Counted(prog, m) && MarksOnScript(prog, m) && Counted(prog, n) && StepOf(prog, m, n, t)
    ensures MarksOnScript(prog, n)
  {
    MarksGrow(prog, m, n, t);
    forall u ensures MarksBy(n.marks, u) == EventsSoFar(prog, n, u) {
      if Remark(prog, m, n, t) { MarksByOne(m.marks, n.marks[|m.marks|], u); }
      if u == t { OwnEvents(prog, m, n, t); } else { OthersEvents(prog, m, n, t, u); }
    }
  }

  lemma KeepsMarkInv(prog: Program, m: Machine, n: Machine, t: Tid)
    requires Inv(prog, m) && MarkInv(prog, m) && StepOf(prog, m, n, t)
    ensures MarkInv(prog, n)
  {
    KeepsCounted(prog, m, n, t);
    KeepsPlaced(prog, m, n, t);
    KeepsMarksInOrder(prog, m, n, t);
    KeepsNoted(prog, m, n, t);
    KeepsMarksOnScript(prog, m, n, t);
  }

  lemma InitialMarks(prog: Program)
    ensures MarkInv(prog, Initial)
  {
  }

  lemma {:induction false} AlwaysMarked(prog: Program, ms: seq<Machine>, i: nat)
    requires OneParent(prog) && Behaviour(prog, ms) && i < |ms|
    ensures Inv(prog, ms[i]) && MarkInv(prog, ms[i])
  {
    Always(prog, ms, i);
    if i > 0 {
      AlwaysMarked(prog, ms, i - 1);
      assert Next(prog, ms[i - 1], ms[i - 1 + 1]);
      var t :| StepOf(prog, ms[i - 1], ms[i], t);
      KeepsMarkInv(prog, ms[i - 1], ms[i], t);
    } else {
      InitialMarks(prog);
    }
  }

  // ----- what holds in every interleaving

  lemma WhereNoted(prog: Program, m: Machine, t: Tid, pc: nat) returns (a: nat)
    requires MarkInv(prog, m) && t in m.pcs && pc < m.pcs[t] && MarkAt(prog, t, pc)
    ensures a < |m.marks| && m.marks[a].tid == t && m.marks[a].pc == pc && m.marks[a].event == prog(t)[pc].event
  {
    assert Noted(m, t, pc);
    a :| 0 <= a < |m.marks| && m.marks[a].tid == t && m.marks[a].pc == pc;
    assert Placed(prog, m, m.marks[a]);
  }
}
