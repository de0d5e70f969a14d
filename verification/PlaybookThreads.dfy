/** Interface and VLAN threads of an intra-network run, interleaved at every command.

    Threads number and print commands only inside sections guarded by one lock; outside of it they
    start and join other threads, and mark where the plays against a network begin and where a
    source is completed. */
module PlaybookThreads {
  import opened Common
  import opened PlaybookModel

  /** The run's own thread; of each of its stages a thread for each interface and for each VLAN entry. */
  datatype Tid = Main | Iface(s: nat, i: nat) | Vlan(s: nat, i: nat, v: nat)

  datatype Step = Section(commands: seq<Command>) | Spawn(tid: Tid) | Join(tid: Tid) | Mark(event: Event)
  type Program = Tid -> seq<Step>

  /** The `k`-th command of the section at `pc` of a thread's program. */
  datatype Entry = Entry(id: nat, tid: Tid, pc: nat, k: nat, command: Command)
  datatype Holder = Holder(tid: Tid, issued: nat)

  /** What a thread marked at `pc`, when the log had `at` entries. */
  datatype MarkEntry = MarkEntry(tid: Tid, pc: nat, at: nat, event: Event)

  /** Where each started thread is, who holds the lock, the shared counter, what was printed and marked. */
  datatype Machine = Machine(pcs: map<Tid, nat>, lock: Option<Holder>, lastId: nat, log: seq<Entry>,
                             marks: seq<MarkEntry>)

  const Initial := Machine(map[Main := 0], None, 0, [], [])

  // ----- steps

  predicate At(prog: Program, m: Machine, t: Tid) {
    t in m.pcs && m.pcs[t] < |prog(t)|
  }

  predicate Finished(prog: Program, m: Machine, t: Tid) {
    t in m.pcs && m.pcs[t] == |prog(t)|
  }

  predicate Acquire(prog: Program, m: Machine, n: Machine, t: Tid) {
    && At(prog, m, t) && prog(t)[m.pcs[t]].Section? && m.lock == None
    && n == m.(lock := Some(Holder(t, 0)))
  }

  predicate Issue(prog: Program, m: Machine, n: Machine, t: Tid) {
    && At(prog, m, t) && m.lock.Some? && m.lock.value.tid == t
    && var step := prog(t)[m.pcs[t]];
    && step.Section? && m.lock.value.issued < |step.commands|
    && var k := m.lock.value.issued;
    && n == m.(lock := Some(Holder(t, k + 1)), lastId := m.lastId + 1,
               log := m.log + [Entry(m.lastId + 1, t, m.pcs[t], k, step.commands[k])])
  }

  predicate Release(prog: Program, m: Machine, n: Machine, t: Tid) {
    && At(prog, m, t) && m.lock.Some? && m.lock.value.tid == t
    && var step := prog(t)[m.pcs[t]];
    && step.Section? && m.lock.value.issued == |step.commands|
    && n == m.(lock := None, pcs := m.pcs[t := m.pcs[t] + 1])
  }

  predicate Start(prog: Program, m: Machine, n: Machine, t: Tid) {
    && At(prog, m, t)
    && var step := prog(t)[m.pcs[t]];
    && step.Spawn? && step.tid !in m.pcs
    && n == m.(pcs := m.pcs[t := m.pcs[t] + 1][step.tid := 0])
  }

  predicate Wait(prog: Program, m: Machine, n: Machine, t: Tid) {
    && At(prog, m, t)
    && var step := prog(t)[m.pcs[t]];
    && step.Join? && Finished(prog, m, step.tid)
    && n == m.(pcs := m.pcs[t := m.pcs[t] + 1])
  }

  predicate Remark(prog: Program, m: Machine, n: Machine, t: Tid) {
    && At(prog, m, t)
    && var step := prog(t)[m.pcs[t]];
    && step.Mark?
    && n == m.(pcs := m.pcs[t := m.pcs[t] + 1],
               marks := m.marks + [MarkEntry(t, m.pcs[t], |m.log|, step.event)])
  }

  predicate StepOf(prog: Program, m: Machine, n: Machine, t: Tid) {
    || Acquire(prog, m, n, t) || Issue(prog, m, n, t) || Release(prog, m, n, t)
    || Start(prog, m, n, t) || Wait(prog, m, n, t) || Remark(prog, m, n, t)
  }

  ghost predicate Next(prog: Program, m: Machine, n: Machine) {
    exists t :: StepOf(prog, m, n, t)
  }

  /** One interleaving, from the start to any point. */
  ghost predicate Behaviour(prog: Program, ms: seq<Machine>) {
    ms != [] && ms[0] == Initial && forall i :: 0 <= i < |ms| - 1 ==> Next(prog, ms[i], ms[i + 1])
  }

  // ----- what every step keeps

  predicate SectionAt(prog: Program, t: Tid, pc: nat) {
    pc < |prog(t)| && prog(t)[pc].Section?
  }

  /** The log is numbered without gaps, and the lock's holder is where it says. */
  ghost predicate Counted(prog: Program, m: Machine) {
    && m.lastId == |m.log|
    && (forall i :: 0 <= i < |m.log| ==> m.log[i].id == i + 1)
    && (forall t :: t in m.pcs ==> m.pcs[t] <= |prog(t)|)
    && (m.lock.Some? ==>
         var h := m.lock.value;
         && h.tid in m.pcs && SectionAt(prog, h.tid, m.pcs[h.tid])
         && h.issued <= |prog(h.tid)[m.pcs[h.tid]].commands|
         && (h.issued > 0 ==>
              && m.log != []
              && var e := m.log[|m.log| - 1];
              e.tid == h.tid && e.pc == m.pcs[h.tid] && e.k == h.issued - 1))
  }

  /** The entry is of a section its thread has come to, and of a command it has issued. */
  ghost predicate Passed(prog: Program, m: Machine, e: Entry) {
    && e.tid in m.pcs && SectionAt(prog, e.tid, e.pc) && e.k < |prog(e.tid)[e.pc].commands|
    && e.command == prog(e.tid)[e.pc].commands[e.k]
    && (e.pc < m.pcs[e.tid] ||
        (e.pc == m.pcs[e.tid] && m.lock.Some? && m.lock.value.tid == e.tid && e.k < m.lock.value.issued))
  }

  ghost predicate AllPassed(prog: Program, m: Machine) {
    forall i :: 0 <= i < |m.log| ==> Passed(prog, m, m.log[i])
  }

  /** The entry comes directly after the previous command of its section. */
  predicate Follows(log: seq<Entry>, i: nat)
    requires i < |log|
  {
    log[i].k > 0 ==>
      i > 0 && log[i - 1].tid == log[i].tid && log[i - 1].pc == log[i].pc && log[i - 1].k == log[i].k - 1
  }

  /** Commands of one section have no other command between them. */
  ghost predicate Unbroken(m: Machine) {
    forall i: nat :: i < |m.log| ==> Follows(m.log, i)
  }

  predicate Earlier(a: Entry, b: Entry) {
    a.pc < b.pc || (a.pc == b.pc && a.k < b.k)
  }

  /** Each thread issues its commands in the order of its program. */
  ghost predicate InOrder(m: Machine) {
    forall i, j :: 0 <= i < j < |m.log| && m.log[i].tid == m.log[j].tid ==> Earlier(m.log[i], m.log[j])
  }

  predicate Printed(m: Machine, t: Tid, pc: nat, k: nat) {
    exists i :: 0 <= i < |m.log| && m.log[i].tid == t && m.log[i].pc == pc && m.log[i].k == k
  }

  /** Each thread has issued all of every section it has passed, and what it says of the current one. */
  ghost predicate NothingSkipped(prog: Program, m: Machine) {
    && (forall t, pc: nat, k: nat {:trigger Printed(m, t, pc, k)} ::
         t in m.pcs && pc < m.pcs[t] && SectionAt(prog, t, pc) && k < |prog(t)[pc].commands| ==> Printed(m, t, pc, k))
    && (m.lock.Some? ==> forall k: nat {:trigger Printed(m, m.lock.value.tid, m.pcs[m.lock.value.tid], k)} ::
         k < m.lock.value.issued && m.lock.value.tid in m.pcs ==>
           Printed(m, m.lock.value.tid, m.pcs[m.lock.value.tid], k))
  }

  /** The commands of a program's sections, in order. */
  function Commands(steps: seq<Step>): seq<Command> {
    if steps == [] then []
    else
      var n := |steps| - 1;
      Commands(steps[..n]) + if steps[n].Section? then steps[n].commands else []
  }

  /** The commands one thread issued, in order. */
  function By(log: seq<Entry>, t: Tid): seq<Command> {
    if log == [] then []
    else
      var n := |log| - 1;
      By(log[..n], t) + if log[n].tid == t then [log[n].command] else []
  }

  /** What a thread has issued of its program so far. */
  function SoFar(prog: Program, m: Machine, t: Tid): seq<Command>
    requires Counted(prog, m)
  {
    if t !in m.pcs then []
    else
      Commands(prog(t)[..m.pcs[t]]) +
      if m.lock.Some? && m.lock.value.tid == t then prog(t)[m.pcs[t]].commands[..m.lock.value.issued] else []
  }

  ghost predicate OnScript(prog: Program, m: Machine)
    requires Counted(prog, m)
  {
    forall t :: By(m.log, t) == SoFar(prog, m, t)
  }

  predicate Spawns(prog: Program, t: Tid, i: nat, c: Tid) {
    i < |prog(t)| && prog(t)[i] == Spawn(c)
  }

  predicate Joins(prog: Program, t: Tid, i: nat, c: Tid) {
    i < |prog(t)| && prog(t)[i] == Join(c)
  }

  /** A thread is started at one place only, and the run's own thread nowhere. */
  ghost predicate OneParent(prog: Program) {
    && (forall t, i: nat :: !Spawns(prog, t, i, Main))
    && forall c, t, i: nat, t', i': nat :: Spawns(prog, t, i, c) && Spawns(prog, t', i', c) ==> t == t' && i == i'
  }

  /** A thread is started when its parent is past its start; a joined thread is finished. */
  ghost predicate Related(prog: Program, m: Machine) {
    && (forall c, t, i: nat :: Spawns(prog, t, i, c) ==> (c in m.pcs <==> t in m.pcs && i < m.pcs[t]))
    && (forall c, t, i: nat :: Joins(prog, t, i, c) && t in m.pcs && i < m.pcs[t] ==> Finished(prog, m, c))
  }

  /** A thread's commands come after those its parent issued before starting it, and before those
      issued after joining it. */
  ghost predicate Bracketed(prog: Program, m: Machine) {
    && (forall t, s: nat, a, b :: 0 <= a < |m.log| && 0 <= b < |m.log| && m.log[a].tid == t ==>
         m.log[a].pc < s && Spawns(prog, t, s, m.log[b].tid) ==> a < b)
    && (forall t, j: nat, a, b :: 0 <= a < |m.log| && 0 <= b < |m.log| && m.log[a].tid == t ==>
         j < m.log[a].pc && Joins(prog, t, j, m.log[b].tid) ==> b < a)
  }

  ghost predicate Inv(prog: Program, m: Machine) {
    && Counted(prog, m) && AllPassed(prog, m) && Unbroken(m) && InOrder(m)
    && NothingSkipped(prog, m) && OnScript(prog, m) && Related(prog, m) && Bracketed(prog, m)
  }

  /** Only issuing a command changes the log. */
  lemma LogGrows(prog: Program, m: Machine, n: Machine, t: Tid)
    requires StepOf(prog, m, n, t)
    ensures n.log == m.log || Issue(prog, m, n, t)
    ensures m.log <= n.log && forall i :: 0 <= i < |m.log| ==> n.log[i] == m.log[i]
  {
  }

  lemma KeepsCountedLocked(prog: Program, m: Machine, n: Machine, t: Tid)
    requires Counted(prog, m) && (Acquire(prog, m, n, t) || Release(prog, m, n, t))
    ensures Counted(prog, n)
  {
  }

  lemma KeepsCountedFree(prog: Program, m: Machine, n: Machine, t: Tid)
    requires Counted(prog, m) && (Start(prog, m, n, t) || Wait(prog, m, n, t) || Remark(prog, m, n, t))
    ensures Counted(prog, n)
  {
  }

  lemma KeepsCountedIssue(prog: Program, m: Machine, n: Machine, t: Tid)
    requires Counted(prog, m) && Issue(prog, m, n, t)
    ensures Counted(prog, n)
  {
  }

  lemma KeepsCounted(prog: Program, m: Machine, n: Machine, t: Tid)
    requires Counted(prog, m) && StepOf(prog, m, n, t)
    ensures Counted(prog, n)
  {
    if Issue(prog, m, n, t) {
      KeepsCountedIssue(prog, m, n, t);
    } else if Acquire(prog, m, n, t) || Release(prog, m, n, t) {
      KeepsCountedLocked(prog, m, n, t);
    } else {
      KeepsCountedFree(prog, m, n, t);
    }
  }

  lemma StillPassed(prog: Program, m: Machine, n: Machine, t: Tid, e: Entry)
    requires Counted(prog, m) && Passed(prog, m, e) && StepOf(prog, m, n, t)
    ensures Passed(prog, n, e)
  {
  }

  lemma KeepsPassed(prog: Program, m: Machine, n: Machine, t: Tid)
    requires Counted(prog, m) && AllPassed(prog, m) && StepOf(prog, m, n, t)
    ensures AllPassed(prog, n)
  {
    LogGrows(prog, m, n, t);
    forall i | 0 <= i < |m.log| ensures Passed(prog, n, n.log[i]) {
      StillPassed(prog, m, n, t, m.log[i]);
    }
  }

  lemma FollowsStays(log: seq<Entry>, e: Entry, i: nat)
    requires i < |log| && Follows(log, i)
    ensures Follows(log + [e], i)
  {
  }

  lemma NewFollows(prog: Program, m: Machine, n: Machine, t: Tid)
    requires Counted(prog, m) && Issue(prog, m, n, t)
    ensures Follows(n.log, |m.log|)
  {
  }

  lemma KeepsUnbroken(prog: Program, m: Machine, n: Machine, t: Tid)
    requires Counted(prog, m) && Unbroken(m) && StepOf(prog, m, n, t)
    ensures Unbroken(n)
  {
    if Issue(prog, m, n, t) {
      NewFollows(prog, m, n, t);
      forall i: nat | i < |m.log| ensures Follows(n.log, i) {
        FollowsStays(m.log, n.log[|m.log|], i);
      }
    } else {
      LogGrows(prog, m, n, t);
    }
  }

  lemma KeepsInOrder(prog: Program, m: Machine, n: Machine, t: Tid)
    requires Counted(prog, m) && AllPassed(prog, m) && InOrder(m) && StepOf(prog, m, n, t)
    ensures InOrder(n)
  {
    LogGrows(prog, m, n, t);
    forall i, j | 0 <= i < j < |n.log| && n.log[i].tid == n.log[j].tid ensures Earlier(n.log[i], n.log[j]) {
      assert n.log[i] == m.log[i] && Passed(prog, m, m.log[i]);
    }
  }

  lemma StillIssued(m: Machine, n: Machine, t: Tid, pc: nat, k: nat)
    requires m.log <= n.log && Printed(m, t, pc, k)
    ensures Printed(n, t, pc, k)
  {
    var i :| 0 <= i < |m.log| && m.log[i].tid == t && m.log[i].pc == pc && m.log[i].k == k;
    assert n.log[i] == m.log[i];
  }

  lemma KeepsNothingSkipped(prog: Program, m: Machine, n: Machine, t: Tid)
    requires Counted(prog, m) && NothingSkipped(prog, m) && StepOf(prog, m, n, t)
    ensures NothingSkipped(prog, n)
  {
    assert m.log <= n.log;
    forall u, pc: nat, k: nat | u in n.pcs && pc < n.pcs[u] && SectionAt(prog, u, pc) && k < |prog(u)[pc].commands|
      ensures Printed(n, u, pc, k)
    {
      assert u in m.pcs;
      assert Printed(m, u, pc, k);
      StillIssued(m, n, u, pc, k);
    }
    if n.lock.Some? {
      var h := n.lock.value;
      forall k: nat | k < h.issued && h.tid in n.pcs ensures Printed(n, h.tid, n.pcs[h.tid], k) {
        if Issue(prog, m, n, t) && k == h.issued - 1 {
          assert n.log[|m.log|].tid == h.tid && n.log[|m.log|].pc == n.pcs[h.tid] && n.log[|m.log|].k == k;
        } else {
          assert Printed(m, h.tid, m.pcs[h.tid], k);
          StillIssued(m, n, h.tid, n.pcs[h.tid], k);
        }
      }
    }
  }

  lemma ByOne(log: seq<Entry>, e: Entry, t: Tid)
    ensures By(log + [e], t) == By(log, t) + if e.tid == t then [e.command] else []
  {
    assert (log + [e])[..|log|] == log;
  }

  lemma CommandsOne(steps: seq<Step>, n: nat)
    requires n < |steps|
    ensures Commands(steps[..n + 1]) == Commands(steps[..n]) + if steps[n].Section? then steps[n].commands else []
  {
    assert steps[..n + 1][..n] == steps[..n];
  }

  lemma IssueSoFar(prog: Program, m: Machine, n: Machine, t: Tid)
    requires Counted(prog, m) && Counted(prog, n) && Issue(prog, m, n, t)
    ensures SoFar(prog, n, t) == SoFar(prog, m, t) + [n.log[|m.log|].command]
  {
    var commands := prog(t)[m.pcs[t]].commands;
    var k := m.lock.value.issued;
    assert commands[..k + 1] == commands[..k] + [commands[k]];
  }

  lemma OthersStay(prog: Program, m: Machine, n: Machine, t: Tid, u: Tid)
    requires StepOf(prog, m, n, t) && u != t
    ensures u in m.pcs ==> u in n.pcs && n.pcs[u] == m.pcs[u]
    ensures u in n.pcs && u !in m.pcs ==> n.pcs[u] == 0
    ensures m.lock.Some? && m.lock.value.tid == u ==> n.lock == m.lock
    ensures n.lock.Some? && n.lock.value.tid == u ==> n.lock == m.lock
  {
  }

  lemma OthersSoFar(prog: Program, m: Machine, n: Machine, t: Tid, u: Tid)
    requires Counted(prog, m) && Counted(prog, n) && StepOf(prog, m, n, t) && u != t
    ensures SoFar(prog, n, u) == SoFar(prog, m, u)
  {
    OthersStay(prog, m, n, t, u);
    if u in n.pcs && u !in m.pcs {
      assert prog(u)[..0] == [];
    }
  }

  lemma QuietSoFar(prog: Program, m: Machine, n: Machine, t: Tid)
    requires Counted(prog, m) && Counted(prog, n) && StepOf(prog, m, n, t) && !Issue(prog, m, n, t)
    ensures SoFar(prog, n, t) == SoFar(prog, m, t)
  {
    var pc := m.pcs[t];
    CommandsOne(prog(t), pc);
    if Release(prog, m, n, t) {
      var commands := prog(t)[pc].commands;
      assert commands[..|commands|] == commands;
    } else if !Acquire(prog, m, n, t) {
      assert n.pcs[t] == pc + 1 && !prog(t)[pc].Section?;
    }
  }

  lemma KeepsOnScript(prog: Program, m: Machine, n: Machine, t: Tid)
    requires Counted(prog, m) && OnScript(prog, m) && Counted(prog, n) && StepOf(prog, m, n, t)
    ensures OnScript(prog, n)
  {
    forall u ensures By(n.log, u) == SoFar(prog, n, u) {
      if Issue(prog, m, n, t) {
        ByOne(m.log, n.log[|m.log|], u);
        if u == t { IssueSoFar(prog, m, n, t); } else { OthersSoFar(prog, m, n, t, u); }
      } else {
        LogGrows(prog, m, n, t);
        if u == t { QuietSoFar(prog, m, n, t); } else { OthersSoFar(prog, m, n, t, u); }
      }
    }
  }

  lemma KeepsRelated(prog: Program, m: Machine, n: Machine, t: Tid)
    requires OneParent(prog) && Related(prog, m) && StepOf(prog, m, n, t)
    ensures Related(prog, n)
  {
    forall c, u, i: nat | Spawns(prog, u, i, c) ensures c in n.pcs <==> u in n.pcs && i < n.pcs[u] {
      if c in n.pcs && c !in m.pcs { assert Spawns(prog, t, m.pcs[t], c); }
      if u in n.pcs && u !in m.pcs { assert n.pcs[u] == 0; }
      if u in m.pcs && i == m.pcs[u] && u == t { assert prog(t)[i] == Spawn(c); }
    }
    forall c, u, i: nat | Joins(prog, u, i, c) && u in n.pcs && i < n.pcs[u] ensures Finished(prog, n, c) {
      assert Finished(prog, m, c);
    }
  }

  /** Where the threads of the next state's entries were before the step. */
  lemma Before(prog: Program, m: Machine, n: Machine, t: Tid, i: nat)
    requires Counted(prog, m) && AllPassed(prog, m) && StepOf(prog, m, n, t) && i < |n.log|
    ensures n.log[i].tid in m.pcs && n.log[i].pc <= m.pcs[n.log[i].tid]
    ensures i == |m.log| ==> n.log[i].tid == t && n.log[i].pc == m.pcs[t] && At(prog, m, t)
  {
    LogGrows(prog, m, n, t);
    if i < |m.log| { assert Passed(prog, m, m.log[i]); }
  }

  lemma KeepsBracketed(prog: Program, m: Machine, n: Machine, t: Tid)
    requires Counted(prog, m) && AllPassed(prog, m) && Related(prog, m) && Bracketed(prog, m) && StepOf(prog, m, n, t)
    ensures Bracketed(prog, n)
  {
    LogGrows(prog, m, n, t);
    forall u, s: nat, a, b | 0 <= a < |n.log| && 0 <= b < |n.log| && n.log[a].tid == u && n.log[a].pc < s &&
      Spawns(prog, u, s, n.log[b].tid)
      ensures a < b
    {
      Before(prog, m, n, t, a);
      Before(prog, m, n, t, b);
      assert s < m.pcs[u];
    }
    forall u, j: nat, a, b | 0 <= a < |n.log| && 0 <= b < |n.log| && n.log[a].tid == u && j < n.log[a].pc &&
      Joins(prog, u, j, n.log[b].tid)
      ensures b < a
    {
      Before(prog, m, n, t, a);
      Before(prog, m, n, t, b);
      assert Finished(prog, m, n.log[b].tid);
    }
  }

  lemma KeepsInv(prog: Program, m: Machine, n: Machine)
    requires OneParent(prog) && Inv(prog, m) && Next(prog, m, n)
    ensures Inv(prog, n)
  {
    var t :| StepOf(prog, m, n, t);
    KeepsCounted(prog, m, n, t);
    KeepsPassed(prog, m, n, t);
    KeepsUnbroken(prog, m, n, t);
    KeepsInOrder(prog, m, n, t);
    KeepsNothingSkipped(prog, m, n, t);
    KeepsOnScript(prog, m, n, t);
    KeepsRelated(prog, m, n, t);
    KeepsBracketed(prog, m, n, t);
  }

  lemma {:induction false} Always(prog: Program, ms: seq<Machine>, i: nat)
    requires OneParent(prog) && Behaviour(prog, ms) && i < |ms|
    ensures Inv(prog, ms[i])
  {
    if i > 0 {
      Always(prog, ms, i - 1);
      assert Next(prog, ms[i - 1], ms[i - 1 + 1]);
      KeepsInv(prog, ms[i - 1], ms[i]);
    } else {
      InitialInv(prog);
    }
  }

  lemma InitialInv(prog: Program)
    requires OneParent(prog)
    ensures Inv(prog, Initial)
  {
  }

  // ----- what holds in every interleaving

  lemma {:induction false} RunUpTo(m: Machine, i: nat, k: nat)
    requires Unbroken(m) && i < |m.log| && k <= m.log[i].k
    ensures i >= k && m.log[i - k].tid == m.log[i].tid && m.log[i - k].pc == m.log[i].pc &&
      m.log[i - k].k == m.log[i].k - k
  {
    if k > 0 {
      RunUpTo(m, i, k - 1);
      assert Follows(m.log, i - k + 1);
    }
  }

  /** The log holds the whole section, from index `a` on. */
  predicate Together(m: Machine, t: Tid, pc: nat, commands: seq<Command>, a: nat) {
    a + |commands| <= |m.log| && forall k :: 0 <= k < |commands| ==>
      m.log[a + k] == Entry(a + k + 1, t, pc, k, commands[k])
  }

  lemma SameIndex(m: Machine, i: nat, j: nat)
    requires InOrder(m) && i < |m.log| && j < |m.log|
    requires m.log[i].tid == m.log[j].tid && m.log[i].pc == m.log[j].pc && m.log[i].k == m.log[j].k
    ensures i == j
  {
    assert i < j ==> Earlier(m.log[i], m.log[j]);
    assert j < i ==> Earlier(m.log[j], m.log[i]);
  }

  /** The commands up to the `k`-th, issued at index `z`, are together. */
  lemma PrefixTogether(prog: Program, m: Machine, z: nat)
    requires Counted(prog, m) && AllPassed(prog, m) && Unbroken(m) && z < |m.log|
    ensures SectionAt(prog, m.log[z].tid, m.log[z].pc)
    ensures m.log[z].k < |prog(m.log[z].tid)[m.log[z].pc].commands| && m.log[z].k <= z
    ensures Together(m, m.log[z].tid, m.log[z].pc,
                     prog(m.log[z].tid)[m.log[z].pc].commands[..m.log[z].k + 1], z - m.log[z].k)
  {
    assert Passed(prog, m, m.log[z]);
    var e := m.log[z];
    var a := z - e.k;
    RunUpTo(m, z, e.k);
    forall k | 0 <= k <= e.k
      ensures m.log[a + k] == Entry(a + k + 1, e.tid, e.pc, k, prog(e.tid)[e.pc].commands[k])
    {
      RunUpTo(m, z, e.k - k);
      assert Passed(prog, m, m.log[a + k]);
    }
  }

  lemma WhereIssued(prog: Program, m: Machine, t: Tid, pc: nat, k: nat) returns (z: nat)
    requires NothingSkipped(prog, m) && t in m.pcs && pc < m.pcs[t] && SectionAt(prog, t, pc)
    requires k < |prog(t)[pc].commands|
    ensures z < |m.log| && m.log[z].tid == t && m.log[z].pc == pc && m.log[z].k == k
  {
    assert Printed(m, t, pc, k);
    z :| 0 <= z < |m.log| && m.log[z].tid == t && m.log[z].pc == pc && m.log[z].k == k;
  }

  lemma OnlyThere(prog: Program, m: Machine, t: Tid, pc: nat, a: nat)
    requires AllPassed(prog, m) && InOrder(m) && SectionAt(prog, t, pc) && Together(m, t, pc, prog(t)[pc].commands, a)
    ensures forall i :: 0 <= i < |m.log| && m.log[i].tid == t && m.log[i].pc == pc ==> i == a + m.log[i].k
  {
    forall i | 0 <= i < |m.log| && m.log[i].tid == t && m.log[i].pc == pc ensures i == a + m.log[i].k {
      assert Passed(prog, m, m.log[i]);
      SameIndex(m, i, a + m.log[i].k);
    }
  }

  /** Every section a thread has passed got consecutive numbers, once. */
  lemma SectionNumbers(prog: Program, m: Machine, t: Tid, pc: nat) returns (a: nat)
    requires Inv(prog, m) && t in m.pcs && pc < m.pcs[t] && SectionAt(prog, t, pc)
    requires prog(t)[pc].commands != []
    ensures Together(m, t, pc, prog(t)[pc].commands, a)
    ensures forall i :: 0 <= i < |m.log| && m.log[i].tid == t && m.log[i].pc == pc ==> i == a + m.log[i].k
  {
    var commands := prog(t)[pc].commands;
    var last := |commands| - 1;
    var z := WhereIssued(prog, m, t, pc, last);
    PrefixTogether(prog, m, z);
    assert commands[..last + 1] == commands;
    a := z - last;
    OnlyThere(prog, m, t, pc, a);
  }

  // ----- no thread waits forever

  /** Threads join only those they started before, and these are of a lower rank. */
  ghost predicate Ranked(prog: Program, rank: Tid -> nat) {
    forall t, j: nat, c :: Joins(prog, t, j, c) ==> rank(c) < rank(t) && exists i: nat :: i < j && Spawns(prog, t, i, c)
  }

  lemma HolderMoves(prog: Program, m: Machine)
    requires Inv(prog, m) && m.lock.Some?
    ensures exists n :: Next(prog, m, n)
  {
    var h := m.lock.value;
    var step := prog(h.tid)[m.pcs[h.tid]];
    if h.issued < |step.commands| {
      var n := m.(lock := Some(Holder(h.tid, h.issued + 1)), lastId := m.lastId + 1,
                  log := m.log + [Entry(m.lastId + 1, h.tid, m.pcs[h.tid], h.issued, step.commands[h.issued])]);
      assert StepOf(prog, m, n, h.tid);
      assert Next(prog, m, n);
    } else {
      var n := m.(lock := None, pcs := m.pcs[h.tid := m.pcs[h.tid] + 1]);
      assert StepOf(prog, m, n, h.tid);
      assert Next(prog, m, n);
    }
  }

  /** While a started thread is unfinished, some thread can take a step. */
  lemma {:induction false} SomeoneMoves(prog: Program, rank: Tid -> nat, m: Machine, t: Tid)
    requires OneParent(prog) && Ranked(prog, rank) && Inv(prog, m) && At(prog, m, t)
    ensures exists n :: Next(prog, m, n)
    decreases rank(t)
  {
    if m.lock.Some? { HolderMoves(prog, m); return; }
    var pc := m.pcs[t];
    match prog(t)[pc]
    case Section(_) =>
      var n := m.(lock := Some(Holder(t, 0)));
      assert StepOf(prog, m, n, t);
      assert Next(prog, m, n);
    case Mark(event) =>
      var n := m.(pcs := m.pcs[t := pc + 1], marks := m.marks + [MarkEntry(t, pc, |m.log|, event)]);
      assert StepOf(prog, m, n, t);
      assert Next(prog, m, n);
    case Spawn(c) =>
      assert Spawns(prog, t, pc, c);
      var n := m.(pcs := m.pcs[t := pc + 1][c := 0]);
      assert StepOf(prog, m, n, t);
      assert Next(prog, m, n);
    case Join(c) =>
      assert Joins(prog, t, pc, c);
      if Finished(prog, m, c) {
        var n := m.(pcs := m.pcs[t := pc + 1]);
        assert StepOf(prog, m, n, t);
        assert Next(prog, m, n);
      } else {
        var i: nat :| i < pc && Spawns(prog, t, i, c);
        assert c in m.pcs;
        SomeoneMoves(prog, rank, m, c);
      }
  }
}
