/** In every interleaving of an intra-network run each source's plays are run once, and the source is
    completed after them. */
module PlaybookParallelSources {
  import opened Common
  import opened PlaybookModel
  import opened PlaybookThreads
  import opened PlaybookMarks
  import opened PlaybookStageThreads
  import Interleavings = PlaybookInterleavings
  import Sessions = PlaybookSessions
  import Trace = PlaybookTrace

  type Job = Sessions.Job

  // ----- the jobs of a thread

  function ThreadJobs(stages: seq<StageEntry>, t: Tid): seq<Job> {
    if t.Vlan? && IsThread(stages, t) then
      var entry := stages[t.s].ifaces[t.i];
      Sessions.VlanJobs(Intra, stages[t.s].number, entry.name)(entry.vlans[t.v])
    else []
  }

  lemma VlanMarks(execute: bool, stage: nat, iface: string, entry: VlanEntry)
    ensures Trace.ActMarks(execute, VlanActs(Intra, stage, iface, entry)) ==
            Sessions.Flat(Sessions.MarksOf(execute), Sessions.VlanJobs(Intra, stage, iface)(entry))
  {
    Sessions.MacsDo(execute, VlanConf(Intra, stage, iface, entry.vlan), entry.macs);
  }

  lemma FiveEvents(a: seq<Step>, b: seq<Step>, c: seq<Step>, d: seq<Step>, e: seq<Step>)
    requires Events(a) == Events(b) == Events(c) == Events(d) == Events(e) == []
    ensures Events(a + b + c + d + e) == []
  {
    EventsConcat(a, b);
    EventsConcat(a + b, c);
    EventsConcat(a + b + c, d);
    EventsConcat(a + b + c + d, e);
  }

  lemma UpEvents(run: Settings, entry: IfaceEntry)
    requires NoEmptyLevel(entry)
    ensures Events(IfaceUp(run, entry)) == []
  {
    var mac, raise := Block(MacUp(entry.name, entry.vlans[0].macs[0].mac)), Block(RaiseLink(entry.name));
    var capture := CaptureActs(entry.name, run.captureSeconds);
    NoMarks(mac);
    NoMarks(raise);
    StepsEvents(run, capture);
    EventsConcat(mac, raise);
    EventsConcat(mac + raise, Steps(run, capture));
  }

  lemma DownEvents(entry: IfaceEntry)
    requires NoEmptyLevel(entry)
    ensures Events(IfaceDown(entry)) == []
  {
    NoMarks(IfaceDown(entry));
  }

  lemma StartingEvents(tids: seq<Tid>)
    ensures Events(Spawning(tids)) == Events(Joining(tids)) == Events(OneByOne(tids)) == []
  {
    NoMarks(Spawning(tids));
    NoMarks(Joining(tids));
    NoMarks(OneByOne(tids));
  }

  lemma IfaceEvents(run: Settings, s: nat, i: nat, entry: IfaceEntry)
    requires NoEmptyLevel(entry)
    ensures Events(IfaceSteps(run, s, i, entry)) == []
  {
    var tagged, rest := Tagged(s, i, entry), Untagged(s, i, entry);
    UpEvents(run, entry);
    DownEvents(entry);
    StartingEvents(tagged);
    StartingEvents(rest);
    FiveEvents(IfaceUp(run, entry), Spawning(tagged), Joining(tagged), IfaceDown(entry), OneByOne(rest));
  }

  lemma MainEvents(stages: seq<StageEntry>)
    ensures Events(MainSteps(stages, |stages|)) == []
  {
    var steps := MainSteps(stages, |stages|);
    forall j | 0 <= j < |steps| ensures !steps[j].Mark? { var _, _ := MainRelates(stages, j); }
    NoMarks(steps);
  }

  /** A thread marks what its jobs do. */
  lemma ThreadEvents(run: Settings, stages: seq<StageEntry>, t: Tid)
    requires WellFormed(stages)
    ensures Events(RunThread(run, stages, t)) == Sessions.Flat(Sessions.MarksOf(run.execute), ThreadJobs(stages, t))
  {
    if IsThread(stages, t) {
      match t
      case Main => MainEvents(stages);
      case Iface(s, i) => IfaceEvents(run, s, i, IfaceOf(stages, s, i));
      case Vlan(s, i, v) =>
        var entry := stages[s].ifaces[i];
        ActEvents(run, VlanActsOf(stages, s, i, v));
        VlanMarks(run.execute, stages[s].number, entry.name, entry.vlans[v]);
    }
  }

  // ----- the jobs of all threads are those of the plan

  lemma FlatIndex<A, B>(f: A -> seq<B>, xs: seq<A>, y: B) returns (i: nat)
    requires y in Sessions.Flat(f, xs)
    ensures i < |xs| && y in f(xs[i])
  {
    Sessions.FlatIn(f, xs, y);
    var x :| x in xs && y in f(x);
    i :| i < |xs| && xs[i] == x;
  }

  lemma StageIndex(stages: seq<StageEntry>, job: Job) returns (s: nat)
    requires job in Sessions.Flat(Sessions.StageJobs(Intra), stages)
    ensures s < |stages| && job in Sessions.Flat(Sessions.IfaceJobs(Intra, stages[s].number), stages[s].ifaces)
  {
    s := FlatIndex(Sessions.StageJobs(Intra), stages, job);
  }

  lemma IfaceIndex(stage: nat, ifaces: seq<IfaceEntry>, job: Job) returns (i: nat)
    requires job in Sessions.Flat(Sessions.IfaceJobs(Intra, stage), ifaces)
    ensures i < |ifaces|
    ensures job in Sessions.Flat(Sessions.VlanJobs(Intra, stage, ifaces[i].name), ifaces[i].vlans)
  {
    i := FlatIndex(Sessions.IfaceJobs(Intra, stage), ifaces, job);
  }

  lemma PlannedIn(stages: seq<StageEntry>, job: Job) returns (t: Tid)
    requires job in Sessions.Flat(Sessions.StageJobs(Intra), stages)
    ensures job in ThreadJobs(stages, t)
  {
    var s := StageIndex(stages, job);
    var stage, ifaces := stages[s].number, stages[s].ifaces;
    var i := IfaceIndex(stage, ifaces, job);
    var v := FlatIndex(Sessions.VlanJobs(Intra, stage, ifaces[i].name), ifaces[i].vlans, job);
    t := Vlan(s, i, v);
  }

  lemma InPlanned(stages: seq<StageEntry>, t: Tid, job: Job)
    requires job in ThreadJobs(stages, t)
    ensures job in Sessions.Flat(Sessions.StageJobs(Intra), stages)
  {
    var stage := stages[t.s];
    var iface := stage.ifaces[t.i];
    Sessions.FlatIn(Sessions.VlanJobs(Intra, stage.number, iface.name), iface.vlans, job);
    assert job in Sessions.IfaceJobs(Intra, stage.number)(iface);
    Sessions.FlatIn(Sessions.IfaceJobs(Intra, stage.number), stage.ifaces, job);
    assert job in Sessions.StageJobs(Intra)(stage);
    Sessions.FlatIn(Sessions.StageJobs(Intra), stages, job);
  }

  lemma JobsAreSources(stages: seq<StageEntry>, job: Job)
    ensures Sessions.FromSource(Intra, stages, job) <==> exists t :: job in ThreadJobs(stages, t)
  {
    Sessions.JobsAreSources(Intra, stages, job);
    if job in Sessions.Flat(Sessions.StageJobs(Intra), stages) {
      var t := PlannedIn(stages, job);
    }
    if t :| job in ThreadJobs(stages, t) {
      InPlanned(stages, t, job);
    }
  }

  /** A job's configuration tells the source it is from. */
  lemma ConfTellsThread(stages: seq<StageEntry>, t: Tid, job: Job)
    requires Sessions.DistinctKeys(stages) && job in ThreadJobs(stages, t)
    ensures t.Vlan? && IsThread(stages, t) && Distinct(ThreadJobs(stages, t))
    ensures job.conf.stage == stages[t.s].number && job.conf.iface == stages[t.s].ifaces[t.i].name
    ensures job.conf.vlan == stages[t.s].ifaces[t.i].vlans[t.v].vlan
  {
    var stage := stages[t.s];
    var iface := stage.ifaces[t.i];
    assert stage in stages && iface in stage.ifaces && iface.vlans[t.v] in iface.vlans;
    Sessions.VlanJobsDistinct(Intra, stage.number, iface.name, iface.vlans[t.v]);
  }

  lemma OneThread(stages: seq<StageEntry>, t: Tid, t': Tid, job: Job, job': Job)
    requires Sessions.DistinctKeys(stages) && job in ThreadJobs(stages, t) && job' in ThreadJobs(stages, t')
    requires job.conf == job'.conf
    ensures t == t'
  {
    ConfTellsThread(stages, t, job);
    ConfTellsThread(stages, t', job');
    assert stages[t.s] in stages;
    assert t.s == t'.s;
    var ifaces := stages[t.s].ifaces;
    assert ifaces[t.i] in ifaces;
    assert t.i == t'.i;
  }

  lemma OneJobOfVlan(conf: Conf, macs: seq<MacEntry>, job: Job, job': Job)
    requires Sessions.DistinctMacs(macs) && job.conf == job'.conf
    requires job in Sessions.Flat(Sessions.MacJobs(conf), macs) && job' in Sessions.Flat(Sessions.MacJobs(conf), macs)
    ensures job == job'
  {
    var m, p := Sessions.PlannedInVlan(conf, macs, job);
    var m', p' := Sessions.PlannedInVlan(conf, macs, job');
    assert m.mac == m'.mac && p.addr == p'.addr;
    var a :| 0 <= a < |macs| && macs[a] == m;
    var b :| 0 <= b < |macs| && macs[b] == m';
    assert a == b;
    var c :| 0 <= c < |m.ips| && m.ips[c] == p;
    var d :| 0 <= d < |m.ips| && m.ips[d] == p';
    assert c == d;
  }

  lemma OneJob(stages: seq<StageEntry>, t: Tid, job: Job, job': Job)
    requires Sessions.DistinctKeys(stages) && job in ThreadJobs(stages, t) && job' in ThreadJobs(stages, t)
    requires job.conf == job'.conf
    ensures job == job'
  {
    var stage := stages[t.s];
    var iface := stage.ifaces[t.i];
    var vlan := iface.vlans[t.v];
    assert stage in stages && iface in stage.ifaces && vlan in iface.vlans;
    OneJobOfVlan(VlanConf(Intra, stage.number, iface.name, vlan.vlan), vlan.macs, job, job');
  }

  // ----- every source once

  /** The jobs are done by the threads, each source's by one of them, once. */
  ghost predicate Shared(stages: seq<StageEntry>, jobs: Tid -> seq<Job>) {
    && (forall job :: Sessions.FromSource(Intra, stages, job) <==> exists t :: job in jobs(t))
    && (forall t :: Distinct(jobs(t)))
    && forall t, t', job, job' :: job in jobs(t) && job' in jobs(t') && job.conf == job'.conf ==> t == t' && job == job'
  }

  function JobsOf(stages: seq<StageEntry>): Tid -> seq<Job> {
    t => ThreadJobs(stages, t)
  }

  lemma JobsAreShared(stages: seq<StageEntry>)
    requires Sessions.DistinctKeys(stages)
    ensures Shared(stages, JobsOf(stages))
  {
    var jobs := JobsOf(stages);
    forall job ensures Sessions.FromSource(Intra, stages, job) <==> exists t :: job in jobs(t) {
      JobsAreSources(stages, job);
      assert forall t :: job in jobs(t) <==> job in ThreadJobs(stages, t);
    }
    forall t ensures Distinct(jobs(t)) {
      if ThreadJobs(stages, t) != [] { ConfTellsThread(stages, t, ThreadJobs(stages, t)[0]); }
    }
    forall t, t', job, job' | job in jobs(t) && job' in jobs(t') && job.conf == job'.conf
      ensures t == t' && job == job'
    {
      OneThread(stages, t, t', job, job');
      OneJob(stages, t, job, job');
    }
  }

  lemma {:induction false} EventsPrefix(steps: seq<Step>, n: nat)
    requires n <= |steps|
    ensures Events(steps[..n]) <= Events(steps)
    decreases |steps|
  {
    if n == |steps| {
      assert steps[..n] == steps;
    } else {
      EventsPrefix(steps[..|steps| - 1], n);
      assert steps[..|steps| - 1][..n] == steps[..n];
    }
  }

  lemma MarkedSoFar(run: Settings, stages: seq<StageEntry>, m: Machine, t: Tid)
    requires WellFormed(stages) && MarkInv(RunThreads(run, stages), m)
    ensures MarksBy(m.marks, t) <= Events(RunThread(run, stages, t))
    ensures Finished(RunThreads(run, stages), m, t) ==> MarksBy(m.marks, t) == Events(RunThread(run, stages, t))
  {
    var prog := RunThreads(run, stages);
    assert MarksBy(m.marks, t) == EventsSoFar(prog, m, t);
    if t in m.pcs {
      EventsPrefix(prog(t), m.pcs[t]);
      if Finished(prog, m, t) { assert prog(t)[..m.pcs[t]] == prog(t); }
    }
  }

  /** In every interleaving each thread marks, one job after the other, its jobs' sessions and then their
      completions, if the run executes; when the run is finished, it has marked them all. The jobs are those
      of the configured sources, each with one thread and once. */
  lemma EverySourceOnceInParallel(run: Settings, stages: seq<StageEntry>, ms: seq<Machine>, i: nat)
    returns (jobs: Tid -> seq<Job>)
    requires WellFormed(stages) && Sessions.DistinctKeys(stages)
    requires Behaviour(RunThreads(run, stages), ms) && i < |ms|
    ensures Shared(stages, jobs)
    ensures forall t :: MarksBy(ms[i].marks, t) <= Sessions.Flat(Sessions.MarksOf(run.execute), jobs(t))
    ensures Finished(RunThreads(run, stages), ms[i], Main) ==>
      forall t :: MarksBy(ms[i].marks, t) == Sessions.Flat(Sessions.MarksOf(run.execute), jobs(t))
  {
    var prog, m := RunThreads(run, stages), ms[i];
    jobs := JobsOf(stages);
    JobsAreShared(stages);
    WellBehaved(run, stages);
    AlwaysMarked(prog, ms, i);
    forall t
      ensures MarksBy(m.marks, t) <= Sessions.Flat(Sessions.MarksOf(run.execute), jobs(t))
      ensures Finished(prog, m, Main) ==> MarksBy(m.marks, t) == Sessions.Flat(Sessions.MarksOf(run.execute), jobs(t))
    {
      MarkedInThread(run, stages, m, t);
    }
  }

  lemma MarkedInThread(run: Settings, stages: seq<StageEntry>, m: Machine, t: Tid)
    requires WellFormed(stages) && Inv(RunThreads(run, stages), m) && MarkInv(RunThreads(run, stages), m)
    ensures var all := Sessions.Flat(Sessions.MarksOf(run.execute), ThreadJobs(stages, t));
      && MarksBy(m.marks, t) <= all
      && (Finished(RunThreads(run, stages), m, Main) ==> MarksBy(m.marks, t) == all)
  {
    ThreadEvents(run, stages, t);
    MarkedSoFar(run, stages, m, t);
    if Finished(RunThreads(run, stages), m, Main) && IsThread(stages, t) {
      Interleavings.ThreadFinished(run, stages, m, t);
    }
  }

  // ----- a source is completed after its plays

  /** Before place `q` are a session's mark and then the steps of its plays. */
  ghost predicate SessionEnds(run: Settings, steps: seq<Step>, q: nat, conf: Conf) {
    var plays := PhasesSteps(run, run.intraPlays, 1, conf);
    && |plays| + 1 <= q < |steps| && steps[q] == Mark(Completed(conf.source))
    && steps[q - |plays| - 1..q] == [Mark(Session(conf))] + plays
  }

  predicate CompletesAt(steps: seq<Step>, q: nat) {
    q < |steps| && steps[q].Mark? && steps[q].event.Completed?
  }

  /** Completions follow the plays of their sources. */
  ghost predicate Shaped(run: Settings, steps: seq<Step>) {
    forall q: nat :: CompletesAt(steps, q) ==> exists conf :: SessionEnds(run, steps, q, conf)
  }

  lemma ShapedConcat(run: Settings, a: seq<Step>, b: seq<Step>)
    requires Shaped(run, a) && Shaped(run, b)
    ensures Shaped(run, a + b)
  {
    forall q: nat | CompletesAt(a + b, q) ensures exists conf :: SessionEnds(run, a + b, q, conf) {
      if q < |a| { EndsInFirst(run, a, b, q); } else { EndsInSecond(run, a, b, q - |a|, q); }
    }
  }

  lemma EndsInFirst(run: Settings, a: seq<Step>, b: seq<Step>, q: nat)
    requires Shaped(run, a) && CompletesAt(a, q)
    ensures exists conf :: SessionEnds(run, a + b, q, conf)
  {
    var conf :| SessionEnds(run, a, q, conf);
    var n := |PhasesSteps(run, run.intraPlays, 1, conf)|;
    assert (a + b)[q - n - 1..q] == a[q - n - 1..q];
    assert SessionEnds(run, a + b, q, conf);
  }

  lemma EndsInSecond(run: Settings, a: seq<Step>, b: seq<Step>, q: nat, place: nat)
    requires Shaped(run, b) && CompletesAt(b, q) && place == |a| + q
    ensures exists conf :: SessionEnds(run, a + b, place, conf)
  {
    var conf :| SessionEnds(run, b, q, conf);
    var n := |PhasesSteps(run, run.intraPlays, 1, conf)|;
    assert (a + b)[place - n - 1..place] == b[q - n - 1..q];
    assert SessionEnds(run, a + b, place, conf);
  }

  lemma {:induction false} StepsConcat(run: Settings, x: seq<Act>, y: seq<Act>)
    ensures Steps(run, x + y) == Steps(run, x) + Steps(run, y)
  {
    if x == [] {
      assert x + y == y;
    } else {
      assert (x + y)[0] == x[0] && (x + y)[1..] == x[1..] + y;
      StepsConcat(run, x[1..], y);
    }
  }

  lemma StepsOne(run: Settings, act: Act)
    ensures Steps(run, [act]) == ActSteps(run, act)
  {
    assert [act][1..] == [];
  }

  lemma WithinShaped(run: Settings, act: Act)
    requires act.Within? && Shaped(run, Steps(run, act.body))
    ensures Shaped(run, ActSteps(run, act))
  {
    ShapedConcat(run, Block(act.up), Steps(run, act.body));
    ShapedConcat(run, Block(act.up) + Steps(run, act.body), Block(act.down));
  }

  /** A source's plays, and after them its completion. */
  lemma SourceShaped(run: Settings, conf: Conf)
    requires conf.scope == Intra
    ensures Shaped(run, Steps(run, [Network(conf), Complete(conf.source)]))
  {
    var plays, done := Network(conf), Complete(conf.source);
    StepsOne(run, plays);
    StepsOne(run, done);
    StepsConcat(run, [plays], [done]);
    assert [plays] + [done] == [plays, done];
    PlaysThenDone(run, conf, Steps(run, [plays, done]));
  }

  lemma PlaysThenDone(run: Settings, conf: Conf, steps: seq<Step>)
    requires steps == [Mark(Session(conf))] + PhasesSteps(run, run.intraPlays, 1, conf) +
      if run.execute then [Mark(Completed(conf.source))] else []
    ensures Shaped(run, steps)
  {
    var plays := PhasesSteps(run, run.intraPlays, 1, conf);
    PhasesSections(run, run.intraPlays, 1, conf);
    forall q: nat | CompletesAt(steps, q) ensures exists c :: SessionEnds(run, steps, q, c) {
      assert q == |plays| + 1;
      assert steps[0..q] == [Mark(Session(conf))] + plays;
      assert SessionEnds(run, steps, q, conf);
    }
  }

  lemma {:induction false} AddrsShaped(run: Settings, conf: Conf, ips: seq<IpEntry>)
    requires conf.scope == Intra
    ensures Shaped(run, Steps(run, AddrsActs(conf, ips)))
  {
    if ips != [] {
      var n := |ips| - 1;
      AddrsShaped(run, conf, ips[..n]);
      SourceShaped(run, AddrConf(conf, ips[n]));
      WithinShaped(run, AddrActs(conf, ips[n]));
      StepsOne(run, AddrActs(conf, ips[n]));
      StepsConcat(run, AddrsActs(conf, ips[..n]), [AddrActs(conf, ips[n])]);
      ShapedConcat(run, Steps(run, AddrsActs(conf, ips[..n])), ActSteps(run, AddrActs(conf, ips[n])));
    }
  }

  lemma MacShaped(run: Settings, conf: Conf, entry: MacEntry)
    requires conf.scope == Intra
    ensures Shaped(run, ActSteps(run, MacActs(conf, entry)))
  {
    var c := conf.(mac := entry.mac);
    var capture := if c.vlan == NONE then CaptureActs(c.link, 90) else [];
    var link := Within(RaiseLink(c.link), capture + AddrsActs(c, entry.ips), LowerLink(c.link));
    AddrsShaped(run, c, entry.ips);
    StepsConcat(run, capture, AddrsActs(c, entry.ips));
    CaptureShaped(run, c.link, c.vlan == NONE);
    ShapedConcat(run, Steps(run, capture), Steps(run, AddrsActs(c, entry.ips)));
    WithinShaped(run, link);
    StepsOne(run, link);
    WithinShaped(run, MacActs(conf, entry));
  }

  lemma CaptureShaped(run: Settings, link: string, captures: bool)
    ensures Shaped(run, Steps(run, if captures then CaptureActs(link, 90) else []))
  {
    if captures { StepsOne(run, CaptureActs(link, 90)[0]); }
  }

  lemma {:induction false} MacsShaped(run: Settings, conf: Conf, macs: seq<MacEntry>)
    requires conf.scope == Intra
    ensures Shaped(run, Steps(run, MacsActs(conf, macs)))
  {
    if macs != [] {
      var n := |macs| - 1;
      MacsShaped(run, conf, macs[..n]);
      MacShaped(run, conf, macs[n]);
      StepsOne(run, MacActs(conf, macs[n]));
      StepsConcat(run, MacsActs(conf, macs[..n]), [MacActs(conf, macs[n])]);
      ShapedConcat(run, Steps(run, MacsActs(conf, macs[..n])), ActSteps(run, MacActs(conf, macs[n])));
    }
  }

  lemma VlanShaped(run: Settings, stage: nat, iface: string, entry: VlanEntry)
    ensures Shaped(run, ActSteps(run, VlanActs(Intra, stage, iface, entry)))
  {
    MacsShaped(run, VlanConf(Intra, stage, iface, entry.vlan), entry.macs);
    WithinShaped(run, VlanActs(Intra, stage, iface, entry));
  }

  lemma {:induction false} NoEventNoMark(steps: seq<Step>, j: nat)
    requires Events(steps) == [] && j < |steps|
    ensures !steps[j].Mark?
    decreases |steps|
  {
    var n := |steps| - 1;
    if j < n { NoEventNoMark(steps[..n], j); }
  }

  lemma NothingCompletes(run: Settings, steps: seq<Step>)
    requires Events(steps) == []
    ensures Shaped(run, steps)
  {
    forall q: nat ensures !CompletesAt(steps, q) {
      if q < |steps| { NoEventNoMark(steps, q); }
    }
  }

  lemma ThreadShaped(run: Settings, stages: seq<StageEntry>, t: Tid)
    requires WellFormed(stages)
    ensures Shaped(run, RunThread(run, stages, t))
  {
    if t.Vlan? && IsThread(stages, t) {
      var entry := stages[t.s].ifaces[t.i];
      VlanShaped(run, stages[t.s].number, entry.name, entry.vlans[t.v]);
    } else {
      ThreadEvents(run, stages, t);
      NothingCompletes(run, RunThread(run, stages, t));
    }
  }

  /** Mark `a` is of the session, mark `b` of its completion by the same thread, and between them the thread
      has issued exactly the commands of the plays. */
  ghost predicate PlaysBetween(run: Settings, m: Machine, a: nat, b: nat, conf: Conf) {
    && a < b < |m.marks| && m.marks[a].tid == m.marks[b].tid && m.marks[a].at <= |m.log| && m.marks[b].at <= |m.log|
    && m.marks[a].event == Session(conf) && m.marks[b].event == Completed(conf.source)
    && By(m.log[..m.marks[b].at], m.marks[b].tid) ==
       By(m.log[..m.marks[a].at], m.marks[a].tid) + Trace.PhasesScript(run, run.intraPlays, 1, conf)
  }

  lemma SessionCommands(run: Settings, steps: seq<Step>, q: nat, conf: Conf) returns (p: nat)
    requires SessionEnds(run, steps, q, conf)
    ensures p < q < |steps| && steps[p] == Mark(Session(conf))
    ensures Commands(steps[..q]) == Commands(steps[..p]) + Trace.PhasesScript(run, run.intraPlays, 1, conf)
  {
    var plays := PhasesSteps(run, run.intraPlays, 1, conf);
    var session := [Mark(Session(conf))];
    p := q - |plays| - 1;
    assert steps[..q] == steps[..p] + (session + plays);
    assert steps[p..q][0] == steps[p];
    CommandsConcat(steps[..p], session + plays);
    CommandsConcat(session, plays);
    NoSections(session);
    PhasesCommands(run, run.intraPlays, 1, conf);
  }

  lemma EarlierMark(m: Machine, a: nat, b: nat)
    requires MarksInOrder(m) && a < |m.marks| && b < |m.marks|
    requires m.marks[a].tid == m.marks[b].tid && m.marks[a].pc < m.marks[b].pc
    ensures a < b
  {
  }

  lemma MarkPlaced(prog: Program, m: Machine, a: nat)
    requires MarkInv(prog, m) && a < |m.marks|
    ensures var e := m.marks[a];
      && e.tid in m.pcs && e.pc < m.pcs[e.tid] && e.pc < |prog(e.tid)| && prog(e.tid)[e.pc] == Mark(e.event)
      && e.at <= |m.log| && By(m.log[..e.at], e.tid) == Commands(prog(e.tid)[..e.pc])
  {
    assert Placed(prog, m, m.marks[a]);
  }

  lemma SessionMarked(run: Settings, prog: Program, m: Machine, b: nat, conf: Conf) returns (a: nat)
    requires MarkInv(prog, m) && b < |m.marks|
    requires SessionEnds(run, prog(m.marks[b].tid), m.marks[b].pc, conf)
    ensures PlaysBetween(run, m, a, b, conf)
  {
    var t, q := m.marks[b].tid, m.marks[b].pc;
    var p := SessionCommands(run, prog(t), q, conf);
    MarkPlaced(prog, m, b);
    a := WhereNoted(prog, m, t, p);
    MarkPlaced(prog, m, a);
    EarlierMark(m, a, b);
  }

  /** At any point of any interleaving, a source that has been completed had its session before, and all of
      its plays' commands, and only these, were issued by its thread in between. */
  lemma CompletedAfterItsPlays(run: Settings, stages: seq<StageEntry>, ms: seq<Machine>, i: nat, b: nat)
    returns (a: nat, conf: Conf)
    requires WellFormed(stages) && Behaviour(RunThreads(run, stages), ms) && i < |ms|
    requires b < |ms[i].marks| && ms[i].marks[b].event.Completed?
    ensures PlaysBetween(run, ms[i], a, b, conf)
  {
    var prog, m := RunThreads(run, stages), ms[i];
    WellBehaved(run, stages);
    AlwaysMarked(prog, ms, i);
    var e := m.marks[b];
    assert Placed(prog, m, e);
    ThreadShaped(run, stages, e.tid);
    assert CompletesAt(prog(e.tid), e.pc);
    conf :| SessionEnds(run, prog(e.tid), e.pc, conf);
    a := SessionMarked(run, prog, m, b, conf);
  }
}
