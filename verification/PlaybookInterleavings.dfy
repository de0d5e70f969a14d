/** What holds in every interleaving of the threads of an intra-network run, over all of its stages. */
module PlaybookInterleavings {
  import opened Common
  import opened PlaybookModel
  import opened PlaybookThreads
  import opened PlaybookStageThreads
  import opened PlaybookThreadSums
  import opened PlaybookBounds
  import Trace = PlaybookTrace

  // ----- numbers

  /** The log holds the whole section from index `a` on, and nothing of it elsewhere. */
  predicate OnlyTogether(m: Machine, t: Tid, pc: nat, commands: seq<Command>, a: nat) {
    && Together(m, t, pc, commands, a)
    && forall j :: 0 <= j < |m.log| && m.log[j].tid == t && m.log[j].pc == pc ==> j == a + m.log[j].k
  }

  /** At any point of any interleaving the numbers given out since the run began are 1, 2, 3, ..., and
      each section a thread has passed has a consecutive run of them, in its order, and no other number. */
  lemma NumbersAreConsecutive(run: Settings, stages: seq<StageEntry>, ms: seq<Machine>, i: nat)
    requires WellFormed(stages) && Behaviour(RunThreads(run, stages), ms) && i < |ms|
    ensures ms[i].lastId == |ms[i].log| && forall j :: 0 <= j < |ms[i].log| ==> ms[i].log[j].id == j + 1
    ensures forall t, pc: nat ::
      t in ms[i].pcs && pc < ms[i].pcs[t] && SectionAt(RunThreads(run, stages), t, pc) &&
      RunThread(run, stages, t)[pc].commands != [] ==>
        exists a :: OnlyTogether(ms[i], t, pc, RunThread(run, stages, t)[pc].commands, a)
  {
    var prog := RunThreads(run, stages);
    WellBehaved(run, stages);
    Always(prog, ms, i);
    forall t, pc: nat | t in ms[i].pcs && pc < ms[i].pcs[t] && SectionAt(prog, t, pc) && prog(t)[pc].commands != []
      ensures exists a :: OnlyTogether(ms[i], t, pc, prog(t)[pc].commands, a)
    {
      var a := SectionNumbers(prog, ms[i], t, pc);
      assert OnlyTogether(ms[i], t, pc, prog(t)[pc].commands, a);
    }
  }

  // ----- which threads a log is of

  lemma {:induction false} MainStays(prog: Program, ms: seq<Machine>, i: nat)
    requires Behaviour(prog, ms) && i < |ms|
    ensures Main in ms[i].pcs
  {
    if i > 0 {
      MainStays(prog, ms, i - 1);
      assert Next(prog, ms[i - 1], ms[i - 1 + 1]);
    }
  }

  lemma SectionNotMain(run: Settings, stages: seq<StageEntry>, t: Tid, pc: nat)
    requires WellFormed(stages) && SectionAt(RunThreads(run, stages), t, pc)
    ensures t != Main
  {
    if t == Main { var _, _ := MainRelates(stages, pc); }
  }

  lemma EntryThread(run: Settings, stages: seq<StageEntry>, m: Machine, e: Entry)
    requires WellFormed(stages) && Passed(RunThreads(run, stages), m, e)
    ensures e.tid != Main && IsThread(stages, e.tid) && e.tid in m.pcs
  {
    SectionNotMain(run, stages, e.tid, e.pc);
  }

  lemma EarlierStage(stages: seq<StageEntry>, s: nat, n: nat)
    requires s < |stages| && n <= |stages| && Offset(stages, s) < Offset(stages, n)
    ensures s < n
  {
    if n <= s { OffsetGrows(stages, n, s); }
  }

  /** While the run's own thread has not passed its place after `n` stages, only these have issued anything. */
  lemma EntryStage(run: Settings, stages: seq<StageEntry>, m: Machine, n: nat, e: Entry)
    requires WellFormed(stages) && Related(RunThreads(run, stages), m) && Passed(RunThreads(run, stages), m, e)
    requires n <= |stages| && Main in m.pcs && m.pcs[Main] <= Offset(stages, n)
    ensures e.tid in AllTids(stages, n)
  {
    EntryThread(run, stages, m, e);
    StageBegun(run, stages, m, e.tid);
    EarlierStage(stages, e.tid.s, n);
    AllTidsAre(stages, n);
  }

  function LoggedBy(m: Machine): Tid -> seq<Command> {
    t => By(m.log, t)
  }

  lemma LogOfFirst(run: Settings, stages: seq<StageEntry>, m: Machine, n: nat)
    requires WellFormed(stages) && Inv(RunThreads(run, stages), m)
    requires n <= |stages| && Main in m.pcs && m.pcs[Main] <= Offset(stages, n)
    ensures multiset(Logged(m.log)) == Sum(LoggedBy(m), AllTids(stages, n)) && |Logged(m.log)| == |m.log|
  {
    forall j | 0 <= j < |m.log| ensures m.log[j].tid in AllTids(stages, n) {
      assert Passed(RunThreads(run, stages), m, m.log[j]);
      EntryStage(run, stages, m, n, m.log[j]);
    }
    AllTidsAre(stages, n);
    LogIsSum(m.log, AllTids(stages, n));
    SumSame(t => By(m.log, t), LoggedBy(m), AllTids(stages, n));
  }

  lemma FinishedBy(prog: Program, m: Machine, t: Tid)
    requires Counted(prog, m) && OnScript(prog, m) && Finished(prog, m, t)
    ensures By(m.log, t) == Commands(prog(t))
  {
    assert prog(t)[..|prog(t)|] == prog(t);
    assert By(m.log, t) == SoFar(prog, m, t);
  }

  lemma ThreadDone(run: Settings, stages: seq<StageEntry>, m: Machine, n: nat, t: Tid)
    requires WellFormed(stages) && Inv(RunThreads(run, stages), m) && n <= |stages| && t in AllTids(stages, n)
    requires Main in m.pcs && Offset(stages, n) <= m.pcs[Main]
    ensures Finished(RunThreads(run, stages), m, t) && By(m.log, t) == Commands(RunThread(run, stages, t))
  {
    AllTidsAre(stages, n);
    OffsetGrows(stages, t.s + 1, n);
    StageFinished(run, stages, m, t);
    FinishedBy(RunThreads(run, stages), m, t);
  }

  lemma DoneByFirst(run: Settings, stages: seq<StageEntry>, m: Machine, n: nat)
    requires WellFormed(stages) && Inv(RunThreads(run, stages), m)
    requires n <= |stages| && Main in m.pcs && Offset(stages, n) <= m.pcs[Main]
    ensures Sum(LoggedBy(m), AllTids(stages, n)) == RunWork(run, stages)(n)
  {
    forall t | t in AllTids(stages, n) ensures LoggedBy(m)(t) == Work(run, stages)(t) {
      ThreadDone(run, stages, m, n, t);
    }
    SumSame(LoggedBy(m), Work(run, stages), AllTids(stages, n));
  }

  // ----- the same commands as one thread at a time

  lemma SameSize<T>(a: seq<T>, b: seq<T>)
    requires multiset(a) == multiset(b)
    ensures |a| == |b|
  {
    assert |multiset(a)| == |a| && |multiset(b)| == |b|;
  }

  lemma BetweenStages(run: Settings, stages: seq<StageEntry>, m: Machine, n: nat)
    requires WellFormed(stages) && Inv(RunThreads(run, stages), m)
    requires n <= |stages| && Main in m.pcs && m.pcs[Main] == Offset(stages, n)
    ensures multiset(Logged(m.log)) == multiset(RunScript(run, stages)(n))
    ensures m.lastId == |RunScript(run, stages)(n)|
  {
    LogOfFirst(run, stages, m, n);
    DoneByFirst(run, stages, m, n);
    StagesIssue(run, stages, n);
    SameSize(Logged(m.log), RunScript(run, stages)(n));
  }

  /** Whenever the run's own thread has done `n` stages, their threads have issued the commands of a run
      of these stages one thread at a time, under as many numbers, each thread its own in their order. */
  lemma SameCommandsAsSerial(run: Settings, stages: seq<StageEntry>, ms: seq<Machine>, i: nat, n: nat)
    requires WellFormed(stages) && Behaviour(RunThreads(run, stages), ms) && i < |ms|
    requires n <= |stages| && Main in ms[i].pcs && ms[i].pcs[Main] == Offset(stages, n)
    ensures forall t :: t in AllTids(stages, n) ==> By(ms[i].log, t) == Commands(RunThread(run, stages, t))
    ensures multiset(Logged(ms[i].log)) == multiset(Trace.Script(run, StagesActs(run, Intra, stages[..n])))
    ensures ms[i].lastId == |Trace.Script(run, StagesActs(run, Intra, stages[..n]))|
  {
    WellBehaved(run, stages);
    Always(RunThreads(run, stages), ms, i);
    BetweenStages(run, stages, ms[i], n);
    forall t | t in AllTids(stages, n) ensures By(ms[i].log, t) == Commands(RunThread(run, stages, t)) {
      ThreadDone(run, stages, ms[i], n, t);
    }
  }

  lemma SerialLast(run: Settings, playbook: seq<StageEntry>)
    requires WellFormed(playbook)
    ensures WellFormed(StagesRun(run, playbook))
    ensures RunPlaybook(run, Intra, playbook).lastId ==
            |Trace.Script(run, StagesActs(run, Intra, StagesRun(run, playbook)))|
  {
    StagesAreSome(run, playbook);
    Trace.RunActsIssues(run, StagesActs(run, Intra, StagesRun(run, playbook)), PlaybookModel.Start(run));
  }

  /** A finished run has given out the numbers a run one thread at a time gives out. */
  lemma SameNumbersAsSerial(run: Settings, playbook: seq<StageEntry>, ms: seq<Machine>, i: nat)
    requires WellFormed(playbook) && WellFormed(StagesRun(run, playbook))
    requires Behaviour(RunThreads(run, StagesRun(run, playbook)), ms) && i < |ms|
    requires Finished(RunThreads(run, StagesRun(run, playbook)), ms[i], Main)
    ensures ms[i].lastId == RunPlaybook(run, Intra, playbook).lastId
  {
    var stages := StagesRun(run, playbook);
    SerialLast(run, playbook);
    SameCommandsAsSerial(run, stages, ms, i, |stages|);
    assert stages[..|stages|] == stages;
  }

  // ----- stages do not mix

  lemma {:induction false} SumBound(f: Tid -> seq<Command>, g: Tid -> seq<Command>, tids: seq<Tid>)
    requires forall t :: t in tids ==> |f(t)| <= |g(t)|
    ensures |Sum(f, tids)| <= |Sum(g, tids)|
    decreases |tids|
  {
    if tids != [] {
      var n := |tids| - 1;
      assert tids[n] in tids && forall t :: t in tids[..n] ==> t in tids;
      SumBound(f, g, tids[..n]);
      assert |multiset(f(tids[n]))| == |f(tids[n])| && |multiset(g(tids[n]))| == |g(tids[n])|;
    }
  }

  lemma LargerSum(f: Tid -> seq<Command>, a: seq<Tid>, b: seq<Tid>)
    ensures |Sum(f, a)| <= |Sum(f, a + b)|
  {
    SumConcat(f, a, b);
  }

  lemma {:induction false} FirstTids(stages: seq<StageEntry>, m: nat, n: nat) returns (rest: seq<Tid>)
    requires m <= n <= |stages|
    ensures AllTids(stages, n) == AllTids(stages, m) + rest
    decreases n
  {
    if m < n {
      var fewer := FirstTids(stages, m, n - 1);
      rest := fewer + StageTids(n - 1, stages[n - 1].ifaces, |stages[n - 1].ifaces|);
    } else {
      rest := [];
    }
  }

  lemma SumOfFirst(f: Tid -> seq<Command>, stages: seq<StageEntry>, m: nat, n: nat)
    requires m <= n <= |stages|
    ensures |Sum(f, AllTids(stages, m))| <= |Sum(f, AllTids(stages, n))|
  {
    var rest := FirstTids(stages, m, n);
    LargerSum(f, AllTids(stages, m), rest);
  }

  lemma {:induction false} CommandsPart(steps: seq<Step>, n: nat)
    requires n < |steps|
    ensures |Commands(steps[..n])| + (if steps[n].Section? then |steps[n].commands| else 0) <= |Commands(steps)|
    decreases |steps|
  {
    var last := |steps| - 1;
    if n < last {
      CommandsPart(steps[..last], n);
      assert steps[..last][..n] == steps[..n];
    }
  }

  lemma NoMoreThanAll(prog: Program, m: Machine, t: Tid)
    requires Counted(prog, m) && OnScript(prog, m)
    ensures |By(m.log, t)| <= |Commands(prog(t))|
  {
    assert By(m.log, t) == SoFar(prog, m, t);
    if t in m.pcs {
      if m.pcs[t] < |prog(t)| {
        CommandsPart(prog(t), m.pcs[t]);
      } else {
        assert prog(t)[..m.pcs[t]] == prog(t);
      }
    }
  }

  lemma AtLeast(run: Settings, stages: seq<StageEntry>, m: Machine, n: nat)
    requires WellFormed(stages) && Inv(RunThreads(run, stages), m)
    requires n <= |stages| && Main in m.pcs && Offset(stages, n) <= m.pcs[Main] <= Offset(stages, |stages|)
    ensures |RunScript(run, stages)(n)| <= |m.log|
  {
    DoneByFirst(run, stages, m, n);
    StagesIssue(run, stages, n);
    assert |multiset(RunScript(run, stages)(n))| == |RunScript(run, stages)(n)|;
    LogOfFirst(run, stages, m, |stages|);
    SumOfFirst(LoggedBy(m), stages, n, |stages|);
    assert |multiset(Logged(m.log))| == |Logged(m.log)|;
  }

  lemma AtMost(run: Settings, stages: seq<StageEntry>, m: Machine, n: nat)
    requires WellFormed(stages) && Inv(RunThreads(run, stages), m)
    requires n <= |stages| && Main in m.pcs && m.pcs[Main] <= Offset(stages, n)
    ensures |m.log| <= |RunScript(run, stages)(n)|
  {
    LogOfFirst(run, stages, m, n);
    forall t | t in AllTids(stages, n) ensures |LoggedBy(m)(t)| <= |Work(run, stages)(t)| {
      NoMoreThanAll(RunThreads(run, stages), m, t);
    }
    SumBound(LoggedBy(m), Work(run, stages), AllTids(stages, n));
    StagesIssue(run, stages, n);
    assert |multiset(RunScript(run, stages)(n))| == |RunScript(run, stages)(n)|;
    assert |multiset(Logged(m.log))| == |Logged(m.log)|;
  }

  /** The entry's number is one of those its stage has in a run one thread at a time. */
  predicate InBlock(run: Settings, stages: seq<StageEntry>, e: Entry)
    requires WellFormed(stages)
  {
    && e.tid != Main && e.tid.s < |stages|
    && |RunScript(run, stages)(e.tid.s)| < e.id <= |RunScript(run, stages)(e.tid.s + 1)|
  }

  /** A thread that still has something to do keeps the run's own thread in its stage. */
  lemma StageUnderWay(run: Settings, stages: seq<StageEntry>, m: Machine, t: Tid)
    requires WellFormed(stages) && Related(RunThreads(run, stages), m) && t != Main && Main in m.pcs
    requires At(RunThreads(run, stages), m, t)
    ensures t.s < |stages| && Offset(stages, t.s) < m.pcs[Main] < Offset(stages, t.s + 1)
  {
    StageBegun(run, stages, m, t);
    if Offset(stages, t.s + 1) <= m.pcs[Main] { StageFinished(run, stages, m, t); }
  }

  /** Where the run's own thread is when a thread issues a command. */
  lemma IssuerStage(run: Settings, stages: seq<StageEntry>, m: Machine, n: Machine, t: Tid)
    requires WellFormed(stages) && Related(RunThreads(run, stages), m) && Main in m.pcs
    requires Issue(RunThreads(run, stages), m, n, t)
    ensures t != Main && t.s < |stages| && n.pcs == m.pcs
    ensures Offset(stages, t.s) <= m.pcs[Main] <= Offset(stages, t.s + 1)
  {
    SectionNotMain(run, stages, t, m.pcs[t]);
    StageUnderWay(run, stages, m, t);
  }

  lemma LowestNumber(run: Settings, stages: seq<StageEntry>, m: Machine, n: Machine, t: Tid)
    requires WellFormed(stages) && Inv(RunThreads(run, stages), m) && Main in m.pcs
    requires Issue(RunThreads(run, stages), m, n, t)
    ensures t != Main && t.s < |stages| && |RunScript(run, stages)(t.s)| <= |m.log|
  {
    IssuerStage(run, stages, m, n, t);
    OffsetGrows(stages, t.s + 1, |stages|);
    AtLeast(run, stages, m, t.s);
  }

  lemma HighestNumber(run: Settings, stages: seq<StageEntry>, m: Machine, n: Machine, t: Tid)
    requires WellFormed(stages) && Related(RunThreads(run, stages), m) && Main in m.pcs
    requires Issue(RunThreads(run, stages), m, n, t) && Inv(RunThreads(run, stages), n)
    ensures t != Main && t.s < |stages| && |n.log| <= |RunScript(run, stages)(t.s + 1)|
  {
    IssuerStage(run, stages, m, n, t);
    AtMost(run, stages, n, t.s + 1);
  }

  lemma NewEntry(prog: Program, m: Machine, n: Machine, t: Tid)
    requires Counted(prog, m) && Issue(prog, m, n, t)
    ensures |n.log| == |m.log| + 1 && n.log == m.log + [n.log[|m.log|]]
    ensures n.log[|m.log|].tid == t && n.log[|m.log|].id == |n.log|
  {
  }

  ghost predicate AllInBlock(run: Settings, stages: seq<StageEntry>, log: seq<Entry>)
    requires WellFormed(stages)
  {
    forall e :: e in log ==> InBlock(run, stages, e)
  }

  lemma OneMoreInBlock(run: Settings, stages: seq<StageEntry>, log: seq<Entry>, e: Entry)
    requires WellFormed(stages) && AllInBlock(run, stages, log) && InBlock(run, stages, e)
    ensures AllInBlock(run, stages, log + [e])
  {
  }

  lemma NewInBlock(run: Settings, stages: seq<StageEntry>, m: Machine, n: Machine, t: Tid)
    requires WellFormed(stages) && Inv(RunThreads(run, stages), m) && Inv(RunThreads(run, stages), n)
    requires Issue(RunThreads(run, stages), m, n, t) && Main in m.pcs && AllInBlock(run, stages, m.log)
    ensures AllInBlock(run, stages, n.log)
  {
    LowestNumber(run, stages, m, n, t);
    HighestNumber(run, stages, m, n, t);
    NewEntry(RunThreads(run, stages), m, n, t);
    OneMoreInBlock(run, stages, m.log, n.log[|m.log|]);
  }

  lemma StepInBlocks(run: Settings, stages: seq<StageEntry>, ms: seq<Machine>, i: nat)
    requires WellFormed(stages) && Behaviour(RunThreads(run, stages), ms) && i + 1 < |ms|
    requires AllInBlock(run, stages, ms[i].log)
    ensures AllInBlock(run, stages, ms[i + 1].log)
  {
    var prog := RunThreads(run, stages);
    WellBehaved(run, stages);
    Always(prog, ms, i);
    Always(prog, ms, i + 1);
    MainStays(prog, ms, i);
    assert Next(prog, ms[i], ms[i + 1]);
    var t :| StepOf(prog, ms[i], ms[i + 1], t);
    LogGrows(prog, ms[i], ms[i + 1], t);
    if Issue(prog, ms[i], ms[i + 1], t) { NewInBlock(run, stages, ms[i], ms[i + 1], t); }
  }

  /** In every interleaving each stage's commands have the numbers the stage has in a run one thread at a
      time; so no command of a stage comes before one of an earlier stage. */
  lemma {:induction false} StagesKeepTheirNumbers(run: Settings, stages: seq<StageEntry>, ms: seq<Machine>, i: nat)
    requires WellFormed(stages) && Behaviour(RunThreads(run, stages), ms) && i < |ms|
    ensures AllInBlock(run, stages, ms[i].log)
  {
    if i > 0 {
      StagesKeepTheirNumbers(run, stages, ms, i - 1);
      StepInBlocks(run, stages, ms, i - 1);
    }
  }

  // ----- every interleaving ends, with all threads finished

  /** No interleaving gets stuck before the run's own thread is finished. */
  lemma NoDeadlock(run: Settings, stages: seq<StageEntry>, ms: seq<Machine>, i: nat)
    requires WellFormed(stages) && Behaviour(RunThreads(run, stages), ms) && i < |ms|
    ensures Finished(RunThreads(run, stages), ms[i], Main) || exists n :: Next(RunThreads(run, stages), ms[i], n)
  {
    var prog := RunThreads(run, stages);
    WellBehaved(run, stages);
    Always(prog, ms, i);
    MainStays(prog, ms, i);
    if !Finished(prog, ms[i], Main) { SomeoneMoves(prog, Rank, ms[i], Main); }
  }

  function EveryTid(stages: seq<StageEntry>): seq<Tid> {
    [Main] + AllTids(stages, |stages|)
  }

  lemma EveryTidIs(run: Settings, stages: seq<StageEntry>)
    requires WellFormed(stages)
    ensures AllOf(RunThreads(run, stages), EveryTid(stages))
    ensures forall t :: t in EveryTid(stages) ==> IsThread(stages, t)
  {
    AllTidsAre(stages, |stages|);
    DistinctConcat([Main], AllTids(stages, |stages|));
  }

  /** The steps of all the threads' programs. */
  function StepsInAll(run: Settings, stages: seq<StageEntry>): nat
    requires WellFormed(stages)
  {
    Total(CostOf(RunThreads(run, stages)), EveryTid(stages))
  }

  lemma ThreadFinished(run: Settings, stages: seq<StageEntry>, m: Machine, t: Tid)
    requires WellFormed(stages) && Inv(RunThreads(run, stages), m) && Finished(RunThreads(run, stages), m, Main)
    requires IsThread(stages, t)
    ensures Finished(RunThreads(run, stages), m, t)
  {
    if t != Main {
      OffsetGrows(stages, t.s + 1, |stages|);
      StageFinished(run, stages, m, t);
    }
  }

  lemma EndSpent(run: Settings, stages: seq<StageEntry>, m: Machine, spent: nat)
    requires WellFormed(stages) && Inv(RunThreads(run, stages), m) && Main in m.pcs
    requires spent == Total(SpentIn(RunThreads(run, stages), m), EveryTid(stages))
    ensures spent <= StepsInAll(run, stages)
    ensures spent == StepsInAll(run, stages) <==> Finished(RunThreads(run, stages), m, Main)
  {
    var prog, tids := RunThreads(run, stages), EveryTid(stages);
    EveryTidIs(run, stages);
    forall t | t in tids ensures SpentIn(prog, m)(t) <= CostOf(prog)(t) { SpentBound(prog, m, t); }
    TotalBound(SpentIn(prog, m), CostOf(prog), tids);
    if spent == StepsInAll(run, stages) {
      MainSpent(run, stages, m);
    }
    if Finished(prog, m, Main) {
      forall t | t in tids ensures SpentIn(prog, m)(t) == CostOf(prog)(t) {
        ThreadFinished(run, stages, m, t);
        SpentBound(prog, m, t);
      }
      TotalSame(SpentIn(prog, m), CostOf(prog), tids);
    }
  }

  lemma MainSpent(run: Settings, stages: seq<StageEntry>, m: Machine)
    requires WellFormed(stages) && Counted(RunThreads(run, stages), m) && Main in m.pcs
    requires forall t :: t in EveryTid(stages) ==>
      SpentIn(RunThreads(run, stages), m)(t) == CostOf(RunThreads(run, stages))(t)
    ensures Finished(RunThreads(run, stages), m, Main)
  {
    var prog := RunThreads(run, stages);
    assert EveryTid(stages)[0] == Main;
    assert SpentIn(prog, m)(Main) == CostOf(prog)(Main);
    SpentBound(prog, m, Main);
  }

  /** Every interleaving has at most as many steps as the threads have in their programs, and has them all
      exactly when the run's own thread is finished. */
  lemma EveryRunEnds(run: Settings, stages: seq<StageEntry>, ms: seq<Machine>)
    requires WellFormed(stages) && Behaviour(RunThreads(run, stages), ms)
    ensures |ms| - 1 <= StepsInAll(run, stages)
    ensures |ms| - 1 == StepsInAll(run, stages) <==> Finished(RunThreads(run, stages), ms[|ms| - 1], Main)
  {
    var prog, i := RunThreads(run, stages), |ms| - 1;
    WellBehaved(run, stages);
    EveryTidIs(run, stages);
    Always(prog, ms, i);
    MainStays(prog, ms, i);
    StepsSpent(prog, ms, i, EveryTid(stages));
    EndSpent(run, stages, ms[i], i);
  }

  // ----- VLANs lie inside their interfaces

  /** The sections of an interface's thread that are not before its first start come after its joins. */
  lemma DownIsLast(run: Settings, s: nat, i: nat, entry: IfaceEntry, v: nat, pc: nat)
    requires NoEmptyLevel(entry) && v < |entry.vlans| && Chosen(entry.vlans[v], true)
    requires |IfaceUp(run, entry)| <= pc < |IfaceSteps(run, s, i, entry)| && IfaceSteps(run, s, i, entry)[pc].Section?
    ensures |IfaceUp(run, entry)| <= StartAt(run, entry, v) && JoinAt(run, entry, v) < pc
  {
    IfaceParts(run, s, i, entry, pc);
    ThreadAt(s, i, entry.vlans, |entry.vlans|, v, true);
  }

  lemma UpIsFirst(run: Settings, stages: seq<StageEntry>, m: Machine, s: nat, i: nat, entry: IfaceEntry, pc: nat,
                  k: nat)
    requires WellFormed(stages) && s < |stages| && i < |stages[s].ifaces| && entry == IfaceOf(stages, s, i)
    requires NothingSkipped(RunThreads(run, stages), m)
    requires Iface(s, i) in m.pcs && |IfaceUp(run, entry)| <= m.pcs[Iface(s, i)]
    requires pc < |IfaceUp(run, entry)| && IfaceUp(run, entry)[pc].Section?
    requires k < |IfaceUp(run, entry)[pc].commands|
    ensures Printed(m, Iface(s, i), pc, k)
  {
    IfaceParts(run, s, i, entry, pc);
    assert SectionAt(RunThreads(run, stages), Iface(s, i), pc);
  }

  /** The thread of an entry is started and waited for by its interface's. */
  lemma VlanRelated(run: Settings, stages: seq<StageEntry>, m: Machine, s: nat, i: nat, v: nat, entry: IfaceEntry)
    requires WellFormed(stages) && s < |stages| && i < |stages[s].ifaces| && entry == IfaceOf(stages, s, i)
    requires v < |entry.vlans| && Related(RunThreads(run, stages), m) && Vlan(s, i, v) in m.pcs
    ensures Iface(s, i) in m.pcs && StartAt(run, entry, v) < m.pcs[Iface(s, i)]
    ensures Spawns(RunThreads(run, stages), Iface(s, i), StartAt(run, entry, v), Vlan(s, i, v))
    ensures Joins(RunThreads(run, stages), Iface(s, i), JoinAt(run, entry, v), Vlan(s, i, v))
  {
    VlanStarted(run, s, i, entry, v);
    assert Spawns(RunThreads(run, stages), Iface(s, i), StartAt(run, entry, v), Vlan(s, i, v));
  }

  /** The entry's commands come after everything that raises its interface and before anything that lowers it. */
  ghost predicate Inside(run: Settings, m: Machine, entry: IfaceEntry, iface: Tid, b: nat)
    requires NoEmptyLevel(entry)
  {
    var up := IfaceUp(run, entry);
    && (forall pc: nat, k: nat {:trigger Printed(m, iface, pc, k)} ::
         pc < |up| && up[pc].Section? && k < |up[pc].commands| ==> Printed(m, iface, pc, k))
    && forall a :: 0 <= a < |m.log| && m.log[a].tid == iface ==> (m.log[a].pc < |up| <==> a < b)
  }

  lemma IfaceSide(run: Settings, stages: seq<StageEntry>, m: Machine, b: nat, a: nat, entry: IfaceEntry)
    requires WellFormed(stages) && Inv(RunThreads(run, stages), m) && b < |m.log| && a < |m.log|
    requires var t := m.log[b].tid;
      && t.Vlan? && IsThread(stages, t) && t in m.pcs && entry == IfaceOf(stages, t.s, t.i)
      && Chosen(entry.vlans[t.v], true) && m.log[a].tid == Iface(t.s, t.i)
    ensures m.log[a].pc < |IfaceUp(run, entry)| <==> a < b
  {
    var t := m.log[b].tid;
    VlanRelated(run, stages, m, t.s, t.i, t.v, entry);
    assert Passed(RunThreads(run, stages), m, m.log[a]);
    if m.log[a].pc >= |IfaceUp(run, entry)| { DownIsLast(run, t.s, t.i, entry, t.v, m.log[a].pc); }
  }

  /** A VLAN's commands lie between the raising and the lowering of its interface. */
  lemma VlanInsideInterface(run: Settings, stages: seq<StageEntry>, ms: seq<Machine>, i: nat, b: nat)
    requires WellFormed(stages) && Behaviour(RunThreads(run, stages), ms) && i < |ms| && b < |ms[i].log|
    requires var t := ms[i].log[b].tid;
      t.Vlan? && IsThread(stages, t) && Chosen(IfaceOf(stages, t.s, t.i).vlans[t.v], true)
    ensures var t := ms[i].log[b].tid;
      Inside(run, ms[i], IfaceOf(stages, t.s, t.i), Iface(t.s, t.i), b)
  {
    var prog, m := RunThreads(run, stages), ms[i];
    var t := m.log[b].tid;
    var entry := IfaceOf(stages, t.s, t.i);
    var up, iface := IfaceUp(run, entry), Iface(t.s, t.i);
    WellBehaved(run, stages);
    Always(prog, ms, i);
    assert Passed(prog, m, m.log[b]);
    VlanRelated(run, stages, m, t.s, t.i, t.v, entry);
    forall pc: nat, k: nat | pc < |up| && up[pc].Section? && k < |up[pc].commands| ensures Printed(m, iface, pc, k) {
      UpIsFirst(run, stages, m, t.s, t.i, entry, pc, k);
    }
    forall a | 0 <= a < |m.log| && m.log[a].tid == iface ensures m.log[a].pc < |up| <==> a < b {
      IfaceSide(run, stages, m, b, a, entry);
    }
  }
}
