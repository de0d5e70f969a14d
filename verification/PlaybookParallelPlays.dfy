/** Which plays every interleaving of an intra-network run issues, and how command sets lie in its log. */
module PlaybookParallelPlays {
  import opened Common
  import opened PlaybookModel
  import opened PlaybookThreads
  import opened PlaybookStageThreads
  import opened PlaybookThreadSums
  import opened PlaybookPlays
  import Commands = PlaybookCommands
  import Interleavings = PlaybookInterleavings
  import Sets = PlaybookSets
  import Trace = PlaybookTrace

  ghost predicate LoggedIn(log: seq<Entry>, command: Command) {
    exists j :: 0 <= j < |log| && log[j].command == command
  }

  // ----- what is logged is in the plan

  lemma {:induction false} SectionHas(steps: seq<Step>, pc: nat, c: Command)
    requires pc < |steps| && steps[pc].Section? && c in steps[pc].commands
    ensures c in PlaybookThreads.Commands(steps)
    decreases |steps|
  {
    var n := |steps| - 1;
    if pc < n { SectionHas(steps[..n], pc, c); }
  }

  lemma {:induction false} SumHas(of: Tid -> seq<Command>, tids: seq<Tid>, t: Tid, c: Command)
    requires t in tids && c in of(t)
    ensures c in Sum(of, tids)
    decreases |tids|
  {
    var n := |tids| - 1;
    if tids[n] == t {
      assert c in multiset(of(t));
    } else {
      assert tids == tids[..n] + [tids[n]];
      SumHas(of, tids[..n], t, c);
    }
  }

  lemma WholeScript(run: Settings, stages: seq<StageEntry>)
    requires WellFormed(stages)
    ensures Sum(Work(run, stages), AllTids(stages, |stages|)) ==
            multiset(Trace.Script(run, StagesActs(run, Intra, stages)))
  {
    StagesIssue(run, stages, |stages|);
    assert stages[..|stages|] == stages;
  }

  lemma EntryScripted(run: Settings, stages: seq<StageEntry>, m: Machine, e: Entry)
    requires WellFormed(stages) && Passed(RunThreads(run, stages), m, e)
    ensures e.command in Trace.Script(run, StagesActs(run, Intra, stages))
  {
    Interleavings.EntryThread(run, stages, m, e);
    SectionHas(RunThread(run, stages, e.tid), e.pc, e.command);
    AllTidsAre(stages, |stages|);
    OfStagesIsThread(stages, e.tid);
    SumHas(Work(run, stages), AllTids(stages, |stages|), e.tid, e.command);
    WholeScript(run, stages);
    InBag(Trace.Script(run, StagesActs(run, Intra, stages)), e.command);
  }

  lemma InBag<T>(s: seq<T>, x: T)
    ensures x in multiset(s) <==> x in s
  {
  }

  lemma {:induction false} LoggedHas(log: seq<Entry>, c: Command)
    ensures c in Logged(log) <==> LoggedIn(log, c)
    decreases |log|
  {
    if log != [] {
      var n := |log| - 1;
      LoggedHas(log[..n], c);
      if LoggedIn(log[..n], c) {
        var j :| 0 <= j < n && log[..n][j].command == c;
        assert log[j].command == c;
      }
      if LoggedIn(log, c) && log[n].command != c {
        var j :| 0 <= j < |log| && log[j].command == c;
        assert log[..n][j].command == c;
      }
    }
  }

  lemma FinishedLogs(run: Settings, stages: seq<StageEntry>, ms: seq<Machine>, i: nat, c: Command)
    requires WellFormed(stages) && Behaviour(RunThreads(run, stages), ms) && i < |ms|
    requires Finished(RunThreads(run, stages), ms[i], Main)
    requires c in Trace.Script(run, StagesActs(run, Intra, stages))
    ensures LoggedIn(ms[i].log, c)
  {
    Interleavings.SameCommandsAsSerial(run, stages, ms, i, |stages|);
    assert stages[..|stages|] == stages;
    InBag(Trace.Script(run, StagesActs(run, Intra, stages)), c);
    InBag(Logged(ms[i].log), c);
    LoggedHas(ms[i].log, c);
  }

  /** At any point of any interleaving a template that was issued for a configuration is planned for the
      family of its source, which is in a stage that goes; and a finished run has issued all that are. */
  lemma PlaysOfParallelRun(run: Settings, playbook: seq<StageEntry>, ms: seq<Machine>, i: nat, t: string, c: Conf)
    requires WellFormed(playbook) && WellFormed(StagesRun(run, playbook))
    requires Behaviour(RunThreads(run, StagesRun(run, playbook)), ms) && i < |ms|
    ensures LoggedIn(ms[i].log, Play(t, c)) ==> Commands.Played(run, Intra, playbook, t, c)
    ensures Finished(RunThreads(run, StagesRun(run, playbook)), ms[i], Main) ==>
      (Commands.Played(run, Intra, playbook, t, c) ==> LoggedIn(ms[i].log, Play(t, c)))
  {
    var stages := StagesRun(run, playbook);
    Commands.ScriptPlays(run, Intra, playbook, t, c);
    if LoggedIn(ms[i].log, Play(t, c)) {
      var j :| 0 <= j < |ms[i].log| && ms[i].log[j].command == Play(t, c);
      WellBehaved(run, stages);
      Always(RunThreads(run, stages), ms, i);
      assert Passed(RunThreads(run, stages), ms[i], ms[i].log[j]);
      EntryScripted(run, stages, ms[i], ms[i].log[j]);
    }
    if Finished(RunThreads(run, stages), ms[i], Main) && Commands.Played(run, Intra, playbook, t, c) {
      FinishedLogs(run, stages, ms, i, Play(t, c));
    }
  }

  // ----- a command set's templates are together and in order

  /** The commands are the templates of the set: those for both families, then those of the source's own. */
  predicate AreTemplates(commands: seq<Command>, cs: CommandSet, conf: Conf) {
    var own := if conf.family == "4" then cs.ipv4 else cs.ipv6;
    && |commands| == |cs.always| + |own|
    && (forall k :: 0 <= k < |cs.always| ==> commands[k] == Play(cs.always[k], conf))
    && (forall k :: 0 <= k < |own| ==> commands[|cs.always| + k] == Play(own[k], conf))
  }

  lemma SetsTemplates(cs: CommandSet, conf: Conf)
    ensures AreTemplates(SetCommands(cs, conf), cs, conf)
  {
    Sets.TemplatesAre(cs.always, conf);
    Sets.TemplatesAre(if conf.family == "4" then cs.ipv4 else cs.ipv6, conf);
  }

  /** The set is in the `k`-th of the phases that begin with the given number, and the phase is enabled. */
  predicate SetIn(run: Settings, phases: seq<Phase>, number: nat, k: nat, cs: CommandSet) {
    k < |phases| && (run.phases == {} || number + k in run.phases) && cs in phases[k]
  }

  ghost predicate SetAmong(run: Settings, phases: seq<Phase>, number: nat, commands: seq<Command>, conf: Conf) {
    exists k: nat, cs :: SetIn(run, phases, number, k, cs) && AreTemplates(commands, cs, conf)
  }

  /** A section has no plays, or is of one planned command set. */
  ghost predicate OfOneSet(run: Settings, step: Step) {
    step.Section? ==>
      (Calm(step.commands) || exists conf: Conf :: SetAmong(run, Plays(run, conf.scope), 1, step.commands, conf))
  }

  ghost predicate AllOfOneSet(run: Settings, steps: seq<Step>) {
    forall j :: 0 <= j < |steps| ==> OfOneSet(run, steps[j])
  }

  ghost predicate AllAmong(run: Settings, phases: seq<Phase>, number: nat, steps: seq<Step>, conf: Conf) {
    forall j :: 0 <= j < |steps| ==> steps[j].Section? && SetAmong(run, phases, number, steps[j].commands, conf)
  }

  lemma BlockOfOneSet(run: Settings, commands: seq<Command>)
    requires Calm(commands)
    ensures AllOfOneSet(run, Block(commands))
  {
  }

  lemma SetAmongFirst(run: Settings, phases: seq<Phase>, number: nat, cs: CommandSet, conf: Conf)
    requires SetIn(run, phases, number, 0, cs)
    ensures SetAmong(run, phases, number, SetCommands(cs, conf), conf)
  {
    SetsTemplates(cs, conf);
  }

  lemma {:induction false} SetsAmongFirst(run: Settings, phases: seq<Phase>, number: nat, sets: Phase, conf: Conf)
    requires forall cs :: cs in sets ==> SetIn(run, phases, number, 0, cs)
    ensures AllAmong(run, phases, number, SetsSteps(sets, conf), conf)
    decreases sets
  {
    if sets != [] {
      assert sets[0] in sets && forall cs :: cs in sets[1..] ==> cs in sets;
      SetAmongFirst(run, phases, number, sets[0], conf);
      SetsAmongFirst(run, phases, number, sets[1..], conf);
    }
  }

  lemma AmongLater(run: Settings, phases: seq<Phase>, number: nat, commands: seq<Command>, conf: Conf)
    requires phases != [] && SetAmong(run, phases[1..], number + 1, commands, conf)
    ensures SetAmong(run, phases, number, commands, conf)
  {
    var k: nat, cs :| SetIn(run, phases[1..], number + 1, k, cs) && AreTemplates(commands, cs, conf);
    assert SetIn(run, phases, number, k + 1, cs);
  }

  lemma {:induction false} PhasesAmong(run: Settings, phases: seq<Phase>, number: nat, conf: Conf)
    ensures AllAmong(run, phases, number, PhasesSteps(run, phases, number, conf), conf)
    decreases phases
  {
    if phases != [] {
      var rest := PhasesSteps(run, phases[1..], number + 1, conf);
      if PhaseEnabled(run, number) { SetsAmongFirst(run, phases, number, phases[0], conf); }
      PhasesAmong(run, phases[1..], number + 1, conf);
      forall j | 0 <= j < |rest| ensures SetAmong(run, phases, number, rest[j].commands, conf) {
        AmongLater(run, phases, number, rest[j].commands, conf);
      }
    }
  }

  lemma {:induction false} ActOfOneSet(run: Settings, act: Act)
    requires CalmAct(act)
    ensures AllOfOneSet(run, ActSteps(run, act))
    decreases act
  {
    match act
    case Run(commands) => BlockOfOneSet(run, commands);
    case Within(up, body, down) =>
      BlockOfOneSet(run, up);
      StepsOfOneSet(run, body);
      BlockOfOneSet(run, down);
    case Network(conf) => PhasesAmong(run, Plays(run, conf.scope), 1, conf);
    case Complete(_) =>
  }

  lemma {:induction false} StepsOfOneSet(run: Settings, acts: seq<Act>)
    requires CalmActs(acts)
    ensures AllOfOneSet(run, Steps(run, acts))
    decreases acts
  {
    if acts != [] {
      ActOfOneSet(run, acts[0]);
      StepsOfOneSet(run, acts[1..]);
    }
  }

  lemma UpOfOneSet(run: Settings, entry: IfaceEntry)
    requires NoEmptyLevel(entry)
    ensures AllOfOneSet(run, IfaceUp(run, entry)) && AllOfOneSet(run, IfaceDown(entry))
  {
    var mac := entry.vlans[0].macs[0].mac;
    BlockOfOneSet(run, MacUp(entry.name, mac));
    BlockOfOneSet(run, MacDown(entry.name, mac));
    BlockOfOneSet(run, RaiseLink(entry.name));
    BlockOfOneSet(run, LowerLink(entry.name));
    CaptureCalm(entry.name, run.captureSeconds);
    StepsOfOneSet(run, CaptureActs(entry.name, run.captureSeconds));
  }

  lemma IfaceOfOneSet(run: Settings, s: nat, i: nat, entry: IfaceEntry, pc: nat)
    requires NoEmptyLevel(entry) && pc < |IfaceSteps(run, s, i, entry)|
    ensures OfOneSet(run, IfaceSteps(run, s, i, entry)[pc])
  {
    IfaceParts(run, s, i, entry, pc);
    UpOfOneSet(run, entry);
  }

  lemma ThreadOfOneSet(run: Settings, stages: seq<StageEntry>, t: Tid, pc: nat)
    requires WellFormed(stages) && pc < |RunThread(run, stages, t)|
    ensures OfOneSet(run, RunThread(run, stages, t)[pc])
  {
    match t
    case Main => var _, _ := MainRelates(stages, pc);
    case Iface(s, i) => IfaceOfOneSet(run, s, i, IfaceOf(stages, s, i), pc);
    case Vlan(s, i, v) =>
      var entry := stages[s].ifaces[i];
      VlanCalm(Intra, stages[s].number, entry.name, entry.vlans[v]);
      CalmOne(VlanActsOf(stages, s, i, v));
      ActOfOneSet(run, VlanActsOf(stages, s, i, v));
  }

  /** The entry and those before it are, in the same thread and under consecutive numbers, the templates of
      the set from its first on. */
  predicate EndsTemplates(log: seq<Entry>, j: nat, commands: seq<Command>)
    requires j < |log|
  {
    && log[j].k < |commands| && log[j].k <= j
    && var first := j - log[j].k;
    forall y :: first <= y <= j ==>
      log[y].tid == log[j].tid && log[y].command == commands[y - first] && log[j].id == log[y].id + (j - y)
  }

  lemma SectionUpTo(prog: Program, m: Machine, j: nat)
    requires Counted(prog, m) && AllPassed(prog, m) && Unbroken(m) && j < |m.log|
    ensures SectionAt(prog, m.log[j].tid, m.log[j].pc)
    ensures EndsTemplates(m.log, j, prog(m.log[j].tid)[m.log[j].pc].commands)
  {
    PrefixTogether(prog, m, j);
    TogetherEnds(m, j, prog(m.log[j].tid)[m.log[j].pc].commands);
  }

  lemma TogetherEnds(m: Machine, j: nat, commands: seq<Command>)
    requires j < |m.log| && m.log[j].k < |commands| && m.log[j].k <= j
    requires Together(m, m.log[j].tid, m.log[j].pc, commands[..m.log[j].k + 1], j - m.log[j].k)
    ensures EndsTemplates(m.log, j, commands)
  {
    var k := m.log[j].k;
    var a := j - k;
    var part := commands[..k + 1];
    assert part[k] == commands[k] && m.log[a + k].id == a + k + 1;
    forall y | a <= y <= j
      ensures m.log[y].tid == m.log[j].tid && m.log[y].command == commands[y - a] &&
        m.log[j].id == m.log[y].id + (j - y)
    {
      assert part[y - a] == commands[y - a] && m.log[a + (y - a)].id == y + 1;
    }
  }

  /** In every interleaving a play that is issued is one of the templates of a command set in an enabled phase,
      for the family of the configuration; and all templates of the set before it were issued just before it,
      in order, by the same thread. */
  lemma SetsStayTogether(run: Settings, stages: seq<StageEntry>, ms: seq<Machine>, i: nat, j: nat)
    returns (commands: seq<Command>, k: nat, cs: CommandSet, conf: Conf)
    requires WellFormed(stages) && Behaviour(RunThreads(run, stages), ms) && i < |ms|
    requires j < |ms[i].log| && ms[i].log[j].command.Play?
    ensures AreTemplates(commands, cs, conf) && EndsTemplates(ms[i].log, j, commands)
    ensures SetIn(run, if conf.scope == Intra then run.intraPlays else run.interPlays, 1, k, cs)
  {
    var prog, m := RunThreads(run, stages), ms[i];
    WellBehaved(run, stages);
    Always(prog, ms, i);
    SectionUpTo(prog, m, j);
    var e := m.log[j];
    commands := prog(e.tid)[e.pc].commands;
    ThreadOfOneSet(run, stages, e.tid, e.pc);
    assert e.command == commands[e.k];
    conf :| SetAmong(run, Plays(run, conf.scope), 1, commands, conf);
    k, cs :| SetIn(run, Plays(run, conf.scope), 1, k, cs) && AreTemplates(commands, cs, conf);
  }
}
