/** What a run's log contains: numbered commands, executed setup and teardown commands, and marks. */
module PlaybookTrace {
  import opened PlaybookModel

  // ----- the commands of a plan, whatever happens when they run

  function PhasesScript(run: Settings, phases: seq<Phase>, number: nat, conf: Conf): seq<Command>
    decreases phases
  {
    if phases == [] then []
    else
      (if PhaseEnabled(run, number) then SetsScript(phases[0], conf) else []) +
      PhasesScript(run, phases[1..], number + 1, conf)
  }

  function SetsScript(sets: Phase, conf: Conf): seq<Command> {
    if sets == [] then [] else SetCommands(sets[0], conf) + SetsScript(sets[1..], conf)
  }

  function ActScript(run: Settings, act: Act): seq<Command>
    decreases act
  {
    match act
    case Run(commands) => commands
    case Within(up, body, down) => up + Script(run, body) + down
    case Network(conf) => PhasesScript(run, Plays(run, conf.scope), 1, conf)
    case Complete(_) => []
  }

  function Script(run: Settings, acts: seq<Act>): seq<Command>
    decreases acts
  {
    if acts == [] then [] else ActScript(run, acts[0]) + Script(run, acts[1..])
  }

  // ----- numbering

  type Numbering = seq<(nat, Command)>

  function Numbered(log: seq<Event>): Numbering {
    if log == [] then []
    else
      var n := |log| - 1;
      Numbered(log[..n]) + if log[n].Issued? then [(log[n].id, log[n].command)] else []
  }

  function From(last: nat, commands: seq<Command>): Numbering {
    seq(|commands|, i requires 0 <= i < |commands| => (last + 1 + i, commands[i]))
  }

  /** `b` is `a` after issuing `commands` under the next numbers. */
  ghost predicate Issues(a: State, b: State, commands: seq<Command>) {
    && b.lastId == a.lastId + |commands|
    && Numbered(b.log) == Numbered(a.log) + From(a.lastId, commands)
  }

  lemma NumberedNote(log: seq<Event>, e: Event)
    ensures Numbered(log + [e]) == Numbered(log) + if e.Issued? then [(e.id, e.command)] else []
  {
    assert (log + [e])[..|log|] == log;
  }

  lemma IssuesNone(a: State, b: State)
    requires b.lastId == a.lastId && (b.log == a.log || exists e: Event :: !e.Issued? && b.log == a.log + [e])
    ensures Issues(a, b, [])
  {
    if b.log != a.log {
      var e: Event :| !e.Issued? && b.log == a.log + [e];
      NumberedNote(a.log, e);
    }
  }

  lemma IssuesThen(a: State, b: State, c: State, x: seq<Command>, y: seq<Command>)
    requires Issues(a, b, x) && Issues(b, c, y)
    ensures Issues(a, c, x + y)
  {
    assert From(a.lastId, x + y) == From(a.lastId, x) + From(b.lastId, y);
  }

  lemma ExecIssues(run: Settings, st: State, command: Command)
    ensures Issues(st, Exec(run, st, command), [command])
  {
    var id := st.lastId + 1;
    NumberedNote(st.log, Issued(id, command, st.execute && id !in run.disabled));
    assert From(st.lastId, [command]) == [(id, command)];
  }

  lemma {:induction false} ExecAllIssues(run: Settings, st: State, commands: seq<Command>)
    ensures Issues(st, ExecAll(run, st, commands), commands)
    decreases commands
  {
    if commands == [] {
      IssuesNone(st, st);
    } else {
      var next := Exec(run, st, commands[0]);
      ExecIssues(run, st, commands[0]);
      ExecAllIssues(run, next, commands[1..]);
      IssuesThen(st, next, ExecAll(run, next, commands[1..]), [commands[0]], commands[1..]);
      assert [commands[0]] + commands[1..] == commands;
    }
  }

  lemma {:induction false} ExecCheckedIssues(run: Settings, st: State, commands: seq<Command>, kind: string, e: bool)
    ensures Issues(st, ExecChecked(run, st, commands, kind, e).0, commands)
    decreases commands
  {
    if commands == [] {
      IssuesNone(st, st);
    } else {
      var ok := ExecSuccess(run, st);
      var next := if ok then Exec(run, st, commands[0]) else SetExecute(Exec(run, st, commands[0]), false);
      var e' := if ok then e else e && kind != "stage";
      ExecIssues(run, st, commands[0]);
      assert Issues(st, next, [commands[0]]);
      ExecCheckedIssues(run, next, commands[1..], kind, e');
      IssuesThen(st, next, ExecChecked(run, next, commands[1..], kind, e').0, [commands[0]], commands[1..]);
      assert [commands[0]] + commands[1..] == commands;
    }
  }

  lemma RunSetIssues(run: Settings, st: State, cs: CommandSet, conf: Conf)
    ensures Issues(st, RunSet(run, st, cs, conf).0, SetCommands(cs, conf))
  {
    var st0 := if run.noPrompt && cs.skipWithoutPrompt then SetExecute(st, false) else st;
    match cs.onFail
    case Disable(kind) => ExecCheckedIssues(run, st0, SetCommands(cs, conf), kind, true);
    case NoFailMap => ExecAllIssues(run, st0, SetCommands(cs, conf));
  }

  lemma {:induction false} RunSetsIssues(run: Settings, st: State, sets: Phase, conf: Conf, e: bool)
    ensures Issues(st, RunSets(run, st, sets, conf, e).0, SetsScript(sets, conf))
    decreases sets
  {
    if sets == [] {
      IssuesNone(st, st);
    } else {
      var (next, e') := RunSet(run, st, sets[0], conf);
      RunSetIssues(run, st, sets[0], conf);
      RunSetsIssues(run, next, sets[1..], conf, e');
      IssuesThen(st, next, RunSets(run, next, sets[1..], conf, e').0, SetCommands(sets[0], conf),
        SetsScript(sets[1..], conf));
    }
  }

  lemma RunPhaseIssues(run: Settings, st: State, sets: Phase, number: nat, conf: Conf, e: bool)
    ensures Issues(st, RunPhase(run, st, sets, number, conf, e).0,
                   if PhaseEnabled(run, number) then SetsScript(sets, conf) else [])
  {
    var st0 := StartPhase(run, st, number);
    IssuesNone(st, st0);
    if PhaseEnabled(run, number) {
      var st1 := RunSets(run, st0, sets, conf, e).0;
      RunSetsIssues(run, st0, sets, conf, e);
      IssuesThen(st, st0, st1, [], SetsScript(sets, conf));
      assert [] + SetsScript(sets, conf) == SetsScript(sets, conf);
    }
  }

  lemma {:induction false} RunPhasesIssues(run: Settings, st: State, phases: seq<Phase>, number: nat, conf: Conf,
                                           e: bool)
    ensures Issues(st, RunPhases(run, st, phases, number, conf, e).0, PhasesScript(run, phases, number, conf))
    decreases phases
  {
    if phases == [] {
      IssuesNone(st, st);
    } else {
      var (next, e') := RunPhase(run, st, phases[0], number, conf, e);
      RunPhaseIssues(run, st, phases[0], number, conf, e);
      RunPhasesIssues(run, next, phases[1..], number + 1, conf, e');
      IssuesThen(st, next, RunPhases(run, next, phases[1..], number + 1, conf, e').0,
        if PhaseEnabled(run, number) then SetsScript(phases[0], conf) else [],
        PhasesScript(run, phases[1..], number + 1, conf));
    }
  }

  lemma RunNetworkIssues(run: Settings, st: State, conf: Conf)
    ensures Issues(st, RunNetwork(run, st, conf), PhasesScript(run, Plays(run, conf.scope), 1, conf))
  {
    var st0 := Note(st, Session(conf));
    var plays := Plays(run, conf.scope);
    IssuesNone(st, st0);
    RunPhasesIssues(run, st0, plays, 1, conf, true);
    IssuesThen(st, st0, RunPhases(run, st0, plays, 1, conf, true).0, [], PhasesScript(run, plays, 1, conf));
    assert [] + PhasesScript(run, plays, 1, conf) == PhasesScript(run, plays, 1, conf);
  }

  lemma {:induction false} RunActIssues(run: Settings, act: Act, st: State)
    ensures Issues(st, RunAct(run, act, st), ActScript(run, act))
    decreases act
  {
    match act
    case Run(commands) => ExecAllIssues(run, st, commands);
    case Within(up, body, down) =>
      var st1 := ExecAll(run, st, up);
      var st2 := RunActs(run, body, st1);
      ExecAllIssues(run, st, up);
      RunActsIssues(run, body, st1);
      ExecAllIssues(run, st2, down);
      IssuesThen(st, st1, st2, up, Script(run, body));
      IssuesThen(st, st2, ExecAll(run, st2, down), up + Script(run, body), down);
    case Network(conf) => RunNetworkIssues(run, st, conf);
    case Complete(source) => IssuesNone(st, RunAct(run, act, st));
  }

  lemma {:induction false} RunActsIssues(run: Settings, acts: seq<Act>, st: State)
    ensures Issues(st, RunActs(run, acts, st), Script(run, acts))
    decreases acts
  {
    if acts == [] {
      IssuesNone(st, st);
    } else {
      var next := RunAct(run, acts[0], st);
      RunActIssues(run, acts[0], st);
      RunActsIssues(run, acts[1..], next);
      IssuesThen(st, next, RunActs(run, acts[1..], next), ActScript(run, acts[0]), Script(run, acts[1..]));
    }
  }

  // ----- two runs of the same plan

  ghost predicate SamePlan(a: Settings, b: Settings) {
    && a.stages == b.stages && a.phases == b.phases && a.captureSeconds == b.captureSeconds
    && a.intraPlays == b.intraPlays && a.interPlays == b.interPlays
  }

  lemma {:induction false} SamePhasesScript(a: Settings, b: Settings, phases: seq<Phase>, number: nat, conf: Conf)
    requires SamePlan(a, b)
    ensures PhasesScript(a, phases, number, conf) == PhasesScript(b, phases, number, conf)
    decreases phases
  {
    if phases != [] { SamePhasesScript(a, b, phases[1..], number + 1, conf); }
  }

  lemma {:induction false} SameActScript(a: Settings, b: Settings, act: Act)
    requires SamePlan(a, b)
    ensures ActScript(a, act) == ActScript(b, act)
    decreases act
  {
    match act
    case Run(_) =>
    case Within(_, body, _) => SameScript(a, b, body);
    case Network(conf) => SamePhasesScript(a, b, Plays(a, conf.scope), 1, conf);
    case Complete(_) =>
  }

  lemma {:induction false} SameScript(a: Settings, b: Settings, acts: seq<Act>)
    requires SamePlan(a, b)
    ensures Script(a, acts) == Script(b, acts)
    decreases acts
  {
    if acts != [] {
      SameActScript(a, b, acts[0]);
      SameScript(a, b, acts[1..]);
    }
  }

  lemma {:induction false} SameStageActs(a: Settings, b: Settings, scope: Scope, stage: nat, ifaces: seq<IfaceEntry>)
    requires SamePlan(a, b) && forall i :: i in ifaces ==> NoEmptyLevel(i)
    ensures StageActs(a, scope, stage, ifaces) == StageActs(b, scope, stage, ifaces)
  {
    if ifaces != [] { SameStageActs(a, b, scope, stage, ifaces[..|ifaces| - 1]); }
  }

  lemma {:induction false} SameStagesActs(a: Settings, b: Settings, scope: Scope, stages: seq<StageEntry>)
    requires SamePlan(a, b) && forall s :: s in stages ==> WellFormedStage(s)
    ensures StagesActs(a, scope, stages) == StagesActs(b, scope, stages)
  {
    if stages != [] {
      assert WellFormedStage(stages[0]);
      SameStageActs(a, b, scope, stages[0].number, stages[0].ifaces);
      SameStagesActs(a, b, scope, stages[1..]);
    }
  }

  lemma {:induction false} ScriptConcat(run: Settings, x: seq<Act>, y: seq<Act>)
    ensures Script(run, x + y) == Script(run, x) + Script(run, y)
  {
    if x == [] {
      assert x + y == y;
    } else {
      assert (x + y)[0] == x[0] && (x + y)[1..] == x[1..] + y;
      ScriptConcat(run, x[1..], y);
    }
  }

  lemma {:induction false} StagesRunPrefix(a: Settings, b: Settings, playbook: seq<StageEntry>)
    requires SamePlan(a, b)
    ensures StagesRun(a, playbook) <= StagesRun(b, playbook) || StagesRun(b, playbook) <= StagesRun(a, playbook)
  {
    if playbook != [] { StagesRunPrefix(a, b, playbook[1..]); }
  }

  lemma {:induction false} ScriptPrefix(run: Settings, scope: Scope, x: seq<StageEntry>, y: seq<StageEntry>)
    requires x <= y && forall s :: s in y ==> WellFormedStage(s)
    ensures forall s :: s in x ==> WellFormedStage(s)
    ensures Script(run, StagesActs(run, scope, x)) <= Script(run, StagesActs(run, scope, y))
  {
    if x != [] {
      assert x[0] == y[0] && WellFormedStage(y[0]);
      ScriptPrefix(run, scope, x[1..], y[1..]);
      ScriptConcat(run, StageActs(run, scope, x[0].number, x[0].ifaces), StagesActs(run, scope, x[1..]));
      ScriptConcat(run, StageActs(run, scope, x[0].number, x[0].ifaces), StagesActs(run, scope, y[1..]));
    }
  }

  lemma PlaybookNumbering(run: Settings, scope: Scope, playbook: seq<StageEntry>)
    requires forall s :: s in playbook ==> WellFormedStage(s)
    ensures forall s :: s in StagesRun(run, playbook) ==> WellFormedStage(s)
    ensures Numbered(RunPlaybook(run, scope, playbook).log) ==
            From(0, Script(run, StagesActs(run, scope, StagesRun(run, playbook))))
  {
    StagesAreSome(run, playbook);
    RunActsIssues(run, StagesActs(run, scope, StagesRun(run, playbook)), Start(run));
  }

  /** The numbers run from one without gaps, and the same plan gives the same command the same number:
      a dry run predicts a real one, up to the stage before which its user quits. */
  lemma SameNumbers(a: Settings, b: Settings, scope: Scope, playbook: seq<StageEntry>)
    requires SamePlan(a, b) && forall s :: s in playbook ==> WellFormedStage(s)
    ensures var x, y := Numbered(RunPlaybook(a, scope, playbook).log), Numbered(RunPlaybook(b, scope, playbook).log);
      && (forall i :: 0 <= i < |x| ==> x[i].0 == i + 1)
      && (x <= y || y <= x)
      && (StagesRun(a, playbook) == StagesRun(b, playbook) ==> x == y)
  {
    PlaybookNumbering(a, scope, playbook);
    PlaybookNumbering(b, scope, playbook);
    var p, q := StagesRun(a, playbook), StagesRun(b, playbook);
    StagesRunPrefix(a, b, playbook);
    SameStagesActs(a, b, scope, p);
    SameStagesActs(a, b, scope, q);
    SameScript(a, b, StagesActs(b, scope, p));
    SameScript(a, b, StagesActs(b, scope, q));
    if p <= q { ScriptPrefix(b, scope, p, q); } else { ScriptPrefix(b, scope, q, p); }
  }

  // ----- setup and teardown commands that were executed

  function NotPlays(commands: seq<Command>): seq<Command> {
    if commands == [] then []
    else
      var n := |commands| - 1;
      NotPlays(commands[..n]) + if commands[n].Play? then [] else [commands[n]]
  }

  function Executed(log: seq<Event>): seq<Command> {
    if log == [] then []
    else
      var n := |log| - 1;
      Executed(log[..n]) +
      if log[n].Issued? && log[n].ran && !log[n].command.Play? then [log[n].command] else []
  }

  /** The setup and teardown commands of an act. */
  function ActSetup(act: Act): seq<Command>
    decreases act
  {
    match act
    case Run(commands) => NotPlays(commands)
    case Within(up, body, down) => NotPlays(up) + Setup(body) + NotPlays(down)
    case Network(_) => []
    case Complete(_) => []
  }

  function Setup(acts: seq<Act>): seq<Command>
    decreases acts
  {
    if acts == [] then [] else ActSetup(acts[0]) + Setup(acts[1..])
  }

  // ----- sessions and completions

  function Marks(log: seq<Event>): seq<Event> {
    if log == [] then []
    else
      var n := |log| - 1;
      Marks(log[..n]) + if log[n].Session? || log[n].Completed? then [log[n]] else []
  }

  function ActMarks(execute: bool, act: Act): seq<Event>
    decreases act
  {
    match act
    case Run(_) => []
    case Within(_, body, _) => ActsMarks(execute, body)
    case Network(conf) => [Session(conf)]
    case Complete(source) => if execute then [Completed(source)] else []
  }

  function ActsMarks(execute: bool, acts: seq<Act>): seq<Event>
    decreases acts
  {
    if acts == [] then [] else ActMarks(execute, acts[0]) + ActsMarks(execute, acts[1..])
  }

  /** `b` is `a` after executing the setup commands `cs` (if none is excluded), then marking `ms`. */
  ghost predicate Adds(run: Settings, a: State, b: State, cs: seq<Command>, ms: seq<Event>) {
    && (run.disabled == {} ==> Executed(b.log) == Executed(a.log) + cs)
    && Marks(b.log) == Marks(a.log) + ms
  }

  lemma AddsNote(run: Settings, a: State, b: State, e: Event)
    requires b.log == a.log + [e]
    ensures Adds(run, a, b, if e.Issued? && e.ran && !e.command.Play? then [e.command] else [],
                       if e.Session? || e.Completed? then [e] else [])
  {
    assert (a.log + [e])[..|a.log|] == a.log;
  }

  lemma AddsThen(run: Settings, a: State, b: State, c: State, x: seq<Command>, y: seq<Command>, m: seq<Event>,
                 n: seq<Event>)
    requires Adds(run, a, b, x, m) && Adds(run, b, c, y, n)
    ensures Adds(run, a, c, x + y, m + n)
  {
  }

  lemma {:induction false} ExecAllAdds(run: Settings, st: State, commands: seq<Command>)
    ensures ExecAll(run, st, commands).execute == st.execute
    ensures Adds(run, st, ExecAll(run, st, commands), if st.execute then NotPlays(commands) else [], [])
    decreases commands
  {
    if commands == [] {
    } else {
      var next := Exec(run, st, commands[0]);
      var more := if st.execute && !commands[0].Play? then [commands[0]] else [];
      AddsNote(run, st, next, Issued(next.lastId, commands[0], st.execute && next.lastId !in run.disabled));
      assert commands[0] in commands;
      assert Adds(run, st, next, more, []);
      ExecAllAdds(run, next, commands[1..]);
      AddsThen(run, st, next, ExecAll(run, next, commands[1..]), more,
        if st.execute then NotPlays(commands[1..]) else [], [], []);
      NotPlaysFirst(commands);
    }
  }

  lemma {:induction false} NotPlaysFirst(commands: seq<Command>)
    requires commands != []
    ensures NotPlays(commands) == (if commands[0].Play? then [] else [commands[0]]) + NotPlays(commands[1..])
  {
    var n := |commands| - 1;
    if n > 0 {
      NotPlaysFirst(commands[..n]);
      assert commands[..n][1..] == commands[1..][..n - 1];
    }
  }

  lemma {:induction false} ExecCheckedAdds(run: Settings, st: State, commands: seq<Command>, kind: string, e: bool)
    requires forall c :: c in commands ==> c.Play?
    ensures Adds(run, st, ExecChecked(run, st, commands, kind, e).0, [], [])
    decreases commands
  {
    if commands != [] {
      var ok := ExecSuccess(run, st);
      var next := if ok then Exec(run, st, commands[0]) else SetExecute(Exec(run, st, commands[0]), false);
      var e' := if ok then e else e && kind != "stage";
      AddsNote(run, st, next, Issued(next.lastId, commands[0], st.execute && next.lastId !in run.disabled));
      ExecCheckedAdds(run, next, commands[1..], kind, e');
      AddsThen(run, st, next, ExecChecked(run, next, commands[1..], kind, e').0, [], [], [], []);
    }
  }

  lemma {:induction false} NoNotPlays(commands: seq<Command>)
    requires forall c :: c in commands ==> c.Play?
    ensures NotPlays(commands) == []
  {
    if commands != [] { NoNotPlays(commands[..|commands| - 1]); }
  }

  lemma RunSetAdds(run: Settings, st: State, cs: CommandSet, conf: Conf)
    ensures Adds(run, st, RunSet(run, st, cs, conf).0, [], [])
  {
    var st0 := if run.noPrompt && cs.skipWithoutPrompt then SetExecute(st, false) else st;
    NoNotPlays(SetCommands(cs, conf));
    match cs.onFail
    case Disable(kind) => ExecCheckedAdds(run, st0, SetCommands(cs, conf), kind, true);
    case NoFailMap => ExecAllAdds(run, st0, SetCommands(cs, conf));
  }

  lemma {:induction false} RunSetsAdds(run: Settings, st: State, sets: Phase, conf: Conf, e: bool)
    ensures Adds(run, st, RunSets(run, st, sets, conf, e).0, [], [])
    decreases sets
  {
    if sets != [] {
      var (next, e') := RunSet(run, st, sets[0], conf);
      RunSetAdds(run, st, sets[0], conf);
      RunSetsAdds(run, next, sets[1..], conf, e');
      AddsThen(run, st, next, RunSets(run, next, sets[1..], conf, e').0, [], [], [], []);
    }
  }

  lemma {:induction false} RunPhasesAdds(run: Settings, st: State, phases: seq<Phase>, number: nat, conf: Conf, e: bool)
    ensures Adds(run, st, RunPhases(run, st, phases, number, conf, e).0, [], [])
    decreases phases
  {
    if phases != [] {
      var st0 := StartPhase(run, st, number);
      AddsNote(run, st, st0, PhaseStart(number));
      if PhaseEnabled(run, number) { RunSetsAdds(run, st0, phases[0], conf, e); }
      var (next, e') := RunPhase(run, st, phases[0], number, conf, e);
      assert Adds(run, st0, next, [], []);
      AddsThen(run, st, st0, next, [], [], [], []);
      RunPhasesAdds(run, next, phases[1..], number + 1, conf, e');
      AddsThen(run, st, next, RunPhases(run, next, phases[1..], number + 1, conf, e').0, [], [], [], []);
    }
  }

  lemma RunNetworkAdds(run: Settings, st: State, conf: Conf)
    ensures Adds(run, st, RunNetwork(run, st, conf), [], [Session(conf)])
  {
    var st0 := Note(st, Session(conf));
    AddsNote(run, st, st0, Session(conf));
    RunPhasesAdds(run, st0, Plays(run, conf.scope), 1, conf, true);
    AddsThen(run, st, st0, RunNetwork(run, st, conf), [], [], [Session(conf)], []);
  }

  lemma {:induction false} RunActAdds(run: Settings, act: Act, st: State)
    requires st.execute == run.execute
    ensures RunAct(run, act, st).execute == run.execute
    ensures Adds(run, st, RunAct(run, act, st), if run.execute then ActSetup(act) else [], ActMarks(run.execute, act))
    decreases act
  {
    match act
    case Run(commands) => ExecAllAdds(run, st, commands);
    case Within(up, body, down) =>
      var st1 := ExecAll(run, st, up);
      var st2 := RunActs(run, body, st1);
      ExecAllAdds(run, st, up);
      RunActsAdds(run, body, st1);
      ExecAllAdds(run, st2, down);
      var x := if run.execute then NotPlays(up) else [];
      var y := if run.execute then Setup(body) else [];
      var m := ActsMarks(run.execute, body);
      AddsThen(run, st, st1, st2, x, y, [], m);
      AddsThen(run, st, st2, ExecAll(run, st2, down), x + y, if run.execute then NotPlays(down) else [], [] + m, []);
      assert [] + m + [] == m;
    case Network(conf) => RunNetworkAdds(run, st, conf);
    case Complete(source) => if run.execute { AddsNote(run, st, RunAct(run, act, st), Completed(source)); }
  }

  /** Outside the plays the flag is what the run was started with, so every setup and teardown command
      is executed in a run that executes and excludes none, whatever fails in the plays. */
  lemma {:induction false} RunActsAdds(run: Settings, acts: seq<Act>, st: State)
    requires st.execute == run.execute
    ensures RunActs(run, acts, st).execute == run.execute
    ensures Adds(run, st, RunActs(run, acts, st), if run.execute then Setup(acts) else [], ActsMarks(run.execute, acts))
    decreases acts
  {
    if acts != [] {
      var next := RunAct(run, acts[0], st);
      RunActAdds(run, acts[0], st);
      RunActsAdds(run, acts[1..], next);
      AddsThen(run, st, next, RunActs(run, acts[1..], next),
        if run.execute then ActSetup(acts[0]) else [], if run.execute then Setup(acts[1..]) else [],
        ActMarks(run.execute, acts[0]), ActsMarks(run.execute, acts[1..]));
    }
  }

  /** What a whole run executes outside the plays, and what it marks. */
  lemma PlaybookAdds(run: Settings, scope: Scope, playbook: seq<StageEntry>)
    requires forall s :: s in playbook ==> WellFormedStage(s)
    ensures forall s :: s in StagesRun(run, playbook) ==> WellFormedStage(s)
    ensures var acts, log := StagesActs(run, scope, StagesRun(run, playbook)), RunPlaybook(run, scope, playbook).log;
      && Marks(log) == ActsMarks(run.execute, acts)
      && (run.disabled == {} ==> Executed(log) == if run.execute then Setup(acts) else [])
  {
    StagesAreSome(run, playbook);
    var acts := StagesActs(run, scope, StagesRun(run, playbook));
    RunActsAdds(run, acts, Start(run));
    assert [] + ActsMarks(run.execute, acts) == ActsMarks(run.execute, acts);
    assert [] + Setup(acts) == Setup(acts);
  }
}
