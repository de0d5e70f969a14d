/** Which of the commands of a whole run are executed. */
module PlaybookRuns {
  import opened Common
  import opened PlaybookModel
  import opened PlaybookPlays
  import Commands = PlaybookCommands
  import Trace = PlaybookTrace

  // ----- phases that begin with a fault

  /** Where the last phase of the log begins, and -1 before the first one. */
  function LastPhase(log: seq<Event>): (j: int)
    ensures -1 <= j < |log|
  {
    if log == [] then -1
    else
      var n := |log| - 1;
      if log[n].PhaseStart? then n else LastPhase(log[..n])
  }

  /** The interface is found broken at the beginning of the phase, and the run looks at it. */
  predicate Faulty(run: Settings, j: int) {
    0 <= j && run.ignoreIfaceStateChange && run.execute && run.fault(j + 1)
  }

  /** A command that is executed: the run executes, its number is not excluded, and a play is in no phase that
      began with a fault. */
  predicate MayRun(run: Settings, log: seq<Event>, e: Event) {
    e.Issued? && e.ran ==>
      run.execute && e.id !in run.disabled && (e.command.Play? ==> !Faulty(run, LastPhase(log)))
  }

  predicate Sound(run: Settings, log: seq<Event>) {
    log == [] ||
    var n := |log| - 1;
    Sound(run, log[..n]) && MayRun(run, log[..n], log[n])
  }

  /** What holds of the flag while the plays of a phase are looked at. */
  predicate InPhase(run: Settings, st: State) {
    Sound(run, st.log) && (st.execute ==> run.execute && !Faulty(run, LastPhase(st.log)))
  }

  predicate Outside(run: Settings, st: State) {
    Sound(run, st.log) && (st.execute ==> run.execute)
  }

  lemma Longer(run: Settings, log: seq<Event>, e: Event)
    ensures Sound(run, log + [e]) <==> Sound(run, log) && MayRun(run, log, e)
    ensures LastPhase(log + [e]) == if e.PhaseStart? then |log| else LastPhase(log)
  {
    assert (log + [e])[..|log|] == log;
  }

  lemma ExecInPhase(run: Settings, st: State, command: Command)
    requires InPhase(run, st)
    ensures InPhase(run, Exec(run, st, command))
  {
    var id := st.lastId + 1;
    Longer(run, st.log, Issued(id, command, st.execute && id !in run.disabled));
  }

  lemma ExecOutside(run: Settings, st: State, command: Command)
    requires Outside(run, st) && !command.Play?
    ensures Outside(run, Exec(run, st, command))
  {
    var id := st.lastId + 1;
    Longer(run, st.log, Issued(id, command, st.execute && id !in run.disabled));
  }

  lemma {:induction false} AllInPhase(run: Settings, st: State, commands: seq<Command>)
    requires InPhase(run, st)
    ensures InPhase(run, ExecAll(run, st, commands))
    decreases commands
  {
    if commands != [] {
      ExecInPhase(run, st, commands[0]);
      AllInPhase(run, Exec(run, st, commands[0]), commands[1..]);
    }
  }

  lemma {:induction false} AllOutside(run: Settings, st: State, commands: seq<Command>)
    requires Outside(run, st) && Calm(commands)
    ensures Outside(run, ExecAll(run, st, commands))
    decreases commands
  {
    if commands != [] {
      assert commands[0] in commands && forall c :: c in commands[1..] ==> c in commands;
      ExecOutside(run, st, commands[0]);
      AllOutside(run, Exec(run, st, commands[0]), commands[1..]);
    }
  }

  lemma {:induction false} CheckedInPhase(run: Settings, st: State, commands: seq<Command>, kind: string, e: bool)
    requires InPhase(run, st)
    ensures InPhase(run, ExecChecked(run, st, commands, kind, e).0)
    decreases commands
  {
    if commands != [] {
      var next := Exec(run, st, commands[0]);
      ExecInPhase(run, st, commands[0]);
      if ExecSuccess(run, st) {
        CheckedInPhase(run, next, commands[1..], kind, e);
      } else {
        CheckedInPhase(run, SetExecute(next, false), commands[1..], kind, e && kind != "stage");
      }
    }
  }

  lemma SetInPhase(run: Settings, st: State, cs: CommandSet, conf: Conf)
    requires InPhase(run, st)
    ensures InPhase(run, RunSet(run, st, cs, conf).0)
  {
    var st0 := if run.noPrompt && cs.skipWithoutPrompt then SetExecute(st, false) else st;
    match cs.onFail
    case Disable(kind) => CheckedInPhase(run, st0, SetCommands(cs, conf), kind, true);
    case NoFailMap => AllInPhase(run, st0, SetCommands(cs, conf));
  }

  lemma {:induction false} SetsInPhase(run: Settings, st: State, sets: Phase, conf: Conf, e: bool)
    requires InPhase(run, st)
    ensures InPhase(run, RunSets(run, st, sets, conf, e).0)
    decreases sets
  {
    if sets != [] {
      var (next, e') := RunSet(run, st, sets[0], conf);
      SetInPhase(run, st, sets[0], conf);
      SetsInPhase(run, next, sets[1..], conf, e');
    }
  }

  lemma PhaseOutside(run: Settings, st: State, sets: Phase, number: nat, conf: Conf, e: bool)
    requires Outside(run, st)
    ensures Outside(run, RunPhase(run, st, sets, number, conf, e).0)
  {
    Longer(run, st.log, PhaseStart(number));
    var st0 := StartPhase(run, st, number);
    assert InPhase(run, st0);
    SetsInPhase(run, st0, sets, conf, e);
  }

  lemma {:induction false} PhasesOutside(run: Settings, st: State, phases: seq<Phase>, number: nat, conf: Conf, e: bool)
    requires Outside(run, st)
    ensures Outside(run, RunPhases(run, st, phases, number, conf, e).0)
    decreases phases
  {
    if phases != [] {
      var (next, e') := RunPhase(run, st, phases[0], number, conf, e);
      PhaseOutside(run, st, phases[0], number, conf, e);
      PhasesOutside(run, next, phases[1..], number + 1, conf, e');
    }
  }

  lemma NoteOutside(run: Settings, st: State, e: Event)
    requires Outside(run, st) && !e.Issued?
    ensures Outside(run, Note(st, e))
  {
    Longer(run, st.log, e);
  }

  lemma {:induction false} ActOutside(run: Settings, act: Act, st: State)
    requires CalmAct(act) && Outside(run, st)
    ensures Outside(run, RunAct(run, act, st))
    decreases act
  {
    match act
    case Run(commands) => AllOutside(run, st, commands);
    case Within(up, body, down) =>
      AllOutside(run, st, up);
      ActsOutside(run, body, ExecAll(run, st, up));
      AllOutside(run, RunActs(run, body, ExecAll(run, st, up)), down);
    case Network(conf) =>
      NoteOutside(run, st, Session(conf));
      PhasesOutside(run, Note(st, Session(conf)), Plays(run, conf.scope), 1, conf, true);
    case Complete(source) => NoteOutside(run, st, Completed(source));
  }

  lemma {:induction false} ActsOutside(run: Settings, acts: seq<Act>, st: State)
    requires CalmActs(acts) && Outside(run, st)
    ensures Outside(run, RunActs(run, acts, st))
    decreases acts
  {
    if acts != [] {
      ActOutside(run, acts[0], st);
      ActsOutside(run, acts[1..], RunAct(run, acts[0], st));
    }
  }

  lemma {:induction false} SoundAt(run: Settings, log: seq<Event>, i: nat)
    requires Sound(run, log) && i < |log|
    ensures MayRun(run, log[..i], log[i])
    decreases |log|
  {
    var n := |log| - 1;
    if i < n {
      SoundAt(run, log[..n], i);
      assert log[..n][..i] == log[..i];
    }
  }

  /** A command that a run executes is not excluded, the run is one that executes, and if it is a play, its phase
      did not begin with a fault. */
  lemma WhatRuns(run: Settings, scope: Scope, playbook: seq<StageEntry>, i: nat)
    requires forall s :: s in playbook ==> WellFormedStage(s)
    requires i < |RunPlaybook(run, scope, playbook).log|
    ensures var log := RunPlaybook(run, scope, playbook).log;
      log[i].Issued? && log[i].ran ==>
        && run.execute && log[i].id !in run.disabled
        && (log[i].command.Play? ==> !Faulty(run, LastPhase(log[..i])))
  {
    StagesAreSome(run, playbook);
    StagesCalm(run, scope, StagesRun(run, playbook));
    ActsOutside(run, StagesActs(run, scope, StagesRun(run, playbook)), Start(run));
    SoundAt(run, RunPlaybook(run, scope, playbook).log, i);
  }

  // ----- runs in which nothing goes wrong

  /** The run executes and prompts, excludes no number, every command exits with zero, and no interface breaks or
      the run does not look. */
  ghost predicate NoTrouble(run: Settings) {
    && run.execute && !run.noPrompt && run.disabled == {}
    && (forall id :: run.outcome(id)) && (run.ignoreIfaceStateChange ==> forall j :: !run.fault(j))
  }

  /** The flag is on and every command so far was executed. */
  ghost predicate AllRan(st: State) {
    st.execute && forall i :: 0 <= i < |st.log| ==> st.log[i].Issued? ==> st.log[i].ran
  }

  lemma {:induction false} AllRanAll(run: Settings, st: State, commands: seq<Command>)
    requires NoTrouble(run) && AllRan(st)
    ensures AllRan(ExecAll(run, st, commands))
    decreases commands
  {
    if commands != [] { AllRanAll(run, Exec(run, st, commands[0]), commands[1..]); }
  }

  lemma {:induction false} AllRanChecked(run: Settings, st: State, commands: seq<Command>, kind: string, e: bool)
    requires NoTrouble(run) && AllRan(st)
    ensures AllRan(ExecChecked(run, st, commands, kind, e).0) && ExecChecked(run, st, commands, kind, e).1 == e
    decreases commands
  {
    if commands != [] { AllRanChecked(run, Exec(run, st, commands[0]), commands[1..], kind, e); }
  }

  lemma AllRanSet(run: Settings, st: State, cs: CommandSet, conf: Conf)
    requires NoTrouble(run) && AllRan(st)
    ensures AllRan(RunSet(run, st, cs, conf).0) && RunSet(run, st, cs, conf).1
  {
    match cs.onFail
    case Disable(kind) => AllRanChecked(run, st, SetCommands(cs, conf), kind, true);
    case NoFailMap => AllRanAll(run, st, SetCommands(cs, conf));
  }

  lemma {:induction false} AllRanSets(run: Settings, st: State, sets: Phase, conf: Conf)
    requires NoTrouble(run) && AllRan(st)
    ensures AllRan(RunSets(run, st, sets, conf, true).0) && RunSets(run, st, sets, conf, true).1
    decreases sets
  {
    if sets != [] {
      AllRanSet(run, st, sets[0], conf);
      AllRanSets(run, RunSet(run, st, sets[0], conf).0, sets[1..], conf);
    }
  }

  lemma {:induction false} AllRanPhases(run: Settings, st: State, phases: seq<Phase>, number: nat, conf: Conf)
    requires NoTrouble(run) && AllRan(st)
    ensures AllRan(RunPhases(run, st, phases, number, conf, true).0) && RunPhases(run, st, phases, number, conf, true).1
    decreases phases
  {
    if phases != [] {
      AllRanSets(run, StartPhase(run, st, number), phases[0], conf);
      AllRanPhases(run, RunPhase(run, st, phases[0], number, conf, true).0, phases[1..], number + 1, conf);
    }
  }

  lemma {:induction false} AllRanAct(run: Settings, act: Act, st: State)
    requires NoTrouble(run) && AllRan(st)
    ensures AllRan(RunAct(run, act, st))
    decreases act
  {
    match act
    case Run(commands) => AllRanAll(run, st, commands);
    case Within(up, body, down) =>
      AllRanAll(run, st, up);
      AllRanActs(run, body, ExecAll(run, st, up));
      AllRanAll(run, RunActs(run, body, ExecAll(run, st, up)), down);
    case Network(conf) => AllRanPhases(run, Note(st, Session(conf)), Plays(run, conf.scope), 1, conf);
    case Complete(_) =>
  }

  lemma {:induction false} AllRanActs(run: Settings, acts: seq<Act>, st: State)
    requires NoTrouble(run) && AllRan(st)
    ensures AllRan(RunActs(run, acts, st))
    decreases acts
  {
    if acts != [] {
      AllRanAct(run, acts[0], st);
      AllRanActs(run, acts[1..], RunAct(run, acts[0], st));
    }
  }

  /** When nothing goes wrong, every command is executed. */
  lemma EverythingRuns(run: Settings, scope: Scope, playbook: seq<StageEntry>)
    requires NoTrouble(run) && forall s :: s in playbook ==> WellFormedStage(s)
    ensures AllRan(RunPlaybook(run, scope, playbook))
  {
    StagesAreSome(run, playbook);
    AllRanActs(run, StagesActs(run, scope, StagesRun(run, playbook)), Start(run));
  }
}
