/** How far a failure that disables the stage reaches. The flag it clears is set again by the next
    command set, so it does not last until the end of the stage. */
module PlaybookFailures {
  import opened PlaybookModel

  /** From `a` to `b` commands were at most numbered. */
  ghost predicate NothingRan(a: State, b: State) {
    a.log <= b.log && forall i :: |a.log| <= i < |b.log| ==> !(b.log[i].Issued? && b.log[i].ran)
  }

  /** A phase in which some command set is looked at. */
  predicate Active(run: Settings, number: nat, sets: Phase) {
    PhaseEnabled(run, number) && sets != []
  }

  lemma NothingRanTrans(a: State, b: State, c: State)
    requires NothingRan(a, b) && NothingRan(b, c)
    ensures NothingRan(a, c)
  {
    forall i | |a.log| <= i < |c.log| ensures !(c.log[i].Issued? && c.log[i].ran) {
      if i < |b.log| { assert c.log[i] == b.log[i]; }
    }
  }

  lemma {:induction false} OffAll(run: Settings, st: State, commands: seq<Command>)
    requires !st.execute
    ensures NothingRan(st, ExecAll(run, st, commands)) && !ExecAll(run, st, commands).execute
    decreases commands
  {
    if commands != [] {
      OffAll(run, Exec(run, st, commands[0]), commands[1..]);
      NothingRanTrans(st, Exec(run, st, commands[0]), ExecAll(run, st, commands));
    }
  }

  lemma {:induction false} OffChecked(run: Settings, st: State, commands: seq<Command>, kind: string, e: bool)
    requires !st.execute
    ensures var (next, e') := ExecChecked(run, st, commands, kind, e); NothingRan(st, next) && !next.execute && e' == e
    decreases commands
  {
    if commands != [] {
      OffChecked(run, Exec(run, st, commands[0]), commands[1..], kind, e);
      NothingRanTrans(st, Exec(run, st, commands[0]), ExecChecked(run, st, commands, kind, e).0);
    }
  }

  /** Skipped commands are successes: a set entered with the flag off reports the stage as enabled. */
  lemma OffSet(run: Settings, st: State, cs: CommandSet, conf: Conf)
    requires !st.execute
    ensures var (next, e) := RunSet(run, st, cs, conf); NothingRan(st, next) && !next.execute && e
  {
    assert SetExecute(st, false) == st;
    match cs.onFail
    case Disable(kind) => OffChecked(run, st, SetCommands(cs, conf), kind, true);
    case NoFailMap => OffAll(run, st, SetCommands(cs, conf));
  }

  lemma {:induction false} OffSets(run: Settings, st: State, sets: Phase, conf: Conf, e: bool)
    requires !st.execute
    ensures var (next, e') := RunSets(run, st, sets, conf, e);
      NothingRan(st, next) && !next.execute && e' == if sets == [] then e else true
    decreases sets
  {
    if sets != [] {
      var (next, e1) := RunSet(run, st, sets[0], conf);
      OffSet(run, st, sets[0], conf);
      OffSets(run, next, sets[1..], conf, e1);
      NothingRanTrans(st, next, RunSets(run, st, sets, conf, e).0);
    }
  }

  lemma OffPhase(run: Settings, st: State, sets: Phase, number: nat, conf: Conf, e: bool)
    requires !st.execute
    ensures var (next, e') := RunPhase(run, st, sets, number, conf, e);
      NothingRan(st, next) && e' == (e || Active(run, number, sets)) && next.execute == (run.execute && e')
  {
    var st0 := StartPhase(run, st, number);
    if PhaseEnabled(run, number) {
      OffSets(run, st0, sets, conf, e);
      NothingRanTrans(st, st0, RunSets(run, st0, sets, conf, e).0);
    }
  }

  lemma {:induction false} RunPhasesSplit(run: Settings, st: State, phases: seq<Phase>, k: nat, number: nat,
                                          conf: Conf, e: bool)
    requires k <= |phases|
    ensures var (mid, e') := RunPhases(run, st, phases[..k], number, conf, e);
      RunPhases(run, st, phases, number, conf, e) == RunPhases(run, mid, phases[k..], number + k, conf, e')
    decreases k
  {
    if k > 0 {
      var (next, e1) := RunPhase(run, st, phases[0], number, conf, e);
      RunPhasesSplit(run, next, phases[1..], k - 1, number + 1, conf, e1);
      assert phases[..k][1..] == phases[1..][..k - 1] && phases[1..][k - 1..] == phases[k..];
    } else {
      assert phases[k..] == phases;
    }
  }

  lemma {:induction false} OffPhases(run: Settings, st: State, phases: seq<Phase>, number: nat, conf: Conf)
    requires !st.execute && forall j :: 0 <= j < |phases| ==> !Active(run, number + j, phases[j])
    ensures var (next, e) := RunPhases(run, st, phases, number, conf, false);
      NothingRan(st, next) && !next.execute && !e
    decreases phases
  {
    if phases != [] {
      var (next, e1) := RunPhase(run, st, phases[0], number, conf, false);
      assert !Active(run, number + 0, phases[0]);
      OffPhase(run, st, phases[0], number, conf, false);
      forall j | 0 <= j < |phases[1..]| ensures !Active(run, number + 1 + j, phases[1..][j]) {
        assert !Active(run, number + (j + 1), phases[j + 1]);
      }
      OffPhases(run, next, phases[1..], number + 1, conf);
      NothingRanTrans(st, next, RunPhases(run, st, phases, number, conf, false).0);
    }
  }

  /** The plays up to and with phase `k` are those up to it, and then the phase. */
  lemma OnePhaseMore(run: Settings, st: State, phases: seq<Phase>, k: nat, number: nat, conf: Conf, e: bool)
    requires k < |phases|
    ensures var (before, e') := RunPhases(run, st, phases[..k], number, conf, e);
      RunPhases(run, st, phases[..k + 1], number, conf, e) == RunPhase(run, before, phases[k], number + k, conf, e')
  {
    var (before, e') := RunPhases(run, st, phases[..k], number, conf, e);
    RunPhasesSplit(run, st, phases[..k + 1], k, number, conf, e);
    assert phases[..k + 1][..k] == phases[..k] && phases[..k + 1][k..] == [phases[k]];
    OnlyPhase(run, before, phases[k], number + k, conf, e');
  }

  lemma OnlyPhase(run: Settings, st: State, phase: Phase, number: nat, conf: Conf, e: bool)
    ensures RunPhases(run, st, [phase], number, conf, e) == RunPhase(run, st, phase, number, conf, e)
  {
    var (next, e') := RunPhase(run, st, phase, number, conf, e);
    assert [phase][1..] == [];
    assert RunPhases(run, next, [], number + 1, conf, e') == (next, e');
  }

  lemma SkippedPhases(run: Settings, st: State, phases: seq<Phase>, k: nat, number: nat, conf: Conf)
    requires !st.execute && k < |phases| && Active(run, number + k, phases[k])
    requires forall j :: 0 <= j < k ==> !Active(run, number + j, phases[j])
    ensures var (mid, e) := RunPhases(run, st, phases[..k + 1], number, conf, false);
      NothingRan(st, mid) && mid.execute == run.execute && e
  {
    var quiet := RunPhases(run, st, phases[..k], number, conf, false).0;
    OffPhases(run, st, phases[..k], number, conf);
    OnePhaseMore(run, st, phases, k, number, conf, false);
    OffPhase(run, quiet, phases[k], number + k, conf, false);
    NothingRanTrans(st, quiet, RunPhases(run, st, phases[..k + 1], number, conf, false).0);
  }

  /** After a phase that ends with the stage disabled, nothing runs up to the end of the next active
      phase; from there on the plays go on as if nothing had failed. */
  lemma StageFailureSkipsOnePhase(run: Settings, st: State, phases: seq<Phase>, k: nat, number: nat, conf: Conf)
    requires !st.execute && k < |phases| && Active(run, number + k, phases[k])
    requires forall j :: 0 <= j < k ==> !Active(run, number + j, phases[j])
    ensures var mid := RunPhases(run, st, phases[..k + 1], number, conf, false).0;
      && NothingRan(st, mid) && mid.execute == run.execute
      && RunPhases(run, st, phases, number, conf, false) ==
         RunPhases(run, mid, phases[k + 1..], number + k + 1, conf, true)
  {
    SkippedPhases(run, st, phases, k, number, conf);
    RunPhasesSplit(run, st, phases, k + 1, number, conf, false);
  }

  /** Within a phase the last command set decides alone whether the stage stays enabled. */
  lemma {:induction false} LastSetDecides(run: Settings, st: State, sets: Phase, conf: Conf, e: bool)
    requires sets != []
    ensures var n := |sets| - 1;
      RunSets(run, st, sets, conf, e) == RunSet(run, RunSets(run, st, sets[..n], conf, e).0, sets[n], conf)
    decreases sets
  {
    var n := |sets| - 1;
    var (next, e1) := RunSet(run, st, sets[0], conf);
    if n == 0 {
      assert sets[1..] == [] && sets[..0] == [];
    } else {
      LastSetDecides(run, next, sets[1..], conf, e1);
      assert sets[..n][1..] == sets[1..][..n - 1];
    }
  }

  /** So a failure that disables the stage is forgotten by the end of its own phase, exactly when
      another command set follows it there. */
  lemma ForgottenInPhase(run: Settings, st: State, sets: Phase, k: nat, number: nat, conf: Conf, e: bool)
    requires PhaseEnabled(run, number) && k < |sets|
    requires var before := RunSets(run, StartPhase(run, st, number), sets[..k], conf, e).0;
      !RunSet(run, before, sets[k], conf).1
    ensures RunPhase(run, st, sets, number, conf, e).1 <==> k + 1 < |sets|
  {
    var st0 := StartPhase(run, st, number);
    var before := RunSets(run, st0, sets[..k], conf, e).0;
    FailureSwitchesOff(run, before, sets[k], conf);
    if k + 1 == |sets| {
      LastSetDecides(run, st0, sets, conf, e);
    } else {
      assert sets[..k + 1][..k] == sets[..k];
      LastSetDecides(run, st0, sets[..k + 1], conf, e);
      RunSetsSplit(run, st0, sets, k + 1, conf, e);
      OffSets(run, RunSets(run, st0, sets[..k + 1], conf, e).0, sets[k + 1..], conf, false);
    }
  }

  lemma {:induction false} RunSetsSplit(run: Settings, st: State, sets: Phase, k: nat, conf: Conf, e: bool)
    requires k <= |sets|
    ensures var (mid, e') := RunSets(run, st, sets[..k], conf, e);
      RunSets(run, st, sets, conf, e) == RunSets(run, mid, sets[k..], conf, e')
    decreases k
  {
    if k > 0 {
      var (next, e1) := RunSet(run, st, sets[0], conf);
      RunSetsSplit(run, next, sets[1..], k - 1, conf, e1);
      assert sets[..k][1..] == sets[1..][..k - 1] && sets[1..][k - 1..] == sets[k..];
    } else {
      assert sets[k..] == sets;
    }
  }

  lemma {:induction false} CheckedSwitchesOff(run: Settings, st: State, commands: seq<Command>, kind: string, e: bool)
    requires !e ==> !st.execute
    ensures var (next, e') := ExecChecked(run, st, commands, kind, e); !e' ==> !next.execute
    decreases commands
  {
    if commands != [] {
      var ok := ExecSuccess(run, st);
      var next := if ok then Exec(run, st, commands[0]) else SetExecute(Exec(run, st, commands[0]), false);
      CheckedSwitchesOff(run, next, commands[1..], kind, if ok then e else e && kind != "stage");
    }
  }

  lemma FailureSwitchesOff(run: Settings, st: State, cs: CommandSet, conf: Conf)
    requires !RunSet(run, st, cs, conf).1
    ensures !RunSet(run, st, cs, conf).0.execute
  {
    var st0 := if run.noPrompt && cs.skipWithoutPrompt then SetExecute(st, false) else st;
    match cs.onFail
    case Disable(kind) => CheckedSwitchesOff(run, st0, SetCommands(cs, conf), kind, true);
    case NoFailMap =>
  }
}
