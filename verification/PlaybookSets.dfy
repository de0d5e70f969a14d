/** What one command set issues, which of its commands run, and what it reports, as its log shows. */
module PlaybookSets {
  import opened PlaybookModel

  predicate IssuedAs(e: Event, id: nat, command: Command) {
    e.Issued? && e.id == id && e.command == command
  }

  /** From `a` to `b` the templates of the set were issued under the next numbers: those for both
      families, then those for IPv4 if the family is "4" and those for IPv6 if it is not. */
  ghost predicate IssuesTemplates(a: State, b: State, cs: CommandSet, conf: Conf) {
    var own := if conf.family == "4" then cs.ipv4 else cs.ipv6;
    var first, second := |a.log|, |a.log| + |cs.always|;
    && a.log <= b.log && |b.log| == second + |own|
    && (forall y :: first <= y < second ==>
      IssuedAs(b.log[y], a.lastId + 1 + (y - first), Play(cs.always[y - first], conf)))
    && (forall y :: second <= y < |b.log| ==>
      IssuedAs(b.log[y], a.lastId + 1 + (y - first), Play(own[y - second], conf)))
  }

  /** A command of `log[from..to]` ran and did not exit with zero. */
  predicate FailedIn(run: Settings, log: seq<Event>, from: nat, to: nat)
    requires to <= |log|
  {
    exists i :: from <= i < to && log[i].Issued? && log[i].ran && !run.outcome(log[i].id)
  }

  /** The flag is on when the set's commands begin. */
  predicate Begins(run: Settings, st: State, cs: CommandSet) {
    st.execute && !(run.noPrompt && cs.skipWithoutPrompt)
  }

  /** A command runs exactly if the flag was on at the beginning, its number is not excluded, and, in a
      set with a fail map, no earlier command of the set failed. */
  ghost predicate RunsUntilFailure(run: Settings, a: State, b: State, on: bool, checked: bool) {
    && a.log <= b.log
    && forall i :: |a.log| <= i < |b.log| ==>
      && b.log[i].Issued?
      && (b.log[i].ran <==>
        on && b.log[i].id !in run.disabled && (checked ==> !FailedIn(run, b.log, |a.log|, i)))
  }

  /** After a set with a fail map the flag is on if it was on and no command failed; the set reports the
      stage disabled if a command failed and the map says so. Other sets report nothing. */
  predicate Reports(run: Settings, a: State, b: State, cs: CommandSet, stageEnabled: bool) {
    var failed := FailedIn(run, b.log, |a.log|, |b.log|);
    match cs.onFail
    case Disable(kind) =>
      (b.execute <==> Begins(run, a, cs) && !failed) && (stageEnabled <==> !(kind == "stage" && failed))
    case NoFailMap => (b.execute <==> Begins(run, a, cs)) && stageEnabled
  }

  // ----- what is issued

  /** The commands were issued under the next numbers. */
  ghost predicate IssuesAll(a: State, b: State, commands: seq<Command>) {
    && a.log <= b.log && |b.log| == |a.log| + |commands|
    && forall y :: |a.log| <= y < |b.log| ==>
      IssuedAs(b.log[y], a.lastId + 1 + (y - |a.log|), commands[y - |a.log|])
  }

  lemma IssuesOneMore(a: State, next: State, b: State, commands: seq<Command>)
    requires commands != [] && next.lastId == a.lastId + 1 && |next.log| == |a.log| + 1 && a.log <= next.log
    requires IssuedAs(next.log[|a.log|], a.lastId + 1, commands[0]) && IssuesAll(next, b, commands[1..])
    ensures IssuesAll(a, b, commands)
  {
    forall y | |a.log| <= y < |b.log|
      ensures IssuedAs(b.log[y], a.lastId + 1 + (y - |a.log|), commands[y - |a.log|])
    {
      if y == |a.log| {
        assert b.log[y] == next.log[y];
      } else {
        assert commands[1..][y - |next.log|] == commands[y - |a.log|];
      }
    }
  }

  lemma {:induction false} AllIssues(run: Settings, st: State, commands: seq<Command>)
    ensures IssuesAll(st, ExecAll(run, st, commands), commands)
    decreases commands
  {
    if commands != [] {
      var next := Exec(run, st, commands[0]);
      AllIssues(run, next, commands[1..]);
      IssuesOneMore(st, next, ExecAll(run, st, commands), commands);
    }
  }

  lemma {:induction false} CheckedIssues(run: Settings, st: State, commands: seq<Command>, kind: string, e: bool)
    ensures IssuesAll(st, ExecChecked(run, st, commands, kind, e).0, commands)
    decreases commands
  {
    if commands != [] {
      var ok := ExecSuccess(run, st);
      var next := if ok then Exec(run, st, commands[0]) else SetExecute(Exec(run, st, commands[0]), false);
      var e' := if ok then e else e && kind != "stage";
      CheckedIssues(run, next, commands[1..], kind, e');
      IssuesOneMore(st, next, ExecChecked(run, st, commands, kind, e).0, commands);
    }
  }

  lemma {:induction false} TemplatesAre(ts: seq<string>, conf: Conf)
    ensures forall k :: 0 <= k < |ts| ==> Templates(ts, conf)[k] == Play(ts[k], conf)
  {
    if ts != [] { TemplatesAre(ts[1..], conf); }
  }

  lemma SetIssuesAll(run: Settings, st: State, cs: CommandSet, conf: Conf)
    ensures IssuesAll(st, RunSet(run, st, cs, conf).0, SetCommands(cs, conf))
  {
    var st0 := if run.noPrompt && cs.skipWithoutPrompt then SetExecute(st, false) else st;
    match cs.onFail
    case Disable(kind) => CheckedIssues(run, st0, SetCommands(cs, conf), kind, true);
    case NoFailMap => AllIssues(run, st0, SetCommands(cs, conf));
  }

  lemma PartsIssued(a: State, b: State, cs: CommandSet, conf: Conf, own: seq<string>, x: seq<Command>,
                    z: seq<Command>)
    requires own == if conf.family == "4" then cs.ipv4 else cs.ipv6
    requires IssuesAll(a, b, x + z) && |x| == |cs.always| && |z| == |own|
    requires forall k :: 0 <= k < |x| ==> x[k] == Play(cs.always[k], conf)
    requires forall k :: 0 <= k < |z| ==> z[k] == Play(own[k], conf)
    ensures IssuesTemplates(a, b, cs, conf)
  {
  }

  /** A set issues its own templates for the family of the source, and nothing else. */
  lemma SetIssues(run: Settings, st: State, cs: CommandSet, conf: Conf)
    ensures IssuesTemplates(st, RunSet(run, st, cs, conf).0, cs, conf)
  {
    var own := if conf.family == "4" then cs.ipv4 else cs.ipv6;
    SetIssuesAll(run, st, cs, conf);
    TemplatesAre(cs.always, conf);
    TemplatesAre(own, conf);
    PartsIssued(st, RunSet(run, st, cs, conf).0, cs, conf, own, Templates(cs.always, conf), Templates(own, conf));
  }

  // ----- what runs, and what is reported

  lemma {:induction false} AllRun(run: Settings, st: State, commands: seq<Command>)
    ensures RunsUntilFailure(run, st, ExecAll(run, st, commands), st.execute, false)
    ensures ExecAll(run, st, commands).execute == st.execute
    decreases commands
  {
    if commands != [] {
      var next := Exec(run, st, commands[0]);
      AllRun(run, next, commands[1..]);
      var last := ExecAll(run, st, commands);
      assert last.log[|st.log|] == next.log[|st.log|];
    }
  }

  /** The failures of a longer stretch: its first command's or a later one's. */
  lemma FailedFirst(run: Settings, log: seq<Event>, from: nat, to: nat)
    requires from < to <= |log|
    ensures FailedIn(run, log, from, to) <==>
      (log[from].Issued? && log[from].ran && !run.outcome(log[from].id)) || FailedIn(run, log, from + 1, to)
  {
    if FailedIn(run, log, from, to) {
      var i :| from <= i < to && log[i].Issued? && log[i].ran && !run.outcome(log[i].id);
      assert i == from || FailedIn(run, log, from + 1, to);
    }
  }

  lemma {:induction false} CheckedRun(run: Settings, st: State, commands: seq<Command>, kind: string, e: bool)
    ensures var (last, e') := ExecChecked(run, st, commands, kind, e);
      && RunsUntilFailure(run, st, last, st.execute, true)
      && (last.execute <==> st.execute && !FailedIn(run, last.log, |st.log|, |last.log|))
      && (e' <==> e && !(kind == "stage" && FailedIn(run, last.log, |st.log|, |last.log|)))
    decreases commands
  {
    if commands != [] {
      var ok := ExecSuccess(run, st);
      var next := if ok then Exec(run, st, commands[0]) else SetExecute(Exec(run, st, commands[0]), false);
      var e1 := if ok then e else e && kind != "stage";
      CheckedRun(run, next, commands[1..], kind, e1);
      var last := ExecChecked(run, st, commands, kind, e).0;
      FirstThenRest(run, st, next, last, ok);
    }
  }

  lemma FirstThenRest(run: Settings, st: State, next: State, last: State, ok: bool)
    requires |next.log| == |st.log| + 1 && st.log <= next.log && next.log[|st.log|].Issued?
    requires next.log[|st.log|].ran <==> st.execute && next.log[|st.log|].id !in run.disabled
    requires ok <==> !(next.log[|st.log|].ran && !run.outcome(next.log[|st.log|].id))
    requires next.execute <==> st.execute && ok
    requires RunsUntilFailure(run, next, last, next.execute, true)
    ensures RunsUntilFailure(run, st, last, st.execute, true)
    ensures FailedIn(run, last.log, |st.log|, |last.log|) <==> !ok || FailedIn(run, last.log, |next.log|, |last.log|)
  {
    var from := |st.log|;
    assert last.log[from] == next.log[from];
    forall i | from <= i < |last.log|
      ensures last.log[i].Issued?
      ensures last.log[i].ran <==>
        st.execute && last.log[i].id !in run.disabled && !FailedIn(run, last.log, from, i)
    {
      if i > from { FailedFirst(run, last.log, from, i); }
    }
    FailedFirst(run, last.log, from, |last.log|);
  }

  /** In a set the flag, the exit statuses and the excluded numbers decide which commands run, and these
      and their exit statuses decide the flag afterwards and what the set reports. */
  lemma SetRuns(run: Settings, st: State, cs: CommandSet, conf: Conf)
    ensures var (next, stageEnabled) := RunSet(run, st, cs, conf);
      && RunsUntilFailure(run, st, next, Begins(run, st, cs), cs.onFail.Disable?)
      && Reports(run, st, next, cs, stageEnabled)
  {
    var st0 := if run.noPrompt && cs.skipWithoutPrompt then SetExecute(st, false) else st;
    match cs.onFail
    case Disable(kind) => CheckedRun(run, st0, SetCommands(cs, conf), kind, true);
    case NoFailMap => AllRun(run, st0, SetCommands(cs, conf));
  }
}
