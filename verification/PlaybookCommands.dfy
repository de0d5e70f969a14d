/** Which commands a whole run issues and runs, told from its plan and its settings alone. */
module PlaybookCommands {
  import opened Common
  import opened PlaybookModel
  import opened PlaybookPlays
  import Sessions = PlaybookSessions
  import Trace = PlaybookTrace

  // ----- stages

  predicate Enabled(run: Settings, stage: StageEntry) {
    run.stages == {} || stage.number in run.stages
  }

  /** The stage is enabled, and the user has quit before none of the enabled ones up to it; only a run that
      executes and prompts asks the user. */
  predicate Goes(run: Settings, playbook: seq<StageEntry>, n: nat) {
    && n < |playbook| && Enabled(run, playbook[n])
    && forall j :: 0 <= j <= n && Enabled(run, playbook[j]) ==>
      !(run.execute && !run.noPrompt && run.quit(playbook[j].number))
  }

  lemma GoesOn(run: Settings, playbook: seq<StageEntry>, n: nat)
    requires 0 < n < |playbook|
    ensures Goes(run, playbook, n) <==>
      (Goes(run, playbook[1..], n - 1) &&
       (Enabled(run, playbook[0]) ==> !(run.execute && !run.noPrompt && run.quit(playbook[0].number))))
  {
    var rest := playbook[1..];
    if Goes(run, rest, n - 1) &&
       (Enabled(run, playbook[0]) ==> !(run.execute && !run.noPrompt && run.quit(playbook[0].number))) {
      forall j | 0 <= j <= n && Enabled(run, playbook[j])
        ensures !(run.execute && !run.noPrompt && run.quit(playbook[j].number))
      {
        if j > 0 { assert rest[j - 1] == playbook[j]; }
      }
    }
    if Goes(run, playbook, n) {
      forall j | 0 <= j <= n - 1 && Enabled(run, rest[j])
        ensures !(run.execute && !run.noPrompt && run.quit(rest[j].number))
      {
        assert rest[j] == playbook[j + 1];
      }
    }
  }

  /** The stages that run. */
  lemma {:induction false} StagesThatGo(run: Settings, playbook: seq<StageEntry>, stage: StageEntry)
    ensures stage in StagesRun(run, playbook) <==> exists n: nat :: Goes(run, playbook, n) && playbook[n] == stage
  {
    if playbook != [] {
      StagesThatGo(run, playbook[1..], stage);
      if stage in StagesRun(run, playbook) {
        if playbook[0] == stage && Goes(run, playbook, 0) {
        } else {
          var n: nat :| Goes(run, playbook[1..], n) && playbook[1..][n] == stage;
          GoesOn(run, playbook, n + 1);
        }
      }
      if n: nat :| Goes(run, playbook, n) && playbook[n] == stage {
        if n > 0 { GoesOn(run, playbook, n); }
      }
    }
  }

  // ----- sessions

  lemma {:induction false} InRouters(conf: Conf, routers: seq<string>, c: Conf)
    ensures Session(c) in Sessions.RouterSessions(conf, routers) <==>
      exists r :: r in routers && c == conf.(router := r)
  {
    if routers != [] {
      var n := |routers| - 1;
      InRouters(conf, routers[..n], c);
      assert routers == routers[..n] + [routers[n]];
    }
  }

  /** The configuration of one of a source's sessions: through each of its routers in an inter-network run. */
  ghost predicate SessionOf(scope: Scope, s: StageEntry, i: IfaceEntry, v: VlanEntry, m: MacEntry, p: IpEntry,
                            c: Conf) {
    var own := Sessions.SourceConf(scope, s, i, v, m, p);
    c == own.(router := c.router) && if scope == Intra then c.router == "" else c.router in p.source.routers
  }

  lemma InJob(execute: bool, scope: Scope, s: StageEntry, i: IfaceEntry, v: VlanEntry, m: MacEntry, p: IpEntry, c: Conf)
    ensures Session(c) in Sessions.JobMarks(execute, Sessions.SourceJob(scope, s, i, v, m, p)) <==>
      SessionOf(scope, s, i, v, m, p, c)
  {
    var own := Sessions.SourceConf(scope, s, i, v, m, p);
    InRouters(own, p.source.routers, c);
    assert c.router in p.source.routers && c == own.(router := c.router) ==>
      exists r :: r in p.source.routers && c == own.(router := r);
  }

  ghost predicate SessionFrom(scope: Scope, stages: seq<StageEntry>, c: Conf,
                              s: StageEntry, i: IfaceEntry, v: VlanEntry, m: MacEntry, p: IpEntry) {
    Sessions.IsSource(stages, s, i, v, m, p) && SessionOf(scope, s, i, v, m, p, c)
  }

  /** The sessions are those of the configured sources of the stages. */
  ghost predicate IsSession(scope: Scope, stages: seq<StageEntry>, c: Conf) {
    exists s, i, v, m, p :: SessionFrom(scope, stages, c, s, i, v, m, p)
  }

  lemma SessionOfJob(execute: bool, scope: Scope, stages: seq<StageEntry>, job: Sessions.Job, c: Conf)
    requires job in Sessions.Flat(Sessions.StageJobs(scope), stages)
    requires Session(c) in Sessions.JobMarks(execute, job)
    ensures IsSession(scope, stages, c)
  {
    var s, i, v, m, p := Sessions.PlannedIsSource(scope, stages, job);
    InJob(execute, scope, s, i, v, m, p, c);
    assert SessionFrom(scope, stages, c, s, i, v, m, p);
  }

  lemma JobOfSession(execute: bool, scope: Scope, stages: seq<StageEntry>, c: Conf) returns (job: Sessions.Job)
    requires IsSession(scope, stages, c)
    ensures job in Sessions.Flat(Sessions.StageJobs(scope), stages)
    ensures Session(c) in Sessions.JobMarks(execute, job)
  {
    var s, i, v, m, p :| SessionFrom(scope, stages, c, s, i, v, m, p);
    job := Sessions.SourceJob(scope, s, i, v, m, p);
    Sessions.SourceIsPlanned(scope, stages, s, i, v, m, p);
    InJob(execute, scope, s, i, v, m, p, c);
  }

  lemma JobsInAnyOrder(scope: Scope, stages: seq<StageEntry>, job: Sessions.Job)
    ensures job in Sessions.Flat(Sessions.StageJobsRun(scope), stages) <==>
            job in Sessions.Flat(Sessions.StageJobs(scope), stages)
  {
    Sessions.SameJobs(scope, stages);
    Sessions.SameMembers(Sessions.Flat(Sessions.StageJobs(scope), stages),
                         Sessions.Flat(Sessions.StageJobsRun(scope), stages));
  }

  lemma SessionsMarked(run: Settings, scope: Scope, stages: seq<StageEntry>, c: Conf)
    requires forall s :: s in stages ==> WellFormedStage(s)
    ensures Session(c) in Trace.ActsMarks(run.execute, StagesActs(run, scope, stages)) <==> IsSession(scope, stages, c)
  {
    var jobs := Sessions.Flat(Sessions.StageJobsRun(scope), stages);
    Sessions.StagesDo(run, scope, stages);
    Sessions.FlatIn(Sessions.MarksOf(run.execute), jobs, Session(c));
    if Session(c) in Trace.ActsMarks(run.execute, StagesActs(run, scope, stages)) {
      var job :| job in jobs && Session(c) in Sessions.MarksOf(run.execute)(job);
      JobsInAnyOrder(scope, stages, job);
      SessionOfJob(run.execute, scope, stages, job, c);
    }
    if IsSession(scope, stages, c) {
      var job := JobOfSession(run.execute, scope, stages, c);
      JobsInAnyOrder(scope, stages, job);
      assert Session(c) in Sessions.MarksOf(run.execute)(job);
    }
  }

  // ----- plays

  /** The `k`-th phase of the scope's plays is enabled, and one of its command sets has the template for both
      families or for the source's own. */
  ghost predicate Planned(run: Settings, scope: Scope, family: string, t: string) {
    var phases := if scope == Intra then run.intraPlays else run.interPlays;
    exists k: nat, cs :: TemplateIn(run, phases, 1, family, t, k, cs)
  }

  /** The template is played from the source that the configuration belongs to, which is in a stage that
      goes, and it is planned for the source's family. */
  ghost predicate PlayedFrom(run: Settings, scope: Scope, playbook: seq<StageEntry>, t: string, c: Conf,
                             n: nat, i: IfaceEntry, v: VlanEntry, m: MacEntry, p: IpEntry) {
    && Goes(run, playbook, n) && SessionFrom(scope, [playbook[n]], c, playbook[n], i, v, m, p)
    && Planned(run, scope, p.source.family, t)
  }

  ghost predicate Played(run: Settings, scope: Scope, playbook: seq<StageEntry>, t: string, c: Conf) {
    exists n: nat, i, v, m, p :: PlayedFrom(run, scope, playbook, t, c, n, i, v, m, p)
  }

  lemma PlayedIsSession(run: Settings, scope: Scope, playbook: seq<StageEntry>, t: string, c: Conf)
    ensures Played(run, scope, playbook, t, c) <==>
      IsSession(scope, StagesRun(run, playbook), c) && OfSession(run, t, c)
  {
    var stages := StagesRun(run, playbook);
    if Played(run, scope, playbook, t, c) {
      var n: nat, i, v, m, p :| PlayedFrom(run, scope, playbook, t, c, n, i, v, m, p);
      StagesThatGo(run, playbook, playbook[n]);
      assert SessionFrom(scope, stages, c, playbook[n], i, v, m, p);
    }
    if IsSession(scope, stages, c) && OfSession(run, t, c) {
      var s, i, v, m, p :| SessionFrom(scope, stages, c, s, i, v, m, p);
      StagesThatGo(run, playbook, s);
      var n: nat :| Goes(run, playbook, n) && playbook[n] == s;
      assert PlayedFrom(run, scope, playbook, t, c, n, i, v, m, p);
    }
  }

  lemma ScriptPlays(run: Settings, scope: Scope, playbook: seq<StageEntry>, t: string, c: Conf)
    requires forall s :: s in playbook ==> WellFormedStage(s)
    ensures forall s :: s in StagesRun(run, playbook) ==> WellFormedStage(s)
    ensures Play(t, c) in Trace.Script(run, StagesActs(run, scope, StagesRun(run, playbook))) <==>
      Played(run, scope, playbook, t, c)
  {
    StagesAreSome(run, playbook);
    var acts := StagesActs(run, scope, StagesRun(run, playbook));
    StagesCalm(run, scope, StagesRun(run, playbook));
    ActsPlays(run, acts, t, c);
    SessionsMarked(run, scope, StagesRun(run, playbook), c);
    PlayedIsSession(run, scope, playbook, t, c);
  }

  // ----- the log

  lemma {:induction false} NumberedHas(log: seq<Event>, id: nat, command: Command)
    ensures (id, command) in Trace.Numbered(log) <==> exists ran :: Issued(id, command, ran) in log
  {
    if log != [] {
      var n := |log| - 1;
      NumberedHas(log[..n], id, command);
      assert log == log[..n] + [log[n]];
      assert forall ran :: Issued(id, command, ran) in log <==>
        Issued(id, command, ran) in log[..n] || Issued(id, command, ran) == log[n];
      if log[n].Issued? && log[n].id == id && log[n].command == command {
        assert log[n] == Issued(id, command, log[n].ran);
      }
    }
  }

  ghost predicate IssuedIn(log: seq<Event>, command: Command) {
    exists id: nat, ran :: Issued(id, command, ran) in log
  }

  lemma FromHas(commands: seq<Command>, command: Command)
    ensures command in commands <==> exists id: nat :: (id, command) in Trace.From(0, commands)
  {
    if command in commands {
      var k :| 0 <= k < |commands| && commands[k] == command;
      assert Trace.From(0, commands)[k] == (k + 1, command);
      assert (k + 1, command) in Trace.From(0, commands);
    }
    if id: nat :| (id, command) in Trace.From(0, commands) {
      var k :| 0 <= k < |commands| && Trace.From(0, commands)[k] == (id, command);
      assert commands[k] == command;
    }
  }

  lemma NumberedIs(log: seq<Event>, commands: seq<Command>, command: Command)
    requires Trace.Numbered(log) == Trace.From(0, commands)
    ensures IssuedIn(log, command) <==> command in commands
  {
    FromHas(commands, command);
    if IssuedIn(log, command) {
      var id: nat, ran :| Issued(id, command, ran) in log;
      NumberedHas(log, id, command);
    }
    if command in commands {
      var id: nat :| (id, command) in Trace.From(0, commands);
      NumberedHas(log, id, command);
    }
  }

  lemma IssuedIsScripted(run: Settings, scope: Scope, playbook: seq<StageEntry>, command: Command)
    requires forall s :: s in playbook ==> WellFormedStage(s)
    ensures forall s :: s in StagesRun(run, playbook) ==> WellFormedStage(s)
    ensures IssuedIn(RunPlaybook(run, scope, playbook).log, command) <==>
      command in Trace.Script(run, StagesActs(run, scope, StagesRun(run, playbook)))
  {
    Trace.PlaybookNumbering(run, scope, playbook);
    NumberedIs(RunPlaybook(run, scope, playbook).log,
               Trace.Script(run, StagesActs(run, scope, StagesRun(run, playbook))), command);
  }

  /** A run issues a template for a configuration exactly if the configuration is that of a session of a
      source in a stage that goes, and the template is planned in an enabled phase for the source's family. */
  lemma PlaysOfRun(run: Settings, scope: Scope, playbook: seq<StageEntry>, t: string, c: Conf)
    requires forall s :: s in playbook ==> WellFormedStage(s)
    ensures IssuedIn(RunPlaybook(run, scope, playbook).log, Play(t, c)) <==> Played(run, scope, playbook, t, c)
  {
    IssuedIsScripted(run, scope, playbook, Play(t, c));
    ScriptPlays(run, scope, playbook, t, c);
  }
}
