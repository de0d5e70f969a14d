/** The tool itself: the command runner, the scoped setup and teardown objects, and the loops over the
    plan, each proved to do what the acts of its part of the plan say. */
module PlaybookTool {
  import opened PlaybookModel
  import opened PlaybookSets

  // ----- lists of acts

  lemma {:induction false} RunActsConcat(run: Settings, a: seq<Act>, b: seq<Act>, st: State)
    ensures RunActs(run, a + b, st) == RunActs(run, b, RunActs(run, a, st))
  {
    if a == [] {
      assert a + b == b;
    } else {
      assert (a + b)[0] == a[0] && (a + b)[1..] == a[1..] + b;
      RunActsConcat(run, a[1..], b, RunAct(run, a[0], st));
    }
  }

  lemma RunOne(run: Settings, act: Act, st: State)
    ensures RunActs(run, [act], st) == RunAct(run, act, st)
  {
  }

  lemma RunActsLast(run: Settings, a: seq<Act>, act: Act, st: State)
    ensures RunActs(run, a + [act], st) == RunAct(run, act, RunActs(run, a, st))
  {
    RunActsConcat(run, a, [act], st);
    RunOne(run, act, RunActs(run, a, st));
  }

  // ----- the command runner

  class CommandRunner {
    const run: Settings
    var execute: bool
    var commandIdNumber: nat
    var log: seq<Event>  // what the run prints, in order

    ghost function View(): State
      reads this
    {
      State(execute, commandIdNumber, log)
    }

    constructor (run: Settings)
      ensures this.run == run && View() == Start(run)
      ensures execute == run.execute && commandIdNumber == 0 && log == []
    {
      this.run := run;
      execute := run.execute;
      commandIdNumber := 0;
      log := [];
    }

    method SetExecute(state: bool)
      modifies this
      ensures View() == PlaybookModel.SetExecute(old(View()), state)
    {
      execute := state;
    }

    method Note(e: Event)
      modifies this`log
      ensures View() == PlaybookModel.Note(old(View()), e)
    {
      log := log + [e];
    }

    predicate IsEnabled(id: nat) {
      run.disabled == {} || id !in run.disabled
    }

    method SystemExec(command: Command) returns (success: bool)
      modifies this
      ensures View() == Exec(run, old(View()), command)
      ensures success == ExecSuccess(run, old(View()))
      ensures execute == old(execute) && commandIdNumber == old(commandIdNumber) + 1
      ensures var ran := execute && commandIdNumber !in run.disabled;
        && log == old(log) + [Issued(commandIdNumber, command, ran)]
        && (success <==> !ran || run.outcome(commandIdNumber))
    {
      commandIdNumber := commandIdNumber + 1;
      log := log + [Issued(commandIdNumber, command, execute && IsEnabled(commandIdNumber))];
      if IsEnabled(commandIdNumber) {
        if execute {
          return run.outcome(commandIdNumber);
        }
      }
      return true;
    }

    /** The commands are numbered in order and started together; nothing looks at their exit status. */
    method ThreadExec(commands: seq<Command>)
      modifies this
      ensures View() == ExecAll(run, old(View()), commands)
    {
      ghost var before := View();
      for i := 0 to |commands|
        invariant ExecAll(run, View(), commands[i..]) == ExecAll(run, before, commands)
      {
        commandIdNumber := commandIdNumber + 1;
        log := log + [Issued(commandIdNumber, commands[i], execute && IsEnabled(commandIdNumber))];
      }
    }

    method ScheduleSleep(ms: nat)
      modifies this
      ensures View() == Exec(run, old(View()), Sleep(ms))
    {
      commandIdNumber := commandIdNumber + 1;
      log := log + [Issued(commandIdNumber, Sleep(ms), execute && IsEnabled(commandIdNumber))];
    }

    /** The body of every setup and teardown block: its commands, then a pause. */
    method ExecThenSleep(commands: seq<Command>, ms: nat)
      modifies this
      ensures View() == ExecAll(run, old(View()), commands + [Sleep(ms)])
    {
      ghost var before := View();
      for i := 0 to |commands|
        invariant ExecAll(run, View(), commands[i..] + [Sleep(ms)]) == ExecAll(run, before, commands + [Sleep(ms)])
      {
        assert (commands[i..] + [Sleep(ms)])[1..] == commands[i + 1..] + [Sleep(ms)];
        var _ := SystemExec(commands[i]);
      }
      assert commands[|commands|..] + [Sleep(ms)] == [Sleep(ms)];
      ScheduleSleep(ms);
    }
  }

  // ----- scoped setup and teardown

  class RaiiVlan {
    const runner: CommandRunner
    const ifaceName: string
    const vlan: nat
    var vlanIfaceName: string

    constructor (runner: CommandRunner, ifaceName: string, vlan: nat)
      modifies runner
      ensures this.runner == runner && this.ifaceName == ifaceName && this.vlan == vlan
      ensures vlanIfaceName == if vlan < RESERVED then VlanName(ifaceName, vlan) else ""
      ensures runner.View() == ExecAll(runner.run, old(runner.View()),
        if vlan < 0x0FFF then [AddVlan(ifaceName, vlanIfaceName, vlan), Sleep(250)] else [])
    {
      this.runner := runner;
      this.ifaceName := ifaceName;
      this.vlan := vlan;
      this.vlanIfaceName := "";
      new;
      if vlan == NONE { return; }
      if RESERVED <= vlan { return; }
      vlanIfaceName := VlanName(ifaceName, vlan);
      var commands := [AddVlan(ifaceName, vlanIfaceName, vlan)];
      assert VlanUp(ifaceName, vlan) == commands + [Sleep(250)];
      runner.ExecThenSleep(commands, 250);
    }

    method Destroy()
      requires vlanIfaceName == if vlan < RESERVED then VlanName(ifaceName, vlan) else ""
      modifies runner
      ensures runner.View() == ExecAll(runner.run, old(runner.View()),
        if vlan <= 0x0FFF then [DelLink(vlanIfaceName), Sleep(250)] else [])
    {
      if vlan > RESERVED { return; }
      var commands := [DelLink(vlanIfaceName)];
      assert VlanDown(ifaceName, vlan) == commands + [Sleep(250)];
      runner.ExecThenSleep(commands, 250);
    }

    function GetLinkName(): string
      reads this
    {
      if RESERVED > vlan then vlanIfaceName else ifaceName
    }
  }

  class RaiiMacAddr {
    const runner: CommandRunner
    const ifaceName: string
    const macAddr: string

    constructor (runner: CommandRunner, ifaceName: string, macAddr: string)
      modifies runner
      ensures this.runner == runner && this.ifaceName == ifaceName && this.macAddr == macAddr
      ensures runner.View() == ExecAll(runner.run, old(runner.View()),
        if macAddr == "" then [] else [SetMac(macAddr, ifaceName), Sleep(500)])
    {
      this.runner := runner;
      this.ifaceName := ifaceName;
      this.macAddr := macAddr;
      new;
      if macAddr == "" { return; }
      var commands := [SetMac(macAddr, ifaceName)];
      assert MacUp(ifaceName, macAddr) == commands + [Sleep(500)];
      runner.ExecThenSleep(commands, 500);
    }

    method Destroy()
      modifies runner
      ensures runner.View() == ExecAll(runner.run, old(runner.View()),
        if macAddr == "" then [] else [ResetMac(ifaceName), Sleep(500)])
    {
      if macAddr == "" { return; }
      var commands := [ResetMac(ifaceName)];
      assert MacDown(ifaceName, macAddr) == commands + [Sleep(500)];
      runner.ExecThenSleep(commands, 500);
    }
  }

  class RaiiIpLink {
    const runner: CommandRunner
    const ifaceName: string

    constructor (runner: CommandRunner, ifaceName: string)
      modifies runner
      ensures this.runner == runner && this.ifaceName == ifaceName
      ensures var key := SysctlName(ifaceName);
        runner.View() == ExecAll(runner.run, old(runner.View()),
          [SetAutoconf(key, false), SetAcceptRa(key, false), LinkUp(ifaceName), Sleep(1000)])
    {
      this.runner := runner;
      this.ifaceName := ifaceName;
      new;
      var commands :=
        [SetAutoconf(SysctlName(ifaceName), false), SetAcceptRa(SysctlName(ifaceName), false), LinkUp(ifaceName)];
      assert RaiseLink(ifaceName) == commands + [Sleep(1000)];
      runner.ExecThenSleep(commands, 1000);
    }

    method Destroy()
      modifies runner
      ensures runner.View() == ExecAll(runner.run, old(runner.View()), [LinkDown(ifaceName), Sleep(500)])
    {
      var commands := [LinkDown(ifaceName)];
      assert LowerLink(ifaceName) == commands + [Sleep(500)];
      runner.ExecThenSleep(commands, 500);
    }
  }

  class RaiiIpAddr {
    const runner: CommandRunner
    const ifaceName: string
    const ipAddr: string

    constructor (runner: CommandRunner, ifaceName: string, ipAddr: string)
      modifies runner
      ensures this.runner == runner && this.ifaceName == ifaceName && this.ipAddr == ipAddr
      ensures var key := SysctlName(ifaceName);
        runner.View() == ExecAll(runner.run, old(runner.View()),
          [SetAutoconf(key, true), SetAcceptRa(key, true), AddAddr(ipAddr, ifaceName), Sleep(500)])
    {
      this.runner := runner;
      this.ifaceName := ifaceName;
      this.ipAddr := ipAddr;
      new;
      var commands :=
        [SetAutoconf(SysctlName(ifaceName), true), SetAcceptRa(SysctlName(ifaceName), true),
         AddAddr(ipAddr, ifaceName)];
      assert AddrUp(ifaceName, ipAddr) == commands + [Sleep(500)];
      runner.ExecThenSleep(commands, 500);
    }

    method Destroy()
      modifies runner
      ensures var key := SysctlName(ifaceName);
        runner.View() == ExecAll(runner.run, old(runner.View()),
          [DelAddr(ipAddr, ifaceName), SetAcceptRa(key, false), SetAutoconf(key, false), Sleep(500)])
    {
      var commands :=
        [DelAddr(ipAddr, ifaceName), SetAcceptRa(SysctlName(ifaceName), false),
         SetAutoconf(SysctlName(ifaceName), false)];
      assert AddrDown(ifaceName, ipAddr) == commands + [Sleep(500)];
      runner.ExecThenSleep(commands, 500);
    }
  }

  class RaiiIpRoute {
    const runner: CommandRunner
    const ifaceName: string
    const ipAddr: string

    constructor (runner: CommandRunner, ifaceName: string, ipAddr: string)
      modifies runner
      ensures this.runner == runner && this.ifaceName == ifaceName && this.ipAddr == ipAddr
      ensures runner.View() == ExecAll(runner.run, old(runner.View()),
        [AddRoute(ipAddr, ifaceName), AddDefault(ipAddr), FlushCache, Sleep(500)])
    {
      this.runner := runner;
      this.ifaceName := ifaceName;
      this.ipAddr := ipAddr;
      new;
      var commands := [AddRoute(ipAddr, ifaceName), AddDefault(ipAddr), FlushCache];
      assert RouteUp(ifaceName, ipAddr) == commands + [Sleep(500)];
      runner.ExecThenSleep(commands, 500);
    }

    method Destroy()
      modifies runner
      ensures runner.View() == ExecAll(runner.run, old(runner.View()),
        [DelDefault(ipAddr), DelRoute(ipAddr, ifaceName), FlushCache, Sleep(500)])
    {
      var commands := [DelDefault(ipAddr), DelRoute(ipAddr, ifaceName), FlushCache];
      assert RouteDown(ifaceName, ipAddr) == commands + [Sleep(500)];
      runner.ExecThenSleep(commands, 500);
    }
  }

  // ----- the tool

  class Tool {
    const run: Settings
    const cmdRunner: CommandRunner

    constructor (run: Settings)
      ensures this.run == run && cmdRunner.run == run
      ensures fresh(cmdRunner) && cmdRunner.View() == Start(run)
    {
      this.run := run;
      cmdRunner := new CommandRunner(run);
    }

    method RunPhaseCommands(cs: CommandSet, conf: Conf) returns (stageEnabled: bool)
      requires cmdRunner.run == run
      modifies cmdRunner
      ensures (cmdRunner.View(), stageEnabled) == RunSet(run, old(cmdRunner.View()), cs, conf)
      ensures IssuesTemplates(old(cmdRunner.View()), cmdRunner.View(), cs, conf)
      ensures RunsUntilFailure(run, old(cmdRunner.View()), cmdRunner.View(),
                               Begins(run, old(cmdRunner.View()), cs), cs.onFail.Disable?)
      ensures Reports(run, old(cmdRunner.View()), cmdRunner.View(), cs, stageEnabled)
    {
      SetIssues(run, cmdRunner.View(), cs, conf);
      SetRuns(run, cmdRunner.View(), cs, conf);
      stageEnabled := true;
      var commands := SetCommands(cs, conf);
      if run.noPrompt && cs.skipWithoutPrompt {
        cmdRunner.SetExecute(false);
      }
      match cs.onFail
      case NoFailMap =>
        cmdRunner.ThreadExec(commands);
      case Disable(kind) =>
        ghost var before := cmdRunner.View();
        for i := 0 to |commands|
          invariant ExecChecked(run, cmdRunner.View(), commands[i..], kind, stageEnabled) ==
                    ExecChecked(run, before, commands, kind, true)
        {
          var execSuccess := cmdRunner.SystemExec(commands[i]);
          if !execSuccess {
            if kind == "stage" {
              stageEnabled := false;
            }
            cmdRunner.SetExecute(false);
          }
        }
    }

    method PhaseActions(conf: Conf)
      requires cmdRunner.run == run
      modifies cmdRunner
      ensures cmdRunner.View() ==
        RunPhases(run, old(cmdRunner.View()), Plays(run, conf.scope), 1, conf, true).0
    {
      ghost var before := cmdRunner.View();
      var phases := Plays(run, conf.scope);
      var phaseId := 1;
      var stageEnabled := true;
      for i := 0 to |phases|
        invariant phaseId == i + 1
        invariant RunPhases(run, cmdRunner.View(), phases[i..], phaseId, conf, stageEnabled) ==
                  RunPhases(run, before, phases, 1, conf, true)
      {
        assert phases[i..][1..] == phases[i + 1..];
        ghost var start := cmdRunner.View();
        ghost var enabled := stageEnabled;
        cmdRunner.Note(PhaseStart(phaseId));
        var broken := IsPhaseRuntimeError();
        if run.ignoreIfaceStateChange && broken {
          cmdRunner.SetExecute(false);
        }
        if PhaseEnabled(run, phaseId) {
          stageEnabled := RunCommandSets(phases[i], conf, stageEnabled);
        }
        cmdRunner.SetExecute(run.execute && stageEnabled);
        assert (cmdRunner.View(), stageEnabled) == RunPhase(run, start, phases[i], phaseId, conf, enabled);
        phaseId := phaseId + 1;
      }
    }

    /** The loop over the command sets of a phase. */
    method RunCommandSets(sets: Phase, conf: Conf, enabled: bool) returns (stageEnabled: bool)
      requires cmdRunner.run == run
      modifies cmdRunner
      ensures (cmdRunner.View(), stageEnabled) == RunSets(run, old(cmdRunner.View()), sets, conf, enabled)
    {
      ghost var before := cmdRunner.View();
      stageEnabled := enabled;
      for i := 0 to |sets|
        invariant RunSets(run, cmdRunner.View(), sets[i..], conf, stageEnabled) ==
                  RunSets(run, before, sets, conf, enabled)
      {
        assert sets[i..][1..] == sets[i + 1..];
        stageEnabled := RunPhaseCommands(sets[i], conf);
      }
    }

    /** Looks at the interface only when executing. */
    method IsPhaseRuntimeError() returns (isError: bool)
      requires cmdRunner.run == run
      ensures isError <==> run.execute && run.fault(|cmdRunner.log|)
    {
      if !run.execute { return false; }
      return run.fault(|cmdRunner.log|);
    }

    method NetworkActions(conf: Conf)
      requires cmdRunner.run == run
      modifies cmdRunner
      ensures cmdRunner.View() == RunNetwork(run, old(cmdRunner.View()), conf)
    {
      cmdRunner.Note(Session(conf));
      PhaseActions(conf);
      cmdRunner.SetExecute(run.execute);
    }

    method RouterLoop(conf: Conf, routers: seq<string>)
      requires cmdRunner.run == run
      modifies cmdRunner
      ensures cmdRunner.View() == RunActs(run, RouterActs(conf, routers), old(cmdRunner.View()))
    {
      ghost var before := cmdRunner.View();
      assert routers[..|routers|] == routers;
      for i := 0 to |routers|
        invariant cmdRunner.View() == RunActs(run, RouterActs(conf, routers[..i]), before)
      {
        ghost var c := conf.(router := routers[i]);
        ghost var act := Within(RouteUp(conf.link, routers[i]), [Network(c)], RouteDown(conf.link, routers[i]));
        assert routers[..i + 1][..i] == routers[..i];
        RunActsLast(run, RouterActs(conf, routers[..i]), act, before);
        RunOne(run, Network(c), ExecAll(run, cmdRunner.View(), act.up));
        var raiiIpRoute := new RaiiIpRoute(cmdRunner, conf.link, routers[i]);
        NetworkActions(conf.(router := routers[i]));
        raiiIpRoute.Destroy();
      }
    }

    method AddrActions(conf: Conf, entry: IpEntry)
      requires cmdRunner.run == run
      modifies cmdRunner
      ensures cmdRunner.View() == RunAct(run, AddrActs(conf, entry), old(cmdRunner.View()))
    {
      var c := AddrConf(conf, entry);
      ghost var before := cmdRunner.View();
      var raiiIpAddr := new RaiiIpAddr(cmdRunner, c.link, c.addr);
      ghost var inside := cmdRunner.View();
      match c.scope {
        case Intra =>
          NetworkActions(c);
          RunOne(run, Network(c), inside);
        case Inter =>
          RouterLoop(c, entry.source.routers);
      }
      ghost var acts := if c.scope == Intra then [Network(c)] else RouterActs(c, entry.source.routers);
      RunActsLast(run, acts, Complete(c.source), inside);
      if run.execute {
        cmdRunner.Note(Completed(c.source));
      }
      raiiIpAddr.Destroy();
    }

    method AddrLoop(conf: Conf, ips: seq<IpEntry>)
      requires cmdRunner.run == run
      modifies cmdRunner
      ensures cmdRunner.View() == RunActs(run, AddrsActs(conf, ips), old(cmdRunner.View()))
    {
      ghost var before := cmdRunner.View();
      assert ips[..|ips|] == ips;
      for i := 0 to |ips|
        invariant cmdRunner.View() == RunActs(run, AddrsActs(conf, ips[..i]), before)
      {
        assert ips[..i + 1][..i] == ips[..i];
        RunActsLast(run, AddrsActs(conf, ips[..i]), AddrActs(conf, ips[i]), before);
        AddrActions(conf, ips[i]);
      }
    }

    method CaptureTraffic(link: string, seconds: nat)
      requires cmdRunner.run == run
      modifies cmdRunner
      ensures cmdRunner.View() == RunActs(run, CaptureActs(link, seconds), old(cmdRunner.View()))
    {
      var command := Capture(link, if seconds < 90 then 90 else seconds);
      ghost var before := cmdRunner.View();
      RunOne(run, Run([command]), before);
      assert ExecAll(run, before, [command]) == Exec(run, before, command);
      var _ := cmdRunner.SystemExec(command);
    }

    method MacActions(conf: Conf, entry: MacEntry)
      requires cmdRunner.run == run
      modifies cmdRunner
      ensures cmdRunner.View() == RunAct(run, MacActs(conf, entry), old(cmdRunner.View()))
    {
      var c := conf.(mac := entry.mac);
      var raiiMacAddr := new RaiiMacAddr(cmdRunner, c.link, c.mac);
      ghost var changed := cmdRunner.View();
      var raiiLink := new RaiiIpLink(cmdRunner, c.link);
      ghost var up := cmdRunner.View();
      ghost var capture := if c.vlan == NONE then CaptureActs(c.link, 90) else [];
      if c.vlan == NONE {
        CaptureTraffic(c.link, 90);
      }
      AddrLoop(c, entry.ips);
      RunActsConcat(run, capture, AddrsActs(c, entry.ips), up);
      raiiLink.Destroy();
      RunOne(run, Within(RaiseLink(c.link), capture + AddrsActs(c, entry.ips), LowerLink(c.link)), changed);
      raiiMacAddr.Destroy();
    }

    method MacLoop(conf: Conf, macs: seq<MacEntry>)
      requires cmdRunner.run == run
      modifies cmdRunner
      ensures cmdRunner.View() == RunActs(run, MacsActs(conf, macs), old(cmdRunner.View()))
    {
      ghost var before := cmdRunner.View();
      assert macs[..|macs|] == macs;
      for i := 0 to |macs|
        invariant cmdRunner.View() == RunActs(run, MacsActs(conf, macs[..i]), before)
      {
        assert macs[..i + 1][..i] == macs[..i];
        RunActsLast(run, MacsActs(conf, macs[..i]), MacActs(conf, macs[i]), before);
        MacActions(conf, macs[i]);
      }
    }

    method VlanIfaceThreadActions(scope: Scope, stage: nat, iface: string, entry: VlanEntry)
      requires cmdRunner.run == run
      modifies cmdRunner
      ensures cmdRunner.View() == RunAct(run, VlanActs(scope, stage, iface, entry), old(cmdRunner.View()))
    {
      var raiiVlan := new RaiiVlan(cmdRunner, iface, entry.vlan);
      if RESERVED <= entry.vlan && NONE != entry.vlan {
        assert !ValidVlan(entry.vlan);
        raiiVlan.Destroy();
        return;
      }
      var conf := Conf(scope, stage, iface, entry.vlan, "", "", "", raiiVlan.GetLinkName(), "", "");
      assert conf == VlanConf(scope, stage, iface, entry.vlan);
      MacLoop(conf, entry.macs);
      raiiVlan.Destroy();
    }

    /** The threads of the VLANs (`tagged`), or those of the interface itself, each joined when started. */
    method VlanLoop(scope: Scope, stage: nat, iface: string, vlans: seq<VlanEntry>, tagged: bool)
      requires cmdRunner.run == run
      modifies cmdRunner
      ensures cmdRunner.View() == RunActs(run, VlansActs(scope, stage, iface, vlans, tagged), old(cmdRunner.View()))
    {
      ghost var before := cmdRunner.View();
      assert vlans[..|vlans|] == vlans;
      for i := 0 to |vlans|
        invariant cmdRunner.View() == RunActs(run, VlansActs(scope, stage, iface, vlans[..i], tagged), before)
      {
        assert vlans[..i + 1][..i] == vlans[..i];
        if (NONE == vlans[i].vlan) == tagged {
          assert VlansActs(scope, stage, iface, vlans[..i + 1], tagged) ==
                 VlansActs(scope, stage, iface, vlans[..i], tagged);
          continue;
        }
        RunActsLast(run, VlansActs(scope, stage, iface, vlans[..i], tagged),
          VlanActs(scope, stage, iface, vlans[i]), before);
        VlanIfaceThreadActions(scope, stage, iface, vlans[i]);
      }
    }

    method PhysIfaceThreadActions(scope: Scope, stage: nat, entry: IfaceEntry)
      requires cmdRunner.run == run && NoEmptyLevel(entry)
      modifies cmdRunner
      ensures cmdRunner.View() == RunActs(run, IfaceActs(run, scope, stage, entry), old(cmdRunner.View()))
    {
      ghost var before := cmdRunner.View();
      var srcMacAddr := entry.vlans[0].macs[0].mac;
      var raiiMacAddr := new RaiiMacAddr(cmdRunner, entry.name, srcMacAddr);
      ghost var changed := cmdRunner.View();
      var raiiLink := new RaiiIpLink(cmdRunner, entry.name);
      ghost var up := cmdRunner.View();
      CaptureTraffic(entry.name, run.captureSeconds);
      VlanLoop(scope, stage, entry.name, entry.vlans, true);
      ghost var capture := CaptureActs(entry.name, run.captureSeconds);
      ghost var tagged := VlansActs(scope, stage, entry.name, entry.vlans, true);
      RunActsConcat(run, capture, tagged, up);
      raiiLink.Destroy();
      ghost var link := Within(RaiseLink(entry.name), capture + tagged, LowerLink(entry.name));
      RunOne(run, link, changed);
      raiiMacAddr.Destroy();
      ghost var whole := Within(MacUp(entry.name, srcMacAddr), [link], MacDown(entry.name, srcMacAddr));
      RunOne(run, whole, before);
      RunActsConcat(run, [whole], VlansActs(scope, stage, entry.name, entry.vlans, false), before);
      VlanLoop(scope, stage, entry.name, entry.vlans, false);
    }

    /** Interface threads run one at a time, as in an inter-network run. */
    method StageLoop(scope: Scope, stage: nat, ifaces: seq<IfaceEntry>)
      requires cmdRunner.run == run && forall i :: i in ifaces ==> NoEmptyLevel(i)
      modifies cmdRunner
      ensures cmdRunner.View() == RunActs(run, StageActs(run, scope, stage, ifaces), old(cmdRunner.View()))
    {
      ghost var before := cmdRunner.View();
      assert ifaces[..|ifaces|] == ifaces;
      for i := 0 to |ifaces|
        invariant cmdRunner.View() == RunActs(run, StageActs(run, scope, stage, ifaces[..i]), before)
      {
        assert ifaces[..i + 1][..i] == ifaces[..i];
        assert ifaces[i] in ifaces;
        RunActsConcat(run, StageActs(run, scope, stage, ifaces[..i]), IfaceActs(run, scope, stage, ifaces[i]), before);
        PhysIfaceThreadActions(scope, stage, ifaces[i]);
      }
    }

    method RunTool(scope: Scope, playbook: seq<StageEntry>)
      requires cmdRunner.run == run && cmdRunner.View() == Start(run)
      requires forall s :: s in playbook ==> WellFormedStage(s)
      modifies cmdRunner
      ensures cmdRunner.View() == RunPlaybook(run, scope, playbook)
    {
      ghost var stages := StagesRun(run, playbook);
      StagesAreSome(run, playbook);
      for i := 0 to |playbook|
        invariant forall s :: s in StagesRun(run, playbook[i..]) ==> WellFormedStage(s)
        invariant RunActs(run, StagesActs(run, scope, StagesRun(run, playbook[i..])), cmdRunner.View()) ==
                  RunPlaybook(run, scope, playbook)
      {
        assert playbook[i..][1..] == playbook[i + 1..] && playbook[i] in playbook;
        StagesAreSome(run, playbook[i..]);
        StagesAreSome(run, playbook[i + 1..]);
        if !StageEnabled(run, playbook[i].number) { continue; }
        if Quits(run, playbook[i].number) {
          break;
        }
        ghost var rest := StagesRun(run, playbook[i + 1..]);
        assert ([playbook[i]] + rest)[1..] == rest;
        RunActsConcat(run, StageActs(run, scope, playbook[i].number, playbook[i].ifaces),
          StagesActs(run, scope, rest), cmdRunner.View());
        StageLoop(scope, playbook[i].number, playbook[i].ifaces);
      }
    }
  }
}
