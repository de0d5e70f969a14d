/** Which plays a run issues, and for which of its sources. */
module PlaybookPlays {
  import opened Common
  import opened PlaybookModel
  import Sessions = PlaybookSessions
  import Trace = PlaybookTrace

  // ----- the plays of one network

  /** The template is one of a command set's for both families or for the source's own. */
  predicate TemplateOf(cs: CommandSet, family: string, t: string) {
    t in cs.always || (family == "4" && t in cs.ipv4) || (family != "4" && t in cs.ipv6)
  }

  /** The template is of the `k`-th of the phases that begin with the given number, and the phase is enabled. */
  predicate TemplateIn(run: Settings, phases: seq<Phase>, number: nat, family: string, t: string, k: nat,
                       cs: CommandSet) {
    && k < |phases| && (run.phases == {} || number + k in run.phases)
    && cs in phases[k] && TemplateOf(cs, family, t)
  }

  ghost predicate TemplateAmong(run: Settings, phases: seq<Phase>, number: nat, family: string, t: string) {
    exists k: nat, cs :: TemplateIn(run, phases, number, family, t, k, cs)
  }

  lemma {:induction false} InTemplates(ts: seq<string>, conf: Conf, t: string, c: Conf)
    ensures Play(t, c) in Templates(ts, conf) <==> t in ts && c == conf
  {
    if ts != [] {
      InTemplates(ts[1..], conf, t, c);
      assert ts == [ts[0]] + ts[1..];
    }
  }

  lemma InSet(cs: CommandSet, conf: Conf, t: string, c: Conf)
    ensures Play(t, c) in SetCommands(cs, conf) <==> TemplateOf(cs, conf.family, t) && c == conf
  {
    InTemplates(cs.always, conf, t, c);
    InTemplates(cs.ipv4, conf, t, c);
    InTemplates(cs.ipv6, conf, t, c);
  }

  lemma {:induction false} InSets(sets: Phase, conf: Conf, t: string, c: Conf)
    ensures Play(t, c) in Trace.SetsScript(sets, conf) <==>
      c == conf && exists cs :: cs in sets && TemplateOf(cs, conf.family, t)
  {
    if sets != [] {
      InSet(sets[0], conf, t, c);
      InSets(sets[1..], conf, t, c);
      assert sets == [sets[0]] + sets[1..];
    }
  }

  lemma AmongFirst(run: Settings, phases: seq<Phase>, number: nat, family: string, t: string)
    requires phases != []
    ensures TemplateAmong(run, phases, number, family, t) <==>
      || (exists cs :: TemplateIn(run, phases, number, family, t, 0, cs))
      || TemplateAmong(run, phases[1..], number + 1, family, t)
  {
    if TemplateAmong(run, phases, number, family, t) {
      var k: nat, cs :| TemplateIn(run, phases, number, family, t, k, cs);
      assert k > 0 ==> TemplateIn(run, phases[1..], number + 1, family, t, k - 1, cs);
    }
    if TemplateAmong(run, phases[1..], number + 1, family, t) {
      var k: nat, cs :| TemplateIn(run, phases[1..], number + 1, family, t, k, cs);
      assert TemplateIn(run, phases, number, family, t, k + 1, cs);
    }
  }

  lemma InFirst(run: Settings, phases: seq<Phase>, number: nat, conf: Conf, t: string, c: Conf)
    requires phases != []
    ensures Play(t, c) in (if PhaseEnabled(run, number) then Trace.SetsScript(phases[0], conf) else []) <==>
      c == conf && exists cs :: TemplateIn(run, phases, number, conf.family, t, 0, cs)
  {
    InSets(phases[0], conf, t, c);
    forall cs ensures TemplateIn(run, phases, number, conf.family, t, 0, cs) <==>
      (run.phases == {} || number in run.phases) && cs in phases[0] && TemplateOf(cs, conf.family, t)
    {
    }
  }

  lemma {:induction false} InPhases(run: Settings, phases: seq<Phase>, number: nat, conf: Conf, t: string, c: Conf)
    ensures Play(t, c) in Trace.PhasesScript(run, phases, number, conf) <==>
      c == conf && TemplateAmong(run, phases, number, conf.family, t)
    decreases phases
  {
    if phases != [] {
      InFirst(run, phases, number, conf, t, c);
      InPhases(run, phases[1..], number + 1, conf, t, c);
      AmongFirst(run, phases, number, conf.family, t);
    }
  }

  // ----- nothing else issues plays

  predicate Calm(commands: seq<Command>) {
    forall c :: c in commands ==> !c.Play?
  }

  predicate CalmAct(act: Act)
    decreases act
  {
    match act
    case Run(commands) => Calm(commands)
    case Within(up, body, down) => Calm(up) && CalmActs(body) && Calm(down)
    case Network(_) => true
    case Complete(_) => true
  }

  predicate CalmActs(acts: seq<Act>)
    decreases acts
  {
    acts == [] || (CalmAct(acts[0]) && CalmActs(acts[1..]))
  }

  lemma {:induction false} CalmConcat(x: seq<Act>, y: seq<Act>)
    requires CalmActs(x) && CalmActs(y)
    ensures CalmActs(x + y)
  {
    if x == [] {
      assert x + y == y;
    } else {
      assert (x + y)[0] == x[0] && (x + y)[1..] == x[1..] + y;
      CalmConcat(x[1..], y);
    }
  }

  lemma CalmOne(act: Act)
    ensures CalmActs([act]) <==> CalmAct(act)
  {
    assert [act][1..] == [];
  }

  lemma CalmAround(up: seq<Command>, body: seq<Act>, down: seq<Command>)
    requires Calm(up) && CalmActs(body) && Calm(down)
    ensures CalmActs([Within(up, body, down)])
  {
    CalmOne(Within(up, body, down));
  }

  lemma {:induction false} RoutersCalm(conf: Conf, routers: seq<string>)
    ensures CalmActs(RouterActs(conf, routers))
  {
    if routers != [] {
      var n := |routers| - 1;
      var c := conf.(router := routers[n]);
      RoutersCalm(conf, routers[..n]);
      CalmOne(Network(c));
      CalmAround(RouteUp(conf.link, routers[n]), [Network(c)], RouteDown(conf.link, routers[n]));
      CalmConcat(RouterActs(conf, routers[..n]),
                 [Within(RouteUp(conf.link, routers[n]), [Network(c)], RouteDown(conf.link, routers[n]))]);
    }
  }

  lemma AddrCalm(conf: Conf, entry: IpEntry)
    ensures CalmActs([AddrActs(conf, entry)])
  {
    var c := AddrConf(conf, entry);
    var plays := if c.scope == Intra then [Network(c)] else RouterActs(c, entry.source.routers);
    CalmOne(Network(c));
    RoutersCalm(c, entry.source.routers);
    CalmOne(Complete(c.source));
    CalmConcat(plays, [Complete(c.source)]);
    CalmAround(AddrUp(c.link, c.addr), plays + [Complete(c.source)], AddrDown(c.link, c.addr));
  }

  lemma {:induction false} AddrsCalm(conf: Conf, ips: seq<IpEntry>)
    ensures CalmActs(AddrsActs(conf, ips))
  {
    if ips != [] {
      var n := |ips| - 1;
      AddrsCalm(conf, ips[..n]);
      AddrCalm(conf, ips[n]);
      CalmConcat(AddrsActs(conf, ips[..n]), [AddrActs(conf, ips[n])]);
    }
  }

  lemma CaptureCalm(dev: string, seconds: nat)
    ensures CalmActs(CaptureActs(dev, seconds))
  {
    CalmOne(CaptureActs(dev, seconds)[0]);
  }

  lemma MacCalm(conf: Conf, entry: MacEntry)
    ensures CalmActs([MacActs(conf, entry)])
  {
    var c := conf.(mac := entry.mac);
    var capture := if c.vlan == NONE then CaptureActs(c.link, 90) else [];
    var link := Within(RaiseLink(c.link), capture + AddrsActs(c, entry.ips), LowerLink(c.link));
    CaptureCalm(c.link, 90);
    AddrsCalm(c, entry.ips);
    CalmConcat(capture, AddrsActs(c, entry.ips));
    CalmAround(RaiseLink(c.link), capture + AddrsActs(c, entry.ips), LowerLink(c.link));
    CalmAround(MacUp(c.link, c.mac), [link], MacDown(c.link, c.mac));
  }

  lemma {:induction false} MacsCalm(conf: Conf, macs: seq<MacEntry>)
    ensures CalmActs(MacsActs(conf, macs))
  {
    if macs != [] {
      var n := |macs| - 1;
      MacsCalm(conf, macs[..n]);
      MacCalm(conf, macs[n]);
      CalmConcat(MacsActs(conf, macs[..n]), [MacActs(conf, macs[n])]);
    }
  }

  lemma {:induction false} VlansCalm(scope: Scope, stage: nat, iface: string, vlans: seq<VlanEntry>, tagged: bool)
    ensures CalmActs(VlansActs(scope, stage, iface, vlans, tagged))
  {
    if vlans != [] {
      var n := |vlans| - 1;
      VlansCalm(scope, stage, iface, vlans[..n], tagged);
      VlanCalm(scope, stage, iface, vlans[n]);
      CalmConcat(VlansActs(scope, stage, iface, vlans[..n], tagged),
        if (vlans[n].vlan != NONE) == tagged then [VlanActs(scope, stage, iface, vlans[n])] else []);
    }
  }

  lemma VlanCalm(scope: Scope, stage: nat, iface: string, entry: VlanEntry)
    ensures CalmActs([VlanActs(scope, stage, iface, entry)])
  {
    var conf := VlanConf(scope, stage, iface, entry.vlan);
    MacsCalm(conf, entry.macs);
    CalmAround(VlanUp(iface, entry.vlan), if ValidVlan(entry.vlan) then MacsActs(conf, entry.macs) else [],
               VlanDown(iface, entry.vlan));
  }

  lemma IfaceCalm(run: Settings, scope: Scope, stage: nat, entry: IfaceEntry)
    requires NoEmptyLevel(entry)
    ensures CalmActs(IfaceActs(run, scope, stage, entry))
  {
    var iface, mac := entry.name, entry.vlans[0].macs[0].mac;
    var capture := CaptureActs(iface, run.captureSeconds);
    var tagged := VlansActs(scope, stage, iface, entry.vlans, true);
    var link := Within(RaiseLink(iface), capture + tagged, LowerLink(iface));
    CaptureCalm(iface, run.captureSeconds);
    VlansCalm(scope, stage, iface, entry.vlans, true);
    VlansCalm(scope, stage, iface, entry.vlans, false);
    CalmConcat(capture, tagged);
    CalmAround(RaiseLink(iface), capture + tagged, LowerLink(iface));
    CalmAround(MacUp(iface, mac), [link], MacDown(iface, mac));
    CalmConcat([Within(MacUp(iface, mac), [link], MacDown(iface, mac))],
               VlansActs(scope, stage, iface, entry.vlans, false));
  }

  lemma {:induction false} StageCalm(run: Settings, scope: Scope, stage: nat, ifaces: seq<IfaceEntry>)
    requires forall i :: i in ifaces ==> NoEmptyLevel(i)
    ensures CalmActs(StageActs(run, scope, stage, ifaces))
  {
    if ifaces != [] {
      var n := |ifaces| - 1;
      StageCalm(run, scope, stage, ifaces[..n]);
      IfaceCalm(run, scope, stage, ifaces[n]);
      CalmConcat(StageActs(run, scope, stage, ifaces[..n]), IfaceActs(run, scope, stage, ifaces[n]));
    }
  }

  lemma {:induction false} StagesCalm(run: Settings, scope: Scope, stages: seq<StageEntry>)
    requires forall s :: s in stages ==> WellFormedStage(s)
    ensures CalmActs(StagesActs(run, scope, stages))
  {
    if stages != [] {
      assert WellFormedStage(stages[0]);
      StageCalm(run, scope, stages[0].number, stages[0].ifaces);
      StagesCalm(run, scope, stages[1..]);
      CalmConcat(StageActs(run, scope, stages[0].number, stages[0].ifaces), StagesActs(run, scope, stages[1..]));
    }
  }

  // ----- the plays of acts are those of their sessions

  /** The play is of the session's network. */
  ghost predicate OfSession(run: Settings, t: string, c: Conf) {
    TemplateAmong(run, Plays(run, c.scope), 1, c.family, t)
  }

  lemma {:induction false} ActPlays(run: Settings, act: Act, t: string, c: Conf)
    requires CalmAct(act)
    ensures Play(t, c) in Trace.ActScript(run, act) <==>
      Session(c) in Trace.ActMarks(run.execute, act) && OfSession(run, t, c)
    decreases act
  {
    match act
    case Run(_) =>
    case Within(_, body, _) => ActsPlays(run, body, t, c);
    case Network(conf) => InPhases(run, Plays(run, conf.scope), 1, conf, t, c);
    case Complete(_) =>
  }

  lemma {:induction false} ActsPlays(run: Settings, acts: seq<Act>, t: string, c: Conf)
    requires CalmActs(acts)
    ensures Play(t, c) in Trace.Script(run, acts) <==>
      Session(c) in Trace.ActsMarks(run.execute, acts) && OfSession(run, t, c)
    decreases acts
  {
    if acts != [] {
      ActPlays(run, acts[0], t, c);
      ActsPlays(run, acts[1..], t, c);
    }
  }
}
