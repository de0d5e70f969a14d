/** Which setup and teardown commands a run issues, told from its plan. */
module PlaybookSetup {
  import opened Common
  import opened PlaybookModel
  import Commands = PlaybookCommands
  import Trace = PlaybookTrace

  // ----- the commands of each level of the plan

  predicate OfRoute(link: string, r: string, x: Command) {
    x in RouteUp(link, r) || x in RouteDown(link, r)
  }

  predicate OfRoutes(link: string, routers: seq<string>, x: Command) {
    exists r :: r in routers && OfRoute(link, r, x)
  }

  lemma OfRoutesMore(link: string, routers: seq<string>, more: string, x: Command)
    ensures OfRoutes(link, routers + [more], x) <==> OfRoutes(link, routers, x) || OfRoute(link, more, x)
  {
    assert more in routers + [more] && forall r :: r in routers ==> r in routers + [more];
  }

  predicate OfAddr(scope: Scope, link: string, p: IpEntry, x: Command) {
    || x in AddrUp(link, p.addr) || x in AddrDown(link, p.addr)
    || (scope == Inter && OfRoutes(link, p.source.routers, x))
  }

  predicate OfLink(link: string, mac: string, x: Command) {
    x in MacUp(link, mac) || x in MacDown(link, mac) || x in RaiseLink(link) || x in LowerLink(link)
  }

  predicate OfMac(scope: Scope, vlan: nat, link: string, m: MacEntry, x: Command) {
    || OfLink(link, m.mac, x) || (vlan == NONE && x == Capture(link, 90))
    || exists p :: p in m.ips && OfAddr(scope, link, p, x)
  }

  predicate OfVlan(scope: Scope, iface: string, v: VlanEntry, x: Command) {
    || x in VlanUp(iface, v.vlan) || x in VlanDown(iface, v.vlan)
    || (ValidVlan(v.vlan) && exists m :: m in v.macs && OfMac(scope, v.vlan, LinkName(iface, v.vlan), m, x))
  }

  predicate OfIface(run: Settings, scope: Scope, i: IfaceEntry, x: Command)
    requires NoEmptyLevel(i)
  {
    || OfLink(i.name, i.vlans[0].macs[0].mac, x)
    || x == Capture(i.name, if run.captureSeconds < 90 then 90 else run.captureSeconds)
    || exists v :: v in i.vlans && OfVlan(scope, i.name, v, x)
  }

  lemma InWithin(run: Settings, up: seq<Command>, body: seq<Act>, down: seq<Command>, x: Command)
    ensures x in Trace.Script(run, [Within(up, body, down)]) <==> x in up || x in Trace.Script(run, body) || x in down
  {
    assert [Within(up, body, down)][1..] == [];
  }

  lemma InBoth(run: Settings, a: seq<Act>, b: seq<Act>, x: Command)
    ensures x in Trace.Script(run, a + b) <==> x in Trace.Script(run, a) || x in Trace.Script(run, b)
  {
    Trace.ScriptConcat(run, a, b);
  }

  lemma {:induction false} NoneInSets(sets: Phase, conf: Conf, x: Command)
    requires !x.Play?
    ensures x !in Trace.SetsScript(sets, conf)
  {
    if sets != [] { NoneInSets(sets[1..], conf, x); }
  }

  lemma {:induction false} NoneInPhases(run: Settings, phases: seq<Phase>, number: nat, conf: Conf, x: Command)
    requires !x.Play?
    ensures x !in Trace.PhasesScript(run, phases, number, conf)
    decreases phases
  {
    if phases != [] {
      NoneInSets(phases[0], conf, x);
      NoneInPhases(run, phases[1..], number + 1, conf, x);
    }
  }

  lemma NoneInNetwork(run: Settings, conf: Conf, x: Command)
    requires !x.Play?
    ensures x !in Trace.Script(run, [Network(conf)])
  {
    NoneInPhases(run, Plays(run, conf.scope), 1, conf, x);
    assert [Network(conf)][1..] == [];
  }

  lemma {:induction false} InRouters(run: Settings, conf: Conf, routers: seq<string>, x: Command)
    requires !x.Play?
    ensures x in Trace.Script(run, RouterActs(conf, routers)) <==> OfRoutes(conf.link, routers, x)
  {
    if routers != [] {
      var n := |routers| - 1;
      var c := conf.(router := routers[n]);
      assert routers == routers[..n] + [routers[n]];
      InRouters(run, conf, routers[..n], x);
      NoneInNetwork(run, c, x);
      InWithin(run, RouteUp(conf.link, routers[n]), [Network(c)], RouteDown(conf.link, routers[n]), x);
      InBoth(run, RouterActs(conf, routers[..n]),
             [Within(RouteUp(conf.link, routers[n]), [Network(c)], RouteDown(conf.link, routers[n]))], x);
      OfRoutesMore(conf.link, routers[..n], routers[n], x);
    }
  }

  lemma InAddr(run: Settings, conf: Conf, entry: IpEntry, x: Command)
    requires !x.Play?
    ensures x in Trace.Script(run, [AddrActs(conf, entry)]) <==> OfAddr(conf.scope, conf.link, entry, x)
  {
    var c := AddrConf(conf, entry);
    var plays := if c.scope == Intra then [Network(c)] else RouterActs(c, entry.source.routers);
    NoneInNetwork(run, c, x);
    InRouters(run, c, entry.source.routers, x);
    InBoth(run, plays, [Complete(c.source)], x);
    assert [Complete(c.source)][1..] == [];
    InWithin(run, AddrUp(c.link, c.addr), plays + [Complete(c.source)], AddrDown(c.link, c.addr), x);
  }

  lemma {:induction false} InAddrs(run: Settings, conf: Conf, ips: seq<IpEntry>, x: Command)
    requires !x.Play?
    ensures x in Trace.Script(run, AddrsActs(conf, ips)) <==>
      exists p :: p in ips && OfAddr(conf.scope, conf.link, p, x)
  {
    if ips != [] {
      var n := |ips| - 1;
      assert ips == ips[..n] + [ips[n]];
      InAddrs(run, conf, ips[..n], x);
      InAddr(run, conf, ips[n], x);
      InBoth(run, AddrsActs(conf, ips[..n]), [AddrActs(conf, ips[n])], x);
    }
  }

  lemma InCapture(run: Settings, dev: string, seconds: nat, x: Command)
    ensures x in Trace.Script(run, CaptureActs(dev, seconds)) <==>
      x == Capture(dev, if seconds < 90 then 90 else seconds)
  {
    assert CaptureActs(dev, seconds)[1..] == [];
  }

  /** A link raised with a MAC of its own, around what else is done. */
  lemma InRaised(run: Settings, link: string, mac: string, body: seq<Act>, x: Command)
    ensures x in Trace.Script(run, [Within(MacUp(link, mac), [Within(RaiseLink(link), body, LowerLink(link))],
                                           MacDown(link, mac))]) <==>
      OfLink(link, mac, x) || x in Trace.Script(run, body)
  {
    InWithin(run, RaiseLink(link), body, LowerLink(link), x);
    InWithin(run, MacUp(link, mac), [Within(RaiseLink(link), body, LowerLink(link))], MacDown(link, mac), x);
  }

  lemma InMac(run: Settings, conf: Conf, entry: MacEntry, x: Command)
    requires !x.Play?
    ensures x in Trace.Script(run, [MacActs(conf, entry)]) <==> OfMac(conf.scope, conf.vlan, conf.link, entry, x)
  {
    var c := conf.(mac := entry.mac);
    var capture := if c.vlan == NONE then CaptureActs(c.link, 90) else [];
    InAddrs(run, c, entry.ips, x);
    InCapture(run, c.link, 90, x);
    InBoth(run, capture, AddrsActs(c, entry.ips), x);
    InRaised(run, c.link, c.mac, capture + AddrsActs(c, entry.ips), x);
  }

  lemma {:induction false} InMacs(run: Settings, conf: Conf, macs: seq<MacEntry>, x: Command)
    requires !x.Play?
    ensures x in Trace.Script(run, MacsActs(conf, macs)) <==>
      exists m :: m in macs && OfMac(conf.scope, conf.vlan, conf.link, m, x)
  {
    if macs != [] {
      var n := |macs| - 1;
      assert macs == macs[..n] + [macs[n]];
      InMacs(run, conf, macs[..n], x);
      InMac(run, conf, macs[n], x);
      InBoth(run, MacsActs(conf, macs[..n]), [MacActs(conf, macs[n])], x);
    }
  }

  lemma InVlan(run: Settings, scope: Scope, stage: nat, iface: string, entry: VlanEntry, x: Command)
    requires !x.Play?
    ensures x in Trace.Script(run, [VlanActs(scope, stage, iface, entry)]) <==> OfVlan(scope, iface, entry, x)
  {
    var conf := VlanConf(scope, stage, iface, entry.vlan);
    InMacs(run, conf, entry.macs, x);
    InWithin(run, VlanUp(iface, entry.vlan), if ValidVlan(entry.vlan) then MacsActs(conf, entry.macs) else [],
             VlanDown(iface, entry.vlan), x);
  }

  lemma {:induction false} InVlans(run: Settings, scope: Scope, stage: nat, iface: string, vlans: seq<VlanEntry>,
                                   tagged: bool, x: Command)
    requires !x.Play?
    ensures x in Trace.Script(run, VlansActs(scope, stage, iface, vlans, tagged)) <==>
      exists v :: v in vlans && (v.vlan != NONE) == tagged && OfVlan(scope, iface, v, x)
  {
    if vlans != [] {
      var n := |vlans| - 1;
      assert vlans == vlans[..n] + [vlans[n]];
      InVlans(run, scope, stage, iface, vlans[..n], tagged, x);
      InVlan(run, scope, stage, iface, vlans[n], x);
      InBoth(run, VlansActs(scope, stage, iface, vlans[..n], tagged),
             if (vlans[n].vlan != NONE) == tagged then [VlanActs(scope, stage, iface, vlans[n])] else [], x);
    }
  }

  lemma InIface(run: Settings, scope: Scope, stage: nat, entry: IfaceEntry, x: Command)
    requires NoEmptyLevel(entry) && !x.Play?
    ensures x in Trace.Script(run, IfaceActs(run, scope, stage, entry)) <==> OfIface(run, scope, entry, x)
  {
    var iface, mac := entry.name, entry.vlans[0].macs[0].mac;
    var capture := CaptureActs(iface, run.captureSeconds);
    var tagged := VlansActs(scope, stage, iface, entry.vlans, true);
    var raised := [Within(MacUp(iface, mac), [Within(RaiseLink(iface), capture + tagged, LowerLink(iface))],
                          MacDown(iface, mac))];
    InCapture(run, iface, run.captureSeconds, x);
    InVlans(run, scope, stage, iface, entry.vlans, true, x);
    InVlans(run, scope, stage, iface, entry.vlans, false, x);
    InBoth(run, capture, tagged, x);
    InRaised(run, iface, mac, capture + tagged, x);
    InBoth(run, raised, VlansActs(scope, stage, iface, entry.vlans, false), x);
  }

  predicate InSome(run: Settings, scope: Scope, ifaces: seq<IfaceEntry>, x: Command)
    requires forall i :: i in ifaces ==> NoEmptyLevel(i)
  {
    exists i :: i in ifaces && OfIface(run, scope, i, x)
  }

  lemma InSomeMore(run: Settings, scope: Scope, ifaces: seq<IfaceEntry>, more: IfaceEntry, x: Command)
    requires NoEmptyLevel(more) && forall i :: i in ifaces ==> NoEmptyLevel(i)
    ensures InSome(run, scope, ifaces + [more], x) <==> InSome(run, scope, ifaces, x) || OfIface(run, scope, more, x)
  {
    assert more in ifaces + [more] && forall i :: i in ifaces ==> i in ifaces + [more];
  }

  lemma {:induction false} InStage(run: Settings, scope: Scope, stage: nat, ifaces: seq<IfaceEntry>, x: Command)
    requires !x.Play? && forall i :: i in ifaces ==> NoEmptyLevel(i)
    ensures x in Trace.Script(run, StageActs(run, scope, stage, ifaces)) <==> InSome(run, scope, ifaces, x)
  {
    if ifaces != [] {
      var n := |ifaces| - 1;
      assert ifaces == ifaces[..n] + [ifaces[n]] && ifaces[n] in ifaces;
      InStage(run, scope, stage, ifaces[..n], x);
      InIface(run, scope, stage, ifaces[n], x);
      InBoth(run, StageActs(run, scope, stage, ifaces[..n]), IfaceActs(run, scope, stage, ifaces[n]), x);
      InSomeMore(run, scope, ifaces[..n], ifaces[n], x);
    }
  }

  ghost predicate InSomeStage(run: Settings, scope: Scope, stages: seq<StageEntry>, x: Command)
    requires forall s :: s in stages ==> WellFormedStage(s)
  {
    exists s :: s in stages && WellFormedStage(s) && InSome(run, scope, s.ifaces, x)
  }

  lemma InSomeStageMore(run: Settings, scope: Scope, first: StageEntry, rest: seq<StageEntry>, x: Command)
    requires WellFormedStage(first) && forall s :: s in rest ==> WellFormedStage(s)
    ensures InSomeStage(run, scope, [first] + rest, x) <==>
      InSome(run, scope, first.ifaces, x) || InSomeStage(run, scope, rest, x)
  {
    assert first in [first] + rest && forall s :: s in rest ==> s in [first] + rest;
  }

  lemma {:induction false} InStages(run: Settings, scope: Scope, stages: seq<StageEntry>, x: Command)
    requires !x.Play? && forall s :: s in stages ==> WellFormedStage(s)
    ensures x in Trace.Script(run, StagesActs(run, scope, stages)) <==> InSomeStage(run, scope, stages, x)
  {
    if stages != [] {
      var first, rest := stages[0], stages[1..];
      assert WellFormedStage(first) && stages == [first] + rest;
      InStage(run, scope, first.number, first.ifaces, x);
      InStages(run, scope, rest, x);
      InBoth(run, StageActs(run, scope, first.number, first.ifaces), StagesActs(run, scope, rest), x);
      InSomeStageMore(run, scope, first, rest, x);
    }
  }

  // ----- a run's setup commands

  /** The interface is of a stage that goes, and uses the command. */
  ghost predicate UsedBy(run: Settings, scope: Scope, playbook: seq<StageEntry>, x: Command, n: nat, i: IfaceEntry) {
    Commands.Goes(run, playbook, n) && i in playbook[n].ifaces && NoEmptyLevel(i) && OfIface(run, scope, i, x)
  }

  /** A run issues, besides plays, exactly the commands that the interfaces of the stages that go use. */
  lemma SetupOfRun(run: Settings, scope: Scope, playbook: seq<StageEntry>, x: Command)
    requires !x.Play? && forall s :: s in playbook ==> WellFormedStage(s)
    ensures Commands.IssuedIn(RunPlaybook(run, scope, playbook).log, x) <==>
      exists n: nat, i :: UsedBy(run, scope, playbook, x, n, i)
  {
    var stages := StagesRun(run, playbook);
    Commands.IssuedIsScripted(run, scope, playbook, x);
    InStages(run, scope, stages, x);
    if InSomeStage(run, scope, stages, x) {
      var s :| s in stages && WellFormedStage(s) && InSome(run, scope, s.ifaces, x);
      var i :| i in s.ifaces && OfIface(run, scope, i, x);
      Commands.StagesThatGo(run, playbook, s);
      var n: nat :| Commands.Goes(run, playbook, n) && playbook[n] == s;
      assert UsedBy(run, scope, playbook, x, n, i);
    }
    if n: nat, i :| UsedBy(run, scope, playbook, x, n, i) {
      Commands.StagesThatGo(run, playbook, playbook[n]);
      assert WellFormedStage(playbook[n]) && InSome(run, scope, playbook[n].ifaces, x);
    }
  }

  // ----- what an interface uses, kind by kind

  predicate Usable(v: VlanEntry) {
    v.vlan < 0x0FFF || v.vlan == 0xFFFF
  }

  /** The link of a VLAN, or without one the interface. */
  function LinkOf(i: IfaceEntry, v: VlanEntry): (link: string)
    ensures link == LinkName(i.name, v.vlan)
  {
    if v.vlan < 0x0FFF then i.name + "." + Decimal(v.vlan) else i.name
  }

  predicate HasMac(i: IfaceEntry, v: VlanEntry, m: MacEntry) {
    v in i.vlans && Usable(v) && m in v.macs
  }

  predicate HasSource(i: IfaceEntry, v: VlanEntry, m: MacEntry, p: IpEntry) {
    HasMac(i, v, m) && p in m.ips
  }

  lemma NoLinkCommand(link: string, mac: string, x: Command)
    requires x.AddAddr? || x.AddRoute? || x.AddDefault? || x.AddVlan? || x.Capture?
    ensures !OfLink(link, mac, x)
  {
  }

  lemma NoVlanCommand(iface: string, id: nat, x: Command)
    requires x.AddAddr? || x.AddRoute? || x.AddDefault? || x.SetMac? || x.Capture?
    ensures x !in VlanUp(iface, id) && x !in VlanDown(iface, id)
  {
  }

  /** Commands of a VLAN's MACs and addresses are those of some MAC of some entry. */
  lemma FromMacs(run: Settings, scope: Scope, i: IfaceEntry, x: Command)
    requires NoEmptyLevel(i) && (x.AddAddr? || x.AddRoute? || x.AddDefault? || x.SetMac?)
    ensures OfIface(run, scope, i, x) <==>
      || OfLink(i.name, i.vlans[0].macs[0].mac, x)
      || exists v, m :: HasMac(i, v, m) && OfMac(scope, v.vlan, LinkOf(i, v), m, x)
  {
    if v :| v in i.vlans && OfVlan(scope, i.name, v, x) {
      NoVlanCommand(i.name, v.vlan, x);
      var m :| m in v.macs && OfMac(scope, v.vlan, LinkName(i.name, v.vlan), m, x);
      assert HasMac(i, v, m) && OfMac(scope, v.vlan, LinkOf(i, v), m, x);
    }
    if v, m :| HasMac(i, v, m) && OfMac(scope, v.vlan, LinkOf(i, v), m, x) {
      assert OfVlan(scope, i.name, v, x);
    }
  }

  /** Commands of addresses are those of some source. */
  lemma FromSources(run: Settings, scope: Scope, i: IfaceEntry, x: Command)
    requires NoEmptyLevel(i) && (x.AddAddr? || x.AddRoute? || x.AddDefault?)
    ensures OfIface(run, scope, i, x) <==>
      exists v, m, p :: HasSource(i, v, m, p) && OfAddr(scope, LinkOf(i, v), p, x)
  {
    FromMacs(run, scope, i, x);
    NoLinkCommand(i.name, i.vlans[0].macs[0].mac, x);
    if v, m :| HasMac(i, v, m) && OfMac(scope, v.vlan, LinkOf(i, v), m, x) {
      NoLinkCommand(LinkOf(i, v), m.mac, x);
      var p :| p in m.ips && OfAddr(scope, LinkOf(i, v), p, x);
      assert HasSource(i, v, m, p) && OfAddr(scope, LinkOf(i, v), p, x);
    }
    if v, m, p :| HasSource(i, v, m, p) && OfAddr(scope, LinkOf(i, v), p, x) {
      assert HasMac(i, v, m) && OfMac(scope, v.vlan, LinkOf(i, v), m, x);
    }
  }

  lemma NoMacCommand(scope: Scope, vlan: nat, link: string, m: MacEntry, x: Command)
    requires x.AddVlan?
    ensures !OfMac(scope, vlan, link, m, x)
  {
    NoLinkCommand(link, m.mac, x);
    forall p: IpEntry ensures !OfAddr(scope, link, p, x) {
      NoRouteCommand(link, p.source.routers, x);
    }
  }

  lemma NoRouteCommand(link: string, routers: seq<string>, x: Command)
    requires x.AddVlan? || x.Capture? || x.AddAddr? || x.SetMac?
    ensures !OfRoutes(link, routers, x)
  {
    forall r ensures !OfRoute(link, r, x) {
    }
  }

  lemma VlanLinkOf(scope: Scope, iface: string, v: VlanEntry, base: string, name: string, id: nat)
    ensures OfVlan(scope, iface, v, AddVlan(base, name, id)) <==>
      v.vlan == id && id < 0x0FFF && base == iface && name == iface + "." + Decimal(id)
  {
    forall m ensures !OfMac(scope, v.vlan, LinkName(iface, v.vlan), m, AddVlan(base, name, id)) {
      NoMacCommand(scope, v.vlan, LinkName(iface, v.vlan), m, AddVlan(base, name, id));
    }
  }

  /** A VLAN link is added for each id below 0x0FFF, on the interface and named after both. */
  lemma VlanLinks(run: Settings, scope: Scope, i: IfaceEntry, base: string, name: string, id: nat)
    requires NoEmptyLevel(i)
    ensures OfIface(run, scope, i, AddVlan(base, name, id)) <==>
      id < 0x0FFF && base == i.name && name == i.name + "." + Decimal(id) && exists v :: v in i.vlans && v.vlan == id
  {
    NoLinkCommand(i.name, i.vlans[0].macs[0].mac, AddVlan(base, name, id));
    forall v: VlanEntry ensures OfVlan(scope, i.name, v, AddVlan(base, name, id)) <==>
      v.vlan == id && id < 0x0FFF && base == i.name && name == i.name + "." + Decimal(id)
    {
      VlanLinkOf(scope, i.name, v, base, name, id);
    }
  }

  lemma MacOf(scope: Scope, vlan: nat, link: string, m: MacEntry, mac: string, dev: string)
    ensures OfMac(scope, vlan, link, m, SetMac(mac, dev)) <==> mac != "" && m.mac == mac && dev == link
    ensures OfLink(link, m.mac, SetMac(mac, dev)) <==> mac != "" && m.mac == mac && dev == link
  {
    forall p: IpEntry ensures !OfAddr(scope, link, p, SetMac(mac, dev)) {
      NoRouteCommand(link, p.source.routers, SetMac(mac, dev));
    }
  }

  /** Each MAC is set on its own link, and the interface's first one on the interface. */
  lemma MacsSet(run: Settings, scope: Scope, i: IfaceEntry, mac: string, dev: string)
    requires NoEmptyLevel(i)
    ensures OfIface(run, scope, i, SetMac(mac, dev)) <==>
      mac != "" &&
      ((dev == i.name && mac == i.vlans[0].macs[0].mac) ||
       exists v, m :: HasMac(i, v, m) && m.mac == mac && dev == LinkOf(i, v))
  {
    FromMacs(run, scope, i, SetMac(mac, dev));
    MacOf(scope, 0, i.name, i.vlans[0].macs[0], mac, dev);
    forall v: VlanEntry, m: MacEntry
      ensures OfMac(scope, v.vlan, LinkOf(i, v), m, SetMac(mac, dev)) <==>
        mac != "" && m.mac == mac && dev == LinkOf(i, v)
    {
      MacOf(scope, v.vlan, LinkOf(i, v), m, mac, dev);
    }
  }

  lemma AddrOf(scope: Scope, link: string, p: IpEntry, addr: string, dev: string)
    ensures OfAddr(scope, link, p, AddAddr(addr, dev)) <==> p.addr == addr && dev == link
  {
    NoRouteCommand(link, p.source.routers, AddAddr(addr, dev));
  }

  /** Each source's address is added to its own link. */
  lemma AddrsAdded(run: Settings, scope: Scope, i: IfaceEntry, addr: string, dev: string)
    requires NoEmptyLevel(i)
    ensures OfIface(run, scope, i, AddAddr(addr, dev)) <==>
      exists v, m, p :: HasSource(i, v, m, p) && p.addr == addr && dev == LinkOf(i, v)
  {
    FromSources(run, scope, i, AddAddr(addr, dev));
    forall v: VlanEntry, p: IpEntry
      ensures OfAddr(scope, LinkOf(i, v), p, AddAddr(addr, dev)) <==> p.addr == addr && dev == LinkOf(i, v)
    {
      AddrOf(scope, LinkOf(i, v), p, addr, dev);
    }
  }

  lemma RouteOf(scope: Scope, link: string, p: IpEntry, r: string, dev: string)
    ensures OfAddr(scope, link, p, AddRoute(r, dev)) <==> scope == Inter && r in p.source.routers && dev == link
    ensures OfAddr(scope, link, p, AddDefault(r)) <==> scope == Inter && r in p.source.routers
  {
    forall q ensures OfRoute(link, q, AddRoute(r, dev)) <==> q == r && dev == link {
    }
    forall q ensures OfRoute(link, q, AddDefault(r)) <==> q == r {
    }
  }

  /** In an inter-network run a route to each of a source's routers is added on its link; in an intra-network
      run there are none. */
  lemma RoutesAdded(run: Settings, scope: Scope, i: IfaceEntry, r: string, dev: string)
    requires NoEmptyLevel(i)
    ensures OfIface(run, scope, i, AddRoute(r, dev)) <==>
      scope == Inter && exists v, m, p :: HasSource(i, v, m, p) && r in p.source.routers && dev == LinkOf(i, v)
  {
    FromSources(run, scope, i, AddRoute(r, dev));
    forall v: VlanEntry, p: IpEntry ensures OfAddr(scope, LinkOf(i, v), p, AddRoute(r, dev)) <==>
      scope == Inter && r in p.source.routers && dev == LinkOf(i, v)
    {
      RouteOf(scope, LinkOf(i, v), p, r, dev);
    }
  }

  /** And a default route through the router. */
  lemma DefaultsAdded(run: Settings, scope: Scope, i: IfaceEntry, r: string)
    requires NoEmptyLevel(i)
    ensures OfIface(run, scope, i, AddDefault(r)) <==>
      scope == Inter && exists v, m, p :: HasSource(i, v, m, p) && r in p.source.routers
  {
    FromSources(run, scope, i, AddDefault(r));
    forall v: VlanEntry, p: IpEntry
      ensures OfAddr(scope, LinkOf(i, v), p, AddDefault(r)) <==> scope == Inter && r in p.source.routers
    {
      RouteOf(scope, LinkOf(i, v), p, r, "");
    }
  }

  lemma CaptureOf(scope: Scope, vlan: nat, link: string, m: MacEntry, dev: string, seconds: nat)
    ensures OfMac(scope, vlan, link, m, Capture(dev, seconds)) <==> vlan == 0xFFFF && dev == link && seconds == 90
  {
    NoLinkCommand(link, m.mac, Capture(dev, seconds));
    forall p: IpEntry ensures !OfAddr(scope, link, p, Capture(dev, seconds)) {
      NoRouteCommand(link, p.source.routers, Capture(dev, seconds));
    }
  }

  lemma CaptureOfVlan(scope: Scope, iface: string, v: VlanEntry, dev: string, seconds: nat)
    requires v.macs != []
    ensures OfVlan(scope, iface, v, Capture(dev, seconds)) <==> v.vlan == 0xFFFF && dev == iface && seconds == 90
  {
    NoVlanCommand(iface, v.vlan, Capture(dev, seconds));
    forall m ensures OfMac(scope, v.vlan, LinkName(iface, v.vlan), m, Capture(dev, seconds)) <==>
      v.vlan == 0xFFFF && dev == LinkName(iface, v.vlan) && seconds == 90
    {
      CaptureOf(scope, v.vlan, LinkName(iface, v.vlan), m, dev, seconds);
    }
    assert v.macs[0] in v.macs;
  }

  /** The interface is captured for the time set, but for 90 seconds at least, and for 90 seconds when it is
      used without a VLAN. */
  lemma CapturesMade(run: Settings, scope: Scope, i: IfaceEntry, dev: string, seconds: nat)
    requires NoEmptyLevel(i)
    ensures OfIface(run, scope, i, Capture(dev, seconds)) <==>
      dev == i.name &&
      (seconds == (if run.captureSeconds < 90 then 90 else run.captureSeconds) ||
       (seconds == 90 && exists v :: v in i.vlans && v.vlan == 0xFFFF))
  {
    NoLinkCommand(i.name, i.vlans[0].macs[0].mac, Capture(dev, seconds));
    forall v | v in i.vlans
      ensures OfVlan(scope, i.name, v, Capture(dev, seconds)) <==> v.vlan == 0xFFFF && dev == i.name && seconds == 90
    {
      CaptureOfVlan(scope, i.name, v, dev, seconds);
    }
  }
}
