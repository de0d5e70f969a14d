/** The executed setup and teardown blocks of a run are well nested. */
module PlaybookNesting {
  import opened Common
  import opened PlaybookModel
  import opened PlaybookTrace

  datatype Block =
    | Vlan(name: string)
    | Mac(dev: string)
    | Link(dev: string)
    | Addr(addr: string, dev: string)
    | Route(dst: string, dev: string)
    | Default(via: string)

  function Opens(c: Command): Option<Block> {
    match c
    case AddVlan(_, name, _) => Some(Vlan(name))
    case SetMac(_, dev) => Some(Mac(dev))
    case LinkUp(dev) => Some(Link(dev))
    case AddAddr(addr, dev) => Some(Addr(addr, dev))
    case AddRoute(dst, dev) => Some(Route(dst, dev))
    case AddDefault(via) => Some(Default(via))
    case _ => None
  }

  function Closes(c: Command): Option<Block> {
    match c
    case DelLink(name) => Some(Vlan(name))
    case ResetMac(dev) => Some(Mac(dev))
    case LinkDown(dev) => Some(Link(dev))
    case DelAddr(addr, dev) => Some(Addr(addr, dev))
    case DelRoute(dst, dev) => Some(Route(dst, dev))
    case DelDefault(via) => Some(Default(via))
    case _ => None
  }

  /** The blocks left open after `commands`; nothing if one was closed that was not the last opened. */
  function Nest(open: seq<Block>, commands: seq<Command>): Option<seq<Block>>
    decreases commands
  {
    if commands == [] then Some(open)
    else
      var c := commands[0];
      if Opens(c).Some? then Nest(open + [Opens(c).value], commands[1..])
      else if Closes(c).None? then Nest(open, commands[1..])
      else if open != [] && open[|open| - 1] == Closes(c).value then Nest(open[..|open| - 1], commands[1..])
      else None
  }

  lemma {:induction false} NestConcat(open: seq<Block>, a: seq<Command>, b: seq<Command>)
    ensures Nest(open, a + b) == match Nest(open, a) case None => None case Some(mid) => Nest(mid, b)
    decreases a
  {
    if a == [] {
      assert a + b == b;
    } else {
      assert (a + b)[0] == a[0] && (a + b)[1..] == a[1..] + b;
      var c := a[0];
      if Opens(c).Some? { NestConcat(open + [Opens(c).value], a[1..], b); }
      else if Closes(c).None? { NestConcat(open, a[1..], b); }
      else if open != [] && open[|open| - 1] == Closes(c).value { NestConcat(open[..|open| - 1], a[1..], b); }
    }
  }

  lemma {:induction false} NotPlaysAll(commands: seq<Command>)
    requires forall c :: c in commands ==> !c.Play?
    ensures NotPlays(commands) == commands
  {
    if commands != [] {
      NotPlaysAll(commands[..|commands| - 1]);
      assert commands[|commands| - 1] in commands;
    }
  }

  lemma {:induction false} SetupConcat(x: seq<Act>, y: seq<Act>)
    ensures Setup(x + y) == Setup(x) + Setup(y)
  {
    if x == [] {
      assert x + y == y;
    } else {
      assert (x + y)[0] == x[0] && (x + y)[1..] == x[1..] + y;
      SetupConcat(x[1..], y);
    }
  }

  lemma SetupOne(act: Act)
    ensures Setup([act]) == ActSetup(act)
  {
  }

  lemma RouteNoPlays(dev: string, r: string)
    ensures NotPlays(RouteUp(dev, r)) == RouteUp(dev, r) && NotPlays(RouteDown(dev, r)) == RouteDown(dev, r)
  {
    NotPlaysAll(RouteUp(dev, r));
    NotPlaysAll(RouteDown(dev, r));
  }

  lemma AddrNoPlays(dev: string, addr: string)
    ensures NotPlays(AddrUp(dev, addr)) == AddrUp(dev, addr) && NotPlays(AddrDown(dev, addr)) == AddrDown(dev, addr)
  {
    NotPlaysAll(AddrUp(dev, addr));
    NotPlaysAll(AddrDown(dev, addr));
  }

  lemma MacNoPlays(dev: string, mac: string)
    ensures NotPlays(MacUp(dev, mac)) == MacUp(dev, mac) && NotPlays(MacDown(dev, mac)) == MacDown(dev, mac)
  {
    NotPlaysAll(MacUp(dev, mac));
    NotPlaysAll(MacDown(dev, mac));
  }

  lemma LinkNoPlays(dev: string)
    ensures NotPlays(RaiseLink(dev)) == RaiseLink(dev) && NotPlays(LowerLink(dev)) == LowerLink(dev)
  {
    NotPlaysAll(RaiseLink(dev));
    NotPlaysAll(LowerLink(dev));
  }

  lemma VlanNoPlays(iface: string, vlan: nat)
    ensures NotPlays(VlanUp(iface, vlan)) == VlanUp(iface, vlan)
    ensures NotPlays(VlanDown(iface, vlan)) == VlanDown(iface, vlan)
  {
    NotPlaysAll(VlanUp(iface, vlan));
    NotPlaysAll(VlanDown(iface, vlan));
  }

  /** `acts` opens and closes blocks of its own only (`good`), or closes one it did not open. */
  ghost predicate Nested(open: seq<Block>, acts: seq<Act>, good: bool) {
    Nest(open, Setup(acts)) == if good then Some(open) else None
  }

  lemma NestedConcat(open: seq<Block>, x: seq<Act>, y: seq<Act>, p: bool, q: bool)
    requires Nested(open, x, p) && Nested(open, y, q)
    ensures Nested(open, x + y, p && q)
  {
    SetupConcat(x, y);
    NestConcat(open, Setup(x), Setup(y));
  }

  lemma NestedWithin(open: seq<Block>, inside: seq<Block>, up: seq<Command>, body: seq<Act>, down: seq<Command>,
                     good: bool)
    requires NotPlays(up) == up && NotPlays(down) == down
    requires Nest(open, up) == Some(inside) && Nested(inside, body, good) && Nest(inside, down) == Some(open)
    ensures Nested(open, [Within(up, body, down)], good)
  {
    SetupOne(Within(up, body, down));
    NestConcat(open, up + Setup(body), down);
    NestConcat(open, up, Setup(body));
  }

  lemma NestOpen(open: seq<Block>, c: Command, b: Block, rest: seq<Command>)
    requires Opens(c) == Some(b)
    ensures Nest(open, [c] + rest) == Nest(open + [b], rest)
  {
    assert ([c] + rest)[1..] == rest;
  }

  lemma NestClose(open: seq<Block>, c: Command, b: Block, rest: seq<Command>)
    requires Closes(c) == Some(b)
    ensures Nest(open + [b], [c] + rest) == Nest(open, rest)
  {
    assert ([c] + rest)[1..] == rest && (open + [b])[..|open|] == open;
  }

  lemma NestSkip(open: seq<Block>, c: Command, rest: seq<Command>)
    requires Opens(c) == None && Closes(c) == None
    ensures Nest(open, [c] + rest) == Nest(open, rest)
  {
    assert ([c] + rest)[1..] == rest;
  }

  lemma NestSkipTwo(open: seq<Block>, a: Command, b: Command, rest: seq<Command>)
    requires Opens(a) == Closes(a) == None && Opens(b) == Closes(b) == None
    ensures Nest(open, [a, b] + rest) == Nest(open, rest)
  {
    assert [a, b] + rest == [a] + ([b] + rest);
    NestSkip(open, a, [b] + rest);
    NestSkip(open, b, rest);
  }

  /** A command that opens a block, or closes it, followed by a pause. */
  lemma NestPaused(open: seq<Block>, up: Command, down: Command, b: Block, x: nat, y: nat)
    requires Opens(up) == Some(b) && Closes(down) == Some(b) && Closes(up) == Opens(down) == None
    ensures Nest(open, [up, Sleep(x)]) == Some(open + [b])
    ensures Nest(open + [b], [down, Sleep(y)]) == Some(open)
  {
    NestOpen(open, up, b, [Sleep(x)]);
    NestClose(open, down, b, [Sleep(y)]);
    assert [up, Sleep(x)] == [up] + [Sleep(x)] && [down, Sleep(y)] == [down] + [Sleep(y)];
  }

  lemma RouteOpens(open: seq<Block>, dev: string, r: string)
    ensures Nest(open, RouteUp(dev, r)) == Some(open + [Route(r, dev)] + [Default(r)])
  {
    var middle := open + [Route(r, dev)];
    var pause := [FlushCache, Sleep(500)] + [];
    assert RouteUp(dev, r) == [AddRoute(r, dev)] + ([AddDefault(r)] + pause);
    NestOpen(open, AddRoute(r, dev), Route(r, dev), [AddDefault(r)] + pause);
    NestOpen(middle, AddDefault(r), Default(r), pause);
    NestSkipTwo(middle + [Default(r)], FlushCache, Sleep(500), []);
  }

  lemma RouteCloses(open: seq<Block>, dev: string, r: string)
    ensures Nest(open + [Route(r, dev)] + [Default(r)], RouteDown(dev, r)) == Some(open)
  {
    var middle := open + [Route(r, dev)];
    var pause := [FlushCache, Sleep(500)] + [];
    assert RouteDown(dev, r) == [DelDefault(r)] + ([DelRoute(r, dev)] + pause);
    NestClose(middle, DelDefault(r), Default(r), [DelRoute(r, dev)] + pause);
    NestClose(open, DelRoute(r, dev), Route(r, dev), pause);
    NestSkipTwo(open, FlushCache, Sleep(500), []);
  }

  lemma AddrBlock(open: seq<Block>, dev: string, addr: string)
    ensures var inside := open + [Addr(addr, dev)];
      Nest(open, AddrUp(dev, addr)) == Some(inside) && Nest(inside, AddrDown(dev, addr)) == Some(open)
  {
    var key := SysctlName(dev);
    NestPaused(open, AddAddr(addr, dev), DelAddr(addr, dev), Addr(addr, dev), 500, 500);
    assert AddrUp(dev, addr) == [SetAutoconf(key, true), SetAcceptRa(key, true)] + [AddAddr(addr, dev), Sleep(500)];
    NestSkipTwo(open, SetAutoconf(key, true), SetAcceptRa(key, true), [AddAddr(addr, dev), Sleep(500)]);
    var rest := [SetAcceptRa(key, false), SetAutoconf(key, false)] + [Sleep(500)];
    assert AddrDown(dev, addr) == [DelAddr(addr, dev)] + rest;
    NestClose(open, DelAddr(addr, dev), Addr(addr, dev), rest);
    NestSkipTwo(open, SetAcceptRa(key, false), SetAutoconf(key, false), [Sleep(500)]);
  }

  lemma LinkBlock(open: seq<Block>, dev: string)
    ensures var inside := open + [Link(dev)];
      Nest(open, RaiseLink(dev)) == Some(inside) && Nest(inside, LowerLink(dev)) == Some(open)
  {
    var key := SysctlName(dev);
    NestPaused(open, LinkUp(dev), LinkDown(dev), Link(dev), 1000, 500);
    assert RaiseLink(dev) == [SetAutoconf(key, false), SetAcceptRa(key, false)] + [LinkUp(dev), Sleep(1000)];
    NestSkipTwo(open, SetAutoconf(key, false), SetAcceptRa(key, false), [LinkUp(dev), Sleep(1000)]);
  }

  // ----- level by level

  lemma {:induction false} RoutersNested(open: seq<Block>, conf: Conf, routers: seq<string>)
    ensures Nested(open, RouterActs(conf, routers), true)
  {
    if routers != [] {
      var n := |routers| - 1;
      var r := routers[n];
      RoutersNested(open, conf, routers[..n]);
      var inside := open + [Route(r, conf.link)] + [Default(r)];
      RouteOpens(open, conf.link, r);
      RouteCloses(open, conf.link, r);
      RouteNoPlays(conf.link, r);
      NestedWithin(open, inside, RouteUp(conf.link, r), [Network(conf.(router := r))], RouteDown(conf.link, r), true);
      NestedConcat(open, RouterActs(conf, routers[..n]),
        [Within(RouteUp(conf.link, r), [Network(conf.(router := r))], RouteDown(conf.link, r))], true, true);
    }
  }

  lemma AddrNested(open: seq<Block>, conf: Conf, entry: IpEntry)
    ensures Nested(open, [AddrActs(conf, entry)], true)
  {
    var c := AddrConf(conf, entry);
    var inside := open + [Addr(c.addr, c.link)];
    var body := if c.scope == Intra then [Network(c)] else RouterActs(c, entry.source.routers);
    RoutersNested(inside, c, entry.source.routers);
    NestedConcat(inside, body, [Complete(c.source)], true, true);
    AddrBlock(open, c.link, c.addr);
    AddrNoPlays(c.link, c.addr);
    NestedWithin(open, inside, AddrUp(c.link, c.addr), body + [Complete(c.source)], AddrDown(c.link, c.addr), true);
  }

  lemma {:induction false} AddrsNested(open: seq<Block>, conf: Conf, ips: seq<IpEntry>)
    ensures Nested(open, AddrsActs(conf, ips), true)
  {
    if ips != [] {
      var n := |ips| - 1;
      AddrsNested(open, conf, ips[..n]);
      AddrNested(open, conf, ips[n]);
      NestedConcat(open, AddrsActs(conf, ips[..n]), [AddrActs(conf, ips[n])], true, true);
    }
  }

  lemma LinkNested(open: seq<Block>, dev: string, body: seq<Act>, good: bool)
    requires Nested(open + [Link(dev)], body, good)
    ensures Nested(open, [Within(RaiseLink(dev), body, LowerLink(dev))], good)
  {
    var inside := open + [Link(dev)];
    LinkBlock(open, dev);
    LinkNoPlays(dev);
    NestedWithin(open, inside, RaiseLink(dev), body, LowerLink(dev), good);
  }

  lemma MacNested(open: seq<Block>, dev: string, mac: string, body: seq<Act>, good: bool)
    requires Nested(if mac == "" then open else open + [Mac(dev)], body, good)
    ensures Nested(open, [Within(MacUp(dev, mac), body, MacDown(dev, mac))], good)
  {
    var inside := if mac == "" then open else open + [Mac(dev)];
    if mac != "" {
      NestPaused(open, SetMac(mac, dev), ResetMac(dev), Mac(dev), 500, 500);
    }
    MacNoPlays(dev, mac);
    NestedWithin(open, inside, MacUp(dev, mac), body, MacDown(dev, mac), good);
  }

  lemma CaptureNested(open: seq<Block>, dev: string, seconds: nat)
    ensures Nested(open, CaptureActs(dev, seconds), true)
  {
    var c := Capture(dev, if seconds < 90 then 90 else seconds);
    NotPlaysAll([c]);
    SetupOne(Run([c]));
    NestSkip(open, c, []);
    assert [c] + [] == [c];
  }

  lemma MacActsNested(open: seq<Block>, conf: Conf, entry: MacEntry)
    ensures Nested(open, [MacActs(conf, entry)], true)
  {
    var c := conf.(mac := entry.mac);
    var middle := if c.mac == "" then open else open + [Mac(c.link)];
    var inside := middle + [Link(c.link)];
    var capture := if c.vlan == NONE then CaptureActs(c.link, 90) else [];
    CaptureNested(inside, c.link, 90);
    AddrsNested(inside, c, entry.ips);
    NestedConcat(inside, capture, AddrsActs(c, entry.ips), true, true);
    LinkNested(middle, c.link, capture + AddrsActs(c, entry.ips), true);
    MacNested(open, c.link, c.mac,
      [Within(RaiseLink(c.link), capture + AddrsActs(c, entry.ips), LowerLink(c.link))], true);
  }

  lemma {:induction false} MacsNested(open: seq<Block>, conf: Conf, macs: seq<MacEntry>)
    ensures Nested(open, MacsActs(conf, macs), true)
  {
    if macs != [] {
      var n := |macs| - 1;
      MacsNested(open, conf, macs[..n]);
      MacActsNested(open, conf, macs[n]);
      NestedConcat(open, MacsActs(conf, macs[..n]), [MacActs(conf, macs[n])], true, true);
    }
  }

  predicate NoReserved(vlans: seq<VlanEntry>) {
    forall v :: v in vlans ==> v.vlan != RESERVED
  }

  /** The reserved id has a teardown without a setup. */
  lemma ReservedNotNested(open: seq<Block>, scope: Scope, stage: nat, iface: string, entry: VlanEntry)
    requires entry.vlan == RESERVED && (open == [] || open[|open| - 1] != Vlan(""))
    ensures Nested(open, [VlanActs(scope, stage, iface, entry)], false)
  {
    ReservedSetup(scope, stage, iface, entry);
  }

  lemma ReservedSetup(scope: Scope, stage: nat, iface: string, entry: VlanEntry)
    requires entry.vlan == RESERVED
    ensures Setup([VlanActs(scope, stage, iface, entry)]) == [DelLink(""), Sleep(250)]
  {
    var act := VlanActs(scope, stage, iface, entry);
    SetupOne(act);
    NotPlaysAll(VlanDown(iface, entry.vlan));
    assert ActSetup(act) == VlanDown(iface, entry.vlan);
  }

  lemma VlanNested(open: seq<Block>, scope: Scope, stage: nat, iface: string, entry: VlanEntry)
    requires entry.vlan != RESERVED
    ensures Nested(open, [VlanActs(scope, stage, iface, entry)], true)
  {
    var name := VlanName(iface, entry.vlan);
    var conf := VlanConf(scope, stage, iface, entry.vlan);
    var body := if ValidVlan(entry.vlan) then MacsActs(conf, entry.macs) else [];
    var inside := if entry.vlan < RESERVED then open + [Vlan(name)] else open;
    MacsNested(inside, conf, entry.macs);
    if entry.vlan < RESERVED {
      NestPaused(open, AddVlan(iface, name, entry.vlan), DelLink(name), Vlan(name), 250, 250);
    }
    VlanNoPlays(iface, entry.vlan);
    NestedWithin(open, inside, VlanUp(iface, entry.vlan), body, VlanDown(iface, entry.vlan), true);
  }

  lemma {:induction false} VlansNested(open: seq<Block>, scope: Scope, stage: nat, iface: string,
                                       vlans: seq<VlanEntry>, tagged: bool)
    requires open == [] || open[|open| - 1] != Vlan("")
    ensures Nested(open, VlansActs(scope, stage, iface, vlans, tagged), !tagged || NoReserved(vlans))
  {
    if vlans != [] {
      var n := |vlans| - 1;
      assert vlans == vlans[..n] + [vlans[n]];
      VlansNested(open, scope, stage, iface, vlans[..n], tagged);
      if vlans[n].vlan == RESERVED { ReservedNotNested(open, scope, stage, iface, vlans[n]); }
      else { VlanNested(open, scope, stage, iface, vlans[n]); }
      var more := if (vlans[n].vlan != NONE) == tagged then [VlanActs(scope, stage, iface, vlans[n])] else [];
      NestedConcat(open, VlansActs(scope, stage, iface, vlans[..n], tagged), more,
        !tagged || NoReserved(vlans[..n]), more == [] || vlans[n].vlan != RESERVED);
      assert NoReserved(vlans) <==> NoReserved(vlans[..n]) && vlans[n].vlan != RESERVED;
    }
  }

  /** The interface raised, with its VLANs inside. */
  function Raised(run: Settings, scope: Scope, stage: nat, entry: IfaceEntry): Act {
    Within(RaiseLink(entry.name),
      CaptureActs(entry.name, run.captureSeconds) + VlansActs(scope, stage, entry.name, entry.vlans, true),
      LowerLink(entry.name))
  }

  lemma RaisedNested(run: Settings, scope: Scope, stage: nat, entry: IfaceEntry, middle: seq<Block>)
    ensures Nested(middle, [Raised(run, scope, stage, entry)], NoReserved(entry.vlans))
  {
    var inside := middle + [Link(entry.name)];
    var capture := CaptureActs(entry.name, run.captureSeconds);
    var tagged := VlansActs(scope, stage, entry.name, entry.vlans, true);
    CaptureNested(inside, entry.name, run.captureSeconds);
    VlansNested(inside, scope, stage, entry.name, entry.vlans, true);
    NestedConcat(inside, capture, tagged, true, NoReserved(entry.vlans));
    LinkNested(middle, entry.name, capture + tagged, NoReserved(entry.vlans));
  }

  lemma AroundNested(run: Settings, scope: Scope, stage: nat, entry: IfaceEntry, mac: string)
    ensures Nested([], [Within(MacUp(entry.name, mac), [Raised(run, scope, stage, entry)], MacDown(entry.name, mac))],
                   NoReserved(entry.vlans))
  {
    if mac == "" {
      RaisedNested(run, scope, stage, entry, []);
    } else {
      RaisedNested(run, scope, stage, entry, [Mac(entry.name)]);
      assert [] + [Mac(entry.name)] == [Mac(entry.name)];
    }
    MacNested([], entry.name, mac, [Raised(run, scope, stage, entry)], NoReserved(entry.vlans));
  }

  lemma IfaceNested(run: Settings, scope: Scope, stage: nat, entry: IfaceEntry)
    requires NoEmptyLevel(entry)
    ensures Nested([], IfaceActs(run, scope, stage, entry), NoReserved(entry.vlans))
  {
    var mac := entry.vlans[0].macs[0].mac;
    var around := [Within(MacUp(entry.name, mac), [Raised(run, scope, stage, entry)], MacDown(entry.name, mac))];
    AroundNested(run, scope, stage, entry, mac);
    VlansNested([], scope, stage, entry.name, entry.vlans, false);
    NestedConcat([], around, VlansActs(scope, stage, entry.name, entry.vlans, false), NoReserved(entry.vlans), true);
  }

  predicate StageNoReserved(ifaces: seq<IfaceEntry>) {
    forall i :: i in ifaces ==> NoReserved(i.vlans)
  }

  lemma {:induction false} StageNested(run: Settings, scope: Scope, stage: nat, ifaces: seq<IfaceEntry>)
    requires forall i :: i in ifaces ==> NoEmptyLevel(i)
    ensures Nested([], StageActs(run, scope, stage, ifaces), StageNoReserved(ifaces))
  {
    if ifaces != [] {
      var n := |ifaces| - 1;
      assert ifaces == ifaces[..n] + [ifaces[n]];
      StageNested(run, scope, stage, ifaces[..n]);
      IfaceNested(run, scope, stage, ifaces[n]);
      NestedConcat([], StageActs(run, scope, stage, ifaces[..n]), IfaceActs(run, scope, stage, ifaces[n]),
        StageNoReserved(ifaces[..n]), NoReserved(ifaces[n].vlans));
      assert StageNoReserved(ifaces) <==> StageNoReserved(ifaces[..n]) && NoReserved(ifaces[n].vlans);
    }
  }

  predicate AllNoReserved(stages: seq<StageEntry>) {
    forall s :: s in stages ==> StageNoReserved(s.ifaces)
  }

  lemma {:induction false} StagesNested(run: Settings, scope: Scope, stages: seq<StageEntry>)
    requires forall s :: s in stages ==> WellFormedStage(s)
    ensures Nested([], StagesActs(run, scope, stages), AllNoReserved(stages))
  {
    if stages != [] {
      assert WellFormedStage(stages[0]);
      assert stages == [stages[0]] + stages[1..];
      StageNested(run, scope, stages[0].number, stages[0].ifaces);
      StagesNested(run, scope, stages[1..]);
      NestedConcat([], StageActs(run, scope, stages[0].number, stages[0].ifaces), StagesActs(run, scope, stages[1..]),
        StageNoReserved(stages[0].ifaces), AllNoReserved(stages[1..]));
      assert AllNoReserved(stages) <==> StageNoReserved(stages[0].ifaces) && AllNoReserved(stages[1..]);
    }
  }

  /** In a run that executes and excludes no command, whatever the plays do, every block that was set up
      is torn down, last in first out: exactly when no stage that runs has a VLAN with the reserved id. */
  lemma RunNestsUnlessReserved(run: Settings, scope: Scope, playbook: seq<StageEntry>)
    requires run.execute && run.disabled == {}
    requires forall s :: s in playbook ==> WellFormedStage(s)
    ensures var executed := Executed(RunPlaybook(run, scope, playbook).log);
      && (Nest([], executed) == Some([]) <==> AllNoReserved(StagesRun(run, playbook)))
      && (Nest([], executed) == None <==> !AllNoReserved(StagesRun(run, playbook)))
  {
    PlaybookAdds(run, scope, playbook);
    StagesNested(run, scope, StagesRun(run, playbook));
  }

  /** A run that does not execute touches nothing. */
  lemma DryRunTouchesNothing(run: Settings, scope: Scope, playbook: seq<StageEntry>)
    requires !run.execute && run.disabled == {}
    requires forall s :: s in playbook ==> WellFormedStage(s)
    ensures Executed(RunPlaybook(run, scope, playbook).log) == []
  {
    PlaybookAdds(run, scope, playbook);
  }
}
