/** The playbook run: its plan, the commands it issues, and the order in which it does.

    A run is described as a list of acts: locked groups of commands, scopes with a setup and a
    teardown, the plays run against one network, and the marking of a source as completed. */
module PlaybookModel {
  import opened Common

  // ----- the plan

  const RESERVED := 0x0FFF
  const NONE := 0xFFFF

  datatype Source = Source(id: string, routers: seq<string>, family: string)
  datatype IpEntry = IpEntry(addr: string, source: Source)
  datatype MacEntry = MacEntry(mac: string, ips: seq<IpEntry>)
  datatype VlanEntry = VlanEntry(vlan: nat, macs: seq<MacEntry>)
  datatype IfaceEntry = IfaceEntry(name: string, vlans: seq<VlanEntry>)
  datatype StageEntry = StageEntry(number: nat, ifaces: seq<IfaceEntry>)

  datatype Scope = Intra | Inter

  /** Where the plays are run from, and through which router (none for intra-network runs). */
  datatype Conf = Conf(
    scope: Scope, stage: nat, iface: string, vlan: nat, mac: string, addr: string, router: string,
    link: string, source: string, family: string)

  datatype OnFail = NoFailMap | Disable(kind: string)
  datatype CommandSet = CommandSet(
    skipWithoutPrompt: bool, onFail: OnFail, always: seq<string>, ipv4: seq<string>, ipv6: seq<string>)
  type Phase = seq<CommandSet>

  // ----- commands

  datatype Command =
    | AddVlan(base: string, name: string, id: nat)
    | DelLink(name: string)
    | SetAutoconf(key: string, on: bool)
    | SetAcceptRa(key: string, on: bool)
    | AddAddr(addr: string, dev: string)
    | DelAddr(addr: string, dev: string)
    | AddRoute(dst: string, dev: string)
    | DelRoute(dst: string, dev: string)
    | AddDefault(via: string)
    | DelDefault(via: string)
    | FlushCache
    | LinkUp(dev: string)
    | LinkDown(dev: string)
    | SetMac(mac: string, dev: string)
    | ResetMac(dev: string)
    | Capture(dev: string, seconds: nat)
    | Sleep(ms: nat)
    | Play(template: string, conf: Conf)

  function VlanName(iface: string, vlan: nat): string {
    iface + "." + Decimal(vlan)
  }

  function LinkName(iface: string, vlan: nat): string {
    if vlan < RESERVED then VlanName(iface, vlan) else iface
  }

  function SysctlName(iface: string): (key: string)
    ensures |key| == |iface|
  {
    if iface == "" then ""
    else [if iface[0] == '.' then '/' else iface[0]] + SysctlName(iface[1..])
  }

  /** The name of an interface in its settings has a slash for each dot. */
  lemma {:induction false} SysctlNameAt(iface: string, k: nat)
    requires k < |iface|
    ensures SysctlName(iface)[k] == if iface[k] == '.' then '/' else iface[k]
  {
    if k > 0 { SysctlNameAt(iface[1..], k - 1); }
  }

  // ----- settings of a run, and what it does not control

  datatype Settings = Settings(
    execute: bool, noPrompt: bool, ignoreIfaceStateChange: bool,
    stages: set<nat>, phases: set<nat>, captureSeconds: nat,
    intraPlays: seq<Phase>, interPlays: seq<Phase>,
    disabled: set<nat>,
    outcome: nat -> bool,  // the command with this id exits with status zero
    fault: nat -> bool,    // the interface is found broken when the log has this length
    quit: nat -> bool)     // the user quits before this stage

  function Plays(run: Settings, scope: Scope): seq<Phase> {
    if scope == Intra then run.intraPlays else run.interPlays
  }

  predicate PhaseEnabled(run: Settings, phase: nat) {
    run.phases == {} || phase in run.phases
  }

  // ----- the command runner

  datatype Event =
    | Issued(id: nat, command: Command, ran: bool)
    | PhaseStart(phase: nat)
    | Session(conf: Conf)
    | Completed(source: string)

  datatype State = State(execute: bool, lastId: nat, log: seq<Event>)

  function Exec(run: Settings, st: State, command: Command): State {
    var id := st.lastId + 1;
    State(st.execute, id, st.log + [Issued(id, command, st.execute && id !in run.disabled)])
  }

  /** What `systemExec` returns for the command just issued: skipped commands count as successes. */
  function ExecSuccess(run: Settings, st: State): bool {
    var id := st.lastId + 1;
    st.execute && id !in run.disabled ==> run.outcome(id)
  }

  function ExecAll(run: Settings, st: State, commands: seq<Command>): State
    decreases commands
  {
    if commands == [] then st else ExecAll(run, Exec(run, st, commands[0]), commands[1..])
  }

  function SetExecute(st: State, execute: bool): State {
    st.(execute := execute)
  }

  function Note(st: State, e: Event): State {
    st.(log := st.log + [e])
  }

  // ----- plays

  function SetCommands(cs: CommandSet, conf: Conf): seq<Command> {
    Templates(cs.always, conf) + Templates(if conf.family == "4" then cs.ipv4 else cs.ipv6, conf)
  }

  function Templates(ts: seq<string>, conf: Conf): (cs: seq<Command>)
    ensures |cs| == |ts| && forall c :: c in cs ==> c.Play?
  {
    if ts == [] then [] else [Play(ts[0], conf)] + Templates(ts[1..], conf)
  }

  /** Commands with a fail map run one by one; a failure switches execution off. */
  function ExecChecked(run: Settings, st: State, commands: seq<Command>, kind: string,
                       stageEnabled: bool): (State, bool)
    decreases commands
  {
    if commands == [] then (st, stageEnabled)
    else
      var next := Exec(run, st, commands[0]);
      if ExecSuccess(run, st) then ExecChecked(run, next, commands[1..], kind, stageEnabled)
      else ExecChecked(run, SetExecute(next, false), commands[1..], kind, stageEnabled && kind != "stage")
  }

  function RunSet(run: Settings, st: State, cs: CommandSet, conf: Conf): (State, bool) {
    var st0 := if run.noPrompt && cs.skipWithoutPrompt then SetExecute(st, false) else st;
    match cs.onFail
    case Disable(kind) => ExecChecked(run, st0, SetCommands(cs, conf), kind, true)
    case NoFailMap => (ExecAll(run, st0, SetCommands(cs, conf)), true)
  }

  function RunSets(run: Settings, st: State, sets: Phase, conf: Conf, stageEnabled: bool): (State, bool)
    decreases sets
  {
    if sets == [] then (st, stageEnabled)
    else
      var (next, enabled) := RunSet(run, st, sets[0], conf);
      RunSets(run, next, sets[1..], conf, enabled)
  }

  function StartPhase(run: Settings, st: State, number: nat): State {
    var st0 := Note(st, PhaseStart(number));
    if run.ignoreIfaceStateChange && run.execute && run.fault(|st0.log|) then SetExecute(st0, false) else st0
  }

  function RunPhase(run: Settings, st: State, sets: Phase, number: nat, conf: Conf, stageEnabled: bool): (State, bool) {
    var st0 := StartPhase(run, st, number);
    var (st1, enabled) :=
      if PhaseEnabled(run, number) then RunSets(run, st0, sets, conf, stageEnabled) else (st0, stageEnabled);
    (SetExecute(st1, run.execute && enabled), enabled)
  }

  function RunPhases(run: Settings, st: State, phases: seq<Phase>, number: nat, conf: Conf,
                     stageEnabled: bool): (State, bool)
    decreases phases
  {
    if phases == [] then (st, stageEnabled)
    else
      var (next, enabled) := RunPhase(run, st, phases[0], number, conf, stageEnabled);
      RunPhases(run, next, phases[1..], number + 1, conf, enabled)
  }

  function RunNetwork(run: Settings, st: State, conf: Conf): State {
    var (next, _) := RunPhases(run, Note(st, Session(conf)), Plays(run, conf.scope), 1, conf, true);
    SetExecute(next, run.execute)
  }

  // ----- acts

  datatype Act =
    | Run(commands: seq<Command>)
    | Within(up: seq<Command>, body: seq<Act>, down: seq<Command>)
    | Network(conf: Conf)
    | Complete(source: string)

  function RunAct(run: Settings, act: Act, st: State): State
    decreases act
  {
    match act
    case Run(commands) => ExecAll(run, st, commands)
    case Within(up, body, down) => ExecAll(run, RunActs(run, body, ExecAll(run, st, up)), down)
    case Network(conf) => RunNetwork(run, st, conf)
    case Complete(source) => if run.execute then Note(st, Completed(source)) else st
  }

  function RunActs(run: Settings, acts: seq<Act>, st: State): State
    decreases acts
  {
    if acts == [] then st else RunActs(run, acts[1..], RunAct(run, acts[0], st))
  }

  // ----- what the acts of each level of the plan are

  function MacUp(dev: string, mac: string): seq<Command> {
    if mac == "" then [] else [SetMac(mac, dev), Sleep(500)]
  }

  function MacDown(dev: string, mac: string): seq<Command> {
    if mac == "" then [] else [ResetMac(dev), Sleep(500)]
  }

  function RaiseLink(dev: string): seq<Command> {
    [SetAutoconf(SysctlName(dev), false), SetAcceptRa(SysctlName(dev), false), LinkUp(dev), Sleep(1000)]
  }

  function LowerLink(dev: string): seq<Command> {
    [LinkDown(dev), Sleep(500)]
  }

  function AddrUp(dev: string, addr: string): seq<Command> {
    [SetAutoconf(SysctlName(dev), true), SetAcceptRa(SysctlName(dev), true), AddAddr(addr, dev), Sleep(500)]
  }

  function AddrDown(dev: string, addr: string): seq<Command> {
    [DelAddr(addr, dev), SetAcceptRa(SysctlName(dev), false), SetAutoconf(SysctlName(dev), false), Sleep(500)]
  }

  function RouteUp(dev: string, router: string): seq<Command> {
    [AddRoute(router, dev), AddDefault(router), FlushCache, Sleep(500)]
  }

  function RouteDown(dev: string, router: string): seq<Command> {
    [DelDefault(router), DelRoute(router, dev), FlushCache, Sleep(500)]
  }

  /** The constructor leaves invalid ids alone; the destructor takes the reserved id for a valid one. */
  function VlanUp(iface: string, vlan: nat): seq<Command> {
    if vlan < RESERVED then [AddVlan(iface, VlanName(iface, vlan), vlan), Sleep(250)] else []
  }

  function VlanDown(iface: string, vlan: nat): seq<Command> {
    if vlan < RESERVED then [DelLink(VlanName(iface, vlan)), Sleep(250)]
    else if vlan == RESERVED then [DelLink(""), Sleep(250)]
    else []
  }

  function CaptureActs(dev: string, seconds: nat): seq<Act> {
    [Run([Capture(dev, if seconds < 90 then 90 else seconds)])]
  }

  function RouterActs(conf: Conf, routers: seq<string>): seq<Act> {
    if routers == [] then []
    else
      var n := |routers| - 1;
      RouterActs(conf, routers[..n]) +
      [Within(RouteUp(conf.link, routers[n]), [Network(conf.(router := routers[n]))], RouteDown(conf.link, routers[n]))]
  }

  function AddrConf(conf: Conf, entry: IpEntry): Conf {
    conf.(addr := entry.addr, source := entry.source.id, family := entry.source.family)
  }

  function AddrActs(conf: Conf, entry: IpEntry): Act {
    var c := AddrConf(conf, entry);
    Within(AddrUp(c.link, c.addr),
      (if c.scope == Intra then [Network(c)] else RouterActs(c, entry.source.routers)) + [Complete(c.source)],
      AddrDown(c.link, c.addr))
  }

  function AddrsActs(conf: Conf, ips: seq<IpEntry>): seq<Act> {
    if ips == [] then []
    else
      var n := |ips| - 1;
      AddrsActs(conf, ips[..n]) + [AddrActs(conf, ips[n])]
  }

  function MacActs(conf: Conf, entry: MacEntry): Act {
    var c := conf.(mac := entry.mac);
    Within(MacUp(c.link, c.mac),
      [Within(RaiseLink(c.link),
        (if c.vlan == NONE then CaptureActs(c.link, 90) else []) + AddrsActs(c, entry.ips),
        LowerLink(c.link))],
      MacDown(c.link, c.mac))
  }

  function MacsActs(conf: Conf, macs: seq<MacEntry>): seq<Act> {
    if macs == [] then []
    else
      var n := |macs| - 1;
      MacsActs(conf, macs[..n]) + [MacActs(conf, macs[n])]
  }

  predicate ValidVlan(vlan: nat) {
    vlan < RESERVED || vlan == NONE
  }

  function VlanConf(scope: Scope, stage: nat, iface: string, vlan: nat): Conf {
    Conf(scope, stage, iface, vlan, "", "", "", LinkName(iface, vlan), "", "")
  }

  function VlanActs(scope: Scope, stage: nat, iface: string, entry: VlanEntry): Act {
    Within(VlanUp(iface, entry.vlan),
      if ValidVlan(entry.vlan) then MacsActs(VlanConf(scope, stage, iface, entry.vlan), entry.macs) else [],
      VlanDown(iface, entry.vlan))
  }

  /** The acts of the entries that are VLANs (`tagged`), or of those that are the interface itself. */
  function VlansActs(scope: Scope, stage: nat, iface: string, vlans: seq<VlanEntry>, tagged: bool): seq<Act> {
    if vlans == [] then []
    else
      var n := |vlans| - 1;
      VlansActs(scope, stage, iface, vlans[..n], tagged) +
      if (vlans[n].vlan != NONE) == tagged then [VlanActs(scope, stage, iface, vlans[n])] else []
  }

  /** The configuration is built by inserting whole rows, so no level of it is empty. */
  predicate NoEmptyLevel(entry: IfaceEntry) {
    entry.vlans != [] && forall v :: v in entry.vlans ==> v.macs != []
  }

  function IfaceActs(run: Settings, scope: Scope, stage: nat, entry: IfaceEntry): seq<Act>
    requires NoEmptyLevel(entry)
  {
    var mac := entry.vlans[0].macs[0].mac;
    [Within(MacUp(entry.name, mac),
      [Within(RaiseLink(entry.name),
        CaptureActs(entry.name, run.captureSeconds) + VlansActs(scope, stage, entry.name, entry.vlans, true),
        LowerLink(entry.name))],
      MacDown(entry.name, mac))] +
    VlansActs(scope, stage, entry.name, entry.vlans, false)
  }

  predicate WellFormedStage(stage: StageEntry) {
    forall i :: i in stage.ifaces ==> NoEmptyLevel(i)
  }

  function StageActs(run: Settings, scope: Scope, stage: nat, ifaces: seq<IfaceEntry>): seq<Act>
    requires forall i :: i in ifaces ==> NoEmptyLevel(i)
  {
    if ifaces == [] then []
    else
      var n := |ifaces| - 1;
      StageActs(run, scope, stage, ifaces[..n]) + IfaceActs(run, scope, stage, ifaces[n])
  }

  predicate StageEnabled(run: Settings, stage: nat) {
    run.stages == {} || stage in run.stages
  }

  /** The user can only quit a run that executes and prompts. */
  predicate Quits(run: Settings, stage: nat) {
    run.execute && !run.noPrompt && run.quit(stage)
  }

  /** The enabled stages up to the one before which the user quits. */
  function StagesRun(run: Settings, playbook: seq<StageEntry>): seq<StageEntry> {
    if playbook == [] then []
    else if !StageEnabled(run, playbook[0].number) then StagesRun(run, playbook[1..])
    else if Quits(run, playbook[0].number) then []
    else [playbook[0]] + StagesRun(run, playbook[1..])
  }

  function StagesActs(run: Settings, scope: Scope, stages: seq<StageEntry>): seq<Act>
    requires forall s :: s in stages ==> WellFormedStage(s)
  {
    if stages == [] then []
    else
      assert WellFormedStage(stages[0]);
      StageActs(run, scope, stages[0].number, stages[0].ifaces) + StagesActs(run, scope, stages[1..])
  }

  function Start(run: Settings): State {
    State(run.execute, 0, [])
  }

  lemma {:induction false} StagesAreSome(run: Settings, playbook: seq<StageEntry>)
    ensures forall s :: s in StagesRun(run, playbook) ==> s in playbook
  {
    if playbook != [] { StagesAreSome(run, playbook[1..]); }
  }

  /** A whole run with one interface and one VLAN active at a time. */
  function RunPlaybook(run: Settings, scope: Scope, playbook: seq<StageEntry>): State
    requires forall s :: s in playbook ==> WellFormedStage(s)
  {
    StagesAreSome(run, playbook);
    RunActs(run, StagesActs(run, scope, StagesRun(run, playbook)), Start(run))
  }
}
