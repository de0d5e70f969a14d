/** What each thread of an intra-network run does: the run's own, which goes through the stages, each
    interface's, and each VLAN entry's. */
module PlaybookStageThreads {
  import opened Common
  import opened PlaybookModel
  import opened PlaybookMarks
  import opened PlaybookThreads
  import Trace = PlaybookTrace

  // ----- what each thread does

  /** A group of commands issued under one lock; an empty group takes no lock. */
  function Block(commands: seq<Command>): seq<Step> {
    if commands == [] then [] else [Section(commands)]
  }

  function SetsSteps(sets: Phase, conf: Conf): seq<Step> {
    if sets == [] then [] else [Section(SetCommands(sets[0], conf))] + SetsSteps(sets[1..], conf)
  }

  function PhasesSteps(run: Settings, phases: seq<Phase>, number: nat, conf: Conf): seq<Step>
    decreases phases
  {
    if phases == [] then []
    else
      (if PhaseEnabled(run, number) then SetsSteps(phases[0], conf) else []) +
      PhasesSteps(run, phases[1..], number + 1, conf)
  }

  function ActSteps(run: Settings, act: Act): seq<Step>
    decreases act
  {
    match act
    case Run(commands) => Block(commands)
    case Within(up, body, down) => Block(up) + Steps(run, body) + Block(down)
    case Network(conf) => [Mark(Session(conf))] + PhasesSteps(run, Plays(run, conf.scope), 1, conf)
    case Complete(source) => if run.execute then [Mark(Completed(source))] else []
  }

  function Steps(run: Settings, acts: seq<Act>): seq<Step>
    decreases acts
  {
    if acts == [] then [] else ActSteps(run, acts[0]) + Steps(run, acts[1..])
  }

  predicate Chosen(entry: VlanEntry, tagged: bool) {
    (entry.vlan != NONE) == tagged
  }

  /** How many of the first `n` entries are VLANs (`tagged`), or are the interface itself. */
  function Place(vlans: seq<VlanEntry>, n: nat, tagged: bool): nat
    requires n <= |vlans|
  {
    if n == 0 then 0 else Place(vlans, n - 1, tagged) + if Chosen(vlans[n - 1], tagged) then 1 else 0
  }

  /** The threads of these entries. */
  function Threads(s: nat, i: nat, vlans: seq<VlanEntry>, n: nat, tagged: bool): (tids: seq<Tid>)
    requires n <= |vlans|
    ensures |tids| == Place(vlans, n, tagged)
  {
    if n == 0 then []
    else Threads(s, i, vlans, n - 1, tagged) + if Chosen(vlans[n - 1], tagged) then [Vlan(s, i, n - 1)] else []
  }

  function Tagged(s: nat, i: nat, entry: IfaceEntry): (tids: seq<Tid>)
    ensures |tids| == Place(entry.vlans, |entry.vlans|, true)
  {
    Threads(s, i, entry.vlans, |entry.vlans|, true)
  }

  function Untagged(s: nat, i: nat, entry: IfaceEntry): (tids: seq<Tid>)
    ensures |tids| == Place(entry.vlans, |entry.vlans|, false)
  {
    Threads(s, i, entry.vlans, |entry.vlans|, false)
  }

  function Spawning(tids: seq<Tid>): seq<Step> {
    seq(|tids|, j requires 0 <= j < |tids| => Spawn(tids[j]))
  }

  function Joining(tids: seq<Tid>): seq<Step> {
    seq(|tids|, j requires 0 <= j < |tids| => Join(tids[j]))
  }

  function OneByOne(tids: seq<Tid>): seq<Step> {
    seq(2 * |tids|, j requires 0 <= j < 2 * |tids| => if j % 2 == 0 then Spawn(tids[j / 2]) else Join(tids[j / 2]))
  }

  function IfaceUp(run: Settings, entry: IfaceEntry): seq<Step>
    requires NoEmptyLevel(entry)
  {
    Block(MacUp(entry.name, entry.vlans[0].macs[0].mac)) + Block(RaiseLink(entry.name)) +
    Steps(run, CaptureActs(entry.name, run.captureSeconds))
  }

  function IfaceDown(entry: IfaceEntry): seq<Step>
    requires NoEmptyLevel(entry)
  {
    Block(LowerLink(entry.name)) + Block(MacDown(entry.name, entry.vlans[0].macs[0].mac))
  }

  function IfaceSteps(run: Settings, s: nat, i: nat, entry: IfaceEntry): seq<Step>
    requires NoEmptyLevel(entry)
  {
    var tagged := Tagged(s, i, entry);
    IfaceUp(run, entry) + Spawning(tagged) + Joining(tagged) + IfaceDown(entry) + OneByOne(Untagged(s, i, entry))
  }

  function Ifaces(s: nat, n: nat): seq<Tid> {
    seq(n, i requires 0 <= i < n => Iface(s, i))
  }

  /** A stage's interfaces are all started, then all waited for. */
  function StageSteps(s: nat, n: nat): (steps: seq<Step>)
    ensures |steps| == 2 * n
  {
    Spawning(Ifaces(s, n)) + Joining(Ifaces(s, n))
  }

  /** The place where the run's own thread has done the first `n` stages. */
  function Offset(stages: seq<StageEntry>, n: nat): nat
    requires n <= |stages|
  {
    if n == 0 then 0 else Offset(stages, n - 1) + 2 * |stages[n - 1].ifaces|
  }

  function MainSteps(stages: seq<StageEntry>, n: nat): (steps: seq<Step>)
    requires n <= |stages|
    ensures |steps| == Offset(stages, n)
  {
    if n == 0 then [] else MainSteps(stages, n - 1) + StageSteps(n - 1, |stages[n - 1].ifaces|)
  }

  predicate WellFormed(stages: seq<StageEntry>) {
    forall s :: s in stages ==> WellFormedStage(s)
  }

  predicate IsThread(stages: seq<StageEntry>, t: Tid) {
    match t
    case Main => true
    case Iface(s, i) => s < |stages| && i < |stages[s].ifaces|
    case Vlan(s, i, v) => s < |stages| && i < |stages[s].ifaces| && v < |stages[s].ifaces[i].vlans|
  }

  function IfaceOf(stages: seq<StageEntry>, s: nat, i: nat): (entry: IfaceEntry)
    requires WellFormed(stages) && s < |stages| && i < |stages[s].ifaces|
    ensures NoEmptyLevel(entry)
  {
    assert stages[s] in stages && stages[s].ifaces[i] in stages[s].ifaces;
    stages[s].ifaces[i]
  }

  function VlanActsOf(stages: seq<StageEntry>, s: nat, i: nat, v: nat): Act
    requires IsThread(stages, Vlan(s, i, v))
  {
    var entry := stages[s].ifaces[i];
    VlanActs(Intra, stages[s].number, entry.name, entry.vlans[v])
  }

  function RunThread(run: Settings, stages: seq<StageEntry>, t: Tid): seq<Step>
    requires WellFormed(stages)
  {
    if !IsThread(stages, t) then []
    else
      match t
      case Main => MainSteps(stages, |stages|)
      case Iface(s, i) => IfaceSteps(run, s, i, IfaceOf(stages, s, i))
      case Vlan(s, i, v) => ActSteps(run, VlanActsOf(stages, s, i, v))
  }

  /** The threads of a run of the given stages. */
  function RunThreads(run: Settings, stages: seq<StageEntry>): Program
    requires WellFormed(stages)
  {
    t => RunThread(run, stages, t)
  }

  // ----- sections and the commands in them

  lemma {:induction false} CommandsConcat(a: seq<Step>, b: seq<Step>)
    ensures Commands(a + b) == Commands(a) + Commands(b)
    decreases |b|
  {
    if b == [] {
      assert a + b == a;
    } else {
      var n := |b| - 1;
      var c := a + b;
      CommandsConcat(a, b[..n]);
      assert c[..|c| - 1] == a + b[..n] && c[|c| - 1] == b[n];
    }
  }

  lemma BlockCommands(commands: seq<Command>)
    ensures Commands(Block(commands)) == commands
  {
    if commands != [] { assert Commands([Section(commands)][..0]) == []; }
  }

  lemma {:induction false} SetsCommands(sets: Phase, conf: Conf)
    ensures Commands(SetsSteps(sets, conf)) == Trace.SetsScript(sets, conf)
  {
    if sets != [] {
      var first := [Section(SetCommands(sets[0], conf))];
      assert first[..0] == [];
      SetsCommands(sets[1..], conf);
      CommandsConcat(first, SetsSteps(sets[1..], conf));
    }
  }

  lemma {:induction false} PhasesCommands(run: Settings, phases: seq<Phase>, number: nat, conf: Conf)
    ensures Commands(PhasesSteps(run, phases, number, conf)) == Trace.PhasesScript(run, phases, number, conf)
    decreases phases
  {
    if phases != [] {
      SetsCommands(phases[0], conf);
      PhasesCommands(run, phases[1..], number + 1, conf);
      CommandsConcat(if PhaseEnabled(run, number) then SetsSteps(phases[0], conf) else [],
                     PhasesSteps(run, phases[1..], number + 1, conf));
    }
  }

  lemma {:induction false} ActCommands(run: Settings, act: Act)
    ensures Commands(ActSteps(run, act)) == Trace.ActScript(run, act)
    decreases act
  {
    match act
    case Run(commands) => BlockCommands(commands);
    case Within(up, body, down) =>
      BlockCommands(up);
      BlockCommands(down);
      StepsCommands(run, body);
      CommandsConcat(Block(up), Steps(run, body));
      CommandsConcat(Block(up) + Steps(run, body), Block(down));
    case Network(conf) =>
      var session, plays := [Mark(Session(conf))], PhasesSteps(run, Plays(run, conf.scope), 1, conf);
      PhasesCommands(run, Plays(run, conf.scope), 1, conf);
      NoSections(session);
      CommandsConcat(session, plays);
    case Complete(_) => NoSections(ActSteps(run, act));
  }

  lemma {:induction false} StepsCommands(run: Settings, acts: seq<Act>)
    ensures Commands(Steps(run, acts)) == Trace.Script(run, acts)
    decreases acts
  {
    if acts != [] {
      ActCommands(run, acts[0]);
      StepsCommands(run, acts[1..]);
      CommandsConcat(ActSteps(run, acts[0]), Steps(run, acts[1..]));
    }
  }

  lemma {:induction false} NoSections(steps: seq<Step>)
    requires forall j :: 0 <= j < |steps| ==> !steps[j].Section?
    ensures Commands(steps) == []
  {
    if steps != [] { NoSections(steps[..|steps| - 1]); }
  }

  // ----- marks of the steps

  lemma {:induction false} EventsConcat(a: seq<Step>, b: seq<Step>)
    ensures Events(a + b) == Events(a) + Events(b)
    decreases |b|
  {
    if b == [] {
      assert a + b == a;
    } else {
      var n := |b| - 1;
      EventsConcat(a, b[..n]);
      assert (a + b)[..|a + b| - 1] == a + b[..n];
    }
  }

  lemma {:induction false} NoMarks(steps: seq<Step>)
    requires forall j :: 0 <= j < |steps| ==> !steps[j].Mark?
    ensures Events(steps) == []
  {
    if steps != [] { NoMarks(steps[..|steps| - 1]); }
  }

  predicate AllSections(steps: seq<Step>) {
    forall j :: 0 <= j < |steps| ==> steps[j].Section?
  }

  lemma {:induction false} SetsSections(sets: Phase, conf: Conf)
    ensures AllSections(SetsSteps(sets, conf))
  {
    if sets != [] { SetsSections(sets[1..], conf); }
  }

  lemma {:induction false} PhasesSections(run: Settings, phases: seq<Phase>, number: nat, conf: Conf)
    ensures AllSections(PhasesSteps(run, phases, number, conf))
    decreases phases
  {
    if phases != [] {
      SetsSections(phases[0], conf);
      PhasesSections(run, phases[1..], number + 1, conf);
    }
  }

  lemma EventsOfOne(event: Event)
    ensures Events([Mark(event)]) == [event]
  {
    assert [Mark(event)][..0] == [];
  }

  lemma WithinEvents(up: seq<Command>, body: seq<Step>, down: seq<Command>)
    ensures Events(Block(up) + body + Block(down)) == Events(body)
  {
    NoMarks(Block(up));
    NoMarks(Block(down));
    EventsConcat(Block(up), body);
    EventsConcat(Block(up) + body, Block(down));
  }

  lemma NetworkEvents(run: Settings, conf: Conf)
    ensures Events(ActSteps(run, Network(conf))) == [Session(conf)]
  {
    var plays := PhasesSteps(run, Plays(run, conf.scope), 1, conf);
    PhasesSections(run, Plays(run, conf.scope), 1, conf);
    NoMarks(plays);
    EventsOfOne(Session(conf));
    EventsConcat([Mark(Session(conf))], plays);
  }

  lemma {:induction false} ActEvents(run: Settings, act: Act)
    ensures Events(ActSteps(run, act)) == Trace.ActMarks(run.execute, act)
    decreases act
  {
    match act
    case Run(commands) => NoMarks(Block(commands));
    case Within(up, body, down) =>
      StepsEvents(run, body);
      WithinEvents(up, Steps(run, body), down);
    case Network(conf) => NetworkEvents(run, conf);
    case Complete(source) => EventsOfOne(Completed(source));
  }

  lemma {:induction false} StepsEvents(run: Settings, acts: seq<Act>)
    ensures Events(Steps(run, acts)) == Trace.ActsMarks(run.execute, acts)
    decreases acts
  {
    if acts != [] {
      ActEvents(run, acts[0]);
      StepsEvents(run, acts[1..]);
      EventsConcat(ActSteps(run, acts[0]), Steps(run, acts[1..]));
    }
  }

  // ----- who starts and joins whom

  /** A step of the thread itself. */
  predicate Own(step: Step) {
    step.Section? || step.Mark?
  }

  predicate AllOwn(steps: seq<Step>) {
    forall j :: 0 <= j < |steps| ==> Own(steps[j])
  }

  lemma {:induction false} ActOwn(run: Settings, act: Act)
    ensures AllOwn(ActSteps(run, act))
    decreases act
  {
    match act
    case Run(_) =>
    case Within(_, body, _) => StepsOwn(run, body);
    case Network(conf) => PhasesSections(run, Plays(run, conf.scope), 1, conf);
    case Complete(_) =>
  }

  lemma {:induction false} StepsOwn(run: Settings, acts: seq<Act>)
    ensures AllOwn(Steps(run, acts))
    decreases acts
  {
    if acts != [] {
      ActOwn(run, acts[0]);
      StepsOwn(run, acts[1..]);
    }
  }

  lemma {:induction false} PlaceGrows(vlans: seq<VlanEntry>, m: nat, n: nat, tagged: bool)
    requires m <= n <= |vlans|
    ensures Place(vlans, m, tagged) <= Place(vlans, n, tagged)
    decreases n
  {
    if m < n { PlaceGrows(vlans, m, n - 1, tagged); }
  }

  /** A chosen entry's thread is in the list at the entry's place. */
  lemma {:induction false} ThreadAt(s: nat, i: nat, vlans: seq<VlanEntry>, n: nat, v: nat, tagged: bool)
    requires v < n <= |vlans| && Chosen(vlans[v], tagged)
    ensures Place(vlans, v, tagged) < Place(vlans, n, tagged)
    ensures Threads(s, i, vlans, n, tagged)[Place(vlans, v, tagged)] == Vlan(s, i, v)
    decreases n
  {
    if v < n - 1 { ThreadAt(s, i, vlans, n - 1, v, tagged); }
  }

  /** Nothing else is. */
  lemma {:induction false} ThreadIs(s: nat, i: nat, vlans: seq<VlanEntry>, n: nat, j: nat, tagged: bool)
    requires n <= |vlans| && j < Place(vlans, n, tagged)
    ensures var t := Threads(s, i, vlans, n, tagged)[j];
      t.Vlan? && t.s == s && t.i == i && t.v < n && Chosen(vlans[t.v], tagged) && Place(vlans, t.v, tagged) == j
    decreases n
  {
    if j < Place(vlans, n - 1, tagged) { ThreadIs(s, i, vlans, n - 1, j, tagged); }
  }

  // ----- where an interface's thread starts its VLANs and waits for them

  /** The part of an interface's thread before the entries that are the interface itself. */
  function Around(run: Settings, entry: IfaceEntry): nat
    requires NoEmptyLevel(entry)
  {
    |IfaceUp(run, entry)| + 2 * Place(entry.vlans, |entry.vlans|, true) + |IfaceDown(entry)|
  }

  /** Where an interface's thread starts the thread of entry `v`. */
  function StartAt(run: Settings, entry: IfaceEntry, v: nat): nat
    requires NoEmptyLevel(entry) && v < |entry.vlans|
  {
    if Chosen(entry.vlans[v], true) then |IfaceUp(run, entry)| + Place(entry.vlans, v, true)
    else Around(run, entry) + 2 * Place(entry.vlans, v, false)
  }

  /** Where it waits for that thread. */
  function JoinAt(run: Settings, entry: IfaceEntry, v: nat): nat
    requires NoEmptyLevel(entry) && v < |entry.vlans|
  {
    StartAt(run, entry, v) + if Chosen(entry.vlans[v], true) then Place(entry.vlans, |entry.vlans|, true) else 1
  }

  /** What is at place `k` of five parts. */
  function OfFive<T>(a: seq<T>, b: seq<T>, c: seq<T>, d: seq<T>, e: seq<T>, k: nat): T
    requires k < |a| + |b| + |c| + |d| + |e|
  {
    if k < |a| then a[k]
    else if k < |a| + |b| then b[k - |a|]
    else if k < |a| + |b| + |c| then c[k - |a| - |b|]
    else if k < |a| + |b| + |c| + |d| then d[k - |a| - |b| - |c|]
    else e[k - |a| - |b| - |c| - |d|]
  }

  lemma FiveParts<T>(a: seq<T>, b: seq<T>, c: seq<T>, d: seq<T>, e: seq<T>, k: nat)
    requires k < |a| + |b| + |c| + |d| + |e|
    ensures (a + b + c + d + e)[k] == OfFive(a, b, c, d, e, k)
  {
  }

  lemma IfaceLength(run: Settings, s: nat, i: nat, entry: IfaceEntry)
    requires NoEmptyLevel(entry)
    ensures |IfaceSteps(run, s, i, entry)| == Around(run, entry) + 2 * Place(entry.vlans, |entry.vlans|, false)
  {
  }

  lemma IfaceParts(run: Settings, s: nat, i: nat, entry: IfaceEntry, pc: nat)
    requires NoEmptyLevel(entry) && pc < |IfaceSteps(run, s, i, entry)|
    ensures IfaceSteps(run, s, i, entry)[pc] ==
      OfFive(IfaceUp(run, entry), Spawning(Tagged(s, i, entry)), Joining(Tagged(s, i, entry)),
             IfaceDown(entry), OneByOne(Untagged(s, i, entry)), pc)
  {
    FiveParts(IfaceUp(run, entry), Spawning(Tagged(s, i, entry)), Joining(Tagged(s, i, entry)),
              IfaceDown(entry), OneByOne(Untagged(s, i, entry)), pc);
  }

  /** The step starts or joins an entry of the interface at the entry's place, or is the thread's own. */
  predicate Relates(run: Settings, s: nat, i: nat, entry: IfaceEntry, pc: nat, step: Step)
    requires NoEmptyLevel(entry)
  {
    match step
    case Spawn(c) => c.Vlan? && c.s == s && c.i == i && c.v < |entry.vlans| && pc == StartAt(run, entry, c.v)
    case Join(c) => c.Vlan? && c.s == s && c.i == i && c.v < |entry.vlans| && pc == JoinAt(run, entry, c.v)
    case _ => true
  }

  lemma OwnRelates(run: Settings, s: nat, i: nat, entry: IfaceEntry, pc: nat, steps: seq<Step>, k: nat)
    requires NoEmptyLevel(entry) && k < |steps| && AllOwn(steps)
    ensures Relates(run, s, i, entry, pc, steps[k])
  {
    assert Own(steps[k]);
  }

  lemma AroundOwn(run: Settings, entry: IfaceEntry)
    requires NoEmptyLevel(entry)
    ensures AllOwn(IfaceUp(run, entry)) && AllOwn(IfaceDown(entry))
  {
    StepsOwn(run, CaptureActs(entry.name, run.captureSeconds));
  }

  lemma TaggedRelates(run: Settings, s: nat, i: nat, entry: IfaceEntry, j: nat)
    requires NoEmptyLevel(entry) && j < Place(entry.vlans, |entry.vlans|, true)
    ensures var up, m := |IfaceUp(run, entry)|, Place(entry.vlans, |entry.vlans|, true);
      && Relates(run, s, i, entry, up + j, Spawning(Tagged(s, i, entry))[j])
      && Relates(run, s, i, entry, up + m + j, Joining(Tagged(s, i, entry))[j])
  {
    ThreadIs(s, i, entry.vlans, |entry.vlans|, j, true);
  }

  lemma UntaggedRelates(run: Settings, s: nat, i: nat, entry: IfaceEntry, k: nat)
    requires NoEmptyLevel(entry) && k < 2 * Place(entry.vlans, |entry.vlans|, false)
    ensures Relates(run, s, i, entry, Around(run, entry) + k, OneByOne(Untagged(s, i, entry))[k])
  {
    ThreadIs(s, i, entry.vlans, |entry.vlans|, k / 2, false);
    var t := Untagged(s, i, entry)[k / 2];
    assert !Chosen(entry.vlans[t.v], true);
  }

  lemma FirstRelates(run: Settings, s: nat, i: nat, entry: IfaceEntry, pc: nat)
    requires NoEmptyLevel(entry) && pc < |IfaceSteps(run, s, i, entry)|
    requires pc < |IfaceUp(run, entry)| + 2 * Place(entry.vlans, |entry.vlans|, true)
    ensures Relates(run, s, i, entry, pc, IfaceSteps(run, s, i, entry)[pc])
  {
    var up, m := |IfaceUp(run, entry)|, Place(entry.vlans, |entry.vlans|, true);
    IfaceParts(run, s, i, entry, pc);
    if pc < up {
      AroundOwn(run, entry);
      OwnRelates(run, s, i, entry, pc, IfaceUp(run, entry), pc);
    } else {
      TaggedRelates(run, s, i, entry, if pc < up + m then pc - up else pc - up - m);
    }
  }

  lemma RestRelates(run: Settings, s: nat, i: nat, entry: IfaceEntry, pc: nat)
    requires NoEmptyLevel(entry) && pc < |IfaceSteps(run, s, i, entry)|
    requires pc >= |IfaceUp(run, entry)| + 2 * Place(entry.vlans, |entry.vlans|, true)
    ensures Relates(run, s, i, entry, pc, IfaceSteps(run, s, i, entry)[pc])
  {
    var k := pc - |IfaceUp(run, entry)| - 2 * Place(entry.vlans, |entry.vlans|, true);
    IfaceParts(run, s, i, entry, pc);
    if k < |IfaceDown(entry)| {
      AroundOwn(run, entry);
      OwnRelates(run, s, i, entry, pc, IfaceDown(entry), k);
    } else {
      IfaceLength(run, s, i, entry);
      UntaggedRelates(run, s, i, entry, k - |IfaceDown(entry)|);
    }
  }

  lemma IfaceRelates(run: Settings, s: nat, i: nat, entry: IfaceEntry, pc: nat)
    requires NoEmptyLevel(entry) && pc < |IfaceSteps(run, s, i, entry)|
    ensures Relates(run, s, i, entry, pc, IfaceSteps(run, s, i, entry)[pc])
  {
    if pc < |IfaceUp(run, entry)| + 2 * Place(entry.vlans, |entry.vlans|, true) {
      FirstRelates(run, s, i, entry, pc);
    } else {
      RestRelates(run, s, i, entry, pc);
    }
  }

  lemma TaggedStarted(run: Settings, s: nat, i: nat, entry: IfaceEntry, v: nat)
    requires NoEmptyLevel(entry) && v < |entry.vlans| && Chosen(entry.vlans[v], true)
    ensures StartAt(run, entry, v) < JoinAt(run, entry, v) < |IfaceSteps(run, s, i, entry)|
    ensures IfaceSteps(run, s, i, entry)[StartAt(run, entry, v)] == Spawn(Vlan(s, i, v))
    ensures IfaceSteps(run, s, i, entry)[JoinAt(run, entry, v)] == Join(Vlan(s, i, v))
  {
    ThreadAt(s, i, entry.vlans, |entry.vlans|, v, true);
    IfaceLength(run, s, i, entry);
    IfaceParts(run, s, i, entry, StartAt(run, entry, v));
    IfaceParts(run, s, i, entry, JoinAt(run, entry, v));
  }

  lemma UntaggedStep(run: Settings, s: nat, i: nat, entry: IfaceEntry, k: nat)
    requires NoEmptyLevel(entry) && k < 2 * Place(entry.vlans, |entry.vlans|, false)
    ensures Around(run, entry) + k < |IfaceSteps(run, s, i, entry)|
    ensures IfaceSteps(run, s, i, entry)[Around(run, entry) + k] == OneByOne(Untagged(s, i, entry))[k]
  {
    IfaceLength(run, s, i, entry);
    IfaceParts(run, s, i, entry, Around(run, entry) + k);
  }

  lemma UntaggedPair(run: Settings, s: nat, i: nat, entry: IfaceEntry, j: nat)
    requires NoEmptyLevel(entry) && j < Place(entry.vlans, |entry.vlans|, false)
    ensures var pc := Around(run, entry) + 2 * j;
      && pc + 1 < |IfaceSteps(run, s, i, entry)|
      && IfaceSteps(run, s, i, entry)[pc] == Spawn(Untagged(s, i, entry)[j])
      && IfaceSteps(run, s, i, entry)[pc + 1] == Join(Untagged(s, i, entry)[j])
  {
    UntaggedStep(run, s, i, entry, 2 * j);
    UntaggedStep(run, s, i, entry, 2 * j + 1);
  }

  lemma UntaggedStarted(run: Settings, s: nat, i: nat, entry: IfaceEntry, v: nat)
    requires NoEmptyLevel(entry) && v < |entry.vlans| && !Chosen(entry.vlans[v], true)
    ensures StartAt(run, entry, v) < JoinAt(run, entry, v) < |IfaceSteps(run, s, i, entry)|
    ensures IfaceSteps(run, s, i, entry)[StartAt(run, entry, v)] == Spawn(Vlan(s, i, v))
    ensures IfaceSteps(run, s, i, entry)[JoinAt(run, entry, v)] == Join(Vlan(s, i, v))
  {
    ThreadAt(s, i, entry.vlans, |entry.vlans|, v, false);
    UntaggedPair(run, s, i, entry, Place(entry.vlans, v, false));
  }

  lemma VlanStarted(run: Settings, s: nat, i: nat, entry: IfaceEntry, v: nat)
    requires NoEmptyLevel(entry) && v < |entry.vlans|
    ensures StartAt(run, entry, v) < JoinAt(run, entry, v) < |IfaceSteps(run, s, i, entry)|
    ensures IfaceSteps(run, s, i, entry)[StartAt(run, entry, v)] == Spawn(Vlan(s, i, v))
    ensures IfaceSteps(run, s, i, entry)[JoinAt(run, entry, v)] == Join(Vlan(s, i, v))
  {
    if Chosen(entry.vlans[v], true) {
      TaggedStarted(run, s, i, entry, v);
    } else {
      UntaggedStarted(run, s, i, entry, v);
    }
  }

  // ----- where the run's own thread starts the interfaces and waits for them

  lemma StageStep(s: nat, n: nat, k: nat)
    requires k < n
    ensures StageSteps(s, n)[k] == Spawn(Iface(s, k)) && StageSteps(s, n)[n + k] == Join(Iface(s, k))
  {
  }

  lemma {:induction false} OffsetGrows(stages: seq<StageEntry>, m: nat, n: nat)
    requires m <= n <= |stages|
    ensures Offset(stages, m) <= Offset(stages, n)
    decreases n
  {
    if m < n { OffsetGrows(stages, m, n - 1); }
  }

  lemma {:induction false} MainStepIs(stages: seq<StageEntry>, n: nat, s: nat, k: nat)
    requires s < n <= |stages| && k < 2 * |stages[s].ifaces|
    ensures Offset(stages, s) + k < Offset(stages, n)
    ensures MainSteps(stages, n)[Offset(stages, s) + k] == StageSteps(s, |stages[s].ifaces|)[k]
    decreases n
  {
    if s < n - 1 { MainStepIs(stages, n - 1, s, k); }
  }

  lemma {:induction false} MainStepAt(stages: seq<StageEntry>, n: nat, pc: nat) returns (s: nat, k: nat)
    requires n <= |stages| && pc < Offset(stages, n)
    ensures s < n && k < 2 * |stages[s].ifaces| && pc == Offset(stages, s) + k
    ensures MainSteps(stages, n)[pc] == StageSteps(s, |stages[s].ifaces|)[k]
    decreases n
  {
    if pc < Offset(stages, n - 1) {
      s, k := MainStepAt(stages, n - 1, pc);
    } else {
      s, k := n - 1, pc - Offset(stages, n - 1);
    }
  }

  lemma IfaceStarted(stages: seq<StageEntry>, s: nat, i: nat)
    requires s < |stages| && i < |stages[s].ifaces|
    ensures var start, join := Offset(stages, s) + i, Offset(stages, s) + |stages[s].ifaces| + i;
      && start < join < Offset(stages, s + 1) <= Offset(stages, |stages|)
      && MainSteps(stages, |stages|)[start] == Spawn(Iface(s, i))
      && MainSteps(stages, |stages|)[join] == Join(Iface(s, i))
  {
    var n := |stages[s].ifaces|;
    OffsetGrows(stages, s + 1, |stages|);
    MainStepIs(stages, |stages|, s, i);
    MainStepIs(stages, |stages|, s, n + i);
    StageStep(s, n, i);
  }

  /** The step of the run's own thread starts or joins an interface of a stage. */
  lemma MainRelates(stages: seq<StageEntry>, pc: nat) returns (s: nat, i: nat)
    requires pc < Offset(stages, |stages|)
    ensures s < |stages| && i < |stages[s].ifaces|
    ensures var step := MainSteps(stages, |stages|)[pc];
      || (step == Spawn(Iface(s, i)) && pc == Offset(stages, s) + i)
      || (step == Join(Iface(s, i)) && pc == Offset(stages, s) + |stages[s].ifaces| + i)
  {
    var k: nat;
    s, k := MainStepAt(stages, |stages|, pc);
    i := if k < |stages[s].ifaces| then k else k - |stages[s].ifaces|;
    StageStep(s, |stages[s].ifaces|, i);
  }

  // ----- the threads as a program

  /** Where a thread is started. */
  function Parent(run: Settings, stages: seq<StageEntry>, c: Tid): (Tid, nat)
    requires WellFormed(stages)
  {
    if !IsThread(stages, c) then (Main, 0)
    else
      match c
      case Main => (Main, 0)
      case Iface(s, i) => (Main, Offset(stages, s) + i)
      case Vlan(s, i, v) => (Iface(s, i), StartAt(run, IfaceOf(stages, s, i), v))
  }

  lemma VlanOwn(run: Settings, stages: seq<StageEntry>, s: nat, i: nat, v: nat, pc: nat)
    requires WellFormed(stages) && pc < |RunThread(run, stages, Vlan(s, i, v))|
    ensures Own(RunThread(run, stages, Vlan(s, i, v))[pc])
  {
    ActOwn(run, VlanActsOf(stages, s, i, v));
  }

  lemma OnlyParent(run: Settings, stages: seq<StageEntry>, t: Tid, pc: nat, c: Tid)
    requires WellFormed(stages) && Spawns(RunThreads(run, stages), t, pc, c)
    ensures c != Main && (t, pc) == Parent(run, stages, c)
  {
    match t
    case Main => var _, _ := MainRelates(stages, pc);
    case Iface(s, i) => IfaceRelates(run, s, i, IfaceOf(stages, s, i), pc);
    case Vlan(s, i, v) =>
      VlanOwn(run, stages, s, i, v, pc);
  }

  function Rank(t: Tid): nat {
    match t case Main => 2 case Iface(_, _) => 1 case Vlan(_, _, _) => 0
  }

  /** A thread starts those it joins, before. */
  lemma JoinedWasStarted(run: Settings, stages: seq<StageEntry>, t: Tid, j: nat, c: Tid)
    requires WellFormed(stages) && Joins(RunThreads(run, stages), t, j, c)
    ensures Rank(c) < Rank(t) && exists i: nat :: i < j && Spawns(RunThreads(run, stages), t, i, c)
  {
    var prog := RunThreads(run, stages);
    match t
    case Main =>
      var s, i := MainRelates(stages, j);
      IfaceStarted(stages, s, i);
      assert Spawns(prog, t, Offset(stages, s) + i, c);
    case Iface(s, i) =>
      var entry := IfaceOf(stages, s, i);
      IfaceRelates(run, s, i, entry, j);
      VlanStarted(run, s, i, entry, c.v);
      assert Spawns(prog, t, StartAt(run, entry, c.v), c);
    case Vlan(s, i, v) =>
      VlanOwn(run, stages, s, i, v, j);
  }

  lemma WellBehaved(run: Settings, stages: seq<StageEntry>)
    requires WellFormed(stages)
    ensures OneParent(RunThreads(run, stages)) && Ranked(RunThreads(run, stages), Rank)
  {
    var prog := RunThreads(run, stages);
    forall t, i: nat, c | Spawns(prog, t, i, c) ensures c != Main && (t, i) == Parent(run, stages, c) {
      OnlyParent(run, stages, t, i, c);
    }
    forall t, j: nat, c | Joins(prog, t, j, c)
      ensures Rank(c) < Rank(t) && exists i: nat :: i < j && Spawns(prog, t, i, c)
    {
      JoinedWasStarted(run, stages, t, j, c);
    }
  }

  // ----- the threads of a stage in a state

  /** Past its place after a stage, the run's own thread has waited for all of the stage's threads. */
  lemma StageFinished(run: Settings, stages: seq<StageEntry>, m: Machine, t: Tid)
    requires WellFormed(stages) && Related(RunThreads(run, stages), m) && t != Main && IsThread(stages, t)
    requires Main in m.pcs && Offset(stages, t.s + 1) <= m.pcs[Main]
    ensures Finished(RunThreads(run, stages), m, t)
    decreases 2 - Rank(t)
  {
    var prog := RunThreads(run, stages);
    match t
    case Iface(s, i) =>
      IfaceStarted(stages, s, i);
      assert Joins(prog, Main, Offset(stages, s) + |stages[s].ifaces| + i, t);
    case Vlan(s, i, v) =>
      var entry := IfaceOf(stages, s, i);
      StageFinished(run, stages, m, Iface(s, i));
      VlanStarted(run, s, i, entry, v);
      assert Joins(prog, Iface(s, i), JoinAt(run, entry, v), t);
  }

  /** A thread is started only after the run's own thread has come to its stage. */
  lemma StageBegun(run: Settings, stages: seq<StageEntry>, m: Machine, t: Tid)
    requires WellFormed(stages) && Related(RunThreads(run, stages), m) && t != Main && IsThread(stages, t)
    requires t in m.pcs
    ensures Main in m.pcs && Offset(stages, t.s) < m.pcs[Main]
    decreases 2 - Rank(t)
  {
    var prog := RunThreads(run, stages);
    match t
    case Iface(s, i) =>
      IfaceStarted(stages, s, i);
      assert Spawns(prog, Main, Offset(stages, s) + i, t);
    case Vlan(s, i, v) =>
      var entry := IfaceOf(stages, s, i);
      VlanStarted(run, s, i, entry, v);
      assert Spawns(prog, Iface(s, i), StartAt(run, entry, v), t);
      StageBegun(run, stages, m, Iface(s, i));
  }
}
