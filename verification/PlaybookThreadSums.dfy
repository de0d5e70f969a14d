/** What the threads of a run issue together: the commands of the run one thread at a time. */
module PlaybookThreadSums {
  import opened Common
  import opened PlaybookModel
  import opened PlaybookThreads
  import opened PlaybookStageThreads
  import Trace = PlaybookTrace

  // ----- the commands of a log, thread by thread

  function Logged(log: seq<Entry>): seq<Command> {
    if log == [] then [] else Logged(log[..|log| - 1]) + [log[|log| - 1].command]
  }

  /** The commands of the listed threads. */
  function Sum(of: Tid -> seq<Command>, tids: seq<Tid>): multiset<Command> {
    if tids == [] then multiset{} else Sum(of, tids[..|tids| - 1]) + multiset(of(tids[|tids| - 1]))
  }

  lemma {:induction false} SumSame(f: Tid -> seq<Command>, g: Tid -> seq<Command>, tids: seq<Tid>)
    requires forall t :: t in tids ==> f(t) == g(t)
    ensures Sum(f, tids) == Sum(g, tids)
    decreases |tids|
  {
    if tids != [] {
      var n := |tids| - 1;
      assert tids[n] in tids && forall t :: t in tids[..n] ==> t in tids;
      SumSame(f, g, tids[..n]);
    }
  }

  lemma {:induction false} SumConcat(f: Tid -> seq<Command>, a: seq<Tid>, b: seq<Tid>)
    ensures Sum(f, a + b) == Sum(f, a) + Sum(f, b)
    decreases |b|
  {
    if b == [] {
      assert a + b == a;
    } else {
      SumConcat(f, a, b[..|b| - 1]);
      assert (a + b)[..|a + b| - 1] == a + b[..|b| - 1];
    }
  }

  /** One more command of one listed thread is one more command in all. */
  lemma {:induction false} SumGrows(f: Tid -> seq<Command>, g: Tid -> seq<Command>, tids: seq<Tid>, t: Tid, c: Command)
    requires Distinct(tids) && t in tids && g(t) == f(t) + [c]
    requires forall u :: u in tids && u != t ==> g(u) == f(u)
    ensures Sum(g, tids) == Sum(f, tids) + multiset{c}
    decreases |tids|
  {
    var n := |tids| - 1;
    var rest := tids[..n];
    assert tids == rest + [tids[n]];
    if tids[n] == t {
      assert t !in rest;
      SumSame(f, g, rest);
      assert multiset(g(t)) == multiset(f(t)) + multiset{c};
    } else {
      SumGrows(f, g, rest, t, c);
      assert g(tids[n]) == f(tids[n]);
    }
  }

  lemma {:induction false} SumNone(f: Tid -> seq<Command>, tids: seq<Tid>)
    requires forall t :: t in tids ==> f(t) == []
    ensures Sum(f, tids) == multiset{}
    decreases |tids|
  {
    if tids != [] {
      assert tids[|tids| - 1] in tids && forall t :: t in tids[..|tids| - 1] ==> t in tids;
      SumNone(f, tids[..|tids| - 1]);
    }
  }

  /** A log is what its threads issued. */
  lemma {:induction false} LogIsSum(log: seq<Entry>, tids: seq<Tid>)
    requires Distinct(tids) && forall i :: 0 <= i < |log| ==> log[i].tid in tids
    ensures multiset(Logged(log)) == Sum(t => By(log, t), tids) && |Logged(log)| == |log|
    decreases |log|
  {
    if log == [] {
      SumNone(t => By(log, t), tids);
    } else {
      var n := |log| - 1;
      LogIsSum(log[..n], tids);
      assert forall t :: By(log, t) == By(log[..n], t) + if log[n].tid == t then [log[n].command] else [];
      SumGrows(t => By(log[..n], t), t => By(log, t), tids, log[n].tid, log[n].command);
    }
  }

  lemma SumOne(f: Tid -> seq<Command>, t: Tid)
    ensures Sum(f, [t]) == multiset(f(t))
  {
    assert [t][..0] == [];
  }

  // ----- the threads of a run

  function VlanTids(s: nat, i: nat, n: nat): seq<Tid> {
    seq(n, v requires 0 <= v < n => Vlan(s, i, v))
  }

  function IfaceTids(s: nat, i: nat, n: nat): seq<Tid> {
    [Iface(s, i)] + VlanTids(s, i, n)
  }

  /** The threads of a stage's first `k` interfaces. */
  function StageTids(s: nat, ifaces: seq<IfaceEntry>, k: nat): seq<Tid>
    requires k <= |ifaces|
  {
    if k == 0 then [] else StageTids(s, ifaces, k - 1) + IfaceTids(s, k - 1, |ifaces[k - 1].vlans|)
  }

  /** The threads of the first `n` stages. */
  function AllTids(stages: seq<StageEntry>, n: nat): seq<Tid>
    requires n <= |stages|
  {
    if n == 0 then []
    else AllTids(stages, n - 1) + StageTids(n - 1, stages[n - 1].ifaces, |stages[n - 1].ifaces|)
  }

  predicate OfIface(s: nat, i: nat, n: nat, t: Tid) {
    t == Iface(s, i) || (t.Vlan? && t.s == s && t.i == i && t.v < n)
  }

  predicate OfStage(s: nat, ifaces: seq<IfaceEntry>, k: nat, t: Tid)
    requires k <= |ifaces|
  {
    t != Main && t.s == s && t.i < k && (t.Vlan? ==> t.v < |ifaces[t.i].vlans|)
  }

  predicate OfStages(stages: seq<StageEntry>, n: nat, t: Tid)
    requires n <= |stages|
  {
    t != Main && t.s < n && OfStage(t.s, stages[t.s].ifaces, |stages[t.s].ifaces|, t)
  }

  lemma IfaceTidsAre(s: nat, i: nat, n: nat)
    ensures Distinct(IfaceTids(s, i, n))
    ensures forall t :: t in IfaceTids(s, i, n) <==> OfIface(s, i, n, t)
  {
    var tids := IfaceTids(s, i, n);
    forall t: Tid | OfIface(s, i, n, t) ensures t in tids {
      if t.Vlan? { assert tids[t.v + 1] == t; }
    }
  }

  lemma {:induction false} StageTidsAre(s: nat, ifaces: seq<IfaceEntry>, k: nat)
    requires k <= |ifaces|
    ensures Distinct(StageTids(s, ifaces, k))
    ensures forall t :: t in StageTids(s, ifaces, k) <==> OfStage(s, ifaces, k, t)
  {
    if k > 0 {
      var fewer, more := StageTids(s, ifaces, k - 1), IfaceTids(s, k - 1, |ifaces[k - 1].vlans|);
      StageTidsAre(s, ifaces, k - 1);
      IfaceTidsAre(s, k - 1, |ifaces[k - 1].vlans|);
      assert forall t :: t in fewer ==> t !in more;
      DistinctConcat(fewer, more);
    }
  }

  lemma {:induction false} AllTidsAre(stages: seq<StageEntry>, n: nat)
    requires n <= |stages|
    ensures Distinct(AllTids(stages, n))
    ensures forall t :: t in AllTids(stages, n) <==> OfStages(stages, n, t)
  {
    if n > 0 {
      var ifaces := stages[n - 1].ifaces;
      var fewer, more := AllTids(stages, n - 1), StageTids(n - 1, ifaces, |ifaces|);
      AllTidsAre(stages, n - 1);
      StageTidsAre(n - 1, ifaces, |ifaces|);
      assert forall t :: t in fewer ==> t !in more;
      DistinctConcat(fewer, more);
    }
  }

  lemma OfStagesIsThread(stages: seq<StageEntry>, t: Tid)
    ensures OfStages(stages, |stages|, t) <==> t != Main && IsThread(stages, t)
  {
  }

  // ----- the threads issue what the plan does

  /** What each thread issues in all. */
  function Work(run: Settings, stages: seq<StageEntry>): Tid -> seq<Command>
    requires WellFormed(stages)
  {
    t => Commands(RunThread(run, stages, t))
  }

  /** What the chosen ones of the first `n` entries issue when run one after the other. */
  function VlansScript(run: Settings, stage: nat, entry: IfaceEntry, n: nat, tagged: bool): seq<Command>
    requires n <= |entry.vlans|
  {
    Trace.Script(run, VlansActs(Intra, stage, entry.name, entry.vlans[..n], tagged))
  }

  function VlanScript(run: Settings, stage: nat, entry: IfaceEntry, v: nat): seq<Command>
    requires v < |entry.vlans|
  {
    Trace.ActScript(run, VlanActs(Intra, stage, entry.name, entry.vlans[v]))
  }

  lemma OneMore(run: Settings, acts: seq<Act>, act: Act)
    ensures Trace.Script(run, acts + [act]) == Trace.Script(run, acts) + Trace.ActScript(run, act)
    ensures Trace.Script(run, acts + []) == Trace.Script(run, acts)
  {
    Trace.ScriptConcat(run, acts, [act]);
    assert acts + [] == acts && [act][1..] == [];
  }

  lemma VlansScriptGrows(run: Settings, stage: nat, entry: IfaceEntry, n: nat, tagged: bool)
    requires n < |entry.vlans|
    ensures VlansScript(run, stage, entry, n + 1, tagged) == VlansScript(run, stage, entry, n, tagged) +
      if Chosen(entry.vlans[n], tagged) then VlanScript(run, stage, entry, n) else []
  {
    assert entry.vlans[..n + 1][..n] == entry.vlans[..n];
    OneMore(run, VlansActs(Intra, stage, entry.name, entry.vlans[..n], tagged),
            VlanActs(Intra, stage, entry.name, entry.vlans[n]));
  }

  lemma OneVlanMore(run: Settings, stages: seq<StageEntry>, s: nat, i: nat, n: nat)
    requires WellFormed(stages) && s < |stages| && i < |stages[s].ifaces|
    requires n < |IfaceOf(stages, s, i).vlans|
    ensures Sum(Work(run, stages), VlanTids(s, i, n + 1)) ==
      Sum(Work(run, stages), VlanTids(s, i, n)) +
      multiset(VlanScript(run, stages[s].number, IfaceOf(stages, s, i), n))
  {
    assert VlanTids(s, i, n + 1) == VlanTids(s, i, n) + [Vlan(s, i, n)];
    SumConcat(Work(run, stages), VlanTids(s, i, n), [Vlan(s, i, n)]);
    SumOne(Work(run, stages), Vlan(s, i, n));
    ActCommands(run, VlanActsOf(stages, s, i, n));
  }

  lemma AddOne(before: multiset<Command>, after: multiset<Command>,
               x: seq<Command>, y: seq<Command>, more: seq<Command>, toX: bool, x': seq<Command>, y': seq<Command>)
    requires before == multiset(x) + multiset(y) && after == before + multiset(more)
    requires x' == x + (if toX then more else []) && y' == y + (if toX then [] else more)
    ensures after == multiset(x') + multiset(y')
  {
  }

  lemma VlansStep(run: Settings, stages: seq<StageEntry>, s: nat, i: nat, n: nat, stage: nat, entry: IfaceEntry)
    requires WellFormed(stages) && s < |stages| && i < |stages[s].ifaces|
    requires stage == stages[s].number && entry == IfaceOf(stages, s, i) && n < |entry.vlans|
    requires Sum(Work(run, stages), VlanTids(s, i, n)) ==
      multiset(VlansScript(run, stage, entry, n, true)) + multiset(VlansScript(run, stage, entry, n, false))
    ensures Sum(Work(run, stages), VlanTids(s, i, n + 1)) ==
      multiset(VlansScript(run, stage, entry, n + 1, true)) + multiset(VlansScript(run, stage, entry, n + 1, false))
  {
    OneVlanMore(run, stages, s, i, n);
    VlansScriptGrows(run, stage, entry, n, true);
    VlansScriptGrows(run, stage, entry, n, false);
    AddOne(Sum(Work(run, stages), VlanTids(s, i, n)), Sum(Work(run, stages), VlanTids(s, i, n + 1)),
           VlansScript(run, stage, entry, n, true), VlansScript(run, stage, entry, n, false),
           VlanScript(run, stage, entry, n), Chosen(entry.vlans[n], true),
           VlansScript(run, stage, entry, n + 1, true), VlansScript(run, stage, entry, n + 1, false));
  }

  /** The threads of an interface's first `n` entries. */
  lemma {:induction false} VlansIssue(run: Settings, stages: seq<StageEntry>, s: nat, i: nat, n: nat,
                                      stage: nat, entry: IfaceEntry)
    requires WellFormed(stages) && s < |stages| && i < |stages[s].ifaces|
    requires stage == stages[s].number && entry == IfaceOf(stages, s, i) && n <= |entry.vlans|
    ensures Sum(Work(run, stages), VlanTids(s, i, n)) ==
      multiset(VlansScript(run, stage, entry, n, true)) + multiset(VlansScript(run, stage, entry, n, false))
    decreases n
  {
    if n == 0 {
      NoVlans(run, stage, entry);
    } else {
      VlansIssue(run, stages, s, i, n - 1, stage, entry);
      VlansStep(run, stages, s, i, n - 1, stage, entry);
    }
  }

  lemma NoVlans(run: Settings, stage: nat, entry: IfaceEntry)
    ensures VlansScript(run, stage, entry, 0, true) == VlansScript(run, stage, entry, 0, false) == []
  {
  }

  // ----- an interface's thread issues what is around its entries

  lemma FiveCommands(a: seq<Step>, b: seq<Step>, c: seq<Step>, d: seq<Step>, e: seq<Step>)
    ensures Commands(a + b + c + d + e) == Commands(a) + Commands(b) + Commands(c) + Commands(d) + Commands(e)
  {
    CommandsConcat(a, b);
    CommandsConcat(a + b, c);
    CommandsConcat(a + b + c, d);
    CommandsConcat(a + b + c + d, e);
  }

  function UpCommands(run: Settings, entry: IfaceEntry): seq<Command>
    requires NoEmptyLevel(entry)
  {
    MacUp(entry.name, entry.vlans[0].macs[0].mac) + RaiseLink(entry.name) +
    Trace.Script(run, CaptureActs(entry.name, run.captureSeconds))
  }

  function DownCommands(entry: IfaceEntry): seq<Command>
    requires NoEmptyLevel(entry)
  {
    LowerLink(entry.name) + MacDown(entry.name, entry.vlans[0].macs[0].mac)
  }

  lemma UpIssues(run: Settings, entry: IfaceEntry)
    requires NoEmptyLevel(entry)
    ensures Commands(IfaceUp(run, entry)) == UpCommands(run, entry)
  {
    var mac, raise := MacUp(entry.name, entry.vlans[0].macs[0].mac), RaiseLink(entry.name);
    var capture := CaptureActs(entry.name, run.captureSeconds);
    BlockCommands(mac);
    BlockCommands(raise);
    StepsCommands(run, capture);
    CommandsConcat(Block(mac), Block(raise));
    CommandsConcat(Block(mac) + Block(raise), Steps(run, capture));
  }

  lemma DownIssues(entry: IfaceEntry)
    requires NoEmptyLevel(entry)
    ensures Commands(IfaceDown(entry)) == DownCommands(entry)
  {
    var lower, mac := LowerLink(entry.name), MacDown(entry.name, entry.vlans[0].macs[0].mac);
    BlockCommands(lower);
    BlockCommands(mac);
    CommandsConcat(Block(lower), Block(mac));
  }

  lemma IfaceCommands(run: Settings, s: nat, i: nat, entry: IfaceEntry)
    requires NoEmptyLevel(entry)
    ensures Commands(IfaceSteps(run, s, i, entry)) == UpCommands(run, entry) + DownCommands(entry)
  {
    UpIssues(run, entry);
    DownIssues(entry);
    var tagged, rest := Tagged(s, i, entry), OneByOne(Untagged(s, i, entry));
    NoSections(Spawning(tagged));
    NoSections(Joining(tagged));
    NoSections(rest);
    FiveCommands(IfaceUp(run, entry), Spawning(tagged), Joining(tagged), IfaceDown(entry), rest);
    NothingBetween(UpCommands(run, entry), DownCommands(entry));
  }

  lemma NothingBetween(a: seq<Command>, b: seq<Command>)
    ensures a + [] + [] + b + [] == a + b
  {
  }

  lemma WithinScript(run: Settings, act: Act)
    requires act.Within?
    ensures Trace.Script(run, [act]) == act.up + Trace.Script(run, act.body) + act.down
  {
    assert [act][1..] == [];
  }

  lemma Shuffle(a: seq<Command>, b: seq<Command>, c: seq<Command>, d: seq<Command>, e: seq<Command>,
                x: seq<Command>, y: seq<Command>)
    ensures multiset(a + (b + (c + x) + d) + e + y) == multiset((a + b + c) + (d + e)) + (multiset(x) + multiset(y))
  {
  }

  /** The script of an interface's acts, taken apart. */
  lemma IfaceScript(run: Settings, stage: nat, entry: IfaceEntry)
    requires NoEmptyLevel(entry)
    ensures multiset(Trace.Script(run, IfaceActs(run, Intra, stage, entry))) ==
      multiset(UpCommands(run, entry) + DownCommands(entry)) +
      (multiset(Trace.Script(run, VlansActs(Intra, stage, entry.name, entry.vlans, true))) +
       multiset(Trace.Script(run, VlansActs(Intra, stage, entry.name, entry.vlans, false))))
  {
    var mac := entry.vlans[0].macs[0].mac;
    var capture := CaptureActs(entry.name, run.captureSeconds);
    var tagged := VlansActs(Intra, stage, entry.name, entry.vlans, true);
    var rest := VlansActs(Intra, stage, entry.name, entry.vlans, false);
    var inner := Within(RaiseLink(entry.name), capture + tagged, LowerLink(entry.name));
    var outer := Within(MacUp(entry.name, mac), [inner], MacDown(entry.name, mac));
    Trace.ScriptConcat(run, capture, tagged);
    WithinScript(run, inner);
    WithinScript(run, outer);
    Trace.ScriptConcat(run, [outer], rest);
    Shuffle(MacUp(entry.name, mac), RaiseLink(entry.name), Trace.Script(run, capture), LowerLink(entry.name),
            MacDown(entry.name, mac), Trace.Script(run, tagged), Trace.Script(run, rest));
  }

  lemma WholeVlans(run: Settings, stage: nat, entry: IfaceEntry, tagged: bool)
    ensures VlansScript(run, stage, entry, |entry.vlans|, tagged) ==
            Trace.Script(run, VlansActs(Intra, stage, entry.name, entry.vlans, tagged))
  {
    assert entry.vlans[..|entry.vlans|] == entry.vlans;
  }

  lemma SerialScript(run: Settings, stage: nat, entry: IfaceEntry)
    requires NoEmptyLevel(entry)
    ensures multiset(Trace.Script(run, IfaceActs(run, Intra, stage, entry))) ==
      multiset(UpCommands(run, entry) + DownCommands(entry)) +
      (multiset(VlansScript(run, stage, entry, |entry.vlans|, true)) +
       multiset(VlansScript(run, stage, entry, |entry.vlans|, false)))
  {
    IfaceScript(run, stage, entry);
    WholeVlans(run, stage, entry, true);
    WholeVlans(run, stage, entry, false);
  }

  lemma SerialIsThreads(whole: multiset<Command>, own: seq<Command>, vlans: multiset<Command>,
                        around: seq<Command>, x: seq<Command>, y: seq<Command>, serial: multiset<Command>)
    requires whole == multiset(own) + vlans && own == around && vlans == multiset(x) + multiset(y)
    requires serial == multiset(around) + (multiset(x) + multiset(y))
    ensures whole == serial
  {
  }

  lemma TwoParts(run: Settings, stages: seq<StageEntry>, s: nat, i: nat, n: nat)
    requires WellFormed(stages)
    ensures Sum(Work(run, stages), IfaceTids(s, i, n)) ==
      multiset(Work(run, stages)(Iface(s, i))) + Sum(Work(run, stages), VlanTids(s, i, n))
  {
    SumConcat(Work(run, stages), [Iface(s, i)], VlanTids(s, i, n));
    SumOne(Work(run, stages), Iface(s, i));
  }

  lemma IfaceWork(run: Settings, stages: seq<StageEntry>, s: nat, i: nat)
    requires WellFormed(stages) && s < |stages| && i < |stages[s].ifaces|
    ensures var entry := IfaceOf(stages, s, i);
      Work(run, stages)(Iface(s, i)) == UpCommands(run, entry) + DownCommands(entry)
  {
    IfaceCommands(run, s, i, IfaceOf(stages, s, i));
  }

  /** The threads of an interface issue what its acts do. */
  lemma IfaceIssues(run: Settings, stages: seq<StageEntry>, s: nat, i: nat, stage: nat, entry: IfaceEntry)
    requires WellFormed(stages) && s < |stages| && i < |stages[s].ifaces|
    requires stage == stages[s].number && entry == IfaceOf(stages, s, i)
    ensures Sum(Work(run, stages), IfaceTids(s, i, |entry.vlans|)) ==
            multiset(Trace.Script(run, IfaceActs(run, Intra, stage, entry)))
  {
    TwoParts(run, stages, s, i, |entry.vlans|);
    IfaceWork(run, stages, s, i);
    VlansIssue(run, stages, s, i, |entry.vlans|, stage, entry);
    SerialScript(run, stage, entry);
    SerialIsThreads(Sum(Work(run, stages), IfaceTids(s, i, |entry.vlans|)), Work(run, stages)(Iface(s, i)),
      Sum(Work(run, stages), VlanTids(s, i, |entry.vlans|)),
      UpCommands(run, entry) + DownCommands(entry), VlansScript(run, stage, entry, |entry.vlans|, true),
      VlansScript(run, stage, entry, |entry.vlans|, false),
      multiset(Trace.Script(run, IfaceActs(run, Intra, stage, entry))));
  }

  // ----- stages

  /** Both grow by the same commands. */
  ghost predicate Grows(all: nat -> multiset<Command>, script: nat -> seq<Command>, k: nat) {
    exists more: seq<Command> :: all(k + 1) == all(k) + multiset(more) && script(k + 1) == script(k) + more
  }

  lemma {:induction false} GrowAlike(all: nat -> multiset<Command>, script: nat -> seq<Command>, k: nat)
    requires all(0) == multiset{} && script(0) == []
    requires forall j: nat :: j < k ==> Grows(all, script, j)
    ensures all(k) == multiset(script(k))
  {
    if k > 0 {
      GrowAlike(all, script, k - 1);
      assert Grows(all, script, k - 1);
    }
  }

  /** What the threads of a stage's first interfaces issue. */
  function StageWork(run: Settings, stages: seq<StageEntry>, s: nat): nat -> multiset<Command>
    requires WellFormed(stages) && s < |stages|
  {
    (k: nat) =>
      if k <= |stages[s].ifaces| then Sum(Work(run, stages), StageTids(s, stages[s].ifaces, k)) else multiset{}
  }

  predicate WellFormedIfaces(ifaces: seq<IfaceEntry>) {
    forall e :: e in ifaces ==> NoEmptyLevel(e)
  }

  /** What these interfaces issue one after the other. */
  function StageScript(run: Settings, stage: nat, ifaces: seq<IfaceEntry>): nat -> seq<Command>
    requires WellFormedIfaces(ifaces)
  {
    (k: nat) => if k <= |ifaces| then Trace.Script(run, StageActs(run, Intra, stage, ifaces[..k])) else []
  }

  lemma OneIfaceMore(run: Settings, stage: nat, ifaces: seq<IfaceEntry>, k: nat)
    requires WellFormedIfaces(ifaces) && k < |ifaces|
    ensures StageScript(run, stage, ifaces)(k + 1) ==
            StageScript(run, stage, ifaces)(k) + Trace.Script(run, IfaceActs(run, Intra, stage, ifaces[k]))
  {
    assert ifaces[..k + 1][..k] == ifaces[..k];
    Trace.ScriptConcat(run, StageActs(run, Intra, stage, ifaces[..k]), IfaceActs(run, Intra, stage, ifaces[k]));
  }

  lemma StageGrows(run: Settings, stages: seq<StageEntry>, s: nat, k: nat, stage: nat, ifaces: seq<IfaceEntry>)
    requires WellFormed(stages) && s < |stages| && stage == stages[s].number && ifaces == stages[s].ifaces
    requires WellFormedIfaces(ifaces) && k < |ifaces|
    ensures Grows(StageWork(run, stages, s), StageScript(run, stage, ifaces), k)
  {
    IfaceIssues(run, stages, s, k, stage, ifaces[k]);
    SumConcat(Work(run, stages), StageTids(s, ifaces, k), IfaceTids(s, k, |ifaces[k].vlans|));
    OneIfaceMore(run, stage, ifaces, k);
  }

  lemma NoIfaces(run: Settings, stages: seq<StageEntry>, s: nat, stage: nat, ifaces: seq<IfaceEntry>)
    requires WellFormed(stages) && s < |stages| && ifaces == stages[s].ifaces && WellFormedIfaces(ifaces)
    ensures StageWork(run, stages, s)(0) == multiset{} && StageScript(run, stage, ifaces)(0) == []
  {
  }

  /** The threads of a stage issue what the stage does. */
  lemma StageIssues(run: Settings, stages: seq<StageEntry>, s: nat, stage: nat, ifaces: seq<IfaceEntry>)
    requires WellFormed(stages) && s < |stages| && stage == stages[s].number && ifaces == stages[s].ifaces
    requires WellFormedIfaces(ifaces)
    ensures StageWork(run, stages, s)(|ifaces|) == multiset(StageScript(run, stage, ifaces)(|ifaces|))
  {
    NoIfaces(run, stages, s, stage, ifaces);
    forall k: nat | k < |ifaces| ensures Grows(StageWork(run, stages, s), StageScript(run, stage, ifaces), k) {
      StageGrows(run, stages, s, k, stage, ifaces);
    }
    GrowAlike(StageWork(run, stages, s), StageScript(run, stage, ifaces), |ifaces|);
  }

  /** What the threads of the first stages issue. */
  function RunWork(run: Settings, stages: seq<StageEntry>): nat -> multiset<Command>
    requires WellFormed(stages)
  {
    (n: nat) => if n <= |stages| then Sum(Work(run, stages), AllTids(stages, n)) else multiset{}
  }

  /** What these stages issue one after the other. */
  function RunScript(run: Settings, stages: seq<StageEntry>): nat -> seq<Command>
    requires WellFormed(stages)
  {
    (n: nat) => if n <= |stages| then Trace.Script(run, StagesActs(run, Intra, stages[..n])) else []
  }

  lemma Regroup(whole: seq<Act>, a: seq<Act>, rest: seq<Act>, b: seq<Act>, c: seq<Act>, front: seq<Act>)
    requires whole == a + rest && rest == b + c && front == a + b
    ensures whole == front + c
  {
  }

  lemma FirstStageActs(run: Settings, stages: seq<StageEntry>)
    requires WellFormed(stages) && stages != []
    ensures WellFormedStage(stages[0])
    ensures StagesActs(run, Intra, stages) ==
            StageActs(run, Intra, stages[0].number, stages[0].ifaces) + StagesActs(run, Intra, stages[1..])
  {
    assert stages[0] in stages;
  }

  lemma {:induction false} LastStageActs(run: Settings, stages: seq<StageEntry>, n: nat)
    requires WellFormed(stages) && |stages| == n + 1
    ensures WellFormedStage(stages[n])
    ensures StagesActs(run, Intra, stages) ==
            StagesActs(run, Intra, stages[..n]) + StageActs(run, Intra, stages[n].number, stages[n].ifaces)
    decreases n
  {
    assert stages[0] in stages && stages[n] in stages;
    if n > 0 {
      LastStageActs(run, stages[1..], n - 1);
      assert stages[1..][..n - 1] == stages[..n][1..];
      FirstStageActs(run, stages);
      FirstStageActs(run, stages[..n]);
      Regroup(StagesActs(run, Intra, stages), StageActs(run, Intra, stages[0].number, stages[0].ifaces),
              StagesActs(run, Intra, stages[1..]), StagesActs(run, Intra, stages[..n][1..]),
              StageActs(run, Intra, stages[n].number, stages[n].ifaces), StagesActs(run, Intra, stages[..n]));
    } else {
      OnlyStageActs(run, stages);
    }
  }

  lemma OnlyStageActs(run: Settings, stages: seq<StageEntry>)
    requires WellFormed(stages) && |stages| == 1
    ensures WellFormedStage(stages[0])
    ensures StagesActs(run, Intra, stages) ==
            StagesActs(run, Intra, stages[..0]) + StageActs(run, Intra, stages[0].number, stages[0].ifaces)
  {
    assert stages[0] in stages && stages[1..] == [];
  }

  lemma OneStageMore(run: Settings, stages: seq<StageEntry>, n: nat, stage: nat, ifaces: seq<IfaceEntry>)
    requires WellFormed(stages) && n < |stages| && stage == stages[n].number && ifaces == stages[n].ifaces
    requires WellFormedIfaces(ifaces)
    ensures RunScript(run, stages)(n + 1) ==
            RunScript(run, stages)(n) + Trace.Script(run, StageActs(run, Intra, stage, ifaces))
  {
    LastStageActs(run, stages[..n + 1], n);
    assert stages[..n + 1][..n] == stages[..n];
    Trace.ScriptConcat(run, StagesActs(run, Intra, stages[..n]), StageActs(run, Intra, stage, ifaces));
  }

  lemma WholeStage(run: Settings, stage: nat, ifaces: seq<IfaceEntry>)
    requires WellFormedIfaces(ifaces)
    ensures StageScript(run, stage, ifaces)(|ifaces|) == Trace.Script(run, StageActs(run, Intra, stage, ifaces))
  {
    assert ifaces[..|ifaces|] == ifaces;
  }

  lemma RunGrows(run: Settings, stages: seq<StageEntry>, n: nat, stage: nat, ifaces: seq<IfaceEntry>)
    requires WellFormed(stages) && n < |stages| && stage == stages[n].number && ifaces == stages[n].ifaces
    requires WellFormedIfaces(ifaces)
    ensures Grows(RunWork(run, stages), RunScript(run, stages), n)
  {
    StageIssues(run, stages, n, stage, ifaces);
    WholeStage(run, stage, ifaces);
    SumConcat(Work(run, stages), AllTids(stages, n), StageTids(n, ifaces, |ifaces|));
    OneStageMore(run, stages, n, stage, ifaces);
  }

  lemma NoStages(run: Settings, stages: seq<StageEntry>)
    requires WellFormed(stages)
    ensures RunWork(run, stages)(0) == multiset{} && RunScript(run, stages)(0) == []
  {
  }

  /** The threads of the first `n` stages issue what these stages do one after the other. */
  lemma StagesIssue(run: Settings, stages: seq<StageEntry>, n: nat)
    requires WellFormed(stages) && n <= |stages|
    ensures RunWork(run, stages)(n) == multiset(RunScript(run, stages)(n))
  {
    NoStages(run, stages);
    forall k: nat | k < n ensures Grows(RunWork(run, stages), RunScript(run, stages), k) {
      assert stages[k] in stages;
      RunGrows(run, stages, k, stages[k].number, stages[k].ifaces);
    }
    GrowAlike(RunWork(run, stages), RunScript(run, stages), n);
  }
}
