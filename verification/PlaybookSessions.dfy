/** Which networks the plays are run against, how often, and when a source is marked completed. */
module PlaybookSessions {
  import opened Common
  import opened PlaybookModel
  import opened PlaybookTrace

  /** The plays to run from one configured source: once, or once for each of its routers. */
  datatype Job = Job(conf: Conf, routers: seq<string>)

  function RouterSessions(conf: Conf, routers: seq<string>): seq<Event> {
    if routers == [] then []
    else
      var n := |routers| - 1;
      RouterSessions(conf, routers[..n]) + [Session(conf.(router := routers[n]))]
  }

  /** A source's sessions, and after them its completion, if the run executes. */
  function JobMarks(execute: bool, job: Job): seq<Event> {
    (if job.conf.scope == Intra then [Session(job.conf)] else RouterSessions(job.conf, job.routers)) +
    if execute then [Completed(job.conf.source)] else []
  }

  // ----- concatenations

  function Flat<A, B>(f: A -> seq<B>, xs: seq<A>): seq<B> {
    if xs == [] then []
    else
      var n := |xs| - 1;
      Flat(f, xs[..n]) + f(xs[n])
  }

  lemma {:induction false} FlatIn<A, B>(f: A -> seq<B>, xs: seq<A>, y: B)
    ensures y in Flat(f, xs) <==> exists x :: x in xs && y in f(x)
  {
    if xs != [] {
      var n := |xs| - 1;
      assert xs == xs[..n] + [xs[n]];
      FlatIn(f, xs[..n], y);
      assert forall x :: x in xs <==> x in xs[..n] || x == xs[n];
    }
  }

  /** Parts without repetitions whose elements tell which part they come from have none together. */
  lemma {:induction false} FlatDistinct<A, B, K>(f: A -> seq<B>, key: A -> K, tag: B -> K, xs: seq<A>)
    requires forall i, j :: 0 <= i < j < |xs| ==> key(xs[i]) != key(xs[j])
    requires forall x :: x in xs ==> Distinct(f(x))
    requires forall x, y :: x in xs && y in f(x) ==> tag(y) == key(x)
    ensures Distinct(Flat(f, xs))
  {
    if xs != [] {
      var n := |xs| - 1;
      assert forall x :: x in xs[..n] ==> x in xs;
      assert xs[n] in xs;
      FlatDistinct(f, key, tag, xs[..n]);
      forall y | y in Flat(f, xs[..n]) ensures y !in f(xs[n]) {
        FlatIn(f, xs[..n], y);
        var x :| x in xs[..n] && y in f(x);
        assert tag(y) == key(x);
        var i :| 0 <= i < n && xs[i] == x;
      }
      DistinctConcat(Flat(f, xs[..n]), f(xs[n]));
    }
  }

  lemma {:induction false} FlatConcat<A, B>(f: A -> seq<B>, xs: seq<A>, ys: seq<A>)
    ensures Flat(f, xs + ys) == Flat(f, xs) + Flat(f, ys)
  {
    if ys == [] {
      assert xs + ys == xs;
    } else {
      var n := |ys| - 1;
      assert (xs + ys)[..|xs + ys| - 1] == xs + ys[..n];
      FlatConcat(f, xs, ys[..n]);
    }
  }

  // ----- the jobs of each level of the plan

  function MarksOf(execute: bool): Job -> seq<Event> {
    job => JobMarks(execute, job)
  }

  function IpJobs(conf: Conf): IpEntry -> seq<Job> {
    (e: IpEntry) => [Job(AddrConf(conf, e), e.source.routers)]
  }

  function MacJobs(conf: Conf): MacEntry -> seq<Job> {
    (e: MacEntry) => Flat(IpJobs(conf.(mac := e.mac)), e.ips)
  }

  function VlanJobs(scope: Scope, stage: nat, iface: string): VlanEntry -> seq<Job> {
    (e: VlanEntry) => if ValidVlan(e.vlan) then Flat(MacJobs(VlanConf(scope, stage, iface, e.vlan)), e.macs) else []
  }

  /** The jobs of the entries that are VLANs, or of those that are the interface itself. */
  function TaggedJobs(scope: Scope, stage: nat, iface: string, tagged: bool): VlanEntry -> seq<Job> {
    (e: VlanEntry) => if (e.vlan != NONE) == tagged then VlanJobs(scope, stage, iface)(e) else []
  }

  /** In the order of the plan. */
  function IfaceJobs(scope: Scope, stage: nat): IfaceEntry -> seq<Job> {
    (e: IfaceEntry) => Flat(VlanJobs(scope, stage, e.name), e.vlans)
  }

  /** In the order they are run: the interface itself after all its VLANs. */
  function IfaceJobsRun(scope: Scope, stage: nat): IfaceEntry -> seq<Job> {
    (e: IfaceEntry) =>
      Flat(TaggedJobs(scope, stage, e.name, true), e.vlans) + Flat(TaggedJobs(scope, stage, e.name, false), e.vlans)
  }

  function StageJobs(scope: Scope): StageEntry -> seq<Job> {
    (s: StageEntry) => Flat(IfaceJobs(scope, s.number), s.ifaces)
  }

  function StageJobsRun(scope: Scope): StageEntry -> seq<Job> {
    (s: StageEntry) => Flat(IfaceJobsRun(scope, s.number), s.ifaces)
  }

  // ----- the marks of the acts are the marks of the jobs

  lemma {:induction false} ActsMarksConcat(execute: bool, x: seq<Act>, y: seq<Act>)
    ensures ActsMarks(execute, x + y) == ActsMarks(execute, x) + ActsMarks(execute, y)
  {
    if x == [] {
      assert x + y == y;
    } else {
      assert (x + y)[0] == x[0] && (x + y)[1..] == x[1..] + y;
      ActsMarksConcat(execute, x[1..], y);
    }
  }

  lemma ActsMarksOne(execute: bool, act: Act)
    ensures ActsMarks(execute, [act]) == ActMarks(execute, act)
  {
  }

  ghost predicate Does(execute: bool, acts: seq<Act>, jobs: seq<Job>) {
    ActsMarks(execute, acts) == Flat(MarksOf(execute), jobs)
  }

  lemma DoesConcat(execute: bool, x: seq<Act>, y: seq<Act>, a: seq<Job>, b: seq<Job>)
    requires Does(execute, x, a) && Does(execute, y, b)
    ensures Does(execute, x + y, a + b)
  {
    ActsMarksConcat(execute, x, y);
    FlatConcat(MarksOf(execute), a, b);
  }

  lemma DoesWithin(execute: bool, act: Act, jobs: seq<Job>)
    requires act.Within? && Does(execute, act.body, jobs)
    ensures Does(execute, [act], jobs)
  {
    ActsMarksOne(execute, act);
  }

  lemma {:induction false} RoutersDo(execute: bool, conf: Conf, routers: seq<string>)
    ensures ActsMarks(execute, RouterActs(conf, routers)) == RouterSessions(conf, routers)
  {
    if routers != [] {
      var n := |routers| - 1;
      var c := conf.(router := routers[n]);
      var act := Within(RouteUp(conf.link, routers[n]), [Network(c)], RouteDown(conf.link, routers[n]));
      RoutersDo(execute, conf, routers[..n]);
      ActsMarksConcat(execute, RouterActs(conf, routers[..n]), [act]);
      ActsMarksOne(execute, act);
      ActsMarksOne(execute, Network(c));
    }
  }

  lemma AddrDoes(execute: bool, conf: Conf, entry: IpEntry)
    ensures Does(execute, [AddrActs(conf, entry)], IpJobs(conf)(entry))
  {
    var c := AddrConf(conf, entry);
    var job := Job(c, entry.source.routers);
    var body := if c.scope == Intra then [Network(c)] else RouterActs(c, entry.source.routers);
    RoutersDo(execute, c, entry.source.routers);
    ActsMarksConcat(execute, body, [Complete(c.source)]);
    ActsMarksOne(execute, Network(c));
    ActsMarksOne(execute, Complete(c.source));
    assert ActsMarks(execute, body + [Complete(c.source)]) == JobMarks(execute, job);
    ActsMarksOne(execute, AddrActs(conf, entry));
    assert [job][..0] == [];
    assert Flat(MarksOf(execute), [job]) == JobMarks(execute, job);
  }

  lemma {:induction false} AddrsDo(execute: bool, conf: Conf, ips: seq<IpEntry>)
    ensures Does(execute, AddrsActs(conf, ips), Flat(IpJobs(conf), ips))
  {
    if ips != [] {
      var n := |ips| - 1;
      AddrsDo(execute, conf, ips[..n]);
      AddrDoes(execute, conf, ips[n]);
      DoesConcat(execute, AddrsActs(conf, ips[..n]), [AddrActs(conf, ips[n])],
        Flat(IpJobs(conf), ips[..n]), IpJobs(conf)(ips[n]));
    }
  }

  lemma MacDoes(execute: bool, conf: Conf, entry: MacEntry)
    ensures Does(execute, [MacActs(conf, entry)], MacJobs(conf)(entry))
  {
    var c := conf.(mac := entry.mac);
    var capture := if c.vlan == NONE then CaptureActs(c.link, 90) else [];
    AddrsDo(execute, c, entry.ips);
    ActsMarksConcat(execute, capture, AddrsActs(c, entry.ips));
    if c.vlan == NONE { ActsMarksOne(execute, capture[0]); }
    assert [] + ActsMarks(execute, AddrsActs(c, entry.ips)) == ActsMarks(execute, AddrsActs(c, entry.ips));
    var link := Within(RaiseLink(c.link), capture + AddrsActs(c, entry.ips), LowerLink(c.link));
    DoesWithin(execute, link, MacJobs(conf)(entry));
    DoesWithin(execute, MacActs(conf, entry), MacJobs(conf)(entry));
  }

  lemma {:induction false} MacsDo(execute: bool, conf: Conf, macs: seq<MacEntry>)
    ensures Does(execute, MacsActs(conf, macs), Flat(MacJobs(conf), macs))
  {
    if macs != [] {
      var n := |macs| - 1;
      MacsDo(execute, conf, macs[..n]);
      MacDoes(execute, conf, macs[n]);
      DoesConcat(execute, MacsActs(conf, macs[..n]), [MacActs(conf, macs[n])],
        Flat(MacJobs(conf), macs[..n]), MacJobs(conf)(macs[n]));
    }
  }

  lemma {:induction false} VlansDo(execute: bool, scope: Scope, stage: nat, iface: string, vlans: seq<VlanEntry>,
                                   tagged: bool)
    ensures Does(execute, VlansActs(scope, stage, iface, vlans, tagged),
                 Flat(TaggedJobs(scope, stage, iface, tagged), vlans))
  {
    if vlans != [] {
      var n := |vlans| - 1;
      var act := VlanActs(scope, stage, iface, vlans[n]);
      var more := if (vlans[n].vlan != NONE) == tagged then [act] else [];
      VlansDo(execute, scope, stage, iface, vlans[..n], tagged);
      MacsDo(execute, VlanConf(scope, stage, iface, vlans[n].vlan), vlans[n].macs);
      DoesWithin(execute, act, VlanJobs(scope, stage, iface)(vlans[n]));
      DoesConcat(execute, VlansActs(scope, stage, iface, vlans[..n], tagged), more,
        Flat(TaggedJobs(scope, stage, iface, tagged), vlans[..n]), TaggedJobs(scope, stage, iface, tagged)(vlans[n]));
    }
  }

  lemma IfaceDoes(run: Settings, scope: Scope, stage: nat, entry: IfaceEntry)
    requires NoEmptyLevel(entry)
    ensures Does(run.execute, IfaceActs(run, scope, stage, entry), IfaceJobsRun(scope, stage)(entry))
  {
    var x, iface, mac := run.execute, entry.name, entry.vlans[0].macs[0].mac;
    var capture := CaptureActs(iface, run.captureSeconds);
    var tagged := VlansActs(scope, stage, iface, entry.vlans, true);
    var jobs := Flat(TaggedJobs(scope, stage, iface, true), entry.vlans);
    var link := Within(RaiseLink(iface), capture + tagged, LowerLink(iface));
    VlansDo(x, scope, stage, iface, entry.vlans, true);
    VlansDo(x, scope, stage, iface, entry.vlans, false);
    ActsMarksConcat(x, capture, tagged);
    ActsMarksOne(x, capture[0]);
    assert [] + ActsMarks(x, tagged) == ActsMarks(x, tagged);
    DoesWithin(x, link, jobs);
    var whole := Within(MacUp(iface, mac), [link], MacDown(iface, mac));
    DoesWithin(x, whole, jobs);
    DoesConcat(x, [whole], VlansActs(scope, stage, iface, entry.vlans, false),
      jobs, Flat(TaggedJobs(scope, stage, iface, false), entry.vlans));
  }

  lemma {:induction false} StageDoes(run: Settings, scope: Scope, stage: nat, ifaces: seq<IfaceEntry>)
    requires forall i :: i in ifaces ==> NoEmptyLevel(i)
    ensures Does(run.execute, StageActs(run, scope, stage, ifaces), Flat(IfaceJobsRun(scope, stage), ifaces))
  {
    if ifaces != [] {
      var n := |ifaces| - 1;
      assert ifaces[n] in ifaces;
      StageDoes(run, scope, stage, ifaces[..n]);
      IfaceDoes(run, scope, stage, ifaces[n]);
      DoesConcat(run.execute, StageActs(run, scope, stage, ifaces[..n]), IfaceActs(run, scope, stage, ifaces[n]),
        Flat(IfaceJobsRun(scope, stage), ifaces[..n]), IfaceJobsRun(scope, stage)(ifaces[n]));
    }
  }

  lemma FlatOne<A, B>(f: A -> seq<B>, x: A)
    ensures Flat(f, [x]) == f(x)
  {
    assert [x][..0] == [];
  }

  lemma {:induction false} StagesDo(run: Settings, scope: Scope, stages: seq<StageEntry>)
    requires forall s :: s in stages ==> WellFormedStage(s)
    ensures Does(run.execute, StagesActs(run, scope, stages), Flat(StageJobsRun(scope), stages))
    decreases stages
  {
    if stages != [] {
      assert WellFormedStage(stages[0]);
      StageDoes(run, scope, stages[0].number, stages[0].ifaces);
      StagesDo(run, scope, stages[1..]);
      DoesConcat(run.execute, StageActs(run, scope, stages[0].number, stages[0].ifaces),
        StagesActs(run, scope, stages[1..]),
        StageJobsRun(scope)(stages[0]), Flat(StageJobsRun(scope), stages[1..]));
      FlatConcat(StageJobsRun(scope), [stages[0]], stages[1..]);
      FlatOne(StageJobsRun(scope), stages[0]);
      assert [stages[0]] + stages[1..] == stages;
    }
  }

  // ----- the jobs that are run are those of the plan

  lemma {:induction false} TaggedAndNot(scope: Scope, stage: nat, iface: string, vlans: seq<VlanEntry>)
    ensures multiset(Flat(TaggedJobs(scope, stage, iface, true), vlans)) +
            multiset(Flat(TaggedJobs(scope, stage, iface, false), vlans)) ==
            multiset(Flat(VlanJobs(scope, stage, iface), vlans))
  {
    if vlans != [] { TaggedAndNot(scope, stage, iface, vlans[..|vlans| - 1]); }
  }

  lemma {:induction false} FlatSame<A, B>(f: A -> seq<B>, g: A -> seq<B>, xs: seq<A>)
    requires forall x :: x in xs ==> multiset(f(x)) == multiset(g(x))
    ensures multiset(Flat(f, xs)) == multiset(Flat(g, xs))
  {
    if xs != [] {
      var n := |xs| - 1;
      assert xs[n] in xs;
      FlatSame(f, g, xs[..n]);
    }
  }

  lemma SameJobs(scope: Scope, stages: seq<StageEntry>)
    ensures multiset(Flat(StageJobsRun(scope), stages)) == multiset(Flat(StageJobs(scope), stages))
  {
    forall s | s in stages
      ensures multiset(StageJobsRun(scope)(s)) == multiset(StageJobs(scope)(s))
    {
      forall i | i in s.ifaces
        ensures multiset(IfaceJobsRun(scope, s.number)(i)) == multiset(IfaceJobs(scope, s.number)(i))
      {
        TaggedAndNot(scope, s.number, i.name, i.vlans);
      }
      FlatSame(IfaceJobsRun(scope, s.number), IfaceJobs(scope, s.number), s.ifaces);
    }
    FlatSame(StageJobsRun(scope), StageJobs(scope), stages);
  }

  /** Every level of the plan is a map: its keys are distinct. */
  ghost predicate DistinctKeys(stages: seq<StageEntry>) {
    && (forall i, j :: 0 <= i < j < |stages| ==> stages[i].number != stages[j].number)
    && forall s :: s in stages ==> DistinctIfaces(s.ifaces)
  }

  ghost predicate DistinctIfaces(ifaces: seq<IfaceEntry>) {
    && (forall i, j :: 0 <= i < j < |ifaces| ==> ifaces[i].name != ifaces[j].name)
    && forall e :: e in ifaces ==> DistinctVlans(e.vlans)
  }

  ghost predicate DistinctVlans(vlans: seq<VlanEntry>) {
    && (forall i, j :: 0 <= i < j < |vlans| ==> vlans[i].vlan != vlans[j].vlan)
    && forall e :: e in vlans ==> DistinctMacs(e.macs)
  }

  ghost predicate DistinctMacs(macs: seq<MacEntry>) {
    && (forall i, j :: 0 <= i < j < |macs| ==> macs[i].mac != macs[j].mac)
    && forall e :: e in macs ==> forall i, j :: 0 <= i < j < |e.ips| ==> e.ips[i].addr != e.ips[j].addr
  }

  lemma MacJobsDistinct(conf: Conf, entry: MacEntry)
    requires forall i, j :: 0 <= i < j < |entry.ips| ==> entry.ips[i].addr != entry.ips[j].addr
    ensures Distinct(MacJobs(conf)(entry))
    ensures forall y :: y in MacJobs(conf)(entry) ==>
      y.conf.mac == entry.mac && y.conf.vlan == conf.vlan && y.conf.iface == conf.iface && y.conf.stage == conf.stage
  {
    var c := conf.(mac := entry.mac);
    FlatDistinct(IpJobs(c), (e: IpEntry) => e.addr, (y: Job) => y.conf.addr, entry.ips);
    forall y | y in MacJobs(conf)(entry)
      ensures y.conf.mac == entry.mac && y.conf.vlan == conf.vlan && y.conf.iface == conf.iface &&
        y.conf.stage == conf.stage
    {
      FlatIn(IpJobs(c), entry.ips, y);
    }
  }

  lemma VlanJobsDistinct(scope: Scope, stage: nat, iface: string, entry: VlanEntry)
    requires DistinctMacs(entry.macs)
    ensures Distinct(VlanJobs(scope, stage, iface)(entry))
    ensures forall y :: y in VlanJobs(scope, stage, iface)(entry) ==>
      y.conf.vlan == entry.vlan && y.conf.iface == iface && y.conf.stage == stage
  {
    var conf := VlanConf(scope, stage, iface, entry.vlan);
    forall e | e in entry.macs
      ensures Distinct(MacJobs(conf)(e))
      ensures forall y :: y in MacJobs(conf)(e) ==>
        y.conf.mac == e.mac && y.conf.vlan == conf.vlan && y.conf.iface == iface && y.conf.stage == stage
    {
      MacJobsDistinct(conf, e);
    }
    FlatDistinct(MacJobs(conf), (e: MacEntry) => e.mac, (y: Job) => y.conf.mac, entry.macs);
    forall y | y in VlanJobs(scope, stage, iface)(entry)
      ensures y.conf.vlan == entry.vlan && y.conf.iface == iface && y.conf.stage == stage
    {
      FlatIn(MacJobs(conf), entry.macs, y);
    }
  }

  lemma IfaceJobsDistinct(scope: Scope, stage: nat, entry: IfaceEntry)
    requires DistinctVlans(entry.vlans)
    ensures Distinct(IfaceJobs(scope, stage)(entry))
    ensures forall y :: y in IfaceJobs(scope, stage)(entry) ==> y.conf.iface == entry.name && y.conf.stage == stage
  {
    var f := VlanJobs(scope, stage, entry.name);
    forall e | e in entry.vlans
      ensures Distinct(f(e))
      ensures forall y :: y in f(e) ==> y.conf.vlan == e.vlan && y.conf.iface == entry.name && y.conf.stage == stage
    {
      VlanJobsDistinct(scope, stage, entry.name, e);
    }
    FlatDistinct(f, (e: VlanEntry) => e.vlan, (y: Job) => y.conf.vlan, entry.vlans);
    forall y | y in IfaceJobs(scope, stage)(entry) ensures y.conf.iface == entry.name && y.conf.stage == stage {
      FlatIn(f, entry.vlans, y);
    }
  }

  lemma StageJobsDistinct(scope: Scope, stage: StageEntry)
    requires DistinctIfaces(stage.ifaces)
    ensures Distinct(StageJobs(scope)(stage))
    ensures forall y :: y in StageJobs(scope)(stage) ==> y.conf.stage == stage.number
  {
    var f := IfaceJobs(scope, stage.number);
    forall e | e in stage.ifaces
      ensures Distinct(f(e))
      ensures forall y :: y in f(e) ==> y.conf.iface == e.name && y.conf.stage == stage.number
    {
      IfaceJobsDistinct(scope, stage.number, e);
    }
    FlatDistinct(f, (e: IfaceEntry) => e.name, (y: Job) => y.conf.iface, stage.ifaces);
    forall y | y in StageJobs(scope)(stage) ensures y.conf.stage == stage.number {
      FlatIn(f, stage.ifaces, y);
    }
  }

  lemma JobsDistinct(scope: Scope, stages: seq<StageEntry>)
    requires DistinctKeys(stages)
    ensures Distinct(Flat(StageJobs(scope), stages))
  {
    forall s | s in stages
      ensures Distinct(StageJobs(scope)(s))
      ensures forall y :: y in StageJobs(scope)(s) ==> y.conf.stage == s.number
    {
      StageJobsDistinct(scope, s);
    }
    FlatDistinct(StageJobs(scope), (s: StageEntry) => s.number, (y: Job) => y.conf.stage, stages);
  }

  /** Where the plays of a configured source are run from: its own address and identity, on the link of its
      VLAN or, without one, on the interface. */
  function SourceConf(scope: Scope, s: StageEntry, i: IfaceEntry, v: VlanEntry, m: MacEntry, p: IpEntry): Conf {
    var link := if v.vlan < 0x0FFF then i.name + "." + Decimal(v.vlan) else i.name;
    Conf(scope, s.number, i.name, v.vlan, m.mac, p.addr, "", link, p.source.id, p.source.family)
  }

  /** The job of a configured source. */
  function SourceJob(scope: Scope, s: StageEntry, i: IfaceEntry, v: VlanEntry, m: MacEntry, p: IpEntry): Job {
    Job(SourceConf(scope, s, i, v, m, p), p.source.routers)
  }

  lemma SourceConfIs(scope: Scope, s: StageEntry, i: IfaceEntry, v: VlanEntry, m: MacEntry, p: IpEntry)
    ensures SourceConf(scope, s, i, v, m, p) == AddrConf(VlanConf(scope, s.number, i.name, v.vlan).(mac := m.mac), p)
  {
  }

  ghost predicate IsSource(stages: seq<StageEntry>, s: StageEntry, i: IfaceEntry, v: VlanEntry, m: MacEntry,
                           p: IpEntry) {
    && s in stages && i in s.ifaces && v in i.vlans && (v.vlan < 0x0FFF || v.vlan == 0xFFFF)
    && m in v.macs && p in m.ips
  }

  ghost predicate SourceOf(scope: Scope, stages: seq<StageEntry>, job: Job,
                           s: StageEntry, i: IfaceEntry, v: VlanEntry, m: MacEntry, p: IpEntry) {
    IsSource(stages, s, i, v, m, p) && job == SourceJob(scope, s, i, v, m, p)
  }

  ghost predicate FromSource(scope: Scope, stages: seq<StageEntry>, job: Job) {
    exists s, i, v, m, p :: SourceOf(scope, stages, job, s, i, v, m, p)
  }

  lemma PlannedInStage(scope: Scope, stage: nat, ifaces: seq<IfaceEntry>, job: Job)
    returns (i: IfaceEntry, v: VlanEntry)
    requires job in Flat(IfaceJobs(scope, stage), ifaces)
    ensures i in ifaces && v in i.vlans && job in VlanJobs(scope, stage, i.name)(v)
  {
    FlatIn(IfaceJobs(scope, stage), ifaces, job);
    i :| i in ifaces && job in IfaceJobs(scope, stage)(i);
    FlatIn(VlanJobs(scope, stage, i.name), i.vlans, job);
    v :| v in i.vlans && job in VlanJobs(scope, stage, i.name)(v);
  }

  lemma PlannedIsSource(scope: Scope, stages: seq<StageEntry>, job: Job)
    returns (s: StageEntry, i: IfaceEntry, v: VlanEntry, m: MacEntry, p: IpEntry)
    requires job in Flat(StageJobs(scope), stages)
    ensures IsSource(stages, s, i, v, m, p) && job == SourceJob(scope, s, i, v, m, p)
  {
    FlatIn(StageJobs(scope), stages, job);
    s :| s in stages && job in StageJobs(scope)(s);
    i, v := PlannedInStage(scope, s.number, s.ifaces, job);
    m, p := PlannedInVlan(VlanConf(scope, s.number, i.name, v.vlan), v.macs, job);
    SourceConfIs(scope, s, i, v, m, p);
  }

  lemma PlannedInVlan(conf: Conf, macs: seq<MacEntry>, job: Job) returns (m: MacEntry, p: IpEntry)
    requires job in Flat(MacJobs(conf), macs)
    ensures m in macs && p in m.ips && job == Job(AddrConf(conf.(mac := m.mac), p), p.source.routers)
  {
    FlatIn(MacJobs(conf), macs, job);
    m :| m in macs && job in MacJobs(conf)(m);
    FlatIn(IpJobs(conf.(mac := m.mac)), m.ips, job);
    p :| p in m.ips && job in IpJobs(conf.(mac := m.mac))(p);
  }

  /** The planned jobs are those of the configured sources with a usable VLAN id. */
  lemma JobsAreSources(scope: Scope, stages: seq<StageEntry>, job: Job)
    ensures job in Flat(StageJobs(scope), stages) <==> FromSource(scope, stages, job)
  {
    if job in Flat(StageJobs(scope), stages) {
      var s, i, v, m, p := PlannedIsSource(scope, stages, job);
      assert SourceOf(scope, stages, job, s, i, v, m, p);
    }
    if FromSource(scope, stages, job) {
      var s, i, v, m, p :| SourceOf(scope, stages, job, s, i, v, m, p);
      SourceIsPlanned(scope, stages, s, i, v, m, p);
    }
  }

  lemma SourceIsPlanned(scope: Scope, stages: seq<StageEntry>, s: StageEntry, i: IfaceEntry, v: VlanEntry,
                        m: MacEntry, p: IpEntry)
    requires IsSource(stages, s, i, v, m, p)
    ensures SourceJob(scope, s, i, v, m, p) in Flat(StageJobs(scope), stages)
  {
    var job := SourceJob(scope, s, i, v, m, p);
    SourceConfIs(scope, s, i, v, m, p);
    var conf := VlanConf(scope, s.number, i.name, v.vlan);
    assert job in IpJobs(conf.(mac := m.mac))(p);
    FlatIn(IpJobs(conf.(mac := m.mac)), m.ips, job);
    assert job in MacJobs(conf)(m);
    FlatIn(MacJobs(conf), v.macs, job);
    assert job in VlanJobs(scope, s.number, i.name)(v);
    FlatIn(VlanJobs(scope, s.number, i.name), i.vlans, job);
    assert job in IfaceJobs(scope, s.number)(i);
    FlatIn(IfaceJobs(scope, s.number), s.ifaces, job);
    assert job in StageJobs(scope)(s);
    FlatIn(StageJobs(scope), stages, job);
  }

  lemma RunMarks(run: Settings, scope: Scope, playbook: seq<StageEntry>)
    requires forall s :: s in playbook ==> WellFormedStage(s)
    ensures Marks(RunPlaybook(run, scope, playbook).log) ==
            Flat(MarksOf(run.execute), Flat(StageJobsRun(scope), StagesRun(run, playbook)))
  {
    PlaybookAdds(run, scope, playbook);
    StagesDo(run, scope, StagesRun(run, playbook));
  }

  lemma JobsRunOnce(scope: Scope, stages: seq<StageEntry>)
    requires DistinctKeys(stages)
    ensures Distinct(Flat(StageJobsRun(scope), stages))
    ensures forall job :: job in Flat(StageJobsRun(scope), stages) <==> job in Flat(StageJobs(scope), stages)
  {
    SameJobs(scope, stages);
    JobsDistinct(scope, stages);
    SameDistinct(Flat(StageJobs(scope), stages), Flat(StageJobsRun(scope), stages));
    SameMembers(Flat(StageJobs(scope), stages), Flat(StageJobsRun(scope), stages));
  }

  lemma SameMembers<T>(a: seq<T>, b: seq<T>)
    requires multiset(a) == multiset(b)
    ensures forall x :: x in b <==> x in a
  {
    assert forall x :: x in a <==> x in multiset(a);
    assert forall x :: x in b <==> x in multiset(b);
  }

  /** A run consists, one job after the other, of the job of every configured source with a usable VLAN
      id, each exactly once; a job is the source's sessions, one for each router in an inter-network run,
      and then its completion, if the run executes. */
  lemma EverySourceOnce(run: Settings, scope: Scope, playbook: seq<StageEntry>) returns (jobs: seq<Job>)
    requires (forall s :: s in playbook ==> WellFormedStage(s)) && DistinctKeys(StagesRun(run, playbook))
    ensures Marks(RunPlaybook(run, scope, playbook).log) == Flat(MarksOf(run.execute), jobs)
    ensures Distinct(jobs)
    ensures forall job :: job in jobs <==> FromSource(scope, StagesRun(run, playbook), job)
  {
    jobs := Flat(StageJobsRun(scope), StagesRun(run, playbook));
    RunMarks(run, scope, playbook);
    JobsRunOnce(scope, StagesRun(run, playbook));
    forall job ensures job in jobs <==> FromSource(scope, StagesRun(run, playbook), job) {
      JobsAreSources(scope, StagesRun(run, playbook), job);
    }
  }

  lemma SameDistinct<T>(a: seq<T>, b: seq<T>)
    requires Distinct(a) && multiset(a) == multiset(b)
    ensures Distinct(b)
  {
    forall i, j | 0 <= i < j < |b| ensures b[i] != b[j] {
      if b[i] == b[j] {
        assert b == b[..i] + [b[i]] + b[i + 1..j] + [b[j]] + b[j + 1..];
        assert multiset(b)[b[i]] >= 2;
        DistinctOnce(a, b[i]);
      }
    }
  }

  lemma {:induction false} DistinctOnce<T>(a: seq<T>, x: T)
    requires Distinct(a)
    ensures multiset(a)[x] <= 1
  {
    if a != [] {
      var n := |a| - 1;
      assert a == a[..n] + [a[n]];
      DistinctOnce(a[..n], x);
      if a[n] == x { assert x !in a[..n]; }
    }
  }
}
