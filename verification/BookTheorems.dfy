/** What expanding books means to those who read them afterwards. */
module BookTheorems {
  import opened BookGraph
  import opened BookExpansion

  /** The target ends up holding exactly the terminal names a path in the original book leads to. */
  lemma TargetHoldsMeaning(b: View, ts: Name, td: Name, ds: Name)
    requires ts in b && Live(b[ts], td)
    ensures var after := Expansion(b, ts, td, ds);
      ts in after && td in after[ts] &&
      forall t :: t in after[ts][td] <==> Reaches(b[ts], td, t) && Terminal(b[ts], t)
  {
    SetsComplete(b[ts]);
    ReachesSelf(b[ts], td);
    assert td in Entries(b, ts, {td}, ds, ts);
    assert td in Visited(b, ts, {td}, ds, ts);
  }

  /** In any state that spares what a call does not visit, such as every state the call goes through, an
      entry of the target set is as it was unless the target reaches it, and an entry of the default set
      unless a name without data that the target stands for reaches it. */
  lemma OthersUntouched(b: View, c: View, ts: Name, td: Name, ds: Name, s: Name, x: Name)
    requires Spares(b, c, ts, td, ds) && s in b && x in b[s] && ts in b
    requires s == ts ==> !Reaches(b[ts], td, x)
    requires ds != "" && s == ds ==>
      forall d :: Denotes(b[ts], td, d) && !Live(b[ts], d) ==> !Reaches(b[ds], d, x)
    ensures s in c && x in c[s] && c[s][x] == b[s][x]
  {
    SetsComplete(b[s]);
    SetsComplete(b[ts]);
    assert x !in Visited(b, ts, {td}, ds, s);
  }

  /** The call comes to the entry: from the target, or in the default set from a name without data that the
      target stands for. */
  ghost predicate ComesTo(b: View, ts: Name, td: Name, ds: Name, s: Name, x: Name)
    requires ts in b && s in b
  {
    || (s == ts && Reaches(b[ts], td, x))
    || (ds != "" && s == ds && exists d :: Denotes(b[ts], td, d) && !Live(b[ts], d) && Reaches(b[ds], d, x))
  }

  /** Every entry with data that the call comes to ends up holding its own meaning, and every other entry is
      as it was. */
  lemma EveryEntry(b: View, ts: Name, td: Name, ds: Name, s: Name, x: Name)
    requires ts in b && Live(b[ts], td) && s in b && x in b[s]
    ensures var after := Expansion(b, ts, td, ds);
      s in after && x in after[s] &&
      if ComesTo(b, ts, td, ds, s, x) && Live(b[s], x)
      then forall t :: t in after[s][x] <==> Reaches(b[s], x, t) && Terminal(b[s], t)
      else after[s][x] == b[s][x]
  {
    SetsComplete(b[s]);
    SetsComplete(b[ts]);
    VisitedIs(b, ts, td, ds, s, x);
  }

  lemma VisitedIs(b: View, ts: Name, td: Name, ds: Name, s: Name, x: Name)
    requires ts in b && s in b
    ensures x in Visited(b, ts, {td}, ds, s) <==> ComesTo(b, ts, td, ds, s, x)
  {
    SetsComplete(b[s]);
    SetsComplete(b[ts]);
    if x in Visited(b, ts, {td}, ds, s) {
      var r :| r in Entries(b, ts, {td}, ds, s) && Reaches(b[s], r, x);
    }
    if s == ts && Reaches(b[ts], td, x) {
      assert td in Entries(b, ts, {td}, ds, s);
    }
    if ds != "" && s == ds {
      if d :| Denotes(b[ts], td, d) && !Live(b[ts], d) && Reaches(b[ds], d, x) {
        assert d in Leaves(b[ts], td);
        assert d in Entries(b, ts, {td}, ds, s);
      }
    }
  }

  /** What the call ends with spares what it does not visit, and has the same sets and entries. */
  lemma ExpansionSpares(b: View, ts: Name, td: Name, ds: Name)
    ensures Spares(b, Expansion(b, ts, td, ds), ts, td, ds)
    ensures Expansion(b, ts, td, ds).Keys == b.Keys
    ensures forall s :: s in b ==> Expansion(b, ts, td, ds)[s].Keys == b[s].Keys
  {
  }

  /** The names that the members of `td` other than `d` and `td` itself stand for. */
  ghost function OthersMean(g: Graph, td: Name, d: Name): set<Name>
    requires td in g
  {
    set y, t | y in g[td] && y != d && y != td && t in Meaning(g, y) :: t
  }

  lemma {:induction false} SameBelow(g: Graph, h: Graph, td: Name, y: Name, z: Name, n: nat)
    requires h.Keys == g.Keys && (forall x :: x in g && x != td ==> h[x] == g[x]) && !Reaches(g, y, td)
    ensures Steps(h, y, z, n) <==> Steps(g, y, z, n)
    decreases n
  {
    ReachesSelf(g, y);
    if n > 0 && y in g {
      forall m | m in g[y] ensures Steps(h, m, z, n - 1) <==> Steps(g, m, z, n - 1) {
        ReachesEdge(g, y, m);
        if Reaches(g, m, td) {
          ReachesTrans(g, y, m, td);
        } else {
          SameBelow(g, h, td, m, z, n - 1);
        }
      }
    }
  }

  lemma MeaningBelow(g: Graph, h: Graph, td: Name, y: Name)
    requires h.Keys == g.Keys && (forall x :: x in g && x != td ==> h[x] == g[x]) && !Reaches(g, y, td)
    ensures Meaning(h, y) == Meaning(g, y)
  {
    SetsComplete(g);
    SetsComplete(h);
    forall z ensures Reaches(h, y, z) <==> Reaches(g, y, z) {
      forall n: nat ensures Steps(h, y, z, n) <==> Steps(g, y, z, n) { SameBelow(g, h, td, y, z, n); }
    }
  }

  lemma MeaningWithout(g: Graph, td: Name, d: Name, t: Name)
    requires Acyclic(g) && Live(g, td) && d in g[td] && d != td && g[td] != {d}
    ensures t in Meaning(g[td := g[td] - {d}], td) <==> t in OthersMean(g, td, d) || (t == td && td in g[td])
  {
    var h := g[td := g[td] - {d}];
    MeaningUnfold(h, td, t);
    SameMeaningRefl(g);
    forall y | y in g[td] && y != td ensures Meaning(h, y) == Meaning(g, y) {
      RankDecreases(g, g, td, y);
      MeaningBelow(g, h, td, y);
    }
  }

  lemma SameMeaningRefl(g: Graph)
    ensures SameMeaning(g, g)
  {
  }

  /** Between the removal of a member and the addition of its data, the entry stands for what it did
      exactly when its other members stand for all that the removed one does. */
  lemma BetweenRemovalAndAddition(g: Graph, td: Name, d: Name)
    requires Acyclic(g) && Live(g, td) && Live(g, d) && d in g[td] && d != td
    ensures Meaning(g[td := g[td] - {d}], td) == Meaning(g, td) <==> Meaning(g, d) <= OthersMean(g, td, d)
  {
    var h := g[td := g[td] - {d}];
    SameMeaningRefl(g);
    SetsComplete(g);
    RankDecreases(g, g, td, d);
    MeaningNonempty(g, d);
    forall t ensures t in Meaning(g, td) <==>
      t in Meaning(g, d) || t in OthersMean(g, td, d) || (t == td && td in g[td]) {
      MeaningUnfold(g, td, t);
    }
    if g[td] == {d} {
      DeadMeaning(h, td);
      assert OthersMean(g, td, d) == {};
    } else {
      forall t ensures t in Meaning(h, td) <==> t in OthersMean(g, td, d) || (t == td && td in g[td]) {
        MeaningWithout(g, td, d, t);
      }
    }
  }

  // ----- expanding many entries

  type Call = (Name, Name)

  /** The collection after expanding the given entries one after the other. */
  ghost function ExpandAll(b: View, calls: seq<Call>, ds: Name): View {
    if calls == [] then b
    else
      var last := calls[|calls| - 1];
      Expansion(ExpandAll(b, calls[..|calls| - 1], ds), last.0, last.1, ds)
  }

  ghost function Roots(b: View, calls: set<Call>, ds: Name, s: Name): set<Name> {
    set c, r | c in calls && c.0 in b && Live(b[c.0], c.1) && r in Entries(b, c.0, {c.1}, ds, s) :: r
  }

  ghost function Final(b: View, calls: set<Call>, ds: Name): View {
    map s | s in b :: Normal(b[s], ReachAll(b[s], Roots(b, calls, ds, s)))
  }

  ghost predicate AllAcyclic(b: View) {
    forall s :: s in b ==> Acyclic(b[s])
  }

  function CallSet(calls: seq<Call>): set<Call> {
    set c | c in calls
  }

  lemma FinalKept(b: View, calls: set<Call>, ds: Name, s: Name, x: Name)
    requires AllAcyclic(b) && s in b
    ensures SameMeaning(b[s], Final(b, calls, ds)[s])
    ensures Leaves(Final(b, calls, ds)[s], x) == Leaves(b[s], x)
  {
    NormalRewrites(b[s], ReachAll(b[s], Roots(b, calls, ds, s)));
    LeavesKept(b[s], Final(b, calls, ds)[s], x);
  }

  lemma RootsMore(b: View, calls: set<Call>, c: Call, ds: Name, s: Name)
    requires s in b
    ensures c.0 in b && Live(b[c.0], c.1) ==>
      ReachAll(b[s], Roots(b, calls + {c}, ds, s)) ==
      ReachAll(b[s], Roots(b, calls, ds, s)) + ReachAll(b[s], Entries(b, c.0, {c.1}, ds, s))
    ensures !(c.0 in b && Live(b[c.0], c.1)) ==> Roots(b, calls + {c}, ds, s) == Roots(b, calls, ds, s)
  {
    SetsComplete(b[s]);
    if c.0 in b && Live(b[c.0], c.1) {
      forall r ensures r in Roots(b, calls + {c}, ds, s) <==>
                       r in Roots(b, calls, ds, s) || r in Entries(b, c.0, {c.1}, ds, s)
      {
        assert c in calls + {c};
      }
    }
  }

  lemma OneMoreIn(b: View, calls: set<Call>, c: Call, ds: Name, s: Name)
    requires AllAcyclic(b) && s in b && c.0 in b && Live(b[c.0], c.1)
    ensures var h := Final(b, calls, ds);
      Normal(h[s], Visited(h, c.0, {c.1}, ds, s)) == Final(b, calls + {c}, ds)[s]
  {
    var h := Final(b, calls, ds);
    FinalKept(b, calls, ds, c.0, c.1);
    SameEntries(b, h, c.0, c.1, ds, s);
    ReachAllClosed(b[s], Roots(b, calls, ds, s));
    NormalMore(b[s], ReachAll(b[s], Roots(b, calls, ds, s)), Entries(b, c.0, {c.1}, ds, s));
    RootsMore(b, calls, c, ds, s);
  }

  lemma OneMoreSame(b: View, calls: set<Call>, c: Call, ds: Name, e: View, f: View, s: Name)
    requires AllAcyclic(b) && s in b && c.0 in b && Live(b[c.0], c.1)
    requires e == Visit(Final(b, calls, ds), c.0, {c.1}, ds) && f == Final(b, calls + {c}, ds)
    ensures s in e && s in f && e[s] == f[s]
  {
    OneMoreIn(b, calls, c, ds, s);
  }

  lemma SameKeys(b: View, calls: set<Call>, more: set<Call>, c: Call, ds: Name)
    requires c.0 in b
    ensures Visit(Final(b, calls, ds), c.0, {c.1}, ds).Keys == Final(b, more, ds).Keys == b.Keys
  {
  }

  lemma OneMoreLive(b: View, calls: set<Call>, c: Call, ds: Name)
    requires AllAcyclic(b) && c.0 in b && Live(b[c.0], c.1)
    ensures Visit(Final(b, calls, ds), c.0, {c.1}, ds) == Final(b, calls + {c}, ds)
  {
    var e, f := Visit(Final(b, calls, ds), c.0, {c.1}, ds), Final(b, calls + {c}, ds);
    SameKeys(b, calls, calls + {c}, c, ds);
    forall s | s in e ensures e[s] == f[s] { OneMoreSame(b, calls, c, ds, e, f, s); }
    SameSets(e, f);
  }

  lemma OneMoreDead(b: View, calls: set<Call>, c: Call, ds: Name)
    requires !(c.0 in b && Live(b[c.0], c.1))
    ensures Final(b, calls, ds) == Final(b, calls + {c}, ds)
  {
    var e, f := Final(b, calls, ds), Final(b, calls + {c}, ds);
    forall s | s in b ensures e[s] == f[s] { RootsMore(b, calls, c, ds, s); }
    SameSets(e, f);
  }

  lemma OneMore(b: View, calls: set<Call>, c: Call, ds: Name)
    requires AllAcyclic(b)
    ensures Expansion(Final(b, calls, ds), c.0, c.1, ds) == Final(b, calls + {c}, ds)
  {
    if c.0 in b { FinalKept(b, calls, ds, c.0, c.1); }
    if c.0 in b && Live(b[c.0], c.1) {
      OneMoreLive(b, calls, c, ds);
    } else {
      OneMoreDead(b, calls, c, ds);
    }
  }

  /** The collection depends on which entries were expanded, not on their order or repetition. */
  lemma {:induction false} OrderIrrelevant(b: View, calls: seq<Call>, ds: Name)
    requires AllAcyclic(b)
    ensures ExpandAll(b, calls, ds) == Final(b, CallSet(calls), ds)
  {
    if calls == [] {
      assert CallSet(calls) == {};
      forall s | s in b ensures Final(b, {}, ds)[s] == b[s] {
        assert Roots(b, {}, ds, s) == {};
        assert ReachAll(b[s], {}) == {};
      }
      SameSets(b, Final(b, {}, ds));
    } else {
      var n := |calls| - 1;
      OrderIrrelevant(b, calls[..n], ds);
      assert calls == calls[..n] + [calls[n]];
      assert CallSet(calls) == CallSet(calls[..n]) + {calls[n]};
      OneMore(b, CallSet(calls[..n]), calls[n], ds);
    }
  }

  /** Expanding every entry, in any order, leaves every entry with data holding its meaning, and
      going over any of them again changes nothing. */
  lemma FullExpansion(b: View, calls: seq<Call>, again: seq<Call>, ds: Name)
    requires AllAcyclic(b)
    requires forall s, x :: s in b && x in b[s] ==> (s, x) in calls
    requires CallSet(again) <= CallSet(calls)
    ensures var after := ExpandAll(b, calls, ds);
      && after.Keys == b.Keys
      && (forall s, x, t :: s in b && Live(b[s], x) ==>
           x in after[s] && (t in after[s][x] <==> Denotes(b[s], x, t)))
      && ExpandAll(b, calls + again, ds) == after
  {
    OrderIrrelevant(b, calls, ds);
    OrderIrrelevant(b, calls + again, ds);
    assert CallSet(calls + again) == CallSet(calls);
    forall s, x | s in b && Live(b[s], x) ensures Final(b, CallSet(calls), ds)[s][x] == Meaning(b[s], x) {
      assert (s, x) in CallSet(calls);
      assert x in Entries(b, s, {x}, ds, s);
      assert x in Roots(b, CallSet(calls), ds, s);
      ReachesSelf(b[s], x);
      SetsComplete(b[s]);
    }
    forall s | s in b { SetsComplete(b[s]); }
  }
}
