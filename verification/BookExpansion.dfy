/** Expansion of access-control books, in place: every child name that has data is replaced by that
    child's expanded data. */
module BookExpansion {
  import opened BookGraph

  /** What a collection of books holds: set name, entry name, data. */
  type View = map<Name, Graph>

  // ----- what one call does to the whole collection

  /** The names without data that `x` stands for: those looked up in the default set. */
  ghost function Leaves(g: Graph, x: Name): set<Name> {
    set t | t in Meaning(g, x) && !Live(g, t)
  }

  ghost function LeavesOf(g: Graph, xs: set<Name>): set<Name> {
    set x, t | x in xs && t in Leaves(g, x) :: t
  }

  /** Where expanding the entries `xs` of set `ts` enters set `s`. */
  ghost function Entries(b: View, ts: Name, xs: set<Name>, ds: Name, s: Name): set<Name>
    requires ts in b
  {
    (if s == ts then xs else {}) +
    (if ds != "" && s == ds then LeavesOf(b[ts], xs) else {})
  }

  ghost function Visited(b: View, ts: Name, xs: set<Name>, ds: Name, s: Name): set<Name>
    requires ts in b && s in b
  {
    ReachAll(b[s], Entries(b, ts, xs, ds, s))
  }

  ghost function Visit(b: View, ts: Name, xs: set<Name>, ds: Name): View
    requires ts in b
  {
    map s | s in b :: Normal(b[s], Visited(b, ts, xs, ds, s))
  }

  /** The collection after expanding `td` of set `ts` with default set `ds`. */
  ghost function Expansion(b: View, ts: Name, td: Name, ds: Name): View {
    if ts in b && Live(b[ts], td) then Visit(b, ts, {td}, ds) else b
  }

  ghost predicate AcyclicIn(b: View, s: Name) {
    s in b ==> Acyclic(b[s])
  }

  /** No entry added, dropped or emptied, and every name of every set stands for what it did. */
  ghost predicate SameMeanings(b: View, c: View) {
    c.Keys == b.Keys && forall s :: s in b ==> SameMeaning(b[s], c[s])
  }

  // ----- the collection while the members `xs` of `td` have been handled

  ghost function Partial(b: View, ts: Name, td: Name, ds: Name, xs: set<Name>): View
    requires ts in b && td in b[ts]
  {
    map s | s in b :: if s == ts then Partly(b[s], Visited(b, ts, xs, ds, s), td, xs)
                      else Normal(b[s], Visited(b, ts, xs, ds, s))
  }

  ghost predicate Underway(b: View, ts: Name, td: Name, ds: Name, xs: set<Name>) {
    && ts in b && Live(b[ts], td) && AcyclicIn(b, ts) && (ds != "" ==> AcyclicIn(b, ds))
    && xs <= b[ts][td] - {td}
  }

  lemma VisitedGrows(b: View, ts: Name, xs: set<Name>, ys: set<Name>, ds: Name, s: Name)
    requires ts in b && s in b
    ensures Visited(b, ts, xs + ys, ds, s) == Visited(b, ts, xs, ds, s) + Visited(b, ts, ys, ds, s)
    ensures Closed(b[s], Visited(b, ts, xs, ds, s))
  {
    SetsComplete(b[s]);
    ReachAllClosed(b[s], Entries(b, ts, xs, ds, s));
    assert Entries(b, ts, xs + ys, ds, s) == Entries(b, ts, xs, ds, s) + Entries(b, ts, ys, ds, s);
  }

  lemma TargetNotVisited(b: View, ts: Name, td: Name, ds: Name, xs: set<Name>)
    requires Underway(b, ts, td, ds, xs)
    ensures td !in Visited(b, ts, xs, ds, ts)
  {
    var g := b[ts];
    SetsComplete(g);
    forall x | x in xs ensures !Reaches(g, x, td) {
      RankDecreases(g, g, td, x);
    }
    forall x, t | x in xs && t in Meaning(g, x) ensures !Reaches(g, t, td) {
      if Reaches(g, t, td) { ReachesTrans(g, x, t, td); }
    }
  }

  lemma Untouched(b: View, ts: Name, xs: set<Name>, ds: Name, s: Name)
    requires ts in b && s in b && Entries(b, ts, xs, ds, s) == {}
    ensures Visited(b, ts, xs, ds, s) == {} && Normal(b[s], Visited(b, ts, xs, ds, s)) == b[s]
  {
  }

  lemma PartialSameMeaning(b: View, ts: Name, td: Name, ds: Name, xs: set<Name>, s: Name)
    requires Underway(b, ts, td, ds, xs) && s in b
    ensures var h := Partial(b, ts, td, ds, xs)[s];
      SameMeaning(b[s], h) && (Acyclic(b[s]) ==> Acyclic(h))
  {
    var h := Partial(b, ts, td, ds, xs)[s];
    if s == ts {
      PartlyRewrites(b[s], Visited(b, ts, xs, ds, s), td, xs);
      RewritesSameMeaning(b[s], h);
    } else if s == ds && ds != "" {
      NormalRewrites(b[s], Visited(b, ts, xs, ds, s));
    } else {
      Untouched(b, ts, xs, ds, s);
    }
    SameMeaningSets(b[s], h);
  }

  lemma PartialSameMeanings(b: View, ts: Name, td: Name, ds: Name, xs: set<Name>)
    requires Underway(b, ts, td, ds, xs)
    ensures SameMeanings(b, Partial(b, ts, td, ds, xs))
    ensures AcyclicIn(Partial(b, ts, td, ds, xs), ts)
    ensures ds != "" ==> AcyclicIn(Partial(b, ts, td, ds, xs), ds)
  {
    forall s | s in b
      ensures SameMeaning(b[s], Partial(b, ts, td, ds, xs)[s])
      ensures Acyclic(b[s]) ==> Acyclic(Partial(b, ts, td, ds, xs)[s])
    {
      PartialSameMeaning(b, ts, td, ds, xs, s);
    }
  }

  lemma PartialStart(b: View, ts: Name, td: Name, ds: Name)
    requires ts in b && Live(b[ts], td)
    ensures Partial(b, ts, td, ds, {}) == b
  {
    forall s | s in b ensures Partial(b, ts, td, ds, {})[s] == b[s] {
      Untouched(b, ts, {}, ds, s);
      assert Held(b[ts], td, {}) == b[ts][td];
    }
  }

  /** What expanding the member `d` does to the set `s` when the members `xs` have been handled. */
  lemma StepIn(b: View, ts: Name, td: Name, ds: Name, xs: set<Name>, d: Name, s: Name)
    requires Underway(b, ts, td, ds, xs + {d}) && s in b
    ensures Visit(Partial(b, ts, td, ds, xs), ts, {d}, ds)[s] ==
            var done := Visited(b, ts, xs + {d}, ds, s);
            if s == ts then Partly(b[s], done, td, xs) else Normal(b[s], done)
  {
    var h := Partial(b, ts, td, ds, xs);
    var roots := Entries(b, ts, {d}, ds, s);
    EntriesKept(b, ts, td, ds, xs, d, s);
    VisitedGrows(b, ts, xs, {d}, ds, s);
    if s == ts {
      TargetNotVisited(b, ts, td, ds, xs + {d});
      PartlyMore(b[s], Visited(b, ts, xs, ds, s), td, xs, roots);
    } else if s == ds && ds != "" {
      NormalMore(b[s], Visited(b, ts, xs, ds, s), roots);
    } else {
      Untouched(b, ts, xs, ds, s);
      Untouched(h, ts, {d}, ds, s);
      Untouched(b, ts, xs + {d}, ds, s);
    }
  }

  lemma LeavesKept(g: Graph, h: Graph, x: Name)
    requires SameMeaning(g, h)
    ensures Leaves(h, x) == Leaves(g, x)
  {
    SameMeaningSets(g, h);
  }

  /** Where an expansion enters a set depends only on the leaves of its own. */
  lemma SameEntries(b: View, h: View, ts: Name, d: Name, ds: Name, s: Name)
    requires ts in b && ts in h && Leaves(h[ts], d) == Leaves(b[ts], d)
    ensures Entries(h, ts, {d}, ds, s) == Entries(b, ts, {d}, ds, s)
  {
    LeavesOfOne(b[ts], d);
    LeavesOfOne(h[ts], d);
  }

  lemma LeavesOfOne(g: Graph, d: Name)
    ensures LeavesOf(g, {d}) == Leaves(g, d)
  {
  }

  lemma EntriesKept(b: View, ts: Name, td: Name, ds: Name, xs: set<Name>, d: Name, s: Name)
    requires Underway(b, ts, td, ds, xs) && s in b
    ensures Entries(Partial(b, ts, td, ds, xs), ts, {d}, ds, s) == Entries(b, ts, {d}, ds, s)
  {
    var h := Partial(b, ts, td, ds, xs);
    PartialSameMeaning(b, ts, td, ds, xs, ts);
    LeavesKept(b[ts], h[ts], d);
    SameEntries(b, h, ts, d, ds, s);
  }

  lemma SameSets(c: View, e: View)
    requires c.Keys == e.Keys && forall s :: s in c ==> c[s] == e[s]
    ensures c == e
  {
  }

  lemma ChangedInOne(c: View, e: View, ts: Name)
    requires c.Keys == e.Keys && ts in c
    requires forall s :: s in c && s != ts ==> c[s] == e[s]
    ensures e == c[ts := e[ts]]
  {
  }

  /** Handling one more member. */
  lemma PartialStep(b: View, ts: Name, td: Name, ds: Name, xs: set<Name>, d: Name)
    requires Underway(b, ts, td, ds, xs + {d}) && d !in xs
    ensures var c := Visit(Partial(b, ts, td, ds, xs), ts, {d}, ds);
      && td in c[ts] && d in b[ts][td]
      && Partial(b, ts, td, ds, xs + {d}) == c[ts := c[ts][td := (c[ts][td] - {d}) + Meaning(b[ts], d)]]
  {
    var c, e := Visit(Partial(b, ts, td, ds, xs), ts, {d}, ds), Partial(b, ts, td, ds, xs + {d});
    forall s | s in b && s != ts ensures c[s] == e[s] {
      StepIn(b, ts, td, ds, xs, d, s);
    }
    ChangedInOne(c, e, ts);
    StepTarget(b, ts, td, ds, xs, d);
  }

  lemma StepTarget(b: View, ts: Name, td: Name, ds: Name, xs: set<Name>, d: Name)
    requires Underway(b, ts, td, ds, xs + {d}) && d !in xs
    ensures var c := Visit(Partial(b, ts, td, ds, xs), ts, {d}, ds)[ts];
      && td in c && d in b[ts][td]
      && Partial(b, ts, td, ds, xs + {d})[ts] == c[td := (c[td] - {d}) + Meaning(b[ts], d)]
  {
    StepIn(b, ts, td, ds, xs, d, ts);
    PartlyNext(b[ts], Visited(b, ts, xs + {d}, ds, ts), td, xs, d);
  }

  /** A member with data is expanded by then. */
  lemma MemberExpanded(b: View, ts: Name, td: Name, ds: Name, xs: set<Name>, d: Name)
    requires Underway(b, ts, td, ds, xs + {d}) && Live(b[ts], d)
    ensures var c := Visit(Partial(b, ts, td, ds, xs), ts, {d}, ds);
      d in c[ts] && c[ts][d] == Meaning(b[ts], d)
  {
    StepIn(b, ts, td, ds, xs, d, ts);
    SetsComplete(b[ts]);
    ReachesSelf(b[ts], d);
    assert d in Entries(b, ts, xs + {d}, ds, ts);
  }

  /** A member without data sends the walk to the default set only. */
  lemma DeadMember(c: View, ts: Name, d: Name, ds: Name)
    requires ts in c && !Live(c[ts], d)
    ensures Visit(c, ts, {d}, ds) == if ds != "" then Expansion(c, ds, d, "") else c
  {
    DeadMeaning(c[ts], d);
    assert Leaves(c[ts], d) == {d};
    forall s | s in c
      ensures Visit(c, ts, {d}, ds)[s] == (if ds != "" then Expansion(c, ds, d, "") else c)[s]
    {
      if ds != "" && s == ds {
        assert Entries(c, ts, {d}, ds, s) == Entries(c, ds, {d}, "", s) == {d};
        if !Live(c[s], d) { NothingToExpand(c[s], d); }
      } else {
        if s == ts {
          assert Entries(c, ts, {d}, ds, s) == {d};
          NothingToExpand(c[s], d);
        } else {
          Untouched(c, ts, {d}, ds, s);
        }
        if ds != "" && ds in c { Untouched(c, ds, {d}, "", s); }
      }
    }
  }

  /** One round of the loop: the member's own expansion, then its replacement or the default set. */
  lemma Handled(b: View, ts: Name, td: Name, ds: Name, xs: set<Name>, d: Name, c: View)
    requires Underway(b, ts, td, ds, xs + {d}) && d !in xs
    requires c == Expansion(Partial(b, ts, td, ds, xs), ts, d, ds)
    ensures ts in c && td in c[ts]
    ensures Live(Partial(b, ts, td, ds, xs)[ts], d) ==>
      d in c[ts] && Partial(b, ts, td, ds, xs + {d}) == c[ts := c[ts][td := (c[ts][td] - {d}) + c[ts][d]]]
    ensures !Live(Partial(b, ts, td, ds, xs)[ts], d) ==>
      c == Partial(b, ts, td, ds, xs) &&
      Partial(b, ts, td, ds, xs + {d}) == if ds != "" then Expansion(c, ds, d, "") else c
  {
    var h := Partial(b, ts, td, ds, xs);
    PartialSameMeaning(b, ts, td, ds, xs, ts);
    PartialStep(b, ts, td, ds, xs, d);
    if Live(h[ts], d) {
      MemberExpanded(b, ts, td, ds, xs, d);
    } else {
      DeadMember(h, ts, d, ds);
      StepDead(b, ts, td, ds, xs, d);
      ChangedInOne(Visit(h, ts, {d}, ds), Partial(b, ts, td, ds, xs + {d}), ts);
    }
  }

  /** The member is still there to be replaced. */
  lemma StillMember(b: View, ts: Name, td: Name, ds: Name, xs: set<Name>, d: Name)
    requires Underway(b, ts, td, ds, xs + {d}) && d !in xs
    ensures var c := Visit(Partial(b, ts, td, ds, xs), ts, {d}, ds);
      td in c[ts] && d in c[ts][td]
  {
    StepIn(b, ts, td, ds, xs, d, ts);
  }

  lemma StepDeadIn(b: View, ts: Name, td: Name, ds: Name, xs: set<Name>, d: Name, s: Name)
    requires Underway(b, ts, td, ds, xs + {d}) && d !in xs && !Live(b[ts], d) && s in b
    ensures Visit(Partial(b, ts, td, ds, xs), ts, {d}, ds)[s] == Partial(b, ts, td, ds, xs + {d})[s]
  {
    StepIn(b, ts, td, ds, xs, d, s);
    if s == ts { HeldDead(b[ts], td, xs, d); }
  }

  lemma StepDeadEach(b: View, ts: Name, td: Name, ds: Name, xs: set<Name>, d: Name, c: View, e: View)
    requires Underway(b, ts, td, ds, xs + {d}) && d !in xs && !Live(b[ts], d)
    requires c == Visit(Partial(b, ts, td, ds, xs), ts, {d}, ds) && e == Partial(b, ts, td, ds, xs + {d})
    ensures c.Keys == e.Keys && forall s :: s in c ==> c[s] == e[s]
  {
    forall s | s in b ensures c[s] == e[s] {
      StepDeadIn(b, ts, td, ds, xs, d, s);
    }
  }

  lemma StepDead(b: View, ts: Name, td: Name, ds: Name, xs: set<Name>, d: Name)
    requires Underway(b, ts, td, ds, xs + {d}) && d !in xs && !Live(b[ts], d)
    ensures Visit(Partial(b, ts, td, ds, xs), ts, {d}, ds) == Partial(b, ts, td, ds, xs + {d})
  {
    var c, e := Visit(Partial(b, ts, td, ds, xs), ts, {d}, ds), Partial(b, ts, td, ds, xs + {d});
    StepDeadEach(b, ts, td, ds, xs, d, c, e);
    SameSets(c, e);
  }

  lemma HeldDead(g: Graph, td: Name, xs: set<Name>, d: Name)
    requires td in g && d in g[td] && !Live(g, d)
    ensures Held(g, td, xs) == Held(g, td, xs + {d})
  {
    DeadMeaning(g, d);
  }

  lemma NothingToExpand(g: Graph, d: Name)
    requires !Live(g, d)
    ensures Normal(g, ReachAll(g, {d})) == g
  {
    DeadMeaning(g, d);
    SetsComplete(g);
  }

  lemma LeavesUnfold(g: Graph, x: Name, t: Name)
    requires Live(g, x)
    ensures t in Leaves(g, x) <==> exists d :: d in g[x] && d != x && t in Leaves(g, d)
  {
    MeaningUnfold(g, x, t);
    if t in Leaves(g, x) {
      var d :| d in g[x] && d != x && t in Meaning(g, d);
      assert t in Leaves(g, d);
    }
  }

  lemma ReachUnfold(g: Graph, x: Name, y: Name)
    requires Live(g, x)
    ensures Reaches(g, x, y) <==> y == x || exists d :: d in g[x] && d != x && Reaches(g, d, y)
  {
    if Reaches(g, x, y) && y != x {
      var n: nat :| Steps(g, x, y, n);
      LeavesName(g, x, y, n);
    }
    ReachesFirst(g, x, y);
  }

  lemma EndEntries(b: View, ts: Name, td: Name, ds: Name, s: Name)
    requires ts in b && Live(b[ts], td)
    ensures var xs := b[ts][td] - {td};
            var whole, parts := Entries(b, ts, {td}, ds, s), Entries(b, ts, xs, ds, s);
      && whole <= parts + (if s == ts then {td} else {})
      && parts <= whole + (if s == ts then xs else {})
      && (s == ts ==> td in whole && xs <= parts)
  {
    forall t ensures t in LeavesOf(b[ts], {td}) <==> t in LeavesOf(b[ts], b[ts][td] - {td}) {
      LeavesUnfold(b[ts], td, t);
      assert t in LeavesOf(b[ts], {td}) <==> t in Leaves(b[ts], td);
    }
  }

  lemma EndVisited(b: View, ts: Name, td: Name, ds: Name, s: Name)
    requires ts in b && Live(b[ts], td) && s in b
    ensures Visited(b, ts, {td}, ds, s) ==
            Visited(b, ts, b[ts][td] - {td}, ds, s) + if s == ts then {td} else {}
  {
    var xs := b[ts][td] - {td};
    var whole, parts := Entries(b, ts, {td}, ds, s), Entries(b, ts, xs, ds, s);
    SetsComplete(b[s]);
    EndEntries(b, ts, td, ds, s);
    forall r, y | r in parts && Reaches(b[s], r, y) ensures exists q :: q in whole && Reaches(b[s], q, y) {
      if r !in whole {
        ReachUnfold(b[s], td, y);
      }
    }
    if s == ts {
      ReachesSelf(b[s], td);
      forall y ensures Reaches(b[s], td, y) <==> y == td || exists x :: x in xs && Reaches(b[s], x, y) {
        ReachUnfold(b[s], td, y);
      }
    }
  }

  lemma EndIn(b: View, ts: Name, td: Name, ds: Name, s: Name)
    requires ts in b && Live(b[ts], td) && s in b
    ensures Partial(b, ts, td, ds, b[ts][td] - {td})[s] == Visit(b, ts, {td}, ds)[s]
  {
    EndVisited(b, ts, td, ds, s);
    if s == ts { PartlyEnd(b[ts], Visited(b, ts, b[ts][td] - {td}, ds, ts), td); }
  }

  /** All members handled. */
  lemma PartialEnd(b: View, ts: Name, td: Name, ds: Name)
    requires ts in b && Live(b[ts], td)
    ensures Partial(b, ts, td, ds, b[ts][td] - {td}) == Expansion(b, ts, td, ds)
  {
    forall s | s in b
      ensures Partial(b, ts, td, ds, b[ts][td] - {td})[s] == Visit(b, ts, {td}, ds)[s]
    {
      EndIn(b, ts, td, ds, s);
    }
  }

  // ----- the states a call goes through

  /** The entry `x` of set `s` has its member `y` replaced by the data of `y`, and nothing else changes. */
  ghost predicate Replacement(c: View, d: View, s: Name, x: Name, y: Name) {
    && s in c && x in c[s] && y in c[s] && y in c[s][x] && y != x
    && d == c[s := c[s][x := (c[s][x] - {y}) + c[s][y]]]
  }

  ghost predicate OneReplacement(c: View, d: View) {
    exists s, x, y :: Replacement(c, d, s, x, y)
  }

  /** From `b` to `c`, one replacement at a time. */
  ghost predicate Chain(b: View, states: seq<View>, c: View) {
    && states != [] && states[0] == b && states[|states| - 1] == c
    && forall i :: 0 <= i < |states| - 1 ==> OneReplacement(states[i], states[i + 1])
  }

  /** Entries that expanding `td` does not visit are in `c` as they were in `b`. */
  ghost predicate Spares(b: View, c: View, ts: Name, td: Name, ds: Name) {
    ts in b ==> forall s, x :: s in b && x in b[s] && x !in Visited(b, ts, {td}, ds, s) ==>
      s in c && x in c[s] && c[s][x] == b[s][x]
  }

  ghost predicate Intact(b: View, c: View, ts: Name, td: Name, ds: Name) {
    SameMeanings(b, c) && Spares(b, c, ts, td, ds)
  }

  /** Every state keeps the meanings of `b` and spares what expanding `td` does not visit. */
  ghost predicate Kept(b: View, states: seq<View>, ts: Name, td: Name, ds: Name) {
    forall i :: 0 <= i < |states| ==> Intact(b, states[i], ts, td, ds)
  }

  lemma SameMeaningsTrans(b: View, c: View, d: View)
    requires SameMeanings(b, c) && SameMeanings(c, d)
    ensures SameMeanings(b, d)
  {
    forall s | s in b ensures SameMeaning(b[s], d[s]) {
      assert SameMeaning(b[s], c[s]) && SameMeaning(c[s], d[s]);
    }
  }

  lemma SameMeaningsRefl(b: View)
    ensures SameMeanings(b, b)
  {
  }

  /** The visits of a call made in the course of expanding `td` are visits of `td` itself. */
  ghost predicate Within(b: View, ts: Name, td: Name, ds: Name, c: View, ts': Name, td': Name, ds': Name)
    requires ts in b && ts' in c
  {
    forall s :: s in b && s in c ==> Visited(c, ts', {td'}, ds', s) <= Visited(b, ts, {td}, ds, s)
  }

  lemma IntactTrans(b: View, ts: Name, td: Name, ds: Name, c: View, ts': Name, td': Name, ds': Name, d: View)
    requires ts in b && Intact(b, c, ts, td, ds) && Intact(c, d, ts', td', ds')
    requires ts' in c ==> Within(b, ts, td, ds, c, ts', td', ds')
    requires ts' !in c ==> d == c
    ensures Intact(b, d, ts, td, ds)
  {
    SameMeaningsTrans(b, c, d);
  }

  lemma ChainJoin(b: View, before: seq<View>, c: View, more: seq<View>, d: View)
    requires Chain(b, before, c) && Chain(c, more, d)
    ensures Chain(b, before + more[1..], d)
  {
    var all := before + more[1..];
    forall i | 0 <= i < |all| - 1 ensures OneReplacement(all[i], all[i + 1]) {
      var k := i - |before| + 1;
      if i >= |before| - 1 { assert all[i] == more[k] && all[i + 1] == more[k + 1]; }
    }
  }

  lemma ChainMore(b: View, before: seq<View>, c: View, d: View, s: Name, x: Name, y: Name)
    requires Chain(b, before, c) && Replacement(c, d, s, x, y)
    ensures Chain(b, before + [d], d)
  {
    assert OneReplacement(c, d);
  }

  /** A call's states extend those recorded before it, the call having started in `c`. */
  lemma KeptThrough(b: View, ts: Name, td: Name, ds: Name, before: seq<View>,
                    c: View, ts': Name, td': Name, ds': Name, more: seq<View>)
    requires ts in b && Kept(b, before, ts, td, ds) && Intact(b, c, ts, td, ds) && Kept(c, more, ts', td', ds')
    requires ts' in c ==> Within(b, ts, td, ds, c, ts', td', ds')
    requires more != [] && (ts' !in c ==> more == [c])
    ensures Kept(b, before + more[1..], ts, td, ds)
  {
    forall i | 0 <= i < |more| ensures Intact(b, more[i], ts, td, ds) {
      IntactTrans(b, ts, td, ds, c, ts', td', ds', more[i]);
    }
  }

  lemma KeptLast(b: View, states: seq<View>, last: View, ts: Name, td: Name, ds: Name)
    requires Kept(b, states, ts, td, ds) && Intact(b, last, ts, td, ds)
    ensures Kept(b, states + [last], ts, td, ds)
  {
  }

  lemma LeavesMember(g: Graph, td: Name, d: Name, t: Name)
    requires Live(g, td) && d in g[td] && d != td && t in Leaves(g, d)
    ensures t in Leaves(g, td)
  {
    LeavesUnfold(g, td, t);
  }

  lemma EntriesWithin(b: View, ts: Name, td: Name, ds: Name, d: Name, s: Name, r: Name)
    requires ts in b && Live(b[ts], td) && d in b[ts][td] && d != td && s in b
    requires r in Entries(b, ts, {d}, ds, s)
    ensures exists q :: q in Entries(b, ts, {td}, ds, s) && Reaches(b[s], q, r)
  {
    if s == ts && r == d {
      ReachesEdge(b[s], td, d);
      assert td in Entries(b, ts, {td}, ds, s);
    } else {
      LeavesMember(b[ts], td, d, r);
      assert r in LeavesOf(b[ts], {td});
      assert r in Entries(b, ts, {td}, ds, s);
      ReachesSelf(b[s], r);
    }
  }

  /** Expanding a member of `td`, in the course of expanding `td`. */
  lemma MemberWithin(b: View, ts: Name, td: Name, ds: Name, xs: set<Name>, d: Name)
    requires Underway(b, ts, td, ds, xs + {d})
    ensures Within(b, ts, td, ds, Partial(b, ts, td, ds, xs), ts, d, ds)
  {
    var c := Partial(b, ts, td, ds, xs);
    forall s, x | s in b && x in Visited(c, ts, {d}, ds, s) ensures x in Visited(b, ts, {td}, ds, s) {
      PartialSameMeaning(b, ts, td, ds, xs, s);
      EntriesKept(b, ts, td, ds, xs, d, s);
      SetsComplete(c[s]);
      SetsComplete(b[s]);
      var r :| r in Entries(b, ts, {d}, ds, s) && Reaches(c[s], r, x);
      EntriesWithin(b, ts, td, ds, d, s, r);
      var q :| q in Entries(b, ts, {td}, ds, s) && Reaches(b[s], q, r);
      ReachesTrans(b[s], q, r, x);
    }
  }

  /** Expanding a member without data in the default set, in the course of expanding `td`. */
  lemma LeafWithin(b: View, ts: Name, td: Name, ds: Name, xs: set<Name>, d: Name)
    requires Underway(b, ts, td, ds, xs + {d}) && !Live(b[ts], d) && ds != "" && ds in b
    ensures Within(b, ts, td, ds, Partial(b, ts, td, ds, xs), ds, d, "")
  {
    var c := Partial(b, ts, td, ds, xs);
    DeadMeaning(b[ts], d);
    assert d in Leaves(b[ts], d);
    forall s, x | s in b && x in Visited(c, ds, {d}, "", s) ensures x in Visited(b, ts, {td}, ds, s) {
      PartialSameMeaning(b, ts, td, ds, xs, s);
      SetsComplete(c[s]);
      SetsComplete(b[s]);
      assert s == ds && Reaches(c[s], d, x);
      assert d in LeavesOf(b[ts], {d}) && d in Entries(b, ts, {d}, ds, s);
      EntriesWithin(b, ts, td, ds, d, s, d);
      var q :| q in Entries(b, ts, {td}, ds, s) && Reaches(b[s], q, d);
      ReachesTrans(b[s], q, d, x);
    }
  }

  lemma PartialSpares(b: View, ts: Name, td: Name, ds: Name, xs: set<Name>, s: Name, x: Name)
    requires Underway(b, ts, td, ds, xs) && s in b && x in b[s] && x !in Visited(b, ts, {td}, ds, s)
    ensures x in Partial(b, ts, td, ds, xs)[s] && Partial(b, ts, td, ds, xs)[s][x] == b[s][x]
  {
    VisitedLess(b, ts, td, ds, xs, s);
    if s == ts { TargetVisited(b, ts, td, ds); }
  }

  lemma TargetVisited(b: View, ts: Name, td: Name, ds: Name)
    requires ts in b
    ensures td in Visited(b, ts, {td}, ds, ts)
  {
    SetsComplete(b[ts]);
    ReachesSelf(b[ts], td);
    assert td in Entries(b, ts, {td}, ds, ts);
  }

  /** The collection between two members keeps the meanings and spares what `td` does not reach. */
  lemma PartialIntact(b: View, ts: Name, td: Name, ds: Name, xs: set<Name>)
    requires Underway(b, ts, td, ds, xs)
    ensures Intact(b, Partial(b, ts, td, ds, xs), ts, td, ds)
  {
    PartialSameMeanings(b, ts, td, ds, xs);
    forall s, x | s in b && x in b[s] && x !in Visited(b, ts, {td}, ds, s)
      ensures x in Partial(b, ts, td, ds, xs)[s] && Partial(b, ts, td, ds, xs)[s][x] == b[s][x]
    {
      PartialSpares(b, ts, td, ds, xs, s, x);
    }
  }

  lemma VisitedLess(b: View, ts: Name, td: Name, ds: Name, xs: set<Name>, s: Name)
    requires Underway(b, ts, td, ds, xs) && s in b
    ensures Visited(b, ts, xs, ds, s) <= Visited(b, ts, {td}, ds, s)
  {
    var rest := b[ts][td] - {td};
    EndVisited(b, ts, td, ds, s);
    VisitedGrows(b, ts, xs, rest - xs, ds, s);
    assert xs + (rest - xs) == rest;
  }

  /** The states of the call for a member extend those recorded before. */
  lemma CallJoined(b: View, ts: Name, td: Name, ds: Name, xs: set<Name>, d: Name,
                   before: seq<View>, more: seq<View>, between: View)
    requires Underway(b, ts, td, ds, xs + {d})
    requires Chain(b, before, Partial(b, ts, td, ds, xs)) && Kept(b, before, ts, td, ds)
    requires Chain(Partial(b, ts, td, ds, xs), more, between) && Kept(Partial(b, ts, td, ds, xs), more, ts, d, ds)
    ensures Chain(b, before + more[1..], between) && Kept(b, before + more[1..], ts, td, ds)
  {
    var c := Partial(b, ts, td, ds, xs);
    PartialIntact(b, ts, td, ds, xs);
    MemberWithin(b, ts, td, ds, xs, d);
    KeptThrough(b, ts, td, ds, before, c, ts, d, ds, more);
    ChainJoin(b, before, c, more, between);
  }

  /** So do those of the call for a member without data in the default set. */
  lemma LeafJoined(b: View, ts: Name, td: Name, ds: Name, xs: set<Name>, d: Name,
                   before: seq<View>, more: seq<View>, after: View)
    requires Underway(b, ts, td, ds, xs + {d}) && !Live(b[ts], d) && ds != ""
    requires Chain(b, before, Partial(b, ts, td, ds, xs)) && Kept(b, before, ts, td, ds)
    requires Chain(Partial(b, ts, td, ds, xs), more, after) && Kept(Partial(b, ts, td, ds, xs), more, ds, d, "")
    requires ds !in b ==> more == [Partial(b, ts, td, ds, xs)]
    ensures Chain(b, before + more[1..], after) && Kept(b, before + more[1..], ts, td, ds)
  {
    var c := Partial(b, ts, td, ds, xs);
    PartialIntact(b, ts, td, ds, xs);
    if ds in b { LeafWithin(b, ts, td, ds, xs, d); }
    KeptThrough(b, ts, td, ds, before, c, ds, d, "", more);
    ChainJoin(b, before, c, more, after);
  }

  /** And the state after the replacement. */
  lemma ReplaceJoined(b: View, ts: Name, td: Name, ds: Name, xs: set<Name>, d: Name,
                      before: seq<View>, between: View)
    requires Underway(b, ts, td, ds, xs)
    requires Chain(b, before, between) && Kept(b, before, ts, td, ds)
    requires Replacement(between, Partial(b, ts, td, ds, xs), ts, td, d)
    ensures var after := Partial(b, ts, td, ds, xs);
      Chain(b, before + [after], after) && Kept(b, before + [after], ts, td, ds)
  {
    var after := Partial(b, ts, td, ds, xs);
    PartialIntact(b, ts, td, ds, xs);
    ChainMore(b, before, between, after, ts, td, d);
    KeptLast(b, before, after, ts, td, ds);
  }

  lemma Finished(b: View, ts: Name, td: Name, ds: Name, xs: set<Name>)
    requires ts in b && Live(b[ts], td) && Rest(b[ts][td], {}, td, xs)
    ensures Partial(b, ts, td, ds, xs) == Expansion(b, ts, td, ds)
  {
    assert xs == b[ts][td] - {td};
    PartialEnd(b, ts, td, ds);
  }

  /** `xs` has been handled and `rest` has not, of the members other than `td` itself. */
  ghost predicate Rest(data: set<Name>, rest: set<Name>, td: Name, xs: set<Name>) {
    forall x :: (x in rest ==> x in data) && (x in xs <==> x in data && x !in rest && x != td)
  }

  lemma RestNext(data: set<Name>, rest: set<Name>, td: Name, xs: set<Name>, d: Name)
    requires Rest(data, rest, td, xs) && d in rest
    ensures Rest(data, rest - {d}, td, if d == td then xs else xs + {d})
    ensures d !in xs && xs <= data - {td} && (d != td ==> xs + {d} <= data - {td})
  {
  }

  // ----- the program

  class AcBook {
    var data: set<Name>

    constructor ()
      ensures data == {}
    {
      data := {};
    }

    function GetData(): set<Name>
      reads this
    {
      data
    }

    method AddData(keys: set<Name>)
      modifies this
      ensures data == old(data) + keys
    {
      data := data + keys;
    }

    method RemoveData(key: Name)
      modifies this
      ensures data == old(data) - {key}
    {
      data := data - {key};
    }
  }

  class AcBooks {
    const book: map<Name, map<Name, AcBook>>

    ghost function Stored(): set<AcBook>
    {
      set s, x | s in book && x in book[s] :: book[s][x]
    }

    /** The map holds its entries by value: no two share an object. */
    ghost predicate Valid()
    {
      forall s, x, s', x' :: s in book && x in book[s] && s' in book && x' in book[s'] ==>
        book[s][x] == book[s'][x'] ==> s == s' && x == x'
    }

    ghost function SetContents(s: Name): Graph
      requires s in book
      reads Stored()
    {
      map x | x in book[s] :: book[s][x].data
    }

    ghost function Contents(): View
      reads Stored()
    {
      map s | s in book :: SetContents(s)
    }

    constructor (book: map<Name, map<Name, AcBook>>)
      requires forall s, x, s', x' :: s in book && x in book[s] && s' in book && x' in book[s'] ==>
        book[s][x] == book[s'][x'] ==> s == s' && x == x'
      ensures Valid() && this.book == book
    {
      this.book := book;
    }

    /** Replaces `data` in the entry by the data it holds itself. */
    method Replace(ts: Name, td: Name, data: Name)
      requires Valid() && ts in book && td in book[ts] && data in book[ts] && data != td
      modifies book[ts][td]
      ensures var was := old(Contents());
        Contents() == was[ts := was[ts][td := (was[ts][td] - {data}) + was[ts][data]]]
    {
      book[ts][td].RemoveData(data);
      book[ts][td].AddData(book[ts][data].GetData());
      ghost var was := old(SetContents(ts));
      assert SetContents(ts) == was[td := (was[td] - {data}) + was[data]];
      forall s | s in book && s != ts ensures SetContents(s) == old(SetContents(s)) {
      }
      ChangedInOne(old(Contents()), Contents(), ts);
    }

    ghost predicate Expandable(ts: Name, ds: Name)
      reads Stored()
    {
      Valid() && AcyclicIn(Contents(), ts) && (ds != "" ==> AcyclicIn(Contents(), ds))
    }

    ghost function Rank(ts: Name, td: Name): nat
      reads Stored()
    {
      if ts in Contents() then |ReachSet(Contents()[ts], td)| else 0
    }

    /** `states` records the collection before, between and after all replacements, those of the calls
        made included. */
    method Expanded(ts: Name, td: Name, ds: Name) returns (ok: bool, ghost states: seq<View>)
      requires Expandable(ts, ds)
      modifies Stored()
      ensures ok <==> ts in old(Contents()) && Live(old(Contents())[ts], td)
      ensures Contents() == Expansion(old(Contents()), ts, td, ds)
      ensures Chain(old(Contents()), states, Contents())
      ensures Kept(old(Contents()), states, ts, td, ds)
      ensures !ok ==> states == [Contents()]
      decreases ds != "", Rank(ts, td)
    {
      ghost var b := Contents();
      states := [b];
      SameMeaningsRefl(b);
      if ts !in book { return false, states; }
      if td !in book[ts] { return false, states; }
      var data := book[ts][td].GetData();
      if data == {} { return false, states; }

      ghost var xs: set<Name> := {};
      PartialStart(b, ts, td, ds);
      var rest := data;
      while rest != {}
        invariant Rest(data, rest, td, xs)
        invariant Contents() == Partial(b, ts, td, ds, xs)
        invariant Chain(b, states, Contents()) && Kept(b, states, ts, td, ds)
      {
        var d :| d in rest;
        RestNext(data, rest, td, xs, d);
        rest := rest - {d};
        if d != td {
          states := ExpandMember(ts, td, ds, d, b, xs, states);
          xs := xs + {d};
        }
      }
      Finished(b, ts, td, ds, xs);
      return true, states;
    }

    /** The loop's body for a member other than the entry's own name. */
    method ExpandMember(ts: Name, td: Name, ds: Name, d: Name,
                        ghost b: View, ghost xs: set<Name>, ghost before: seq<View>)
      returns (ghost states: seq<View>)
      requires Valid() && Underway(b, ts, td, ds, xs + {d}) && d !in xs
      requires Contents() == Partial(b, ts, td, ds, xs)
      requires Chain(b, before, Contents()) && Kept(b, before, ts, td, ds)
      modifies Stored()
      ensures Contents() == Partial(b, ts, td, ds, xs + {d})
      ensures Chain(b, states, Contents()) && Kept(b, states, ts, td, ds)
      decreases ds != "", |ReachSet(b[ts], td)|, 0
    {
      ghost var c := Contents();
      PartialSameMeanings(b, ts, td, ds, xs);
      RankDecreases(b[ts], c[ts], td, d);
      var child, more := Expanded(ts, d, ds);
      ghost var between := Contents();
      CallJoined(b, ts, td, ds, xs, d, before, more, between);
      states := before + more[1..];
      Handled(b, ts, td, ds, xs, d, between);
      if child {
        StillMember(b, ts, td, ds, xs, d);
        Replace(ts, td, d);
        ReplaceJoined(b, ts, td, ds, xs + {d}, d, states, between);
        states := states + [Contents()];
      } else if ds != "" {
        var _, others := Expanded(ds, d, "");
        LeafJoined(b, ts, td, ds, xs, d, states, others, Contents());
        states := states + others[1..];
      }
    }
  }
}
