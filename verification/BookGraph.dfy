/** Name graphs of access-control books, the meaning of a name, and what expansion does to both.

    A graph is one set of a book: it maps an entry's name to the names in the entry's data.
    Nothing here depends on how the expansion is programmed. */
module BookGraph {

  type Name = string
  type Graph = map<Name, set<Name>>

  /** An entry that exists and has data. */
  predicate Live(g: Graph, x: Name) {
    x in g && g[x] != {}
  }

  /** `y` is `n` edges away from `x`. */
  ghost predicate Steps(g: Graph, x: Name, y: Name, n: nat)
    decreases n
  {
    if n == 0 then x == y
    else x in g && exists z :: z in g[x] && Steps(g, z, y, n - 1)
  }

  ghost predicate Reaches(g: Graph, x: Name, y: Name) {
    exists n: nat :: Steps(g, x, y, n)
  }

  /** A name expansion leaves alone: it has no data to replace it, or it names itself. */
  predicate Terminal(g: Graph, t: Name) {
    Live(g, t) ==> t in g[t]
  }

  /** `t` is one of the terminal names that `x` stands for. */
  ghost predicate Denotes(g: Graph, x: Name, t: Name) {
    Reaches(g, x, t) && Terminal(g, t)
  }

  /** No cycle but a name's reference to itself. */
  ghost predicate Acyclic(g: Graph) {
    forall x, y :: Reaches(g, x, y) && Reaches(g, y, x) ==> x == y
  }

  function Names(g: Graph): set<Name> {
    g.Keys + set x, y | x in g && y in g[x] :: y
  }

  ghost function ReachSet(g: Graph, x: Name): set<Name> {
    set y | y in Names(g) + {x} && Reaches(g, x, y)
  }

  /** The terminal names that `x` stands for. */
  ghost function Meaning(g: Graph, x: Name): set<Name> {
    set t | t in Names(g) + {x} && Denotes(g, x, t)
  }

  ghost function ReachAll(g: Graph, roots: set<Name>): set<Name> {
    set y | y in Names(g) + roots && exists r :: r in roots && Reaches(g, r, y)
  }

  /** Every entry of `done` that has data now holds its meaning; the others are as they were. */
  ghost function Normal(g: Graph, done: set<Name>): Graph {
    map x | x in g :: if x in done && Live(g, x) then Meaning(g, x) else g[x]
  }

  ghost predicate Closed(g: Graph, done: set<Name>) {
    forall x, y :: x in done && Reaches(g, x, y) ==> y in done
  }

  // ----- reachability

  lemma ReachesSelf(g: Graph, x: Name)
    ensures Reaches(g, x, x)
  {
    assert Steps(g, x, x, 0);
  }

  lemma {:induction false} StepsJoin(g: Graph, x: Name, y: Name, z: Name, m: nat, n: nat)
    requires Steps(g, x, y, m) && Steps(g, y, z, n)
    ensures Steps(g, x, z, m + n)
    decreases m
  {
    if m > 0 {
      var w :| w in g[x] && Steps(g, w, y, m - 1);
      StepsJoin(g, w, y, z, m - 1, n);
    }
  }

  lemma ReachesTrans(g: Graph, x: Name, y: Name, z: Name)
    requires Reaches(g, x, y) && Reaches(g, y, z)
    ensures Reaches(g, x, z)
  {
    var m: nat :| Steps(g, x, y, m);
    var n: nat :| Steps(g, y, z, n);
    StepsJoin(g, x, y, z, m, n);
  }

  lemma ReachesEdge(g: Graph, x: Name, y: Name)
    requires x in g && y in g[x]
    ensures Reaches(g, x, y)
  {
    assert Steps(g, y, y, 0);
    assert Steps(g, x, y, 1);
  }

  /** A name that reaches another does so through one of its members. */
  lemma ReachesFirst(g: Graph, x: Name, y: Name)
    ensures Reaches(g, x, y) <==> x == y || (x in g && exists z :: z in g[x] && Reaches(g, z, y))
  {
    if Reaches(g, x, y) && x != y {
      var n: nat :| Steps(g, x, y, n);
      var z :| z in g[x] && Steps(g, z, y, n - 1);
    }
    if x == y { ReachesSelf(g, x); }
    if x in g && exists z :: z in g[x] && Reaches(g, z, y) {
      var z :| z in g[x] && Reaches(g, z, y);
      ReachesEdge(g, x, z);
      ReachesTrans(g, x, z, y);
    }
  }

  lemma {:induction false} StepsInNames(g: Graph, x: Name, y: Name, n: nat)
    requires Steps(g, x, y, n)
    ensures y == x || y in Names(g)
    decreases n
  {
    if n > 0 {
      var z :| z in g[x] && Steps(g, z, y, n - 1);
      StepsInNames(g, z, y, n - 1);
    }
  }

  /** The bounded sets above leave out no reachable name. */
  lemma SetsComplete(g: Graph)
    ensures forall x, y :: y in ReachSet(g, x) <==> Reaches(g, x, y)
    ensures forall x, t :: t in Meaning(g, x) <==> Denotes(g, x, t)
    ensures forall rs, y :: y in ReachAll(g, rs) <==> exists r :: r in rs && Reaches(g, r, y)
  {
    forall x, y | Reaches(g, x, y) ensures y == x || y in Names(g) {
      var n: nat :| Steps(g, x, y, n);
      StepsInNames(g, x, y, n);
    }
  }

  lemma ReachAllClosed(g: Graph, roots: set<Name>)
    ensures Closed(g, ReachAll(g, roots))
  {
    SetsComplete(g);
    forall x, y | x in ReachAll(g, roots) && Reaches(g, x, y) ensures y in ReachAll(g, roots) {
      var r :| r in roots && Reaches(g, r, x);
      ReachesTrans(g, r, x, y);
    }
  }

  // ----- rewriting in place

  /** `h` is `g` after some members were replaced by all they stand for. */
  ghost predicate Rewrites(g: Graph, h: Graph) {
    && h.Keys == g.Keys
    && (forall x :: x in g ==> (Live(h, x) <==> Live(g, x)) && (x in h[x] <==> x in g[x]))
    && (forall x, y :: x in g && y in h[x] ==> Reaches(g, x, y))
    && (forall x, y, t :: x in g && y in g[x] && Denotes(g, y, t) ==> y in h[x] || t in h[x])
  }

  /** What every rewrite keeps: entries, which of them have data, the terminals, and every meaning. */
  ghost predicate SameMeaning(g: Graph, h: Graph) {
    && h.Keys == g.Keys
    && (forall x :: Live(h, x) <==> Live(g, x))
    && (forall x :: Terminal(h, x) <==> Terminal(g, x))
    && (forall x, t :: Denotes(h, x, t) <==> Denotes(g, x, t))
    && (forall x, y :: Reaches(h, x, y) ==> Reaches(g, x, y))
  }

  lemma {:induction false} RewritesShortens(g: Graph, h: Graph, x: Name, y: Name, n: nat)
    requires Rewrites(g, h) && Steps(h, x, y, n)
    ensures Reaches(g, x, y)
    decreases n
  {
    if n == 0 {
      ReachesSelf(g, x);
    } else {
      var z :| z in h[x] && Steps(h, z, y, n - 1);
      RewritesShortens(g, h, z, y, n - 1);
      ReachesTrans(g, x, z, y);
    }
  }

  lemma {:induction false} RewritesKeepsTerminal(g: Graph, h: Graph, x: Name, t: Name, n: nat)
    requires Rewrites(g, h) && Steps(g, x, t, n) && Terminal(g, t)
    ensures Reaches(h, x, t)
    decreases n
  {
    if n == 0 {
      ReachesSelf(h, x);
    } else {
      var y :| y in g[x] && Steps(g, y, t, n - 1);
      if y in h[x] {
        RewritesKeepsTerminal(g, h, y, t, n - 1);
        ReachesEdge(h, x, y);
        ReachesTrans(h, x, y, t);
      } else {
        assert Denotes(g, y, t);
        ReachesEdge(h, x, t);
      }
    }
  }

  /** Replacing members by all they stand for changes no meaning, cycles or not. */
  lemma RewritesSameMeaning(g: Graph, h: Graph)
    requires Rewrites(g, h)
    ensures SameMeaning(g, h)
  {
    forall x, y | Reaches(h, x, y) ensures Reaches(g, x, y) {
      var n: nat :| Steps(h, x, y, n);
      RewritesShortens(g, h, x, y, n);
    }
    assert forall x :: Terminal(h, x) <==> Terminal(g, x);
    forall x, t | Denotes(g, x, t) ensures Denotes(h, x, t) {
      var n: nat :| Steps(g, x, t, n);
      RewritesKeepsTerminal(g, h, x, t, n);
    }
  }

  lemma SameMeaningSets(g: Graph, h: Graph)
    requires SameMeaning(g, h)
    ensures forall x :: Meaning(h, x) == Meaning(g, x)
    ensures Acyclic(g) ==> Acyclic(h)
  {
    SetsComplete(g);
    SetsComplete(h);
    forall x ensures Meaning(h, x) == Meaning(g, x) {
      assert forall t :: t in Meaning(h, x) <==> t in Meaning(g, x);
    }
  }

  /** The meaning of a name is the union of its members' meanings, and the name if it names itself. */
  lemma MeaningUnfold(g: Graph, x: Name, t: Name)
    requires Live(g, x)
    ensures t in Meaning(g, x) <==>
            (x in g[x] && t == x) || exists d :: d in g[x] && d != x && t in Meaning(g, d)
  {
    SetsComplete(g);
    if t in Meaning(g, x) && t != x {
      var n: nat :| Steps(g, x, t, n);
      LeavesName(g, x, t, n);
    }
    if exists d :: d in g[x] && d != x && t in Meaning(g, d) {
      ReachesFirst(g, x, t);
    }
    if x in g[x] && t == x { ReachesSelf(g, x); }
    if t in Meaning(g, x) && t == x {
      assert Terminal(g, x);
    }
  }

  lemma {:induction false} LeavesName(g: Graph, x: Name, t: Name, n: nat)
    requires x in g && t != x && Steps(g, x, t, n)
    ensures exists d :: d in g[x] && d != x && Reaches(g, d, t)
    decreases n
  {
    var z :| z in g[x] && Steps(g, z, t, n - 1);
    if z == x {
      LeavesName(g, x, t, n - 1);
    } else {
      assert Reaches(g, z, t);
    }
  }

  lemma DeadMeaning(g: Graph, x: Name)
    requires !Live(g, x)
    ensures Meaning(g, x) == {x}
    ensures forall y :: Reaches(g, x, y) <==> y == x
  {
    SetsComplete(g);
    forall y ensures Reaches(g, x, y) <==> y == x { ReachesFirst(g, x, y); }
  }

  // ----- graphs in which a closed set of entries is expanded

  /** An acyclic name with data stands for something. */
  lemma {:induction false} MeaningNonempty(g: Graph, x: Name)
    requires Acyclic(g)
    ensures Meaning(g, x) != {}
    decreases |ReachSet(g, x)|
  {
    SetsComplete(g);
    ReachesSelf(g, x);
    if Terminal(g, x) {
      assert x in Meaning(g, x);
    } else {
      var d :| d in g[x];
      RankDecreases(g, g, x, d);
      MeaningNonempty(g, d);
      var t :| t in Meaning(g, d);
      MeaningUnfold(g, x, t);
    }
  }

  /** The termination measure of expansion: how many names an entry reaches. Measured in the graph
      `h` that the original graph `g` has become, it drops at every recursive call. */
  lemma RankDecreases(g: Graph, h: Graph, x: Name, d: Name)
    requires Acyclic(g) && SameMeaning(g, h)
    requires x in g && d in g[x] && d != x
    ensures |ReachSet(h, d)| < |ReachSet(g, x)|
    ensures !Reaches(g, d, x)
  {
    SetsComplete(g);
    SetsComplete(h);
    ReachesSelf(g, x);
    ReachesEdge(g, x, d);
    forall y | y in ReachSet(h, d) ensures y in ReachSet(g, x) - {x} {
      ReachesTrans(g, x, d, y);
    }
    SubsetSize(ReachSet(h, d), ReachSet(g, x) - {x});
  }

  lemma {:induction false} SubsetSize<T>(a: set<T>, b: set<T>)
    requires a <= b
    ensures |a| <= |b|
  {
    if a != {} {
      var x :| x in a;
      SubsetSize(a - {x}, b - {x});
    }
  }

  lemma NormalRewrites(g: Graph, done: set<Name>)
    requires Acyclic(g)
    ensures Rewrites(g, Normal(g, done))
    ensures SameMeaning(g, Normal(g, done))
  {
    var h := Normal(g, done);
    SetsComplete(g);
    forall x | x in g
      ensures (Live(h, x) <==> Live(g, x)) && (x in h[x] <==> x in g[x])
    {
      MeaningNonempty(g, x);
      if Live(g, x) { ReachesSelf(g, x); }
    }
    forall x, y | x in g && y in h[x] ensures Reaches(g, x, y) {
      if h[x] == g[x] { ReachesEdge(g, x, y); }
    }
    forall x, y, t | x in g && y in g[x] && Denotes(g, y, t) ensures y in h[x] || t in h[x] {
      ReachesEdge(g, x, y);
      ReachesTrans(g, x, y, t);
    }
    RewritesSameMeaning(g, h);
  }

  /** Walking the original graph from `x`: until it enters `done` the walk exists in `h` too. */
  lemma {:induction false} WalkUntilDone(g: Graph, h: Graph, done: set<Name>, roots: set<Name>, x: Name, y: Name,
                                         n: nat)
    requires h.Keys == g.Keys && Closed(g, done)
    requires x in ReachAll(g, roots) && Steps(g, x, y, n)
    requires forall z :: z in ReachAll(g, roots) && z !in done && z in g ==> h[z] == g[z]
    ensures y in done || Reaches(h, x, y)
    decreases n
  {
    if n == 0 {
      ReachesSelf(h, x);
    } else if x in done {
      assert Reaches(g, x, y);
    } else {
      var z :| z in g[x] && Steps(g, z, y, n - 1);
      ReachesEdge(g, x, z);
      ReachAllClosed(g, roots);
      WalkUntilDone(g, h, done, roots, z, y, n - 1);
      if y !in done {
        ReachesEdge(h, x, z);
        ReachesTrans(h, x, z, y);
      }
    }
  }

  /** Expanding from `roots` in a graph where `done` is expanded already is expanding the original
      graph on `done` and on all that `roots` reached in it. */
  lemma ExpandMore(g: Graph, h: Graph, done: set<Name>, roots: set<Name>)
    requires Acyclic(g) && Rewrites(g, h) && Closed(g, done)
    requires forall y :: y in done && Live(g, y) ==> h[y] == Meaning(g, y)
    requires forall y :: y in ReachAll(g, roots) && y !in done && y in g ==> h[y] == g[y]
    ensures forall y :: y in g ==>
      Normal(h, ReachAll(h, roots))[y] ==
        if y in done + ReachAll(g, roots) && Live(g, y) then Meaning(g, y) else h[y]
  {
    RewritesSameMeaning(g, h);
    SameMeaningSets(g, h);
    SetsComplete(g);
    SetsComplete(h);
    forall y | y in g && y in ReachAll(g, roots) ensures y in ReachAll(h, roots) || y in done {
      var r :| r in roots && Reaches(g, r, y);
      ReachesSelf(g, r);
      var n: nat :| Steps(g, r, y, n);
      WalkUntilDone(g, h, done, roots, r, y, n);
    }
  }

  lemma NormalMoreAt(g: Graph, done: set<Name>, roots: set<Name>)
    requires Acyclic(g) && Closed(g, done)
    ensures var h := Normal(g, done);
      forall y :: y in g ==> Normal(h, ReachAll(h, roots))[y] == Normal(g, done + ReachAll(g, roots))[y]
  {
    NormalRewrites(g, done);
    ExpandMore(g, Normal(g, done), done, roots);
  }

  /** Expanding twice is expanding once from both places. */
  lemma NormalMore(g: Graph, done: set<Name>, roots: set<Name>)
    requires Acyclic(g) && Closed(g, done)
    ensures Normal(Normal(g, done), ReachAll(Normal(g, done), roots)) == Normal(g, done + ReachAll(g, roots))
  {
    NormalMoreAt(g, done, roots);
  }

  // ----- an entry some of whose members are replaced

  /** The data of `td` once its members `xs` are replaced by what they stand for. */
  ghost function Held(g: Graph, td: Name, xs: set<Name>): set<Name>
    requires td in g
  {
    (g[td] - xs) + set x, t | x in xs && t in Meaning(g, x) :: t
  }

  ghost function Partly(g: Graph, done: set<Name>, td: Name, xs: set<Name>): Graph
    requires td in g
  {
    Normal(g, done)[td := Held(g, td, xs)]
  }

  lemma HeldFacts(g: Graph, td: Name, xs: set<Name>)
    requires Acyclic(g) && Live(g, td) && xs <= g[td] - {td}
    ensures Held(g, td, xs) != {}
    ensures td in Held(g, td, xs) <==> td in g[td]
    ensures forall y :: y in Held(g, td, xs) ==> Reaches(g, td, y)
  {
    SetsComplete(g);
    forall y | y in Held(g, td, xs) ensures Reaches(g, td, y) {
      if y in g[td] {
        ReachesEdge(g, td, y);
      } else {
        var x :| x in xs && y in Meaning(g, x);
        ReachesFirst(g, td, y);
      }
    }
    forall x | x in xs ensures td !in Meaning(g, x) {
      RankDecreases(g, g, td, x);
    }
    var x :| x in g[td];
    MeaningNonempty(g, x);
    if x in xs {
      var t :| t in Meaning(g, x);
      assert t in Held(g, td, xs);
    } else {
      assert x in Held(g, td, xs);
    }
  }

  lemma PartlyRewrites(g: Graph, done: set<Name>, td: Name, xs: set<Name>)
    requires Acyclic(g) && Live(g, td) && xs <= g[td] - {td}
    ensures Rewrites(g, Partly(g, done, td, xs))
  {
    var h := Partly(g, done, td, xs);
    NormalRewrites(g, done);
    HeldFacts(g, td, xs);
    forall y, t | y in g[td] && Denotes(g, y, t) ensures y in h[td] || t in h[td] {
      SetsComplete(g);
      assert y in xs ==> t in Meaning(g, y);
    }
  }

  lemma PartlyMoreAt(g: Graph, done: set<Name>, td: Name, xs: set<Name>, roots: set<Name>)
    requires Acyclic(g) && Live(g, td) && xs <= g[td] - {td} && Closed(g, done)
    requires td !in done + ReachAll(g, roots)
    ensures var h := Partly(g, done, td, xs);
      forall y :: y in g ==>
        Normal(h, ReachAll(h, roots))[y] == Partly(g, done + ReachAll(g, roots), td, xs)[y]
  {
    var h := Partly(g, done, td, xs);
    PartlyRewrites(g, done, td, xs);
    ExpandMore(g, h, done, roots);
  }

  lemma PartlyMore(g: Graph, done: set<Name>, td: Name, xs: set<Name>, roots: set<Name>)
    requires Acyclic(g) && Live(g, td) && xs <= g[td] - {td} && Closed(g, done)
    requires td !in done + ReachAll(g, roots)
    ensures var h := Partly(g, done, td, xs);
      Normal(h, ReachAll(h, roots)) == Partly(g, done + ReachAll(g, roots), td, xs)
  {
    PartlyMoreAt(g, done, td, xs, roots);
  }

  lemma PartlyNext(g: Graph, done: set<Name>, td: Name, xs: set<Name>, d: Name)
    requires td in g && d in g[td] - xs
    ensures var h := Partly(g, done, td, xs);
      Partly(g, done, td, xs + {d}) == h[td := (h[td] - {d}) + Meaning(g, d)]
  {
    SetsComplete(g);
    // a member that another member stands for is terminal, so it stands for itself
    if x :| x in xs && d in Meaning(g, x) {
      ReachesSelf(g, d);
    }
    assert (Held(g, td, xs) - {d}) + Meaning(g, d) == Held(g, td, xs + {d});
  }

  lemma PartlyEnd(g: Graph, done: set<Name>, td: Name)
    requires Live(g, td)
    ensures Partly(g, done, td, g[td] - {td}) == Normal(g, done + {td})
  {
    SetsComplete(g);
    forall t ensures t in Held(g, td, g[td] - {td}) <==> t in Meaning(g, td) {
      MeaningUnfold(g, td, t);
    }
    assert Held(g, td, g[td] - {td}) == Meaning(g, td);
  }
}
