/** The importers' loop that expands every entry of every set of a device's books. */
module BookImport {
  import opened BookGraph
  import opened BookExpansion
  import opened BookTheorems

  lemma ExpansionKeepsMeanings(b: View, ts: Name, td: Name, ds: Name)
    requires AllAcyclic(b)
    ensures SameMeanings(b, Expansion(b, ts, td, ds)) && AllAcyclic(Expansion(b, ts, td, ds))
  {
    var c := Expansion(b, ts, td, ds);
    forall s | s in b ensures SameMeaning(b[s], c[s]) && Acyclic(c[s]) {
      if ts in b && Live(b[ts], td) { NormalRewrites(b[s], Visited(b, ts, {td}, ds, s)); }
      SameMeaningSets(b[s], c[s]);
    }
  }

  lemma ExpandOneMore(b: View, calls: seq<Call>, c: Call, ds: Name)
    ensures ExpandAll(b, calls + [c], ds) == Expansion(ExpandAll(b, calls, ds), c.0, c.1, ds)
  {
    assert (calls + [c])[..|calls|] == calls;
  }

  /** The calls made so far cover the sets done and the entries done of the current set. */
  ghost predicate Covers(book: map<Name, map<Name, AcBook>>, calls: seq<Call>, sets: set<Name>, s: Name,
                         names: set<Name>) {
    forall s', x :: s' in book && x in book[s'] && s' !in sets && (s' == s ==> x !in names) ==> (s', x) in calls
  }

  /** Going on with the entries of another set. */
  lemma NextSet(book: map<Name, map<Name, AcBook>>, calls: seq<Call>, sets: set<Name>, s: Name)
    requires s in sets && s in book && Covers(book, calls, sets, "", {})
    ensures Covers(book, calls, sets - {s}, s, book[s].Keys)
  {
  }

  lemma NextEntry(book: map<Name, map<Name, AcBook>>, calls: seq<Call>, sets: set<Name>, s: Name,
                  names: set<Name>, x: Name)
    requires Covers(book, calls, sets, s, names)
    ensures Covers(book, calls + [(s, x)], sets, s, names - {x})
  {
  }

  method ExpandEverything(books: AcBooks, ds: Name)
    requires books.Valid() && AllAcyclic(books.Contents())
    modifies books.Stored()
    ensures var was, now := old(books.Contents()), books.Contents();
      && now.Keys == was.Keys
      && (forall s :: s in was ==> now[s].Keys == was[s].Keys)
      && (forall s, x :: s in was && x in was[s] ==> now[s][x] == if was[s][x] == {} then {} else Meaning(was[s], x))
  {
    ghost var b := books.Contents();
    ghost var calls: seq<Call> := [];
    var sets := books.book.Keys;
    while sets != {}
      invariant sets <= books.book.Keys
      invariant AllAcyclic(books.Contents()) && books.Contents() == ExpandAll(b, calls, ds)
      invariant Covers(books.book, calls, sets, "", {})
    {
      var s :| s in sets;
      NextSet(books.book, calls, sets, s);
      sets := sets - {s};
      var names := books.book[s].Keys;
      while names != {}
        invariant names <= books.book[s].Keys
        invariant AllAcyclic(books.Contents()) && books.Contents() == ExpandAll(b, calls, ds)
        invariant Covers(books.book, calls, sets, s, names)
      {
        var x :| x in names;
        names := names - {x};
        ExpansionKeepsMeanings(books.Contents(), s, x, ds);
        var _, _ := books.Expanded(s, x, ds);
        ExpandOneMore(b, calls, (s, x), ds);
        NextEntry(books.book, calls, sets, s, names + {x}, x);
        calls := calls + [(s, x)];
      }
    }
    AllHoldMeaning(b, calls, ds);
  }

  lemma AllHoldMeaning(b: View, calls: seq<Call>, ds: Name)
    requires AllAcyclic(b) && forall s, x :: s in b && x in b[s] ==> (s, x) in calls
    ensures var now := ExpandAll(b, calls, ds);
      && now.Keys == b.Keys
      && (forall s :: s in b ==> now[s].Keys == b[s].Keys)
      && (forall s, x :: s in b && x in b[s] ==> now[s][x] == if b[s][x] == {} then {} else Meaning(b[s], x))
  {
    OrderIrrelevant(b, calls, ds);
    var now := ExpandAll(b, calls, ds);
    forall s, x | s in b && x in b[s] ensures now[s][x] == if b[s][x] == {} then {} else Meaning(b[s], x) {
      if b[s][x] != {} {
        assert (s, x) in CallSet(calls);
        assert x in Entries(b, s, {x}, ds, s);
        assert x in Roots(b, CallSet(calls), ds, s);
        ReachesSelf(b[s], x);
        SetsComplete(b[s]);
      }
    }
  }
}
