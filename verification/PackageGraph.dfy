/** Internal import graphs and reachability in them: what `wmToReach` (gps/pkgtree/pkgtree.go)
  is to compute. */
module PackageGraph {
  import opened Versions
  import opened World

  /** A package: its error, or the external and the internal packages it imports. */
  datatype Wm = Wm(err: Option<string>, ex: set<Pkg>, inn: set<Pkg>)

  type Workmap = map<Pkg, Wm>

  predicate Good(wm: Workmap, p: Pkg) {
    p in wm && wm[p].err.None?
  }

  /** p is free of errors and imports q; importing oneself does not count. */
  predicate Edge(wm: Workmap, p: Pkg, q: Pkg) {
    Good(wm, p) && q in wm[p].inn && q != p
  }

  ghost predicate Chain(wm: Workmap, c: seq<Pkg>) {
    c != [] && forall i :: 0 <= i < |c| - 1 ==> Edge(wm, c[i], c[i + 1])
  }

  ghost predicate Leads(wm: Workmap, c: seq<Pkg>, p: Pkg, q: Pkg) {
    Chain(wm, c) && c[0] == p && c[|c| - 1] == q
  }

  ghost predicate Reaches(wm: Workmap, p: Pkg, q: Pkg) {
    exists c :: Leads(wm, c, p, q)
  }

  ghost predicate Acyclic(wm: Workmap) {
    forall c :: Chain(wm, c) && |c| > 1 ==> c[0] != c[|c| - 1]
  }

  /** A missing or erroneous package is reachable from p. */
  ghost predicate Doomed(wm: Workmap, p: Pkg) {
    exists q :: Reaches(wm, p, q) && !Good(wm, q)
  }

  function Direct(wm: Workmap, p: Pkg, inner: bool): set<Pkg>
    requires p in wm
  {
    if inner then wm[p].inn else wm[p].ex
  }

  /** x is imported directly by an error-free package that p reaches. */
  ghost predicate Imported(wm: Workmap, p: Pkg, x: Pkg, inner: bool) {
    exists q :: Reaches(wm, p, q) && Good(wm, q) && x in Direct(wm, q, inner)
  }

  lemma ReachesSelf(wm: Workmap, p: Pkg)
    ensures Reaches(wm, p, p)
  {
    assert Leads(wm, [p], p, p);
  }

  lemma ChainsJoin(wm: Workmap, c: seq<Pkg>, d: seq<Pkg>)
    requires Chain(wm, c) && Chain(wm, d) && Edge(wm, c[|c| - 1], d[0])
    ensures Chain(wm, c + d)
  {
  }

  lemma ReachesMore(wm: Workmap, p: Pkg, q: Pkg, r: Pkg)
    requires Edge(wm, p, q) && Reaches(wm, q, r)
    ensures Reaches(wm, p, r)
  {
    var c :| Leads(wm, c, q, r);
    ChainsJoin(wm, [p], c);
    assert Leads(wm, [p] + c, p, r);
  }

  lemma ImportedMore(wm: Workmap, p: Pkg, q: Pkg, x: Pkg, inner: bool)
    requires Edge(wm, p, q) && Imported(wm, q, x, inner)
    ensures Imported(wm, p, x, inner)
  {
    var r :| Reaches(wm, q, r) && Good(wm, r) && x in Direct(wm, r, inner);
    ReachesMore(wm, p, q, r);
  }

  /** A chain to a package gives everything on it what the package imports. */
  lemma {:induction false} ImportedAlong(wm: Workmap, c: seq<Pkg>, i: nat, x: Pkg, inner: bool)
    requires Chain(wm, c) && i < |c| && Imported(wm, c[|c| - 1], x, inner)
    ensures Imported(wm, c[i], x, inner)
    decreases |c| - i
  {
    if i < |c| - 1 {
      ImportedAlong(wm, c, i + 1, x, inner);
      ImportedMore(wm, c[i], c[i + 1], x, inner);
    }
  }

  lemma ImportedDirectly(wm: Workmap, p: Pkg, x: Pkg, inner: bool)
    requires Good(wm, p) && x in Direct(wm, p, inner)
    ensures Imported(wm, p, x, inner)
  {
    ReachesSelf(wm, p);
  }

  /* ----- Closed sets are exact ----- */

  /** m lists, for each of its packages, what the package imports directly, and what m lists for
    every error-free package that it imports. */
  ghost predicate Closed(wm: Workmap, m: map<Pkg, set<Pkg>>, inner: bool) {
    && (forall p :: p in m ==> Good(wm, p) && Direct(wm, p, inner) <= m[p])
    && (forall p, q :: p in m && Edge(wm, p, q) && Good(wm, q) ==> q in m && m[q] <= m[p])
  }

  ghost predicate Sound(wm: Workmap, m: map<Pkg, set<Pkg>>, inner: bool) {
    forall p, x :: p in m && x in m[p] ==> Imported(wm, p, x, inner)
  }

  lemma {:induction false} ClosedAlong(wm: Workmap, m: map<Pkg, set<Pkg>>, inner: bool, c: seq<Pkg>)
    requires Closed(wm, m, inner) && Chain(wm, c) && c[0] in m && Good(wm, c[|c| - 1])
    ensures c[|c| - 1] in m && m[c[|c| - 1]] <= m[c[0]]
    decreases |c|
  {
    if |c| > 1 {
      assert Edge(wm, c[0], c[1]);
      if |c| > 2 { assert Edge(wm, c[1], c[2]); }
      ClosedAlong(wm, m, inner, c[1..]);
    }
  }

  lemma ClosedIsExact(wm: Workmap, m: map<Pkg, set<Pkg>>, inner: bool, p: Pkg, x: Pkg)
    requires Closed(wm, m, inner) && Sound(wm, m, inner) && p in m
    ensures x in m[p] <==> Imported(wm, p, x, inner)
  {
    if Imported(wm, p, x, inner) {
      var q :| Reaches(wm, p, q) && Good(wm, q) && x in Direct(wm, q, inner);
      var c :| Leads(wm, c, p, q);
      ClosedAlong(wm, m, inner, c);
    }
  }

  /** If the packages of m import only packages of m, and those are free of errors, none is doomed. */
  lemma {:induction false} SafeAlong(wm: Workmap, m: set<Pkg>, c: seq<Pkg>)
    requires forall p :: p in m ==> Good(wm, p)
    requires forall p, q :: p in m && Edge(wm, p, q) ==> q in m
    requires Chain(wm, c) && c[0] in m
    ensures c[|c| - 1] in m
    decreases |c|
  {
    if |c| > 1 {
      assert Edge(wm, c[0], c[1]);
      SafeAlong(wm, m, c[1..]);
    }
  }

  lemma SafeIsNotDoomed(wm: Workmap, m: set<Pkg>, p: Pkg)
    requires forall p :: p in m ==> Good(wm, p)
    requires forall p, q :: p in m && Edge(wm, p, q) ==> q in m
    requires p in m
    ensures !Doomed(wm, p)
  {
    if q :| Reaches(wm, p, q) && !Good(wm, q) {
      var c :| Leads(wm, c, p, q);
      SafeAlong(wm, m, c);
    }
  }

  /* ----- Problems ----- */

  datatype Err = Own(msg: string) | Missing(p: Pkg) | Mystery(p: Pkg)

  /** Why a package is left out: the error at the end of a chain of imports. */
  datatype Problem = Problem(path: Pkg, err: Err, cause: seq<Pkg>)

  /** The cause is a chain of imports from p to a package that is missing or in error, and the
    error is that package's; the mystery error only ever stands for a missing one. */
  ghost predicate ProblemOk(wm: Workmap, p: Pkg, e: Problem) {
    var c := [p] + e.cause;
    var tail := c[|c| - 1];
    && p in wm && e.path == p && Chain(wm, c) && !Good(wm, tail)
    && if tail in wm then e.err == Own(wm[tail].err.value) else e.err in {Missing(tail), Mystery(tail)}
  }

  lemma ProblemIsDoom(wm: Workmap, p: Pkg, e: Problem)
    requires ProblemOk(wm, p, e)
    ensures Doomed(wm, p)
  {
    var c := [p] + e.cause;
    assert Leads(wm, c, p, c[|c| - 1]);
  }

  /** All packages that can come up. */
  function Nodes(wm: Workmap): set<Pkg> {
    wm.Keys + set p, q | p in wm && q in wm[p].inn :: q
  }

  /* ----- What is to be reported ----- */

  /** On every graph: each package is either kept or has a problem; all that is listed is truly
    imported; each problem is real. */
  ghost predicate Reported(wm: Workmap, rm: map<Pkg, Reach>, em: map<Pkg, Problem>) {
    && rm.Keys + em.Keys == wm.Keys && rm.Keys !! em.Keys
    && (forall p :: p in rm ==> Good(wm, p))
    && (forall p :: p in rm ==> wm[p].ex <= rm[p].external && wm[p].inn <= rm[p].internal)
    && (forall p, x :: p in rm && x in rm[p].external ==> Imported(wm, p, x, false))
    && (forall p, x :: p in rm && x in rm[p].internal ==> Imported(wm, p, x, true))
    && (forall p :: p in em ==> ProblemOk(wm, p, em[p]))
  }

  /** Exactly the right packages are kept, with exactly the right lists. */
  ghost predicate Exact(wm: Workmap, back: bool, rm: map<Pkg, Reach>) {
    && (forall p :: p in rm <==> p in wm && if back then !Doomed(wm, p) else Good(wm, p))
    && (forall p, x :: p in rm ==> (x in rm[p].external <==> Imported(wm, p, x, false)))
    && (forall p, x :: p in rm ==> (x in rm[p].internal <==> Imported(wm, p, x, true)))
  }

  lemma {:induction false} ReachesAlong(wm: Workmap, c: seq<Pkg>, r: Pkg)
    requires Chain(wm, c) && Reaches(wm, c[|c| - 1], r)
    ensures Reaches(wm, c[0], r)
    decreases |c|
  {
    if |c| > 1 {
      assert Edge(wm, c[0], c[1]);
      ReachesAlong(wm, c[1..], r);
      ReachesMore(wm, c[0], c[1], r);
    }
  }

  lemma ReachesTransitive(wm: Workmap, p: Pkg, q: Pkg, r: Pkg)
    requires Reaches(wm, p, q) && Reaches(wm, q, r)
    ensures Reaches(wm, p, r)
  {
    var c :| Leads(wm, c, p, q);
    ReachesAlong(wm, c, r);
  }

  lemma ImportedIsReached(wm: Workmap, p: Pkg, q: Pkg)
    requires Imported(wm, p, q, true)
    ensures Reaches(wm, p, q)
  {
    var r :| Reaches(wm, p, r) && Good(wm, r) && q in Direct(wm, r, true);
    if q != r {
      ReachesSelf(wm, q);
      ReachesMore(wm, r, q, q);
      ReachesTransitive(wm, p, r, q);
    }
  }

  lemma ImportedFromReached(wm: Workmap, p: Pkg, q: Pkg, x: Pkg, inner: bool)
    requires Reaches(wm, p, q) && Imported(wm, q, x, inner)
    ensures Imported(wm, p, x, inner)
  {
    var r :| Reaches(wm, q, r) && Good(wm, r) && x in Direct(wm, r, inner);
    ReachesTransitive(wm, p, q, r);
  }

  /** What the solver asks of reach maps: an exact one, with errors propagated, is closed. */
  lemma ExactIsClosed(w: World, wm: Workmap, rm: map<Pkg, Reach>)
    requires Exact(wm, true, rm) && forall p :: p in rm ==> !w.ignored(p)
    ensures ReachClosed(w, rm)
  {
    forall p, q | p in rm && q in rm[p].internal
      ensures q in rm && rm[q].internal <= rm[p].internal && rm[q].external <= rm[p].external
    {
      ImportedIsReached(wm, p, q);
      if Doomed(wm, q) {
        var r :| Reaches(wm, q, r) && !Good(wm, r);
        ReachesTransitive(wm, p, q, r);
      }
      ReachesSelf(wm, q);
      forall x | x in rm[q].internal ensures x in rm[p].internal { ImportedFromReached(wm, p, q, x, true); }
      forall x | x in rm[q].external ensures x in rm[p].external { ImportedFromReached(wm, p, q, x, false); }
    }
  }
}
