/** What a finished solve returns, and what it promises. */
module Solution {
  import opened Versions
  import opened Unifier
  import opened World
  import opened SolverState
  import opened SolverInvariants

  type Projects = map<Atom, set<Pkg>>

  function PackagesOf(sol: Projects, a: Atom): set<Pkg> {
    if a in sol then sol[a] else {}
  }

  /** The selected packages by atom, the root project left out. */
  function Collect(ps: seq<Selected>): Projects {
    if |ps| <= 1 then map[]
    else
      var sol, s := Collect(ps[..|ps| - 1]), ps[|ps| - 1];
      sol[s.a := PackagesOf(sol, s.a) + s.pl]
  }

  /** The version of a satisfies constraint c, through a's version list or that of ident. */
  ghost predicate Admits(w: World, ident: Ident, c: Constraint, a: Atom) {
    UMatches(w.lib, w.versions(a.id), c, a.v) || UMatches(w.lib, w.versions(ident), c, a.v)
  }

  /** Package p of project r, wanted under (ident, c), is in the solution: at a version of r
    that the constraint admits, and that has the package without error. */
  ghost predicate Provides(w: World, sol: Projects, r: Root, ident: Ident, c: Constraint, p: Pkg) {
    && (exists a :: a in sol && a.id.root == r && Admits(w, ident, c, a) && HasPackage(w, a, p))
    && (exists b :: b in sol && b.id.root == r && p in sol[b])
  }

  /** An import of a solution's package is of the standard library or of the root project, or is
    provided; and if it is to be at a revision, its source has that. */
  ghost predicate ImportOk(w: World, sol: Projects, a: Atom, e: Pkg) {
    match w.target(a.id, a.v, e)
    case Std => true
    case Unknown => false
    case At(r) =>
      var (ident, c) := w.working(a.id, a.v, r);
      r == w.root || (Provides(w, sol, r, ident, c, e) && (AsksRevision(c) ==> w.revisionIn(ident, c.v.r)))
  }

  /** Project r is wanted under ident: by the root project, or for an import of a package in
    the solution. */
  ghost predicate Wanted(w: World, sol: Projects, r: Root, ident: Ident) {
    || (r in w.rootDeps && ident == w.rootDeps[r].ident)
    || (r != w.root && exists a, p, e :: Leads(w, sol, a, p, e, r) && ident == w.working(a.id, a.v, r).0)
  }

  ghost predicate Leads(w: World, sol: Projects, a: Atom, p: Pkg, e: Pkg, r: Root) {
    && a in sol && p in sol[a] && !w.ignored(p)
    && p in w.reach(a.id, a.v) && e in w.reach(a.id, a.v)[p].external && w.target(a.id, a.v, e) == At(r)
  }

  /** ident is one of those under which r is wanted, and all of them agree with it. */
  ghost predicate Agreed(w: World, sol: Projects, r: Root, ident: Ident) {
    Wanted(w, sol, r, ident) && forall other :: Wanted(w, sol, r, other) ==> ident.Equiv(other)
  }

  /** One version per project; everything the root project needs; everything any package in
    the solution imports, inside its project or outside; one source for all who want a project. */
  ghost predicate IsSolution(w: World, sol: Projects) {
    && (forall a, b :: a in sol && b in sol && a.id.root == b.id.root ==> a.v == b.v)
    && (forall a :: a in sol ==> a.id.root != w.root)
    && (forall r, p :: r in w.rootDeps && p in w.rootDeps[r].pl ==>
          Provides(w, sol, r, w.rootDeps[r].ident, w.rootDeps[r].c, p))
    && (forall a, p :: a in sol && p in sol[a] && !w.ignored(p) ==>
          var rm := w.reach(a.id, a.v);
          p in rm && rm[p].internal <= sol[a] && forall e :: e in rm[p].external ==> ImportOk(w, sol, a, e))
    && (forall r, ident :: Wanted(w, sol, r, ident) ==> exists agreed :: Agreed(w, sol, r, agreed))
  }

  lemma {:induction false} CollectIs(ps: seq<Selected>, a: Atom, p: Pkg)
    ensures a in Collect(ps) <==> exists i :: 1 <= i < |ps| && ps[i].a == a
    ensures p in PackagesOf(Collect(ps), a) <==> exists i :: 1 <= i < |ps| && ps[i].a == a && p in ps[i].pl
  {
    if |ps| > 1 {
      var n := |ps| - 1;
      CollectIs(ps[..n], a, p);
      assert forall i :: 1 <= i < n ==> ps[..n][i] == ps[i];
    }
  }

  lemma VersionIsSelected(ps: seq<Selected>, i: nat)
    requires OneVersion(ps) && i < |ps|
    ensures var r := ps[i].a.id.root;
      SelectedFor(ps, r).Some? && SelectedFor(ps, r).value.a.v == ps[i].a.v
  {
    var r := ps[i].a.id.root;
    assert Placed(ps[..i], ps[i]);
    assert ps[..i + 1][..i] == ps[..i];
    SelectedForPrefix(ps, r, i + 1);
  }

  lemma SelectedIsCollected(ps: seq<Selected>, r: Root)
    requires ps != [] && ps[0].a.id.root != r && SelectedFor(ps, r).Some?
    ensures SelectedFor(ps, r).value.a in Collect(ps) && SelectedFor(ps, r).value.a.id.root == r
  {
    SelectedForIs(ps, r);
    var j :| 0 <= j < |ps| && ps[j] == SelectedFor(ps, r).value;
    CollectIs(ps, ps[j].a, "");
  }

  lemma RootIsFirst(w: World, u: Universe, ps: seq<Selected>)
    requires Grounded(w, u, ps)
    ensures ps != [] && ps[0].a.id.root == w.root
  {
  }

  /** With the worklist empty, what a live edge names is in the solution. */
  lemma EdgeIsProvided(w: World, u: Universe, st: State, r: Root, e: Dependency, p: Pkg)
    requires Lawful(w) && Inv(w, u, st) && st.unsel == multiset{}
    requires e in EdgesOn(w, st.projects, r) && p in e.dep.pl && r != w.root
    ensures Provides(w, Collect(st.projects), r, e.dep.ident, e.dep.c, p)
  {
    hide Grounded, Mirrored, Queued, Folded, Lawful, Placed, HasPackage, UMatches, Existing;
    var ps := st.projects;
    RootIsFirst(w, u, ps);
    assert Covers(ps, st.unsel, r, p);
    var i :| 0 <= i < |ps| && ps[i].a.id.root == r && p in ps[i].pl;
    VersionIsSelected(ps, i);
    SelectedIsCollected(ps, r);
    CollectIs(ps, ps[i].a, p);
    assert EdgeOk(w, e, SelectedFor(ps, r).value.a);
  }

  /** An import that leads to another project has its edge. */
  lemma ImportIsEdge(w: World, u: Universe, st: State, i: nat, p: Pkg, e: Pkg, r: Root)
    requires Lawful(w) && Inv(w, u, st) && 1 <= i < |st.projects|
    requires var s := st.projects[i]; p in s.pl && !w.ignored(p)
    requires var a := st.projects[i].a;
      && p in w.reach(a.id, a.v) && e in w.reach(a.id, a.v)[p].external
      && w.target(a.id, a.v, e) == At(r) && r != w.root
    ensures var s := st.projects[i];
      && r in EdgesOf(w, s) && e in EdgesOf(w, s)[r].pl
      && EdgesOf(w, s)[r].ident == w.working(s.a.id, s.a.v, r).0 && EdgesOf(w, s)[r].c == w.working(s.a.id, s.a.v, r).1
      && Dependency(s.a, EdgesOf(w, s)[r]) in EdgesOn(w, st.projects, r)
  {
    var s := st.projects[i];
    var ext := Externals(w, w.reach(s.a.id, s.a.v), s.pl);
    assert e in ext;
    assert r in Targets(w, s.a, ext);
    assert EdgesOf(w, s)[r] == DepOn(w, s.a, ext, r);
    EdgeIsLive(w, st.projects, i, r);
  }

  lemma ImportIsOk(w: World, u: Universe, st: State, i: nat, p: Pkg, e: Pkg)
    requires Lawful(w) && Inv(w, u, st) && st.unsel == multiset{} && 1 <= i < |st.projects|
    requires var s := st.projects[i]; p in s.pl && !w.ignored(p)
    requires var a := st.projects[i].a; p in w.reach(a.id, a.v) && e in w.reach(a.id, a.v)[p].external
    ensures ImportOk(w, Collect(st.projects), st.projects[i].a, e)
  {
    var s := st.projects[i];
    assert e in Externals(w, w.reach(s.a.id, s.a.v), s.pl);
    var t := w.target(s.a.id, s.a.v, e);
    if t.At? && t.root != w.root {
      ImportIsEdge(w, u, st, i, p, e, t.root);
      EdgeIsProvided(w, u, st, t.root, Dependency(s.a, EdgesOf(w, s)[t.root]), e);
      RevisionIsThere(w, u, st, i, t.root);
    }
  }

  lemma RevisionIsThere(w: World, u: Universe, st: State, i: nat, r: Root)
    requires Inv(w, u, st) && 1 <= i < |st.projects| && r in EdgesOf(w, st.projects[i])
    requires Dependency(st.projects[i].a, EdgesOf(w, st.projects[i])[r]) in EdgesOn(w, st.projects, r)
    ensures var d := EdgesOf(w, st.projects[i])[r]; AsksRevision(d.c) ==> w.revisionIn(d.ident, d.c.v.r)
  {
    hide EdgesOf, EdgesOn, OneVersion, Mirrored, Safe, Covered, Queued, Folded, Imports;
    assert EntryOk(w, u, st.projects[i]);
  }

  /* ----- The sources agree ----- */

  /** The entry that an edge comes from. */
  lemma {:induction false} EdgeHasEntry(w: World, ps: seq<Selected>, r: Root, e: Dependency)
    requires e in EdgesOn(w, ps, r)
    ensures exists i :: 0 <= i < |ps| && r in EdgesOf(w, ps[i]) && e == Dependency(ps[i].a, EdgesOf(w, ps[i])[r])
  {
    var n := |ps| - 1;
    if e in EdgesOn(w, ps[..n], r) {
      EdgeHasEntry(w, ps[..n], r, e);
      var i :| 0 <= i < n && r in EdgesOf(w, ps[..n][i]) && e == Dependency(ps[..n][i].a, EdgesOf(w, ps[..n][i])[r]);
      assert ps[i] == ps[..n][i];
    }
  }

  /** An import behind the edge of an entry. */
  lemma ImportBehind(w: World, s: Selected, r: Root) returns (p: Pkg, e: Pkg)
    requires r in EdgesOf(w, s) && s.a.id.root != w.root
    ensures p in s.pl && !w.ignored(p) && p in w.reach(s.a.id, s.a.v)
    ensures e in w.reach(s.a.id, s.a.v)[p].external && w.target(s.a.id, s.a.v, e) == At(r)
    ensures r != w.root && EdgesOf(w, s)[r].ident == w.working(s.a.id, s.a.v, r).0
  {
    var rm := w.reach(s.a.id, s.a.v);
    var ext := Externals(w, rm, s.pl);
    assert r in Targets(w, s.a, ext);
    e :| e in ext && w.target(s.a.id, s.a.v, e) == At(r);
    p :| p in s.pl && !w.ignored(p) && p in rm && e in rm[p].external;
  }

  lemma EdgeIsWanted(w: World, u: Universe, st: State, r: Root, e: Dependency)
    requires Grounded(w, u, st.projects) && e in EdgesOn(w, st.projects, r)
    ensures Wanted(w, Collect(st.projects), r, e.dep.ident)
  {
    hide Imports;
    var ps := st.projects;
    EdgeHasEntry(w, ps, r, e);
    var i :| 0 <= i < |ps| && r in EdgesOf(w, ps[i]) && e == Dependency(ps[i].a, EdgesOf(w, ps[i])[r]);
    if i > 0 {
      assert EntryOk(w, u, ps[i]);
      var p, x := ImportBehind(w, ps[i], r);
      CollectIs(ps, ps[i].a, p);
      assert Leads(w, Collect(ps), ps[i].a, p, x, r);
    }
  }

  lemma WantedIsEdge(w: World, u: Universe, st: State, r: Root, ident: Ident)
    requires Lawful(w) && Inv(w, u, st) && Wanted(w, Collect(st.projects), r, ident)
    ensures exists e :: e in EdgesOn(w, st.projects, r) && e.dep.ident == ident
  {
    var ps := st.projects;
    if r in w.rootDeps && ident == w.rootDeps[r].ident {
      EdgeIsLive(w, ps, 0, r);
    } else {
      var a, p, e :| Leads(w, Collect(ps), a, p, e, r) && ident == w.working(a.id, a.v, r).0;
      CollectIs(ps, a, p);
      var i :| 1 <= i < |ps| && ps[i].a == a && p in ps[i].pl;
      ImportIsEdge(w, u, st, i, p, e, r);
    }
  }

  /** All identifiers under which a project is wanted agree with that of its first edge. */
  lemma FirstIsAgreed(w: World, u: Universe, st: State, r: Root)
    requires Lawful(w) && Inv(w, u, st) && EdgesOn(w, st.projects, r) != []
    ensures Agreed(w, Collect(st.projects), r, EdgesOn(w, st.projects, r)[0].dep.ident)
  {
    hide Wanted;
    var first := EdgesOn(w, st.projects, r)[0];
    EdgeIsWanted(w, u, st, r, first);
    forall other | Wanted(w, Collect(st.projects), r, other)
      ensures first.dep.ident.Equiv(other)
    {
      WantedIsEdge(w, u, st, r, other);
    }
  }

  lemma SourcesAgree(w: World, u: Universe, st: State, r: Root, ident: Ident)
    requires Lawful(w) && Inv(w, u, st) && Wanted(w, Collect(st.projects), r, ident)
    ensures exists agreed :: Agreed(w, Collect(st.projects), r, agreed)
  {
    hide Wanted, Agreed;
    WantedIsEdge(w, u, st, r, ident);
    FirstIsAgreed(w, u, st, r);
  }

  lemma CollectedOnce(w: World, u: Universe, ps: seq<Selected>, a: Atom, b: Atom)
    requires Grounded(w, u, ps) && OneVersion(ps) && a in Collect(ps)
    ensures a.id.root != w.root
    ensures b in Collect(ps) && a.id.root == b.id.root ==> a.v == b.v
  {
    CollectIs(ps, a, "");
    CollectIs(ps, b, "");
    var i :| 1 <= i < |ps| && ps[i].a == a;
    VersionIsSelected(ps, i);
    if b in Collect(ps) {
      var j :| 1 <= j < |ps| && ps[j].a == b;
      VersionIsSelected(ps, j);
    }
  }

  lemma CollectedIsClosed(w: World, u: Universe, st: State, a: Atom, p: Pkg)
    requires Lawful(w) && Inv(w, u, st) && st.unsel == multiset{}
    requires a in Collect(st.projects) && p in Collect(st.projects)[a] && !w.ignored(p)
    ensures var rm := w.reach(a.id, a.v);
      p in rm && rm[p].internal <= Collect(st.projects)[a]
      && forall e :: e in rm[p].external ==> ImportOk(w, Collect(st.projects), a, e)
  {
    var ps := st.projects;
    CollectIs(ps, a, p);
    var i :| 1 <= i < |ps| && ps[i].a == a && p in ps[i].pl;
    assert EntryOk(w, u, ps[i]);
    var rm := w.reach(a.id, a.v);
    forall q | q in rm[p].internal
      ensures q in Collect(ps)[a]
    {
      assert q in Closure(rm, ps[i].pl);
      CollectIs(ps, a, q);
    }
    forall e | e in rm[p].external
      ensures ImportOk(w, Collect(ps), a, e)
    {
      ImportIsOk(w, u, st, i, p, e);
    }
  }

  lemma RootDepIsProvided(w: World, u: Universe, st: State, r: Root, p: Pkg)
    requires Lawful(w) && Inv(w, u, st) && st.unsel == multiset{}
    requires r in w.rootDeps && p in w.rootDeps[r].pl
    ensures Provides(w, Collect(st.projects), r, w.rootDeps[r].ident, w.rootDeps[r].c, p)
  {
    EdgeIsLive(w, st.projects, 0, r);
    EdgeIsProvided(w, u, st, r, Dependency(st.projects[0].a, w.rootDeps[r]), p);
  }

  /** A state with an empty worklist is a solution. */
  lemma EmptyWorklistIsSolution(w: World, u: Universe, st: State)
    requires Lawful(w) && Inv(w, u, st) && st.unsel == multiset{}
    ensures IsSolution(w, Collect(st.projects))
  {
    var sol := Collect(st.projects);
    forall a, b | a in sol && b in sol && a.id.root == b.id.root
      ensures a.v == b.v
    {
      CollectedOnce(w, u, st.projects, a, b);
    }
    forall a | a in sol
      ensures a.id.root != w.root
    {
      CollectedOnce(w, u, st.projects, a, a);
    }
    forall r, p | r in w.rootDeps && p in w.rootDeps[r].pl
      ensures Provides(w, sol, r, w.rootDeps[r].ident, w.rootDeps[r].c, p)
    {
      RootDepIsProvided(w, u, st, r, p);
    }
    forall a, p | a in sol && p in sol[a] && !w.ignored(p)
      ensures p in w.reach(a.id, a.v) && w.reach(a.id, a.v)[p].internal <= sol[a]
      ensures forall e :: e in w.reach(a.id, a.v)[p].external ==> ImportOk(w, sol, a, e)
    {
      CollectedIsClosed(w, u, st, a, p);
    }
    forall r, ident | Wanted(w, sol, r, ident)
      ensures exists agreed :: Agreed(w, sol, r, agreed)
    {
      SourcesAgree(w, u, st, r, ident);
    }
  }
}
