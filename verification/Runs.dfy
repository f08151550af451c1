/** Single steps of a search, for runs written out state by state: what selecting an atom with one
  dependency or none leads to, and which worklist entry is taken next
  (gps/solver.go, unselectedComparator). */
module Runs {
  import opened Versions
  import opened Unifier
  import opened Strings
  import opened World
  import opened SolverState
  import opened SolverInvariants
  import opened Transitions
  import opened RootSelection
  import opened Staleness

  /* ----- The order of the worklist ----- */

  predicate Before(a: string, b: string) {
    Le(a, b) && a != b
  }

  predicate Less(i: Ident, j: Ident) {
    Before(i.root, j.root) || (i.root == j.root && Before(i.NormalizedSource(), j.NormalizedSource()))
  }

  function VersionCount(w: World, id: Ident): nat {
    if w.versions(id).Some? then |w.versions(id).value| else 0
  }

  /** Additions to a selected project come first, then projects that the root lock has, then those
    with fewer versions; else the names decide. */
  predicate Ahead(w: World, ps: seq<Selected>, i: Bmi, j: Bmi) {
    var isel, jsel := SelectedFor(ps, i.id.root).Some?, SelectedFor(ps, j.id.root).Some?;
    var ilock, jlock := i.id.root in w.rootLock, j.id.root in w.rootLock;
    if isel != jsel then isel
    else if i.id.Eq(j.id) then false
    else if ilock != jlock then ilock
    else if !ilock && VersionCount(w, i.id) != VersionCount(w, j.id) then VersionCount(w, i.id) < VersionCount(w, j.id)
    else Less(i.id, j.id)
  }

  /** The entry b is ahead of all others on the worklist. */
  ghost predicate IsNext(w: World, st: State, b: Bmi) {
    b in st.unsel && forall c :: c in st.unsel && c != b ==> Ahead(w, st.projects, b, c)
  }

  lemma OnlyIsNext(w: World, st: State, b: Bmi)
    requires st.unsel == multiset{b}
    ensures IsNext(w, st, b)
  {
  }

  lemma FirstOfTwo(w: World, st: State, b: Bmi, c: Bmi)
    requires st.unsel == multiset{b, c} && Ahead(w, st.projects, b, c)
    ensures IsNext(w, st, b)
  {
  }

  /* ----- States ----- */

  function Wanting(id: Ident, pl: set<Pkg>): Bmi { Bmi(id, pl, None, false) }

  /** The root project is selected, with one dependency. */
  function AtRoot(w: World, d: CompleteDep): State {
    State([Selected(w.RootAtom(), w.rootPackages, true)], map[d.ident.root := [Dependency(w.RootAtom(), d)]],
          map[d.ident.root := d.ident.root], multiset{Bmi(d.ident, d.pl, None, true)})
  }

  /** st with an atom selected that has one dependency, the first on its project. */
  function Chosen(st: State, a: Atom, all: set<Pkg>, d: CompleteDep, rest: multiset<Bmi>): State {
    var r := d.ident.root;
    State(st.projects + [Selected(a, all, true)], st.deps[r := [Dependency(a, d)]], st.folds[r := r],
          rest + multiset{Wanting(d.ident, d.pl)})
  }

  lemma ChosenHas(st: State, a: Atom, all: set<Pkg>, d: CompleteDep, rest: multiset<Bmi>)
    ensures var x, r := Chosen(st, a, all, d, rest), d.ident.root;
      && x.projects == st.projects + [Selected(a, all, true)] && x.folds == st.folds[r := r]
      && x.unsel == rest + multiset{Wanting(d.ident, d.pl)}
      && forall q :: Stack(x.deps, q) == if q == r then [Dependency(a, d)] else Stack(st.deps, q)
  {
  }

  /** st with an atom selected whose one dependency names nothing new. */
  function ChosenAgain(st: State, a: Atom, all: set<Pkg>, d: CompleteDep, rest: multiset<Bmi>): State {
    var r := d.ident.root;
    State(st.projects + [Selected(a, all, true)], st.deps[r := Stack(st.deps, r) + [Dependency(a, d)]], st.folds, rest)
  }

  /** st with an atom selected that has no dependency. */
  function ChosenAlone(st: State, a: Atom, all: set<Pkg>, pkgonly: bool, rest: multiset<Bmi>): State {
    State(st.projects + [Selected(a, all, !pkgonly)], st.deps, st.folds, rest)
  }

  /** st with the last atom unselected, whose one dependency was the only one on its project. */
  function Unchosen(st: State, d: CompleteDep, rest: multiset<Bmi>): State
    requires st.projects != []
  {
    var r := d.ident.root;
    State(st.projects[..|st.projects| - 1], st.deps - {r}, st.folds - {r}, rest)
  }

  /** Unselecting undoes all but the worklist. */
  lemma Undone(st: State, a: Atom, all: set<Pkg>, d: CompleteDep, rest: multiset<Bmi>, between: multiset<Bmi>,
               after: multiset<Bmi>)
    requires d.ident.root !in st.deps && d.ident.root !in st.folds
    ensures Unchosen(Chosen(st, a, all, d, rest).(unsel := between), d, after) == st.(unsel := after)
  {
    var r := d.ident.root;
    assert (st.projects + [Selected(a, all, true)])[..|st.projects|] == st.projects;
    assert st.deps[r := [Dependency(a, d)]] - {r} == st.deps;
    assert st.folds[r := r] - {r} == st.folds;
  }

  /* ----- What an atom needs ----- */

  /** Nothing is ignored, every manifest can be had, no project has a lock, and names fold to
    themselves. */
  ghost predicate Bare(w: World) {
    && (forall p :: !w.ignored(p)) && (forall s :: w.fold(s) == s)
    && (forall id, v :: w.manifest(id, v) && w.lock(id, v) == [])
    && (forall id, v, ext :: w.groups(id, v, ext))
  }

  /** The imports of an atom of which one package p imports one package r of another project. */
  lemma ReachedFrom(w: World, a: Atom, pl: set<Pkg>, p: Pkg, all: set<Pkg>, r: Root)
    requires Bare(w) && w.packages(a.id, a.v).Some?
    requires var rm := w.reach(a.id, a.v);
      && p in pl && pl <= all == rm.Keys && rm[p].internal == all - {p} && rm[p].external == {r}
      && (forall q :: q in all && q != p ==> rm[q] == Reach({}, {}))
    requires w.target(a.id, a.v, r) == At(r)
    ensures Imports(w, a, pl) ==
      Some((all, map[r := CompleteDep(w.working(a.id, a.v, r).0, w.working(a.id, a.v, r).1, {r})]))
  {
    var rm := w.reach(a.id, a.v);
    assert r in rm[p].external;
    assert Externals(w, rm, pl) == {r};
    assert forall q :: q in all && q != p ==> q in rm[p].internal;
    assert Closure(rm, pl) == all;
    GroupIs(w, a, {r}, r);
  }

  lemma GroupIs(w: World, a: Atom, ext: set<Pkg>, r: Root)
    requires ext == {r} && w.target(a.id, a.v, r) == At(r) && w.groups(a.id, a.v, ext)
    ensures GroupDeps(w, a, ext) ==
      Some(map[r := CompleteDep(w.working(a.id, a.v, r).0, w.working(a.id, a.v, r).1, {r})])
  {
    assert r in ext;
    assert Targets(w, a, ext) == {r};
    var d := DepOn(w, a, ext, r);
    assert d.pl == {r};
    assert (map q | q in Targets(w, a, ext) :: DepOn(w, a, ext, q)) == map[r := d];
  }

  /** The imports of a project of one package that imports nothing. */
  lemma ReachedAlone(w: World, a: Atom, p: Pkg)
    requires Bare(w) && w.packages(a.id, a.v).Some? && w.reach(a.id, a.v) == map[p := Reach({}, {})]
    ensures Imports(w, a, {p}) == Some(({p}, map[]))
  {
    var rm := w.reach(a.id, a.v);
    assert Externals(w, rm, {p}) == {};
    assert Closure(rm, {p}) == {p};
    assert Targets(w, a, {}) == {};
    assert GroupDeps(w, a, {}) == Some(map[]);
  }

  /* ----- The transitions ----- */

  lemma OneNewBmi(deps: map<Root, seq<Dependency>>, r: Root, d: CompleteDep)
    requires Stack(deps, r) == [] && d.pl != {}
    ensures NewBmis(deps, map[r := d], LockMap([])) == {Wanting(d.ident, d.pl)}
  {
    assert NewPackages([], d.pl) == d.pl;
    assert NewBmi([], d, LockMap([])) == Wanting(d.ident, d.pl);
    assert r in map[r := d];
  }

  lemma OneFold(w: World, st: State, r: Root, d: CompleteDep)
    requires w.fold(r) == r
    ensures Stack(st.deps, r) == [] ==> FoldsPushed(w, st, map[r := d], st.folds[r := r])
    ensures Stack(st.deps, r) != [] ==> FoldsPushed(w, st, map[r := d], st.folds)
    ensures |Stack(st.deps, r)| == 1 ==> FoldsPopped(w, st, map[r := d], st.folds - {r})
  {
    assert r in map[r := d];
  }

  lemma SelectsOne(w: World, st: State, a: Atom, pl: set<Pkg>, all: set<Pkg>, d: CompleteDep, b: Bmi,
                   rest: multiset<Bmi>)
    requires Bare(w) && Imports(w, a, pl) == Some((all, map[d.ident.root := d])) && d.ident.root != w.root
    requires Stack(st.deps, d.ident.root) == [] && d.pl != {}
    requires b in st.unsel && b.IsFor(a.id, pl) && rest == st.unsel - multiset{b}
    ensures Selects(w, st, a, pl, false, Chosen(st, a, all, d, rest))
  {
    hide Imports, FoldsPushed, NewBmis;
    var r := d.ident.root;
    var nd := map[r := d];
    assert nd - {w.root} == nd;
    OneNewBmi(st.deps, r, d);
    OneFold(w, st, r, d);
    assert RemovedOne(st.unsel, rest, a.id, pl);
    assert multiset({Wanting(d.ident, d.pl)}) == multiset{Wanting(d.ident, d.pl)};
    assert w.lock(a.id, a.v) == [];
  }

  lemma SelectsAgain(w: World, st: State, a: Atom, pl: set<Pkg>, all: set<Pkg>, d: CompleteDep, b: Bmi,
                     rest: multiset<Bmi>)
    requires Bare(w) && Imports(w, a, pl) == Some((all, map[d.ident.root := d])) && d.ident.root != w.root
    requires Stack(st.deps, d.ident.root) != [] && NewPackages(Stack(st.deps, d.ident.root), d.pl) == {}
    requires b in st.unsel && b.IsFor(a.id, pl) && rest == st.unsel - multiset{b}
    ensures Selects(w, st, a, pl, false, ChosenAgain(st, a, all, d, rest))
  {
    hide Imports, FoldsPushed, NewPackages;
    var r := d.ident.root;
    var nd := map[r := d];
    assert nd - {w.root} == nd;
    assert NewBmis(st.deps, nd, LockMap(w.lock(a.id, a.v))) == {};
    OneFold(w, st, r, d);
    assert RemovedOne(st.unsel, rest, a.id, pl);
    assert rest + multiset({}) == rest;
  }

  lemma NothingPushed(w: World, st: State, lm: map<Ident, Version>)
    ensures NewBmis(st.deps, map[], lm) == {} && FoldsPushed(w, st, map[], st.folds)
  {
  }

  lemma SelectsAlone(w: World, st: State, a: Atom, pl: set<Pkg>, all: set<Pkg>, pkgonly: bool, b: Bmi,
                     rest: multiset<Bmi>)
    requires Imports(w, a, pl) == Some((all, map[]))
    requires b in st.unsel && b.IsFor(a.id, pl) && rest == st.unsel - multiset{b}
    ensures Selects(w, st, a, pl, pkgonly, ChosenAlone(st, a, all, pkgonly, rest))
  {
    hide Imports, NewBmis, FoldsPushed, LockMap, Stack;
    var nd: map<Root, CompleteDep> := map[];
    assert nd - {w.root} == nd;
    NothingPushed(w, st, LockMap(w.lock(a.id, a.v)));
    assert RemovedOne(st.unsel, rest, a.id, pl);
    assert rest + multiset({}) == rest;
  }

  lemma UnselectsOne(w: World, st: State, s: Selected, d: CompleteDep, gone: set<Bmi>, rest: multiset<Bmi>)
    requires Bare(w) && st.projects != [] && st.projects[|st.projects| - 1] == s
    requires Imports(w, s.a, s.pl) == Some((s.pl, map[d.ident.root := d])) && d.ident.root != w.root
    requires |Stack(st.deps, d.ident.root)| == 1
    requires var r := d.ident.root;
      Dropped(st.deps - {r}, map[r := d], st.unsel + multiset{Wanting(s.a.id, s.pl)}, gone, rest)
    ensures Unselects(w, st, s, Unchosen(st, d, rest))
  {
    hide Imports, Dropped, FoldsPopped;
    var r := d.ident.root;
    var nd := map[r := d];
    assert nd - {w.root} == nd;
    OneFold(w, st, r, d);
  }

  /** The entry for the dependency that goes is on the worklist, and goes too. */
  lemma UnselectsAndDrops(w: World, st: State, s: Selected, d: CompleteDep)
    requires Bare(w) && st.projects != [] && st.projects[|st.projects| - 1] == s
    requires Imports(w, s.a, s.pl) == Some((s.pl, map[d.ident.root := d])) && d.ident.root != w.root
    requires |Stack(st.deps, d.ident.root)| == 1 && s.a.id.root != d.ident.root
    requires st.unsel == multiset{Wanting(d.ident, d.pl)}
    ensures Unselects(w, st, s, Unchosen(st, d, multiset{Wanting(s.a.id, s.pl)}))
  {
    hide Imports, Unselects, Bare;
    var r, c, b := d.ident.root, Wanting(d.ident, d.pl), Wanting(s.a.id, s.pl);
    assert Droppable(st.deps - {r}, map[r := d], c);
    assert st.unsel + multiset{b} == multiset{b} + multiset({c});
    assert c in {c};
    assert Dropped(st.deps - {r}, map[r := d], st.unsel + multiset{b}, {c}, multiset{b});
    UnselectsOne(w, st, s, d, {c}, multiset{b});
  }

  /** The entry x on the worklist is for other packages than the dependency that goes, and stays. */
  lemma UnselectsAndLeaves(w: World, st: State, s: Selected, d: CompleteDep, x: Bmi)
    requires Bare(w) && st.projects != [] && st.projects[|st.projects| - 1] == s
    requires Imports(w, s.a, s.pl) == Some((s.pl, map[d.ident.root := d])) && d.ident.root != w.root
    requires |Stack(st.deps, d.ident.root)| == 1 && s.a.id.root != d.ident.root
    requires st.unsel == multiset{x} && x.id.root == d.ident.root && x.pl != d.pl
    ensures Unselects(w, st, s, Unchosen(st, d, multiset{x, Wanting(s.a.id, s.pl)})) && !Tidy(w, st, s)
  {
    hide Imports, Unselects, Bare, Sole;
    var r, b := d.ident.root, Wanting(s.a.id, s.pl);
    assert multiset{x, b} + multiset({}) == multiset{x, b};
    assert Dropped(st.deps - {r}, map[r := d], multiset{x, b}, {}, multiset{x, b});
    UnselectsOne(w, st, s, d, {}, multiset{x, b});
    var nd := map[r := d];
    assert nd - {w.root} == nd;
    assert x in st.unsel + multiset{b} && LastGoes(st, nd, r);
    NotSole(st.unsel + multiset{b}, x, d);
  }

  lemma NotSole(all: multiset<Bmi>, b: Bmi, d: CompleteDep)
    requires b.pl != d.pl
    ensures !Sole(all, b, d)
  {
  }

  /** The state after the root project is selected is the start of a solve. */
  lemma AtRootIsStart(w: World, u: Universe, d: CompleteDep)
    requires Lawful(w) && Bounded(w, u) && Bare(w) && w.rootDeps == map[d.ident.root := d]
    ensures Inv(w, u, AtRoot(w, d)) && Clean(w, AtRoot(w, d))
    ensures AtRoot(w, d).unsel == multiset(RootBmis(w, w.rootDeps.Keys))
  {
    hide Inv, Lawful, Bounded, Clean;
    var r, st := d.ident.root, AtRoot(w, d);
    var empty := State([], map[], map[], multiset{});
    assert RootBmis(w, w.rootDeps.Keys) == {RootBmi(w, r)};
    assert multiset({RootBmi(w, r)}) == multiset{RootBmi(w, r)};
    assert Part(w.rootDeps, w.rootDeps.Keys) == w.rootDeps;
    OneFold(w, empty, r, d);
    RootIsInv(w, u, empty, st);
    InvMirrors(w, u, st);
    RootIsClean(w, st);
  }

  lemma InvMirrors(w: World, u: Universe, st: State)
    requires Inv(w, u, st)
    ensures Mirrored(w, st)
  {
  }

  /* ----- The checks ----- */

  /** The checks of an atom with one dependency. */
  lemma ChecksOne(w: World, st: State, a: Atom, pl: set<Pkg>, all: set<Pkg>, r: Root, d: CompleteDep)
    requires Imports(w, a, pl) == Some((all, map[r := d]))
    ensures CheckOk(w, st, a, pl, false) <==>
      && AtomAllowable(w, Stack(st.deps, a.id.root), a)
      && RequiredPackagesExist(w, Stack(st.deps, a.id.root), a)
      && DepOk(w, st, d)
  {
    hide Imports, AtomAllowable, RequiredPackagesExist, DepOk;
    var ds := map[r := d];
    assert r in ds && ds[r] == d;
  }

  /** The checks of an atom without dependencies. */
  lemma AloneIsOk(w: World, st: State, a: Atom, pl: set<Pkg>, all: set<Pkg>, pkgonly: bool)
    requires Imports(w, a, pl) == Some((all, map[]))
    requires pkgonly || AtomAllowable(w, Stack(st.deps, a.id.root), a)
    requires RequiredPackagesExist(w, Stack(st.deps, a.id.root), a)
    ensures CheckOk(w, st, a, pl, pkgonly)
  {
    hide Imports, AtomAllowable, RequiredPackagesExist, DepOk;
  }

  lemma NothingChecks(w: World, st: State, a: Atom, pl: set<Pkg>)
    requires Imports(w, a, pl).None?
    ensures !CheckOk(w, st, a, pl, false)
  {
  }

  /** An atom that its one edge admits, whatever the version. */
  lemma AnyIsAllowed(w: World, es: seq<Dependency>, a: Atom, e: Dependency)
    requires es == [e] && e.dep.c == AnyC && w.packages(a.id, a.v).Some?
    requires forall p :: p in e.dep.pl ==> HasPackage(w, a, p)
    ensures AtomAllowable(w, es, a) && RequiredPackagesExist(w, es, a)
  {
    hide HasPackage;
    assert Constraints([e]) == [AnyC];
    assert Composite(w.lib, w.versions(a.id), AnyC, [AnyC]) == AnyC;
  }

  /** An atom that its one edge admits, with a dependency that is the first on its project. */
  lemma FirstDepIsOk(w: World, st: State, a: Atom, pl: set<Pkg>, all: set<Pkg>, e: Dependency, d: CompleteDep)
    requires Imports(w, a, pl) == Some((all, map[d.ident.root := d]))
    requires Stack(st.deps, a.id.root) == [e] && e.dep.c == AnyC
    requires w.packages(a.id, a.v).Some? && forall p :: p in e.dep.pl ==> HasPackage(w, a, p)
    requires Stack(st.deps, d.ident.root) == [] && w.fold(d.ident.root) !in st.folds && (d.c.AnyC? || d.c.Range?)
    requires forall s :: s in st.projects ==> s.a.id.root != d.ident.root
    ensures CheckOk(w, st, a, pl, false)
  {
    hide HasPackage, CheckOk, Imports, AtomAllowable, RequiredPackagesExist;
    AnyIsAllowed(w, [e], a, e);
    assert Constraints([]) == [];
    SelectedForIs(st.projects, d.ident.root);
    ChecksOne(w, st, a, pl, all, d.ident.root, d);
  }
}
