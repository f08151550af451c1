/** The state of a solve as plain values: the selection stack, the edges on it, and the
  worklist; the two transitions between states; and what every transition keeps.
  Module Solver runs the source's algorithm and ties each step to a transition here. */
module SolverState {
  import opened Versions
  import opened Unifier
  import opened World

  /** An entry of the selection stack: an atom with some of its packages.  `first` tells
    the selection of a project from a later addition of packages to it. */
  datatype Selected = Selected(a: Atom, pl: set<Pkg>, first: bool)

  /** An entry of the worklist of unselected packages. */
  datatype Bmi = Bmi(id: Ident, pl: set<Pkg>, prefv: Option<Version>, fromRoot: bool) {
    predicate IsFor(i: Ident, l: set<Pkg>) {
      id.Eq(i) && pl == l
    }
  }

  datatype State = State(
    projects: seq<Selected>,
    deps: map<Root, seq<Dependency>>,
    folds: map<string, Root>,
    unsel: multiset<Bmi>)

  /* ----- Reading the selection stack ----- */

  /** The dependencies an entry brings. */
  function EdgesOf(w: World, s: Selected): map<Root, CompleteDep> {
    if s.a.id.root == w.root then w.rootDeps
    else
      match Imports(w, s.a, s.pl)
      case None => map[]
      case Some((_, ds)) => ds - {w.root}
  }

  function EdgeFrom(w: World, s: Selected, r: Root): seq<Dependency> {
    var ds := EdgesOf(w, s);
    if r in ds then [Dependency(s.a, ds[r])] else []
  }

  /** The live edges on project r, oldest first. */
  function EdgesOn(w: World, ps: seq<Selected>, r: Root): seq<Dependency> {
    if ps == [] then [] else EdgesOn(w, ps[..|ps| - 1], r) + EdgeFrom(w, ps[|ps| - 1], r)
  }

  /** The entry at which project r was selected. */
  function SelectedFor(ps: seq<Selected>, r: Root): Option<Selected> {
    if ps == [] then None
    else
      var s := SelectedFor(ps[..|ps| - 1], r);
      if s.Some? then s
      else if ps[|ps| - 1].a.id.root == r then Some(ps[|ps| - 1]) else None
  }

  /** The atoms of the entries that selected a project, other than the root project. */
  function FirstAtoms(w: World, ps: seq<Selected>): seq<Atom> {
    if ps == [] then []
    else
      var s := ps[|ps| - 1];
      FirstAtoms(w, ps[..|ps| - 1]) + if s.first && s.a.id.root != w.root then [s.a] else []
  }

  function Stack(deps: map<Root, seq<Dependency>>, r: Root): seq<Dependency> {
    if r in deps then deps[r] else []
  }

  function Constraints(es: seq<Dependency>): seq<Constraint> {
    seq(|es|, i requires 0 <= i < |es| => es[i].dep.c)
  }

  /** The composite constraint of the edges es. */
  function CompositeOf(w: World, id: Ident, es: seq<Dependency>): Constraint {
    Composite(w.lib, w.versions(id), AnyC, Constraints(es))
  }

  predicate HasPackage(w: World, a: Atom, p: Pkg) {
    var pt := w.packages(a.id, a.v);
    pt.Some? && p in pt.value && !pt.value[p]
  }

  /* ----- The satisfiability checks ----- */

  predicate AtomAllowable(w: World, es: seq<Dependency>, a: Atom) {
    UMatches(w.lib, w.versions(a.id), CompositeOf(w, a.id, es), a.v)
  }

  predicate RequiredPackagesExist(w: World, es: seq<Dependency>, a: Atom) {
    w.packages(a.id, a.v).Some? && forall e, p :: e in es && p in e.dep.pl ==> HasPackage(w, a, p)
  }

  predicate IdentMatches(es: seq<Dependency>, d: CompleteDep) {
    es != [] ==> es[0].dep.ident.Equiv(d.ident)
  }

  predicate NoCaseConflict(w: World, folds: map<string, Root>, d: CompleteDep) {
    w.fold(d.ident.root) in folds ==> folds[w.fold(d.ident.root)] == d.ident.root
  }

  predicate ConstraintAllowable(w: World, es: seq<Dependency>, d: CompleteDep) {
    UMatchesAny(w.lib, w.versions(d.ident), CompositeOf(w, d.ident, es), d.c)
  }

  predicate SelectedAllowed(w: World, sel: Option<Selected>, d: CompleteDep) {
    sel.Some? ==> UMatches(w.lib, w.versions(d.ident), d.c, sel.value.a.v)
  }

  predicate RevisionExists(w: World, d: CompleteDep) {
    d.c.Ver? && d.c.v.Revision? ==> w.revisionIn(d.ident, d.c.v.r)
  }

  predicate SelectedHasPackages(w: World, sel: Option<Selected>, d: CompleteDep) {
    sel.Some? ==>
      w.packages(sel.value.a.id, sel.value.a.v).Some? && forall p :: p in d.pl ==> HasPackage(w, sel.value.a, p)
  }

  /** The six checks of one dependency, against the current selection. */
  predicate DepOk(w: World, st: State, d: CompleteDep) {
    var es, sel := Stack(st.deps, d.ident.root), SelectedFor(st.projects, d.ident.root);
    && IdentMatches(es, d)
    && NoCaseConflict(w, st.folds, d)
    && ConstraintAllowable(w, es, d)
    && SelectedAllowed(w, sel, d)
    && RevisionExists(w, d)
    && SelectedHasPackages(w, sel, d)
  }

  /** The verdict of `check`. */
  predicate CheckOk(w: World, st: State, a: Atom, pl: set<Pkg>, pkgonly: bool) {
    && (pkgonly || AtomAllowable(w, Stack(st.deps, a.id.root), a))
    && RequiredPackagesExist(w, Stack(st.deps, a.id.root), a)
    && Imports(w, a, pl).Some?
    && forall r :: r in Imports(w, a, pl).value.1 ==> DepOk(w, st, Imports(w, a, pl).value.1[r])
  }

  /* ----- The transitions ----- */

  predicate Names(es: seq<Dependency>, p: Pkg) {
    exists i :: 0 <= i < |es| && p in es[i].dep.pl
  }

  /** The packages of pl that no edge of es names. */
  function NewPackages(es: seq<Dependency>, pl: set<Pkg>): set<Pkg> {
    set p | p in pl && !Names(es, p)
  }

  function FirstIdent(es: seq<Dependency>, d: CompleteDep): Ident {
    if es == [] then d.ident else es[0].dep.ident
  }

  function LockMap(l: seq<(Ident, Version)>): map<Ident, Version> {
    if l == [] then map[] else LockMap(l[..|l| - 1])[l[|l| - 1].0 := l[|l| - 1].1]
  }

  function NewBmi(es: seq<Dependency>, d: CompleteDep, lm: map<Ident, Version>): Bmi {
    Bmi(FirstIdent(es, d), NewPackages(es, d.pl), if d.ident in lm then Some(lm[d.ident]) else None, false)
  }

  /** The worklist entries that the dependencies nd induce. */
  function NewBmis(deps: map<Root, seq<Dependency>>, nd: map<Root, CompleteDep>, lm: map<Ident, Version>): set<Bmi> {
    set r | r in nd && NewPackages(Stack(deps, r), nd[r].pl) != {} :: NewBmi(Stack(deps, r), nd[r], lm)
  }

  /** u without one entry for (id, pl), if it has one. */
  ghost predicate RemovedOne(u: multiset<Bmi>, u': multiset<Bmi>, id: Ident, pl: set<Pkg>) {
    || (u' == u && forall b :: b in u ==> !b.IsFor(id, pl))
    || (exists b :: b in u && b.IsFor(id, pl) && u' == u - multiset{b})
  }

  /** st' is st after `selectAtom` of a with packages pl. */
  ghost predicate Selects(w: World, st: State, a: Atom, pl: set<Pkg>, pkgonly: bool, st': State) {
    && Imports(w, a, pl).Some?
    && var (cl, ds) := Imports(w, a, pl).value;
    && var nd := ds - {w.root};
    && st'.projects == st.projects + [Selected(a, cl, !pkgonly)]
    && (forall r :: Stack(st'.deps, r) == Stack(st.deps, r) + if r in nd then [Dependency(a, nd[r])] else [])
    && FoldsPushed(w, st, nd, st'.folds)
    && exists u :: RemovedOne(st.unsel, u, a.id, pl)
         && st'.unsel == u + multiset(NewBmis(st.deps, nd, LockMap(w.lock(a.id, a.v))))
  }

  /** The case-fold map after the dependencies nd were pushed. */
  ghost predicate FoldsPushed(w: World, st: State, nd: map<Root, CompleteDep>, folds: map<string, Root>) {
    forall f ::
      if exists r :: r in nd && Stack(st.deps, r) == [] && w.fold(r) == f
      then f in folds && folds[f] in nd && Stack(st.deps, folds[f]) == [] && w.fold(folds[f]) == f
      else (f in folds <==> f in st.folds) && (f in folds ==> folds[f] == st.folds[f])
  }

  /** st' is st after `unselectLast`, which returned the entry s. */
  ghost predicate Unselects(w: World, st: State, s: Selected, st': State) {
    && st.projects == st'.projects + [s]
    && Imports(w, s.a, s.pl).Some?
    && var nd := Imports(w, s.a, s.pl).value.1 - {w.root};
    && (forall r :: r in nd ==> Stack(st.deps, r) != [])
    && (forall r :: Stack(st'.deps, r) ==
          if r in nd then Stack(st.deps, r)[..|Stack(st.deps, r)| - 1] else Stack(st.deps, r))
    && FoldsPopped(w, st, nd, st'.folds)
    && exists gone :: Dropped(st'.deps, nd, st.unsel + multiset{Bmi(s.a.id, s.pl, None, false)}, gone, st'.unsel)
  }

  ghost predicate FoldsPopped(w: World, st: State, nd: map<Root, CompleteDep>, folds: map<string, Root>) {
    forall f ::
      if exists r :: r in nd && |Stack(st.deps, r)| == 1 && w.fold(r) == f
      then f !in folds
      else (f in folds <==> f in st.folds) && (f in folds ==> folds[f] == st.folds[f])
  }

  /** A worklist entry for exactly the packages of a dependency whose last edge is gone. */
  predicate Droppable(deps: map<Root, seq<Dependency>>, nd: map<Root, CompleteDep>, b: Bmi) {
    var r := b.id.root;
    r in nd && Stack(deps, r) == [] && b.IsFor(nd[r].ident, nd[r].pl)
  }

  predicate ForProject(bs: set<Bmi>, r: Root) {
    exists b :: b in bs && b.id.root == r
  }

  /** u' is u less the entries gone: one per project that has a droppable entry. */
  ghost predicate Dropped(deps: map<Root, seq<Dependency>>, nd: map<Root, CompleteDep>,
                          u: multiset<Bmi>, gone: set<Bmi>, u': multiset<Bmi>) {
    && (forall b :: b in gone ==> Droppable(deps, nd, b))
    && (forall b, c :: b in gone && c in gone && b.id.root == c.id.root ==> b == c)
    && (forall c :: c in u && Droppable(deps, nd, c) ==> ForProject(gone, c.id.root))
    && u == u' + multiset(gone)
  }
}
