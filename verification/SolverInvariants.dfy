/** What every state of a solve satisfies, and why each transition keeps it. */
module SolverInvariants {
  import opened Versions
  import opened Unifier
  import opened World
  import opened SolverState

  /* ----- The invariants ----- */

  /** The root project is at the bottom and nowhere else; every other entry lists all the
    packages that its packages reach inside the project. */
  ghost predicate Grounded(w: World, u: Universe, ps: seq<Selected>) {
    && ps != [] && ps[0].a == w.RootAtom() && ps[0].first
    && (forall i :: 1 <= i < |ps| ==> EntryOk(w, u, ps[i]))
  }

  ghost predicate EntryOk(w: World, u: Universe, s: Selected) {
    && s.a.id.root != w.root && s.a.id.root in u.roots
    && Imports(w, s.a, s.pl).Some? && Imports(w, s.a, s.pl).value.0 == s.pl
  }

  /** The edge stacks hold exactly the edges of the selected entries, in order. */
  ghost predicate Mirrored(w: World, st: State) {
    forall r :: Stack(st.deps, r) == EdgesOn(w, st.projects, r)
  }

  /** An entry is the first of its project, or adds packages to the version selected. */
  ghost predicate OneVersion(ps: seq<Selected>) {
    forall i :: 0 <= i < |ps| ==> Placed(ps[..i], ps[i])
  }

  ghost predicate Placed(ps: seq<Selected>, s: Selected) {
    match SelectedFor(ps, s.a.id.root)
    case None => s.first
    case Some(t) => !s.first && t.a.v == s.a.v
  }

  /** The selected version satisfies the edge: it matches the constraint, through the version
    list of the selected project or of the identifier the edge names, and it has every
    package the edge names, without error. */
  ghost predicate EdgeOk(w: World, e: Dependency, a: Atom) {
    && (UMatches(w.lib, w.versions(a.id), e.dep.c, a.v) || UMatches(w.lib, w.versions(e.dep.ident), e.dep.c, a.v))
    && (forall p :: p in e.dep.pl ==> HasPackage(w, a, p))
  }

  /** Every live edge agrees with the first one on the source, and with the version selected. */
  ghost predicate Safe(w: World, ps: seq<Selected>) {
    forall r, e :: e in EdgesOn(w, ps, r) ==>
      && e.dep.ident.root == r && Declared(e.dep.c) && e.dep.pl != {}
      && EdgesOn(w, ps, r)[0].dep.ident.Equiv(e.dep.ident)
      && (SelectedFor(ps, r).Some? ==> EdgeOk(w, e, SelectedFor(ps, r).value.a))
  }

  predicate AsksRevision(c: Constraint) {
    c.Ver? && c.v.Revision?
  }

  /** A revision that an edge asks for is in the source.  The edges of the root project are not
    checked for this. */
  ghost predicate Existing(w: World, ps: seq<Selected>) {
    forall r, e :: e in EdgesOn(w, ps, r) && e.depender.id.root != w.root && AsksRevision(e.dep.c) ==>
      w.revisionIn(e.dep.ident, e.dep.c.v.r)
  }

  /** Package p of project r is selected, or waits in the worklist. */
  ghost predicate Covers(ps: seq<Selected>, unsel: multiset<Bmi>, r: Root, p: Pkg) {
    || (exists i :: 0 <= i < |ps| && ps[i].a.id.root == r && p in ps[i].pl)
    || (exists b :: b in unsel && b.id.root == r && p in b.pl)
  }

  ghost predicate Covered(w: World, st: State) {
    forall r, e, p :: e in EdgesOn(w, st.projects, r) && p in e.dep.pl ==> Covers(st.projects, st.unsel, r, p)
  }

  ghost predicate Queued(w: World, u: Universe, unsel: multiset<Bmi>) {
    forall b :: b in unsel ==> b.id.root != w.root && b.id.root in u.roots
  }

  /** The entry that brought the first live edge on project r. */
  function Bringer(w: World, ps: seq<Selected>, r: Root): Option<nat> {
    if ps == [] then None
    else
      var b := Bringer(w, ps[..|ps| - 1], r);
      if b.Some? then b else if r in EdgesOf(w, ps[|ps| - 1]) then Some(|ps| - 1) else None
  }

  /** The case-fold map has an entry for exactly the folds of the projects with a live edge.
    It names one of them, brought by the same entry as any other with that fold. */
  ghost predicate Folded(w: World, ps: seq<Selected>, folds: map<string, Root>) {
    FoldedBy(w, folds, r => Bringer(w, ps, r))
  }

  ghost predicate FoldedBy(w: World, folds: map<string, Root>, b: Root -> Option<nat>) {
    && (forall f :: f in folds ==> w.fold(folds[f]) == f && b(folds[f]).Some?)
    && (forall r :: b(r).Some? ==> w.fold(r) in folds && b(folds[w.fold(r)]) == b(r))
  }

  ghost predicate Inv(w: World, u: Universe, st: State) {
    && Grounded(w, u, st.projects)
    && OneVersion(st.projects)
    && Mirrored(w, st)
    && Safe(w, st.projects)
    && Existing(w, st.projects)
    && Covered(w, st)
    && Queued(w, u, st.unsel)
    && Folded(w, st.projects, st.folds)
  }

  /* ----- Pushing an entry ----- */

  lemma Push(w: World, ps: seq<Selected>, s: Selected, r: Root)
    ensures EdgesOn(w, ps + [s], r) == EdgesOn(w, ps, r) + EdgeFrom(w, s, r)
    ensures SelectedFor(ps + [s], r) ==
      if SelectedFor(ps, r).Some? then SelectedFor(ps, r) else if s.a.id.root == r then Some(s) else None
    ensures FirstAtoms(w, ps + [s]) == FirstAtoms(w, ps) + if s.first && s.a.id.root != w.root then [s.a] else []
  {
    assert (ps + [s])[..|ps|] == ps;
  }

  /** The entry found for a project is on the stack, and is the first one for it. */
  lemma {:induction false} SelectedForIs(ps: seq<Selected>, r: Root)
    ensures SelectedFor(ps, r).Some? ==> SelectedFor(ps, r).value in ps && SelectedFor(ps, r).value.a.id.root == r
    ensures SelectedFor(ps, r).None? ==> forall s :: s in ps ==> s.a.id.root != r
  {
    if ps != [] { SelectedForIs(ps[..|ps| - 1], r); }
  }

  lemma {:induction false} SelectedForPrefix(ps: seq<Selected>, r: Root, n: nat)
    requires n <= |ps| && SelectedFor(ps[..n], r).Some?
    ensures SelectedFor(ps, r) == SelectedFor(ps[..n], r)
  {
    if n < |ps| {
      assert ps[..|ps| - 1][..n] == ps[..n];
      SelectedForPrefix(ps[..|ps| - 1], r, n);
    } else {
      assert ps[..n] == ps;
    }
  }

  /** The new entry that `selectAtom` pushes. */
  function Pushed(w: World, a: Atom, pl: set<Pkg>, pkgonly: bool): Selected
    requires Imports(w, a, pl).Some?
  {
    Selected(a, Imports(w, a, pl).value.0, !pkgonly)
  }

  lemma PushedEdges(w: World, a: Atom, pl: set<Pkg>, pkgonly: bool)
    requires Lawful(w) && Imports(w, a, pl).Some? && a.id.root != w.root
    ensures EdgesOf(w, Pushed(w, a, pl, pkgonly)) == Imports(w, a, pl).value.1 - {w.root}
    ensures Imports(w, a, Pushed(w, a, pl, pkgonly).pl) == Imports(w, a, pl)
    ensures pl <= Pushed(w, a, pl, pkgonly).pl
    ensures var ds := Imports(w, a, pl).value.1;
      a.id.root !in ds && forall r :: r in ds ==> DepLaws(ds[r], r)
  {
    ImportsOfClosure(w, a, pl);
    DepsAreLawful(w, a, pl);
  }

  /** A project may be selected when it is not, and given more packages when it is. */
  predicate Fits(w: World, st: State, a: Atom, pkgonly: bool) {
    && a.id.root != w.root
    && match SelectedFor(st.projects, a.id.root)
       case None => !pkgonly
       case Some(s) => pkgonly && s.a.v == a.v
  }

  lemma PushKeepsPlaces(ps: seq<Selected>, s: Selected)
    requires OneVersion(ps) && Placed(ps, s)
    ensures OneVersion(ps + [s])
  {
    var qs := ps + [s];
    forall i | 0 <= i < |qs|
      ensures Placed(qs[..i], qs[i])
    {
      assert qs[..i] == ps[..i];
      assert ps[..|ps|] == ps;
    }
  }

  lemma PushKeepsStructure(w: World, u: Universe, st: State, a: Atom, pl: set<Pkg>, pkgonly: bool, st': State)
    requires Lawful(w) && Inv(w, u, st) && Fits(w, st, a, pkgonly) && a.id.root in u.roots
    requires Selects(w, st, a, pl, pkgonly, st')
    ensures Grounded(w, u, st'.projects) && OneVersion(st'.projects) && Mirrored(w, st')
  {
    var s := Pushed(w, a, pl, pkgonly);
    PushedEdges(w, a, pl, pkgonly);
    assert EntryOk(w, u, s);
    PushKeepsPlaces(st.projects, s);
    forall r
      ensures Stack(st'.deps, r) == EdgesOn(w, st'.projects, r)
    {
      Push(w, st.projects, s, r);
    }
  }

  /* ----- Safety is kept ----- */

  /** A version that passes `checkAtomAllowable` matches each of the constraints. */
  lemma AllowableMatchesEach(w: World, es: seq<Dependency>, a: Atom, e: Dependency)
    requires Lawful(w) && AtomAllowable(w, es, a) && e in es
    requires forall d :: d in es ==> Declared(d.dep.c)
    ensures UMatches(w.lib, w.versions(a.id), e.dep.c, a.v)
  {
    var cs := Constraints(es);
    assert forall c :: c in cs ==> Declared(c);
    CompositeIsSound(w.lib, w.versions(a.id), AnyC, cs, a.v);
    var i :| 0 <= i < |es| && es[i] == e;
    assert cs[i] in cs;
  }

  lemma PushKeepsSafe(w: World, u: Universe, st: State, a: Atom, pl: set<Pkg>, pkgonly: bool, st': State)
    requires Lawful(w) && Inv(w, u, st) && Fits(w, st, a, pkgonly)
    requires CheckOk(w, st, a, pl, pkgonly) && Selects(w, st, a, pl, pkgonly, st')
    ensures Safe(w, st'.projects)
  {
    var s := Pushed(w, a, pl, pkgonly);
    PushedEdges(w, a, pl, pkgonly);
    assert st'.projects == st.projects + [s];
    forall r, e | e in EdgesOn(w, st'.projects, r)
      ensures e.dep.ident.root == r && Declared(e.dep.c) && e.dep.pl != {}
      ensures EdgesOn(w, st'.projects, r)[0].dep.ident.Equiv(e.dep.ident)
      ensures SelectedFor(st'.projects, r).Some? ==> EdgeOk(w, e, SelectedFor(st'.projects, r).value.a)
    {
      Push(w, st.projects, s, r);
      if e in EdgesOn(w, st.projects, r) {
        if SelectedFor(st.projects, r).None? && a.id.root == r {
          OldEdgeOk(w, st, a, e);
        }
      } else {
        NewEdgeOk(w, st, a, pl, r);
      }
    }
  }

  lemma PushKeepsExisting(w: World, u: Universe, st: State, a: Atom, pl: set<Pkg>, pkgonly: bool, st': State)
    requires Lawful(w) && Existing(w, st.projects) && a.id.root != w.root
    requires CheckOk(w, st, a, pl, pkgonly) && Selects(w, st, a, pl, pkgonly, st')
    ensures Existing(w, st'.projects)
  {
    hide CheckOk, Lawful, Imports, EdgesOf, EdgesOn, FoldsPushed, NewBmis;
    var s := Pushed(w, a, pl, pkgonly);
    PushedEdges(w, a, pl, pkgonly);
    assert st'.projects == st.projects + [s];
    forall r, e | e in EdgesOn(w, st'.projects, r) && e.depender.id.root != w.root && AsksRevision(e.dep.c)
      ensures w.revisionIn(e.dep.ident, e.dep.c.v.r)
    {
      Push(w, st.projects, s, r);
      if e !in EdgesOn(w, st.projects, r) { CheckedRevisionsExist(w, st, a, pl, pkgonly, r); }
    }
  }

  /** The checks pass only if every dependency that asks for a revision has it in its source. */
  lemma CheckedRevisionsExist(w: World, st: State, a: Atom, pl: set<Pkg>, pkgonly: bool, r: Root)
    requires CheckOk(w, st, a, pl, pkgonly) && r in Imports(w, a, pl).value.1
    ensures var d := Imports(w, a, pl).value.1[r]; AsksRevision(d.c) ==> w.revisionIn(d.ident, d.c.v.r)
  {
    assert DepOk(w, st, Imports(w, a, pl).value.1[r]);
  }

  /** With all else in order they fail only for a revision that is not there. */
  lemma RevisionsDecide(w: World, st: State, a: Atom, pl: set<Pkg>, pkgonly: bool)
    requires pkgonly || AtomAllowable(w, Stack(st.deps, a.id.root), a)
    requires RequiredPackagesExist(w, Stack(st.deps, a.id.root), a) && Imports(w, a, pl).Some?
    requires var ds := Imports(w, a, pl).value.1;
      forall r :: r in ds ==>
        var es, sel := Stack(st.deps, ds[r].ident.root), SelectedFor(st.projects, ds[r].ident.root);
        && IdentMatches(es, ds[r]) && NoCaseConflict(w, st.folds, ds[r]) && ConstraintAllowable(w, es, ds[r])
        && SelectedAllowed(w, sel, ds[r]) && SelectedHasPackages(w, sel, ds[r])
    ensures var ds := Imports(w, a, pl).value.1;
      CheckOk(w, st, a, pl, pkgonly) <==>
        forall r :: r in ds && AsksRevision(ds[r].c) ==> w.revisionIn(ds[r].ident, ds[r].c.v.r)
  {
    hide Imports, AtomAllowable, RequiredPackagesExist;
    hide IdentMatches, NoCaseConflict, ConstraintAllowable, SelectedAllowed, SelectedHasPackages;
    var ds := Imports(w, a, pl).value.1;
    forall r | r in ds
      ensures DepOk(w, st, ds[r]) <==> (AsksRevision(ds[r].c) ==> w.revisionIn(ds[r].ident, ds[r].c.v.r))
    {
    }
  }

  /** A refused atom has a reason: it breaks what the edges on it ask for, its imports cannot be had,
    or a dependency disagrees on the source, differs in case from a project with a live edge, is
    disjoint from what others ask for, rules out the selected version or a package of it, or asks
    for a revision that is not there. */
  lemma RefusalHasReason(w: World, st: State, a: Atom, pl: set<Pkg>, pkgonly: bool)
    requires !CheckOk(w, st, a, pl, pkgonly)
    ensures var es := Stack(st.deps, a.id.root);
      || (!pkgonly && !UMatches(w.lib, w.versions(a.id), CompositeOf(w, a.id, es), a.v))
      || w.packages(a.id, a.v).None? || (exists e, p :: e in es && p in e.dep.pl && !HasPackage(w, a, p))
      || Imports(w, a, pl).None?
      || exists r :: r in Imports(w, a, pl).value.1 && DepHasReason(w, st, Imports(w, a, pl).value.1[r])
  {
    hide Imports, CompositeOf, UMatches, HasPackage;
    if Imports(w, a, pl).Some? && (pkgonly || AtomAllowable(w, Stack(st.deps, a.id.root), a))
      && RequiredPackagesExist(w, Stack(st.deps, a.id.root), a) {
      var ds := Imports(w, a, pl).value.1;
      var r :| r in ds && !DepOk(w, st, ds[r]);
      DepReason(w, st, ds[r]);
    }
  }

  ghost predicate DepHasReason(w: World, st: State, d: CompleteDep) {
    var es, sel := Stack(st.deps, d.ident.root), SelectedFor(st.projects, d.ident.root);
    || (es != [] && !es[0].dep.ident.Equiv(d.ident))
    || (w.fold(d.ident.root) in st.folds && st.folds[w.fold(d.ident.root)] != d.ident.root)
    || !UMatchesAny(w.lib, w.versions(d.ident), CompositeOf(w, d.ident, es), d.c)
    || (sel.Some? && !UMatches(w.lib, w.versions(d.ident), d.c, sel.value.a.v))
    || (sel.Some? && (w.packages(sel.value.a.id, sel.value.a.v).None?
          || exists p :: p in d.pl && !HasPackage(w, sel.value.a, p)))
    || (AsksRevision(d.c) && !w.revisionIn(d.ident, d.c.v.r))
  }

  lemma DepReason(w: World, st: State, d: CompleteDep)
    requires !DepOk(w, st, d)
    ensures DepHasReason(w, st, d)
  {
    hide UMatches, UMatchesAny, CompositeOf, HasPackage;
  }

  /** After a checked selection what is asked of a project can still be met: through the version list
    of the new edge's identifier the composite constraint is not empty, unless the new one is. */
  lemma ChecksKeepOverlap(w: World, st: State, a: Atom, pl: set<Pkg>, pkgonly: bool, st': State, r: Root)
    requires Lawful(w) && CheckOk(w, st, a, pl, pkgonly) && Selects(w, st, a, pl, pkgonly, st')
    requires r in Imports(w, a, pl).value.1 && r != w.root
    ensures var d := Imports(w, a, pl).value.1[r];
      CompositeOf(w, d.ident, Stack(st'.deps, r)) != NoneC || d.c == NoneC
  {
    DepsAreLawful(w, a, pl);
    hide Lawful, Imports, FoldsPushed, NewBmis;
    var d, es := Imports(w, a, pl).value.1[r], Stack(st.deps, r);
    assert DepOk(w, st, d) && d.ident.root == r;
    assert Stack(st'.deps, r) == es + [Dependency(a, d)];
    LibIsLawful(w);
    UMatchesAnyIsUIntersect(w.lib, w.versions(d.ident), CompositeOf(w, d.ident, es), d.c);
    CompositeOfMore(w, d.ident, es, Dependency(a, d));
  }

  lemma LibIsLawful(w: World)
    requires Lawful(w)
    ensures w.lib.OverlapLaws()
  {
  }

  lemma CompositeOfMore(w: World, id: Ident, es: seq<Dependency>, e: Dependency)
    ensures CompositeOf(w, id, es + [e]) == UIntersect(w.lib, w.versions(id), CompositeOf(w, id, es), e.dep.c)
  {
    assert Constraints(es + [e]) == Constraints(es) + [e.dep.c];
    CompositeOfParts(w.lib, w.versions(id), AnyC, Constraints(es), e.dep.c);
  }

  lemma {:induction false} CompositeOfParts(lib: Semver, l: VersionList, acc: Constraint, cs: seq<Constraint>,
                                            c: Constraint)
    ensures Composite(lib, l, acc, cs + [c]) == UIntersect(lib, l, Composite(lib, l, acc, cs), c)
    decreases |cs|
  {
    hide UIntersect;
    if cs == [] {
      assert (cs + [c])[1..] == [];
    } else {
      assert (cs + [c])[1..] == cs[1..] + [c];
      CompositeOfParts(lib, l, UIntersect(lib, l, acc, cs[0]), cs[1..], c);
    }
  }

  /** An edge that was there when its project is selected. */
  lemma OldEdgeOk(w: World, st: State, a: Atom, e: Dependency)
    requires Lawful(w) && Mirrored(w, st) && Safe(w, st.projects)
    requires AtomAllowable(w, Stack(st.deps, a.id.root), a) && RequiredPackagesExist(w, Stack(st.deps, a.id.root), a)
    requires e in EdgesOn(w, st.projects, a.id.root)
    ensures EdgeOk(w, e, a)
  {
    AllowableMatchesEach(w, Stack(st.deps, a.id.root), a, e);
  }

  /** An edge pushed on a project that is selected already, or not yet. */
  lemma NewEdgeOk(w: World, st: State, a: Atom, pl: set<Pkg>, r: Root)
    requires Lawful(w) && Mirrored(w, st) && CheckOkForDeps(w, st, a, pl)
    requires a.id.root != w.root && r in Imports(w, a, pl).value.1
    ensures var d := Imports(w, a, pl).value.1[r];
      && DepLaws(d, r) && r != a.id.root
      && (EdgesOn(w, st.projects, r) != [] ==> EdgesOn(w, st.projects, r)[0].dep.ident.Equiv(d.ident))
      && (SelectedFor(st.projects, r).Some? ==> EdgeOk(w, Dependency(a, d), SelectedFor(st.projects, r).value.a))
  {
    DepsAreLawful(w, a, pl);
    assert DepOk(w, st, Imports(w, a, pl).value.1[r]);
  }

  predicate CheckOkForDeps(w: World, st: State, a: Atom, pl: set<Pkg>) {
    Imports(w, a, pl).Some? && forall r :: r in Imports(w, a, pl).value.1 ==> DepOk(w, st, Imports(w, a, pl).value.1[r])
  }

  /* ----- Coverage is kept ----- */

  lemma NamesIs(es: seq<Dependency>, p: Pkg)
    ensures Names(es, p) <==> exists e :: e in es && p in e.dep.pl
  {
    if Names(es, p) {
      var i :| 0 <= i < |es| && p in es[i].dep.pl;
      assert es[i] in es;
    }
  }

  /** What was covered stays covered: the entry taken off the worklist is now selected. */
  lemma PushKeepsCovers(w: World, st: State, a: Atom, pl: set<Pkg>, pkgonly: bool, st': State, r: Root, p: Pkg)
    requires Lawful(w) && a.id.root != w.root && Selects(w, st, a, pl, pkgonly, st')
    requires Covers(st.projects, st.unsel, r, p)
    ensures Covers(st'.projects, st'.unsel, r, p)
  {
    hide Imports, Lawful, NewBmis, FoldsPushed, LockMap;
    var s := Pushed(w, a, pl, pkgonly);
    PushedEdges(w, a, pl, pkgonly);
    assert st'.projects == st.projects + [s];
    assert st'.projects[|st.projects|] == s;
    if i :| 0 <= i < |st.projects| && st.projects[i].a.id.root == r && p in st.projects[i].pl {
      assert st'.projects[i] == st.projects[i];
    } else {
      var b :| b in st.unsel && b.id.root == r && p in b.pl;
      var added := NewBmis(st.deps, Imports(w, a, pl).value.1 - {w.root}, LockMap(w.lock(a.id, a.v)));
      var rest :| RemovedOne(st.unsel, rest, a.id, pl) && st'.unsel == rest + multiset(added);
      if b !in st'.unsel {
        assert b.IsFor(a.id, pl);
      }
    }
  }

  lemma PushKeepsCovered(w: World, u: Universe, st: State, a: Atom, pl: set<Pkg>, pkgonly: bool, st': State)
    requires Lawful(w) && Inv(w, u, st) && a.id.root != w.root
    requires Selects(w, st, a, pl, pkgonly, st')
    ensures Covered(w, st')
  {
    var s := Pushed(w, a, pl, pkgonly);
    PushedEdges(w, a, pl, pkgonly);
    assert st'.projects == st.projects + [s];
    forall r, e, p | e in EdgesOn(w, st'.projects, r) && p in e.dep.pl
      ensures Covers(st'.projects, st'.unsel, r, p)
    {
      Push(w, st.projects, s, r);
      NamesIs(EdgesOn(w, st.projects, r), p);
      if e in EdgesOn(w, st.projects, r) || Names(EdgesOn(w, st.projects, r), p) {
        PushKeepsCovers(w, st, a, pl, pkgonly, st', r, p);
      } else {
        NewPackageIsQueued(w, u, st, a, pl, pkgonly, st', r, p);
      }
    }
  }

  lemma NewPackageIsQueued(w: World, u: Universe, st: State, a: Atom, pl: set<Pkg>, pkgonly: bool, st': State,
                           r: Root, p: Pkg)
    requires Lawful(w) && Inv(w, u, st) && a.id.root != w.root
    requires Selects(w, st, a, pl, pkgonly, st')
    requires r in Imports(w, a, pl).value.1 && r != w.root
    requires p in Imports(w, a, pl).value.1[r].pl && !Names(EdgesOn(w, st.projects, r), p)
    ensures exists b :: b in st'.unsel && b.id.root == r && p in b.pl
  {
    DepsAreLawful(w, a, pl);
    var nd := Imports(w, a, pl).value.1 - {w.root};
    var lm := LockMap(w.lock(a.id, a.v));
    var es := Stack(st.deps, r);
    var b := NewBmi(es, nd[r], lm);
    assert p in NewPackages(es, nd[r].pl);
    assert b in NewBmis(st.deps, nd, lm);
    if es != [] { assert es[0] in EdgesOn(w, st.projects, r); }
    assert b.id.root == r && p in b.pl && b in st'.unsel;
  }

  lemma NewBmiIsQueued(w: World, u: Universe, st: State, a: Atom, pl: set<Pkg>, lm: map<Ident, Version>, r: Root)
    requires Lawful(w) && Bounded(w, u) && Mirrored(w, st) && Safe(w, st.projects)
    requires Imports(w, a, pl).Some? && r in Imports(w, a, pl).value.1 && r != w.root
    ensures NewBmi(Stack(st.deps, r), Imports(w, a, pl).value.1[r], lm).id.root == r && r in u.roots
  {
    DepsAreLawful(w, a, pl);
    DepIsBounded(w, u, a, pl, r);
    if Stack(st.deps, r) != [] { assert Stack(st.deps, r)[0] in EdgesOn(w, st.projects, r); }
  }

  lemma PushKeepsQueued(w: World, u: Universe, st: State, a: Atom, pl: set<Pkg>, pkgonly: bool, st': State)
    requires Lawful(w) && Bounded(w, u) && Inv(w, u, st)
    requires Selects(w, st, a, pl, pkgonly, st')
    ensures Queued(w, u, st'.unsel)
  {
    var nd := Imports(w, a, pl).value.1 - {w.root};
    var lm := LockMap(w.lock(a.id, a.v));
    var rest :| RemovedOne(st.unsel, rest, a.id, pl) && st'.unsel == rest + multiset(NewBmis(st.deps, nd, lm));
    forall b | b in st'.unsel
      ensures b.id.root != w.root && b.id.root in u.roots
    {
      if b in NewBmis(st.deps, nd, lm) {
        var r :| r in nd && b == NewBmi(Stack(st.deps, r), nd[r], lm);
        NewBmiIsQueued(w, u, st, a, pl, lm, r);
      } else {
        assert b in rest && b in st.unsel;
      }
    }
  }

  lemma DepIsBounded(w: World, u: Universe, a: Atom, pl: set<Pkg>, r: Root)
    requires Bounded(w, u) && Imports(w, a, pl).Some?
    requires r in Imports(w, a, pl).value.1 && r != w.root
    ensures r in u.roots && forall p :: p in Imports(w, a, pl).value.1[r].pl ==> (r, p) in u.pkgs
  {
    var ext := Externals(w, w.reach(a.id, a.v), pl);
    assert r in Targets(w, a, ext);
    var e :| e in ext && w.target(a.id, a.v, e) == At(r);
    assert Imports(w, a, pl).value.1[r] == DepOn(w, a, ext, r);
  }

  /* ----- The case-fold map is kept ----- */

  lemma {:induction false} BringerIs(w: World, ps: seq<Selected>, r: Root)
    ensures Bringer(w, ps, r).Some? <==> EdgesOn(w, ps, r) != []
    ensures Bringer(w, ps, r).Some? ==> Bringer(w, ps, r).value < |ps| && r in EdgesOf(w, ps[Bringer(w, ps, r).value])
  {
    if ps != [] { BringerIs(w, ps[..|ps| - 1], r); }
  }

  /** What one more entry s brings: the projects that had no live edge, and have one from s. */
  lemma BringerOfMore(w: World, ps: seq<Selected>, s: Selected, r: Root)
    ensures var first := r in EdgesOf(w, s) && EdgesOn(w, ps, r) == [];
      && Bringer(w, ps + [s], r) == (if first then Some(|ps|) else Bringer(w, ps, r))
      && (Bringer(w, ps, r).Some? ==> Bringer(w, ps, r).value < |ps|)
      && (first ==> Bringer(w, ps, r).None?)
      && (first <==> r in EdgesOf(w, s) && |EdgesOn(w, ps + [s], r)| == 1)
  {
    BringerIs(w, ps, r);
    Push(w, ps, s, r);
    assert (ps + [s])[..|ps|] == ps;
  }

  lemma FoldsGrow(w: World, st: State, nd: map<Root, CompleteDep>, folds: map<string, Root>,
                  b: Root -> Option<nat>, b': Root -> Option<nat>, n: nat)
    requires FoldedBy(w, st.folds, b) && FoldsPushed(w, st, nd, folds)
    requires forall r :: b'(r) == if r in nd && Stack(st.deps, r) == [] then Some(n) else b(r)
    requires forall q :: q in nd && Stack(st.deps, q) == [] ==> w.fold(q) !in st.folds && b(q).None?
    ensures FoldedBy(w, folds, b')
  {
  }

  lemma PushKeepsFolded(w: World, st: State, s: Selected, folds: map<string, Root>)
    requires Mirrored(w, st) && Folded(w, st.projects, st.folds) && FoldsPushed(w, st, EdgesOf(w, s), folds)
    requires forall r :: r in EdgesOf(w, s) && w.fold(r) in st.folds ==> st.folds[w.fold(r)] == r
    ensures Folded(w, st.projects + [s], folds)
  {
    hide Bringer, EdgesOf, EdgesOn;
    var ps, nd := st.projects, EdgesOf(w, s);
    forall r
      ensures Bringer(w, ps + [s], r) == if r in nd && Stack(st.deps, r) == [] then Some(|ps|) else Bringer(w, ps, r)
      ensures r in nd && Stack(st.deps, r) == [] ==> Bringer(w, ps, r).None?
    {
      BringerOfMore(w, ps, s, r);
    }
    forall q | q in nd && Stack(st.deps, q) == []
      ensures w.fold(q) !in st.folds
    {
    }
    FoldsGrow(w, st, nd, folds, r => Bringer(w, ps, r), r => Bringer(w, ps + [s], r), |ps|);
  }

  lemma SelectKeepsFolded(w: World, u: Universe, st: State, a: Atom, pl: set<Pkg>, pkgonly: bool, st': State)
    requires Lawful(w) && Inv(w, u, st) && a.id.root != w.root
    requires CheckOk(w, st, a, pl, pkgonly) && Selects(w, st, a, pl, pkgonly, st')
    ensures Folded(w, st'.projects, st'.folds)
  {
    DepsAreLawful(w, a, pl);
    var ds := Imports(w, a, pl).value.1;
    PushedEdges(w, a, pl, pkgonly);
    forall r | r in ds - {w.root}
      ensures w.fold(r) in st.folds ==> st.folds[w.fold(r)] == r
    {
      assert DepOk(w, st, ds[r]);
    }
    PushKeepsFolded(w, st, Pushed(w, a, pl, pkgonly), st'.folds);
  }

  /** Selecting an atom that passes the checks keeps every invariant. */
  lemma SelectKeepsInv(w: World, u: Universe, st: State, a: Atom, pl: set<Pkg>, pkgonly: bool, st': State)
    requires Lawful(w) && Bounded(w, u) && Inv(w, u, st)
    requires Fits(w, st, a, pkgonly) && a.id.root in u.roots
    requires CheckOk(w, st, a, pl, pkgonly) && Selects(w, st, a, pl, pkgonly, st')
    ensures Inv(w, u, st')
  {
    PushKeepsStructure(w, u, st, a, pl, pkgonly, st');
    PushKeepsSafe(w, u, st, a, pl, pkgonly, st');
    PushKeepsExisting(w, u, st, a, pl, pkgonly, st');
    PushKeepsCovered(w, u, st, a, pl, pkgonly, st');
    PushKeepsQueued(w, u, st, a, pl, pkgonly, st');
    SelectKeepsFolded(w, u, st, a, pl, pkgonly, st');
  }

  /* ----- Popping an entry ----- */

  lemma PopStructure(w: World, u: Universe, st: State, s: Selected, st': State)
    requires Lawful(w) && Inv(w, u, st) && Unselects(w, st, s, st') && |st.projects| > 1
    ensures Grounded(w, u, st'.projects) && OneVersion(st'.projects) && Mirrored(w, st')
    ensures EntryOk(w, u, s) && Placed(st'.projects, s)
  {
    var n := |st'.projects|;
    assert st.projects[n] == s && st.projects[..n] == st'.projects;
    forall i | 0 <= i < n
      ensures st'.projects[i] == st.projects[i] && st'.projects[..i] == st.projects[..i]
    {
    }
    forall r
      ensures Stack(st'.deps, r) == EdgesOn(w, st'.projects, r)
    {
      Push(w, st'.projects, s, r);
    }
  }

  lemma PopKeepsSafe(w: World, st: State, s: Selected, st': State)
    requires Safe(w, st.projects) && st.projects == st'.projects + [s]
    ensures Safe(w, st'.projects)
  {
    forall r, e | e in EdgesOn(w, st'.projects, r)
      ensures e.dep.ident.root == r && Declared(e.dep.c) && e.dep.pl != {}
      ensures EdgesOn(w, st'.projects, r)[0].dep.ident.Equiv(e.dep.ident)
      ensures SelectedFor(st'.projects, r).Some? ==> EdgeOk(w, e, SelectedFor(st'.projects, r).value.a)
    {
      Push(w, st'.projects, s, r);
      assert e in EdgesOn(w, st.projects, r);
    }
  }

  lemma PopKeepsExisting(w: World, st: State, s: Selected, st': State)
    requires Existing(w, st.projects) && st.projects == st'.projects + [s]
    ensures Existing(w, st'.projects)
  {
    hide EdgesOn, EdgeFrom;
    forall r ensures forall e :: e in EdgesOn(w, st'.projects, r) ==> e in EdgesOn(w, st.projects, r) {
      Push(w, st'.projects, s, r);
    }
  }

  /** What a popped entry covered goes back to the worklist, and nothing on a project that
    still has an edge is dropped from there. */
  lemma PopKeepsCovered(w: World, u: Universe, st: State, s: Selected, st': State)
    requires Lawful(w) && Inv(w, u, st) && Unselects(w, st, s, st') && |st.projects| > 1
    ensures Covered(w, st')
  {
    PopStructure(w, u, st, s, st');
    forall r, e, p | e in EdgesOn(w, st'.projects, r) && p in e.dep.pl
      ensures Covers(st'.projects, st'.unsel, r, p)
    {
      Push(w, st'.projects, s, r);
      assert e in EdgesOn(w, st.projects, r);
      assert Covers(st.projects, st.unsel, r, p);
      PopKeepsCovers(w, st, s, st', r, p);
    }
  }

  lemma DroppedKeeps(deps: map<Root, seq<Dependency>>, nd: map<Root, CompleteDep>, u: multiset<Bmi>,
                     gone: set<Bmi>, u': multiset<Bmi>, b: Bmi)
    requires Dropped(deps, nd, u, gone, u') && b in u && Stack(deps, b.id.root) != []
    ensures b in u'
  {
    assert b !in gone;
  }

  lemma PopKeepsCovers(w: World, st: State, s: Selected, st': State, r: Root, p: Pkg)
    requires Lawful(w) && Unselects(w, st, s, st') && Stack(st'.deps, r) != [] && s.a.id.root != w.root
    requires Covers(st.projects, st.unsel, r, p)
    ensures Covers(st'.projects, st'.unsel, r, p)
  {
    var nd := Imports(w, s.a, s.pl).value.1 - {w.root};
    DepsAreLawful(w, s.a, s.pl);
    var back := Bmi(s.a.id, s.pl, None, false);
    var gone :| Dropped(st'.deps, nd, st.unsel + multiset{back}, gone, st'.unsel);
    if i :| 0 <= i < |st.projects| && st.projects[i].a.id.root == r && p in st.projects[i].pl {
      if i < |st'.projects| {
        assert st'.projects[i] == st.projects[i];
      } else {
        DroppedKeeps(st'.deps, nd, st.unsel + multiset{back}, gone, st'.unsel, back);
      }
    } else {
      var b :| b in st.unsel && b.id.root == r && p in b.pl;
      DroppedKeeps(st'.deps, nd, st.unsel + multiset{back}, gone, st'.unsel, b);
    }
  }

  lemma PopKeepsQueued(w: World, u: Universe, st: State, s: Selected, st': State)
    requires Queued(w, u, st.unsel) && EntryOk(w, u, s) && Unselects(w, st, s, st')
    ensures Queued(w, u, st'.unsel)
  {
    var nd := Imports(w, s.a, s.pl).value.1 - {w.root};
    var all := st.unsel + multiset{Bmi(s.a.id, s.pl, None, false)};
    var gone :| Dropped(st'.deps, nd, all, gone, st'.unsel);
    assert forall b :: b in st'.unsel ==> b in all;
  }

  /** The packages of the popped entry are on the worklist. */
  lemma PoppedIsQueued(w: World, st: State, s: Selected, st': State)
    requires Lawful(w) && Unselects(w, st, s, st')
    ensures Bmi(s.a.id, s.pl, None, false) in st'.unsel
  {
    var back := Bmi(s.a.id, s.pl, None, false);
    DepsAreLawful(w, s.a, s.pl);
    hide Lawful, Imports;
    var nd := Imports(w, s.a, s.pl).value.1 - {w.root};
    var gone :| Dropped(st'.deps, nd, st.unsel + multiset{back}, gone, st'.unsel);
    assert back !in gone && multiset(gone)[back] == 0;
    assert (st.unsel + multiset{back})[back] > 0;
  }

  lemma PopKeepsFolded(w: World, st: State, s: Selected, ps: seq<Selected>, folds: map<string, Root>)
    requires Mirrored(w, st) && Folded(w, st.projects, st.folds) && st.projects == ps + [s]
    requires FoldsPopped(w, st, EdgesOf(w, s), folds)
    ensures Folded(w, ps, folds)
  {
    hide Bringer, EdgesOf, EdgesOn;
    var nd := EdgesOf(w, s);
    forall r
      ensures var last := r in nd && |Stack(st.deps, r)| == 1;
        && Bringer(w, st.projects, r) == (if last then Some(|ps|) else Bringer(w, ps, r))
        && (last ==> Bringer(w, ps, r).None?) && (Bringer(w, ps, r).Some? ==> Bringer(w, ps, r).value < |ps|)
    {
      BringerOfMore(w, ps, s, r);
    }
    FoldsShrink(w, st, nd, folds, r => Bringer(w, st.projects, r), r => Bringer(w, ps, r), |ps|);
  }

  lemma FoldsShrink(w: World, st: State, nd: map<Root, CompleteDep>, folds: map<string, Root>,
                    b: Root -> Option<nat>, b': Root -> Option<nat>, n: nat)
    requires FoldedBy(w, st.folds, b) && FoldsPopped(w, st, nd, folds)
    requires forall r :: b(r) == if r in nd && |Stack(st.deps, r)| == 1 then Some(n) else b'(r)
    requires forall q :: q in nd && |Stack(st.deps, q)| == 1 ==> b'(q).None?
    requires forall r :: b'(r) != Some(n)
    ensures FoldedBy(w, folds, b')
  {
    forall r, q | b'(r).Some? && q in nd && |Stack(st.deps, q)| == 1
      ensures w.fold(q) != w.fold(r)
    {
      assert b(q) != b(r);
    }
  }

  /** Popping the last entry keeps every invariant, as long as it is not the root project. */
  lemma UnselectKeepsInv(w: World, u: Universe, st: State, s: Selected, st': State)
    requires Lawful(w) && Inv(w, u, st) && Unselects(w, st, s, st') && |st.projects| > 1
    ensures Inv(w, u, st')
    ensures Fits(w, st', s.a, !s.first) && EntryOk(w, u, s)
  {
    PopStructure(w, u, st, s, st');
    PopKeepsSafe(w, st, s, st');
    PopKeepsExisting(w, st, s, st');
    PopKeepsCovered(w, u, st, s, st');
    PopKeepsQueued(w, u, st, s, st');
    PopKeepsFolded(w, st, s, st'.projects, st'.folds);
  }

  /* ----- Unselecting undoes selecting ----- */

  /** `selectAtom` followed by `unselectLast` restores the selection stack, every edge stack
    and the case-fold map, although the dependencies are computed again from the enlarged
    package list. */
  lemma UnselectUndoesSelect(w: World, u: Universe, st: State, a: Atom, pl: set<Pkg>, pkgonly: bool,
                             st1: State, s: Selected, st2: State)
    requires Lawful(w) && Bounded(w, u) && Inv(w, u, st)
    requires Fits(w, st, a, pkgonly) && a.id.root in u.roots
    requires CheckOk(w, st, a, pl, pkgonly) && Selects(w, st, a, pl, pkgonly, st1) && Unselects(w, st1, s, st2)
    ensures s.a == a && pl <= s.pl && s.first == !pkgonly
    ensures st2.projects == st.projects
    ensures forall r :: Stack(st2.deps, r) == Stack(st.deps, r)
    ensures st2.folds == st.folds
  {
    SelectKeepsInv(w, u, st, a, pl, pkgonly, st1);
    UnselectKeepsInv(w, u, st1, s, st2);
    PushedEdges(w, a, pl, pkgonly);
    assert st1.projects[|st.projects|] == s;
    assert st1.projects[..|st.projects|] == st.projects;
    assert st2.projects == st.projects;
    FoldsAreRestored(w, st, a, pl, pkgonly, st1, s, st2);
  }

  /** A project that passed the check and had no edge had its fold free, so taking the fold
    out with the last edge puts the map back. */
  lemma FoldsAreRestored(w: World, st: State, a: Atom, pl: set<Pkg>, pkgonly: bool, st1: State, s: Selected, st2: State)
    requires Lawful(w) && a.id.root != w.root && Mirrored(w, st) && Folded(w, st.projects, st.folds)
    requires CheckOk(w, st, a, pl, pkgonly) && Selects(w, st, a, pl, pkgonly, st1) && Unselects(w, st1, s, st2)
    requires s == Pushed(w, a, pl, pkgonly)
    ensures st2.folds == st.folds
  {
    PushedEdges(w, a, pl, pkgonly);
    var ds := Imports(w, a, pl).value.1;
    forall r | r in ds - {w.root} && Stack(st.deps, r) == []
      ensures w.fold(r) !in st.folds
    {
      BringerIs(w, st.projects, r);
      assert DepOk(w, st, ds[r]);
    }
    FoldsCancel(w, st, ds - {w.root}, st1, st2.folds);
  }

  lemma FoldsCancel(w: World, st: State, nd: map<Root, CompleteDep>, st1: State, folds: map<string, Root>)
    requires FoldsPushed(w, st, nd, st1.folds) && FoldsPopped(w, st1, nd, folds)
    requires forall r :: r in nd ==> |Stack(st1.deps, r)| == |Stack(st.deps, r)| + 1
    requires forall r :: r in nd && Stack(st.deps, r) == [] ==> w.fold(r) !in st.folds
    ensures folds == st.folds
  {
    assert forall f :: f in folds <==> f in st.folds;
  }

  /* ----- What the case-fold map is good for ----- */

  predicate Apart(w: World, ds: map<Root, CompleteDep>) {
    forall r, q :: r in ds && q in ds && w.fold(r) == w.fold(q) ==> r == q
  }

  /** The edges of every entry are live. */
  lemma {:induction false} EdgeIsLive(w: World, ps: seq<Selected>, i: nat, r: Root)
    requires i < |ps| && r in EdgesOf(w, ps[i])
    ensures Dependency(ps[i].a, EdgesOf(w, ps[i])[r]) in EdgesOn(w, ps, r)
  {
    if i < |ps| - 1 { EdgeIsLive(w, ps[..|ps| - 1], i, r); }
  }

  /** No two projects with a live edge differ only in case if and only if no single entry of
    the stack depends on two that do: dependencies of one entry are not checked against each
    other. */
  lemma CaseClashesAreInner(w: World, ps: seq<Selected>, folds: map<string, Root>)
    requires Folded(w, ps, folds)
    ensures (forall r, q :: EdgesOn(w, ps, r) != [] && EdgesOn(w, ps, q) != [] && w.fold(r) == w.fold(q) ==> r == q)
      <==> (forall i :: 0 <= i < |ps| ==> Apart(w, EdgesOf(w, ps[i])))
  {
    hide EdgesOf;
    forall r, q | EdgesOn(w, ps, r) != [] && EdgesOn(w, ps, q) != [] && w.fold(r) == w.fold(q) && r != q
      ensures exists i :: 0 <= i < |ps| && !Apart(w, EdgesOf(w, ps[i]))
    {
      BringerIs(w, ps, r);
      BringerIs(w, ps, q);
      assert Bringer(w, ps, r) == Bringer(w, ps, q);
    }
    forall i, r | 0 <= i < |ps| && r in EdgesOf(w, ps[i])
      ensures EdgesOn(w, ps, r) != []
    {
      EdgeIsLive(w, ps, i, r);
    }
  }

  /** The selection determines the folds in the map, and the whole map unless two projects
    with a live edge differ only in case. */
  lemma FoldsAreDetermined(w: World, ps: seq<Selected>, folds: map<string, Root>, folds': map<string, Root>)
    requires Folded(w, ps, folds) && Folded(w, ps, folds')
    ensures folds'.Keys == folds.Keys
    ensures (forall i :: 0 <= i < |ps| ==> Apart(w, EdgesOf(w, ps[i]))) ==> folds' == folds
  {
    assert forall f :: f in folds <==> f in folds';
    CaseClashesAreInner(w, ps, folds);
    forall f | f in folds
      ensures EdgesOn(w, ps, folds[f]) != [] && EdgesOn(w, ps, folds'[f]) != []
    {
      BringerIs(w, ps, folds[f]);
      BringerIs(w, ps, folds'[f]);
    }
  }
}
