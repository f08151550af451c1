/** The start of a solve: the root project on the stack, everything it needs on the worklist. */
module RootSelection {
  import opened Versions
  import opened World
  import opened SolverState
  import opened SolverInvariants
  import opened Transitions

  function RootBmi(w: World, r: Root): Bmi
    requires r in w.rootDeps
  {
    Bmi(w.rootDeps[r].ident, w.rootDeps[r].pl, None, true)
  }

  function RootBmis(w: World, done: set<Root>): set<Bmi> {
    set r | r in done && r in w.rootDeps :: RootBmi(w, r)
  }

  function RootEdges(w: World, done: set<Root>, r: Root): seq<Dependency> {
    if r in w.rootDeps && r in done then [Dependency(w.RootAtom(), w.rootDeps[r])] else []
  }

  /** x is the empty state st with the dependencies `done` of the root project pushed. */
  ghost predicate RootPushed(w: World, st: State, done: set<Root>, x: Parts) {
    && (forall r :: Stack(x.deps, r) == RootEdges(w, done, r))
    && FoldsPushed(w, st, Part(w.rootDeps, done), x.folds)
    && x.unsel == multiset(RootBmis(w, done))
  }

  lemma RootPushStart(w: World, st: State)
    requires st.deps == map[] && st.folds == map[] && st.unsel == multiset{}
    ensures RootPushed(w, st, {}, Parts(st.deps, st.folds, st.unsel))
  {
    assert Part(w.rootDeps, {}) == map[];
    assert RootBmis(w, {}) == {};
  }

  lemma RootBmisStep(w: World, done: set<Root>, r: Root)
    requires Lawful(w) && r in w.rootDeps && r !in done
    ensures multiset(RootBmis(w, done + {r})) == multiset(RootBmis(w, done)) + multiset{RootBmi(w, r)}
  {
    forall q | q in w.rootDeps
      ensures RootBmi(w, q).id.root == q
    {
    }
    assert RootBmi(w, r) !in RootBmis(w, done);
    assert RootBmis(w, done + {r}) == RootBmis(w, done) + {RootBmi(w, r)};
  }

  lemma RootPushStep(w: World, st: State, done: set<Root>, r: Root, x: Parts, y: Parts)
    requires Lawful(w) && st.deps == map[] && r in w.rootDeps && r !in done && RootPushed(w, st, done, x)
    requires forall q ::
      Stack(y.deps, q) == Stack(x.deps, q) + if q == r then [Dependency(w.RootAtom(), w.rootDeps[r])] else []
    requires y.folds == if Stack(x.deps, r) == [] then x.folds[w.fold(r) := r] else x.folds
    requires y.unsel == x.unsel + multiset{RootBmi(w, r)}
    ensures RootPushed(w, st, done + {r}, y)
  {
    FoldsPushStep(w, st, w.rootDeps, done, r, x.folds, y.folds);
    RootBmisStep(w, done, r);
    forall q
      ensures Stack(y.deps, q) == RootEdges(w, done + {r}, q)
    {
      assert Stack(x.deps, q) == RootEdges(w, done, q);
    }
  }

  lemma RootOnStack(w: World, r: Root)
    ensures var s := Selected(w.RootAtom(), w.rootPackages, true);
      && EdgesOn(w, [s], r) == RootEdges(w, w.rootDeps.Keys, r)
      && SelectedFor([s], r) == (if r == w.root then Some(s) else None)
      && FirstAtoms(w, [s]) == []
  {
    hide EdgesOf, EdgesOn, SelectedFor, FirstAtoms;
    var s := Selected(w.RootAtom(), w.rootPackages, true);
    assert [s] == [] + [s];
    Push(w, [], s, r);
    NothingOn(w, r);
    RootBrings(w);
  }

  lemma NothingOn(w: World, r: Root)
    ensures EdgesOn(w, [], r) == [] && SelectedFor([], r).None? && FirstAtoms(w, []) == []
  {
  }

  lemma RootBrings(w: World)
    ensures EdgesOf(w, Selected(w.RootAtom(), w.rootPackages, true)) == w.rootDeps
  {
  }

  lemma RootIsSafe(w: World)
    requires Lawful(w)
    ensures var ps := [Selected(w.RootAtom(), w.rootPackages, true)]; Safe(w, ps) && Existing(w, ps) && OneVersion(ps)
  {
    var ps := [Selected(w.RootAtom(), w.rootPackages, true)];
    forall r
      ensures EdgesOn(w, ps, r) == RootEdges(w, w.rootDeps.Keys, r)
      ensures SelectedFor(ps, r) == if r == w.root then Some(ps[0]) else None
    {
      RootOnStack(w, r);
    }
    assert ps[..0] == [];
  }

  lemma RootIsCovered(w: World, u: Universe, st: State)
    requires Lawful(w) && Bounded(w, u) && st.unsel == multiset(RootBmis(w, w.rootDeps.Keys))
    requires st.projects == [Selected(w.RootAtom(), w.rootPackages, true)]
    ensures Covered(w, st) && Queued(w, u, st.unsel)
  {
    forall r, e, p | e in EdgesOn(w, st.projects, r) && p in e.dep.pl
      ensures Covers(st.projects, st.unsel, r, p)
    {
      RootOnStack(w, r);
      assert RootBmi(w, r) in st.unsel && RootBmi(w, r).id.root == r && p in RootBmi(w, r).pl;
    }
  }

  lemma RootIsInv(w: World, u: Universe, st0: State, st: State)
    requires Lawful(w) && Bounded(w, u) && st0.deps == map[] && st0.folds == map[]
    requires RootPushed(w, st0, w.rootDeps.Keys, Parts(st.deps, st.folds, st.unsel))
    requires st.projects == [Selected(w.RootAtom(), w.rootPackages, true)]
    ensures Inv(w, u, st) && FirstAtoms(w, st.projects) == []
  {
    forall r
      ensures Stack(st.deps, r) == EdgesOn(w, st.projects, r) && FirstAtoms(w, st.projects) == []
    {
      RootOnStack(w, r);
    }
    RootIsSafe(w);
    RootIsCovered(w, u, st);
    assert Part(w.rootDeps, w.rootDeps.Keys) == w.rootDeps;
    var empty := State([], st0.deps, st0.folds, st0.unsel);
    assert FoldsPushed(w, empty, w.rootDeps, st.folds);
    PushKeepsFolded(w, empty, st.projects[0], st.folds);
    assert empty.projects + [st.projects[0]] == st.projects;
  }
}
