/** Worklist entries that are not what the live edges ask for: no edge names their project, which
  is what the search can crash on, or the first edge names it at another source, which is how one
  project can be taken from two sources.  When such entries come about, and what holds of a result
  when they do not. */
module Staleness {
  import opened Versions
  import opened Unifier
  import opened World
  import opened SolverState
  import opened SolverInvariants
  import opened RootSelection
  import opened Solution

  /** There is an edge, and the first one asks for exactly this identifier. */
  predicate Backed(es: seq<Dependency>, id: Ident) {
    es != [] && es[0].dep.ident == id
  }

  /** Every entry above the root was selected under the identifier of the first edge below it. */
  ghost predicate Held(w: World, ps: seq<Selected>) {
    forall i :: 1 <= i < |ps| ==> Backed(EdgesOn(w, ps[..i], ps[i].a.id.root), ps[i].a.id)
  }

  ghost predicate NoneStale(deps: map<Root, seq<Dependency>>, unsel: multiset<Bmi>) {
    forall b :: b in unsel ==> Backed(Stack(deps, b.id.root), b.id)
  }

  ghost predicate Clean(w: World, st: State) {
    Held(w, st.projects) && NoneStale(st.deps, st.unsel)
  }

  lemma RootIsClean(w: World, st: State)
    requires Lawful(w) && Mirrored(w, st) && st.projects == [Selected(w.RootAtom(), w.rootPackages, true)]
    requires st.unsel == multiset(RootBmis(w, w.rootDeps.Keys))
    ensures Clean(w, st)
  {
    forall b | b in st.unsel
      ensures Backed(Stack(st.deps, b.id.root), b.id)
    {
      RootOnStack(w, b.id.root);
    }
  }

  /** Selecting leaves nothing stale, as long as the first edge on the project asks for the
    identifier selected. */
  lemma SelectKeepsClean(w: World, u: Universe, st: State, a: Atom, pl: set<Pkg>, pkgonly: bool, st': State)
    requires Lawful(w) && Bounded(w, u) && Inv(w, u, st) && Clean(w, st)
    requires Backed(Stack(st.deps, a.id.root), a.id)
    requires Selects(w, st, a, pl, pkgonly, st')
    ensures Clean(w, st')
  {
    hide Inv, Lawful, Bounded, Selects, Imports, Held, NoneStale, Stack;
    SelectedOnTop(w, u, st, a, pl, pkgonly, st');
    PushKeepsHeld(w, st.projects, Pushed(w, a, pl, pkgonly));
    NewEntriesHaveEdges(w, u, st, a, pl, pkgonly, st');
  }

  lemma SelectedOnTop(w: World, u: Universe, st: State, a: Atom, pl: set<Pkg>, pkgonly: bool, st': State)
    requires Inv(w, u, st) && Selects(w, st, a, pl, pkgonly, st')
    ensures Imports(w, a, pl).Some? && st'.projects == st.projects + [Pushed(w, a, pl, pkgonly)]
    ensures Pushed(w, a, pl, pkgonly).a == a && EdgesOn(w, st.projects, a.id.root) == Stack(st.deps, a.id.root)
  {
    hide Imports, FoldsPushed, NewBmis, Safe, Covered, Folded;
  }

  lemma PushKeepsHeld(w: World, ps: seq<Selected>, s: Selected)
    requires Held(w, ps) && Backed(EdgesOn(w, ps, s.a.id.root), s.a.id)
    ensures Held(w, ps + [s])
  {
    hide EdgesOn, Backed;
    forall i | 1 <= i <= |ps|
      ensures Backed(EdgesOn(w, (ps + [s])[..i], (ps + [s])[i].a.id.root), (ps + [s])[i].a.id)
    {
      assert (ps + [s])[..i] == ps[..i];
      assert ps[..|ps|] == ps;
    }
  }

  lemma NewEntryIsBacked(w: World, u: Universe, st: State, a: Atom, pl: set<Pkg>, lm: map<Ident, Version>, r: Root,
                         es: seq<Dependency>)
    requires Lawful(w) && Bounded(w, u) && Mirrored(w, st) && Safe(w, st.projects)
    requires Imports(w, a, pl).Some? && r in Imports(w, a, pl).value.1 && r != w.root
    requires es == Stack(st.deps, r) + [Dependency(a, Imports(w, a, pl).value.1[r])]
    ensures var b := NewBmi(Stack(st.deps, r), Imports(w, a, pl).value.1[r], lm);
      b.id.root == r && Backed(es, b.id)
  {
    hide Imports, Lawful, Mirrored, Safe, Bounded;
    NewBmiIsQueued(w, u, st, a, pl, lm, r);
  }

  /** An entry on the worklist was there before, or is for a new dependency. */
  lemma OldOrNew(w: World, st: State, a: Atom, pl: set<Pkg>, pkgonly: bool, st': State, b: Bmi)
    requires Selects(w, st, a, pl, pkgonly, st') && b in st'.unsel && b !in st.unsel
    ensures var nd, lm := Imports(w, a, pl).value.1 - {w.root}, LockMap(w.lock(a.id, a.v));
      exists r :: r in nd && b == NewBmi(Stack(st.deps, r), nd[r], lm)
  {
    hide Imports, FoldsPushed, LockMap, NewBmi, Stack;
    var nd, lm := Imports(w, a, pl).value.1 - {w.root}, LockMap(w.lock(a.id, a.v));
    var rest :| RemovedOne(st.unsel, rest, a.id, pl) && st'.unsel == rest + multiset(NewBmis(st.deps, nd, lm));
    assert b !in rest;
  }

  /** Edges are only added at the end. */
  lemma StacksGrow(w: World, st: State, a: Atom, pl: set<Pkg>, pkgonly: bool, st': State, r: Root)
    requires Selects(w, st, a, pl, pkgonly, st')
    ensures var nd := Imports(w, a, pl).value.1 - {w.root};
      Stack(st'.deps, r) == Stack(st.deps, r) + if r in nd then [Dependency(a, nd[r])] else []
  {
    hide Imports, FoldsPushed, LockMap, NewBmis, Stack, RemovedOne;
  }

  lemma NewEntriesHaveEdges(w: World, u: Universe, st: State, a: Atom, pl: set<Pkg>, pkgonly: bool, st': State)
    requires Lawful(w) && Bounded(w, u) && Inv(w, u, st) && NoneStale(st.deps, st.unsel)
    requires Imports(w, a, pl).Some? && Selects(w, st, a, pl, pkgonly, st')
    ensures NoneStale(st'.deps, st'.unsel)
  {
    hide Imports, Lawful, Bounded, Selects, LockMap, NewBmi;
    hide Mirrored, Safe, Grounded, OneVersion, Covered, Queued, Folded;
    var nd, lm := Imports(w, a, pl).value.1 - {w.root}, LockMap(w.lock(a.id, a.v));
    forall b | b in st'.unsel
      ensures Backed(Stack(st'.deps, b.id.root), b.id)
    {
      StacksGrow(w, st, a, pl, pkgonly, st', b.id.root);
      if b !in st.unsel {
        OldOrNew(w, st, a, pl, pkgonly, st', b);
        var r :| r in nd && b == NewBmi(Stack(st.deps, r), nd[r], lm);
        StacksGrow(w, st, a, pl, pkgonly, st', r);
        NewEntryIsBacked(w, u, st, a, pl, lm, r, Stack(st'.deps, r));
      }
    }
  }

  /* ----- When an unselection leaves something stale ----- */

  predicate LastGoes(st: State, nd: map<Root, CompleteDep>, r: Root) {
    r in nd && |Stack(st.deps, r)| == 1
  }

  /** b is the one entry of its project, for exactly the dependency d. */
  ghost predicate Sole(all: multiset<Bmi>, b: Bmi, d: CompleteDep) {
    b.IsFor(d.ident, d.pl) && all[b] == 1 && forall c :: c in all && c.id.root == b.id.root ==> c == b
  }

  /** What can be seen before the entry s is popped: each worklist entry of a project that
    loses its last edge is the only one, and for exactly the dependency that goes. */
  ghost predicate Tidy(w: World, st: State, s: Selected)
    requires Imports(w, s.a, s.pl).Some?
  {
    var nd := Imports(w, s.a, s.pl).value.1 - {w.root};
    var all := st.unsel + multiset{Bmi(s.a.id, s.pl, None, false)};
    forall b :: b in all && LastGoes(st, nd, b.id.root) ==> Sole(all, b, nd[b.id.root])
  }

  /** `unselectLast` leaves no stale entry if and only if the worklist was tidy. */
  lemma UnselectKeepsClean(w: World, u: Universe, st: State, s: Selected, st': State)
    requires Lawful(w) && Inv(w, u, st) && Clean(w, st) && Unselects(w, st, s, st') && |st.projects| > 1
    ensures Clean(w, st') <==> Tidy(w, st, s)
  {
    var nd := Imports(w, s.a, s.pl).value.1 - {w.root};
    var back := Bmi(s.a.id, s.pl, None, false);
    var all := st.unsel + multiset{back};
    PopKeepsHeld(w, st, s, st');
    var gone :| Dropped(st'.deps, nd, all, gone, st'.unsel);
    DroppedAllStale(st, nd, all, gone, st');
  }

  lemma PopKeepsHeld(w: World, st: State, s: Selected, st': State)
    requires Mirrored(w, st) && Held(w, st.projects) && st.projects == st'.projects + [s] && |st.projects| > 1
    ensures Held(w, st'.projects) && Backed(Stack(st.deps, s.a.id.root), s.a.id)
  {
    hide EdgesOn;
    var n := |st'.projects|;
    assert st.projects[n] == s && st.projects[..n] == st'.projects;
    Push(w, st'.projects, s, s.a.id.root);
    forall i | 1 <= i < n
      ensures Backed(EdgesOn(w, st'.projects[..i], st'.projects[i].a.id.root), st'.projects[i].a.id)
    {
      assert st'.projects[..i] == st.projects[..i] && st'.projects[i] == st.projects[i];
    }
  }

  lemma DroppedAllStale(st: State, nd: map<Root, CompleteDep>, all: multiset<Bmi>, gone: set<Bmi>, st': State)
    requires NoneStale(st.deps, all) && Dropped(st'.deps, nd, all, gone, st'.unsel)
    requires forall r :: Stack(st'.deps, r) == [] <==> Stack(st.deps, r) == [] || LastGoes(st, nd, r)
    requires forall r :: Stack(st'.deps, r) != [] ==> Stack(st'.deps, r)[0] == Stack(st.deps, r)[0]
    ensures NoneStale(st'.deps, st'.unsel) <==>
      forall b :: b in all && LastGoes(st, nd, b.id.root) ==> Sole(all, b, nd[b.id.root])
  {
    if NoneStale(st'.deps, st'.unsel) {
      forall b | b in all && LastGoes(st, nd, b.id.root)
        ensures Sole(all, b, nd[b.id.root])
      {
        assert forall c :: c in all && c.id.root == b.id.root ==> c !in st'.unsel && c in gone;
      }
    }
    forall b | b in all && LastGoes(st, nd, b.id.root) && Sole(all, b, nd[b.id.root])
      ensures b !in st'.unsel
    {
      SoleIsDropped(st'.deps, nd, all, gone, st'.unsel, b);
    }
  }

  lemma SoleIsDropped(deps: map<Root, seq<Dependency>>, nd: map<Root, CompleteDep>, all: multiset<Bmi>,
                      gone: set<Bmi>, rest: multiset<Bmi>, b: Bmi)
    requires Dropped(deps, nd, all, gone, rest) && b in all && b.id.root in nd && Stack(deps, b.id.root) == []
    requires Sole(all, b, nd[b.id.root])
    ensures b !in rest
  {
    assert Droppable(deps, nd, b);
    var g :| g in gone && g.id.root == b.id.root;
    assert g in all && all[b] == rest[b] + multiset(gone)[b];
  }

  /* ----- The sources of a result ----- */

  lemma {:induction false} FirstEdgeStays(w: World, ps: seq<Selected>, r: Root, n: nat)
    requires n <= |ps| && EdgesOn(w, ps[..n], r) != []
    ensures EdgesOn(w, ps, r) != [] && EdgesOn(w, ps, r)[0] == EdgesOn(w, ps[..n], r)[0]
  {
    if n < |ps| {
      assert ps[..|ps| - 1][..n] == ps[..n];
      FirstEdgeStays(w, ps[..|ps| - 1], r, n);
    } else {
      assert ps[..n] == ps;
    }
  }

  /** Everyone who wants the project of a wants it from the source that a is taken from; and a is
    the only atom of its project. */
  ghost predicate OneSource(w: World, sol: Projects, a: Atom) {
    Agreed(w, sol, a.id.root, a.id) && forall b :: b in sol && b.id.root == a.id.root ==> b == a
  }

  lemma CollectedIsBacked(w: World, ps: seq<Selected>, a: Atom)
    requires Held(w, ps) && a in Collect(ps)
    ensures Backed(EdgesOn(w, ps, a.id.root), a.id)
  {
    CollectIs(ps, a, "");
    var i :| 1 <= i < |ps| && ps[i].a == a;
    FirstEdgeStays(w, ps, a.id.root, i);
  }

  /** With nothing stale, each project of the result is taken from one source, which all agree on. */
  lemma CleanHasOneSource(w: World, u: Universe, st: State, a: Atom)
    requires Lawful(w) && Inv(w, u, st) && Clean(w, st) && a in Collect(st.projects)
    ensures OneSource(w, Collect(st.projects), a)
  {
    var sol := Collect(st.projects);
    CollectedIsBacked(w, st.projects, a);
    FirstIsAgreed(w, u, st, a.id.root);
    forall b | b in sol && b.id.root == a.id.root
      ensures b == a
    {
      CollectedIsBacked(w, st.projects, b);
      CollectedOnce(w, u, st.projects, a, b);
    }
  }
}
