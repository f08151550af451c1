/** The backtracking solver (gps/solver.go, gps/satisfy.go).  Each step of the algorithm is a
  method whose contract names the transition it makes; `Solve` runs them to the end. */
module Solver {
  import opened Versions
  import opened Unifier
  import opened World
  import opened SolverState
  import opened SolverInvariants
  import opened Solution
  import opened Progress
  import opened VersionQueues
  import opened Selections
  import opened Transitions
  import opened RootSelection
  import opened Staleness
  import opened Candidates

  /** `Crashed` stands for the index out of range that the source runs into when it gives up
    on a project that no edge names, or is handed a project without any version. */
  datatype Search = Found | NoVersion | Crashed

  datatype Outcome = Solved(projects: Projects) | Unsolvable | Panicked

  class Solver {
    const w: World
    ghost const u: Universe
    const sel: Selection
    const unsel: Unselected
    var vqs: seq<VersionQueue>
    var attempts: nat
    // whether the worklist was untidy at some unselection so far
    ghost var untidy: bool

    ghost function St(): State
      reads sel, unsel
    {
      State(sel.projects, sel.deps, sel.foldRoots, unsel.sl)
    }

    ghost predicate QueueOk(q: VersionQueue)
      reads q`pi, q`allLoaded, q`adverr
    {
      && q.Valid() && q.w == w && q.id.root != w.root && q.id.root in u.roots
      && q.pi != [] && |q.Remaining()| <= u.limit + 3
    }

    /** The queues qs are distinct, each at some version, and line up with the atoms of the
      projects selected, version by version. */
    ghost predicate Aligned(qs: seq<VersionQueue>, atoms: seq<Atom>)
      reads qs`pi, qs`allLoaded, qs`adverr
    {
      && |atoms| == |qs|
      && (forall i, j :: 0 <= i < j < |qs| ==> qs[i] != qs[j])
      && (forall i :: 0 <= i < |qs| ==> QueueOk(qs[i]) && atoms[i] == Atom(qs[i].id, qs[i].pi[0]))
    }

    ghost predicate Static() {
      Lawful(w) && Bounded(w, u) && sel.w == w
    }

    /** The invariants of the state; and nothing is stale if no unselection was untidy. */
    ghost predicate Holds()
      reads `untidy, sel, unsel
    {
      Inv(w, u, St()) && (untidy || Clean(w, St()))
    }

    /** What holds between any two steps of a solve. */
    ghost predicate Running()
      reads `vqs, `untidy, sel, unsel, vqs`pi, vqs`allLoaded, vqs`adverr
    {
      Static() && Holds() && Aligned(vqs, FirstAtoms(w, sel.projects))
    }

    /** How many versions each queue of qs has left to try. */
    ghost function Lefts(qs: seq<VersionQueue>): (ls: seq<nat>)
      reads qs`pi, qs`allLoaded
      ensures |ls| == |qs| && forall i :: 0 <= i < |qs| ==> ls[i] == |qs[i].Remaining()|
    {
      if qs == [] then [] else Lefts(qs[..|qs| - 1]) + [|qs[|qs| - 1].Remaining()|]
    }

    /** The versions left on the whole stack, as one number. */
    ghost function RankOf(lefts: seq<nat>): nat {
      Rank(lefts, |u.roots|, u.limit + 5)
    }

    constructor (w: World, ghost u: Universe)
      requires Lawful(w) && Bounded(w, u)
      ensures this.w == w && this.u == u && fresh(sel) && fresh(unsel) && vqs == [] && Static() && !untidy
      ensures sel.projects == [] && sel.deps == map[] && sel.foldRoots == map[] && unsel.sl == multiset{}
    {
      this.w, this.u, vqs, attempts, untidy := w, u, [], 0, false;
      sel := new Selection(w);
      unsel := new Unselected();
    }

    /* ----- Failure marks ----- */

    /** Marks the oldest queue for id as failed; the root project has none. */
    method Fail(id: Ident)
      modifies vqs`failed
      ensures MarkedFor({id})
    {
      if id.root == w.root { return; }
      for k := 0 to |vqs|
        invariant forall i :: 0 <= i < k ==> !vqs[i].id.Eq(id)
        invariant forall i :: 0 <= i < |vqs| ==> vqs[i].failed == old(vqs[i].failed)
      {
        if vqs[k].id.Eq(id) {
          vqs[k].failed := true;
          assert Oldest(k, id);
          return;
        }
      }
    }

    ghost predicate Oldest(i: nat, id: Ident)
      reads this
      requires i < |vqs|
    {
      id.root != w.root && vqs[i].id.Eq(id) && forall j :: 0 <= j < i ==> !vqs[j].id.Eq(id)
    }

    /** q is the oldest queue for one of the projects ids. */
    ghost predicate Hit(q: VersionQueue, ids: set<Ident>)
      reads this
    {
      exists i, id :: 0 <= i < |vqs| && vqs[i] == q && id in ids && Oldest(i, id)
    }

    lemma HitMore(q: VersionQueue, ids: set<Ident>, id: Ident)
      ensures Hit(q, ids + {id}) <==> Hit(q, ids) || Hit(q, {id})
    {
    }

    /** Exactly the oldest queues for these projects are marked now, besides those that were. */
    twostate predicate MarkedFor(ids: set<Ident>)
      reads this, vqs
    {
      vqs == old(vqs) && forall q :: q in vqs ==> q.failed == (old(q.failed) || Hit(q, ids))
    }

    method FailDependers(es: seq<Dependency>)
      modifies vqs`failed
      ensures MarkedFor(Dependers(es))
    {
      hide Hit;
      NoneHit();
      assert Dependers(es[..0]) == {};
      for i := 0 to |es|
        invariant MarkedFor(Dependers(es[..i]))
      {
        assert es[..i + 1] == es[..i] + [es[i]];
        assert Dependers(es[..i + 1]) == Dependers(es[..i]) + {es[i].depender.id};
        forall q { HitMore(q, Dependers(es[..i]), es[i].depender.id); }
        Fail(es[i].depender.id);
      }
      assert es[..|es|] == es;
    }

    lemma NoneHit()
      ensures forall q :: !Hit(q, {})
    {
    }

    function Dependers(es: seq<Dependency>): set<Ident> {
      set e | e in es :: e.depender.id
    }

    /** The dependers whose constraints the version of a breaks. */
    function Broken(es: seq<Dependency>, a: Atom): set<Ident> {
      set e | e in es && !UMatches(w.lib, w.versions(a.id), e.dep.c, a.v) :: e.depender.id
    }

    /** The dependers whose constraints are disjoint from that of d. */
    function Disjoint(es: seq<Dependency>, d: CompleteDep): set<Ident> {
      set e | e in es && !UMatchesAny(w.lib, w.versions(d.ident), e.dep.c, d.c) :: e.depender.id
    }

    /* ----- The satisfiability checks (satisfy.go) ----- */

    /** Checks the atom against the composite constraint; on failure the dependers whose
      constraints it breaks are marked. */
    method CheckAtomAllowable(a: Atom) returns (ok: bool)
      requires sel.w == w
      modifies vqs`failed
      ensures ok == AtomAllowable(w, Stack(sel.deps, a.id.root), a)
      ensures MarkedFor(if ok then {} else Broken(Stack(sel.deps, a.id.root), a))
    {
      hide Hit, UMatches;
      NoneHit();
      var c := sel.GetConstraint(a.id);
      if UMatches(w.lib, w.versions(a.id), c, a.v) { return true; }
      var es := sel.GetDependenciesOn(a.id);
      assert Broken(es[..0], a) == {};
      for i := 0 to |es|
        invariant MarkedFor(Broken(es[..i], a))
      {
        assert es[..i + 1] == es[..i] + [es[i]];
        if !UMatches(w.lib, w.versions(a.id), es[i].dep.c, a.v) {
          assert Broken(es[..i + 1], a) == Broken(es[..i], a) + {es[i].depender.id};
          forall q { HitMore(q, Broken(es[..i], a), es[i].depender.id); }
          Fail(es[i].depender.id);
        } else {
          assert Broken(es[..i + 1], a) == Broken(es[..i], a);
        }
      }
      assert es[..|es|] == es;
      return false;
    }

    method CheckRequiredPackagesExist(a: Atom) returns (ok: bool)
      ensures ok == RequiredPackagesExist(w, Stack(sel.deps, a.id.root), a)
    {
      if w.packages(a.id, a.v).None? { return false; }
      var es := sel.GetDependenciesOn(a.id);
      ok := true;
      for i := 0 to |es|
        invariant ok == forall e, p :: e in es[..i] && p in e.dep.pl ==> HasPackage(w, a, p)
      {
        assert forall e :: e in es[..i + 1] <==> e in es[..i] || e == es[i];
        if exists p :: p in es[i].dep.pl && !HasPackage(w, a, p) { ok := false; }
      }
      assert es[..|es|] == es;
    }

    method CheckIdentMatches(a: Atom, d: CompleteDep) returns (ok: bool)
      modifies vqs`failed
      ensures ok == IdentMatches(Stack(sel.deps, d.ident.root), d)
      ensures MarkedFor(if ok then {} else Dependers(Stack(sel.deps, a.id.root)))
    {
      hide Hit, Dependers;
      NoneHit();
      var cur := sel.GetIdentFor(d.ident.root);
      if cur.Some? && !cur.value.Equiv(d.ident) {
        FailDependers(sel.GetDependenciesOn(a.id));
        return false;
      }
      return true;
    }

    method CheckRootCaseConflicts(d: CompleteDep) returns (ok: bool)
      requires sel.w == w
      modifies vqs`failed
      ensures ok == NoCaseConflict(w, sel.foldRoots, d)
      ensures ok ==> MarkedFor({})
      ensures !ok ==>
        var es := Stack(sel.deps, sel.foldRoots[w.fold(d.ident.root)]);
        MarkedFor(Dependers(Stack(sel.deps, if es == [] then "" else es[0].dep.ident.root)))
    {
      hide Hit, Dependers;
      NoneHit();
      var other := sel.FindCaseConflicts(d.ident.root);
      if other.None? { return true; }
      var cur := sel.GetIdentFor(other.value);
      FailDependers(sel.GetDependenciesOn(if cur.Some? then cur.value else Ident("", "")));
      return false;
    }

    method CheckDepsConstraintsAllowable(d: CompleteDep) returns (ok: bool)
      requires sel.w == w
      modifies vqs`failed
      ensures ok == ConstraintAllowable(w, Stack(sel.deps, d.ident.root), d)
      ensures MarkedFor(if ok then {} else Disjoint(Stack(sel.deps, d.ident.root), d))
    {
      hide Hit, UMatchesAny;
      NoneHit();
      var c := sel.GetConstraint(d.ident);
      if UMatchesAny(w.lib, w.versions(d.ident), c, d.c) { return true; }
      var es := sel.GetDependenciesOn(d.ident);
      assert Disjoint(es[..0], d) == {};
      for i := 0 to |es|
        invariant MarkedFor(Disjoint(es[..i], d))
      {
        assert es[..i + 1] == es[..i] + [es[i]];
        if !UMatchesAny(w.lib, w.versions(d.ident), es[i].dep.c, d.c) {
          assert Disjoint(es[..i + 1], d) == Disjoint(es[..i], d) + {es[i].depender.id};
          forall q { HitMore(q, Disjoint(es[..i], d), es[i].depender.id); }
          Fail(es[i].depender.id);
        } else {
          assert Disjoint(es[..i + 1], d) == Disjoint(es[..i], d);
        }
      }
      assert es[..|es|] == es;
      return false;
    }

    method CheckDepsDisallowsSelected(d: CompleteDep) returns (ok: bool)
      modifies vqs`failed
      ensures ok == SelectedAllowed(w, SelectedFor(sel.projects, d.ident.root), d)
      ensures MarkedFor(if ok then {} else {d.ident})
    {
      hide Hit;
      NoneHit();
      var s := sel.SelectedEntry(d.ident);
      if s.Some? && !UMatches(w.lib, w.versions(d.ident), d.c, s.value.a.v) {
        Fail(d.ident);
        return false;
      }
      return true;
    }

    method CheckPackageImportsFromDepExist(d: CompleteDep) returns (ok: bool)
      ensures ok == SelectedHasPackages(w, SelectedFor(sel.projects, d.ident.root), d)
    {
      var s := sel.SelectedEntry(d.ident);
      if s.None? { return true; }
      if w.packages(s.value.a.id, s.value.a.v).None? { return false; }
      ok := forall p :: p in d.pl ==> HasPackage(w, s.value.a, p);
    }

    /** The projects that are blamed when the dependency d of atom a fails: those of the first check
      that does. */
    ghost predicate DepBlames(st: State, a: Atom, d: CompleteDep, ids: set<Ident>) {
      var es, chosen := Stack(st.deps, d.ident.root), SelectedFor(st.projects, d.ident.root);
      && !DepOk(w, st, d)
      && if !IdentMatches(es, d) then ids == Dependers(Stack(st.deps, a.id.root))
         else if !NoCaseConflict(w, st.folds, d) then
           var others := Stack(st.deps, st.folds[w.fold(d.ident.root)]);
           ids == Dependers(Stack(st.deps, if others == [] then "" else others[0].dep.ident.root))
         else if !ConstraintAllowable(w, es, d) then ids == Disjoint(es, d)
         else if !SelectedAllowed(w, chosen, d) then ids == {d.ident}
         else ids == {}
    }

    /** The projects that are blamed when atom a fails, for any order in which its dependencies are
      looked at. */
    ghost predicate Blames(st: State, a: Atom, pl: set<Pkg>, pkgonly: bool, ids: set<Ident>) {
      var es := Stack(st.deps, a.id.root);
      if !pkgonly && !AtomAllowable(w, es, a) then ids == Broken(es, a)
      else if !RequiredPackagesExist(w, es, a) || Imports(w, a, pl).None? then ids == {}
      else exists r :: r in Imports(w, a, pl).value.1 && DepBlames(st, a, Imports(w, a, pl).value.1[r], ids)
    }

    /** The checks of one dependency, in the order of the source, up to the first that fails. */
    method CheckDep(a: Atom, d: CompleteDep) returns (ok: bool, ghost ids: set<Ident>)
      requires sel.w == w
      modifies vqs`failed
      ensures ok == DepOk(w, St(), d) && MarkedFor(ids)
      ensures if ok then ids == {} else DepBlames(St(), a, d, ids)
    {
      hide Hit;
      NoneHit();
      ids := if !IdentMatches(Stack(sel.deps, d.ident.root), d) then Dependers(Stack(sel.deps, a.id.root)) else {};
      ok := CheckIdentMatches(a, d);
      if !ok { return; }
      ok := CheckRootCaseConflicts(d);
      if !ok {
        ghost var others := Stack(sel.deps, sel.foldRoots[w.fold(d.ident.root)]);
        ids := Dependers(Stack(sel.deps, if others == [] then "" else others[0].dep.ident.root));
        return;
      }
      ok := CheckDepsConstraintsAllowable(d);
      if !ok {
        ids := Disjoint(Stack(sel.deps, d.ident.root), d);
        return;
      }
      ok := CheckDepsDisallowsSelected(d);
      if !ok {
        ids := {d.ident};
        return;
      }
      ok := RevisionExists(w, d);
      if !ok { return; }
      ok := CheckPackageImportsFromDepExist(d);
    }

    /** Whether selecting a with packages pl keeps every requirement satisfied.  Exactly the queues
      of the projects that are blamed are marked. */
    method Check(a: Atom, pl: set<Pkg>, pkgonly: bool) returns (ok: bool, ghost ids: set<Ident>)
      requires sel.w == w && a.id.root != w.root
      modifies vqs`failed
      ensures ok == CheckOk(w, St(), a, pl, pkgonly)
      ensures vqs == old(vqs) && forall q :: q in vqs ==> q.failed == (old(q.failed) || Hit(q, ids))
      ensures if ok then ids == {} else Blames(St(), a, pl, pkgonly, ids)
    {
      hide Hit, DepOk, DepBlames, AtomAllowable, RequiredPackagesExist;
      NoneHit();
      ids := {};
      if !pkgonly {
        ok := CheckAtomAllowable(a);
        if !ok {
          ids := Broken(Stack(sel.deps, a.id.root), a);
          return;
        }
      }
      ok := CheckRequiredPackagesExist(a);
      if !ok { return; }
      var im := Imports(w, a, pl);
      if im.None? { return false, {}; }
      var ds := im.value.1;
      var todo := ds.Keys;
      while todo != {}
        invariant MarkedFor({}) && todo <= ds.Keys && ids == {} && ok
        invariant forall r :: r in ds && r !in todo ==> DepOk(w, St(), ds[r])
      {
        var r :| r in todo;
        ok, ids := CheckDep(a, ds[r]);
        if !ok { return; }
        todo := todo - {r};
      }
    }

    /* ----- Selecting and unselecting ----- */

    ghost function Now(): Parts
      reads sel, unsel
    {
      Parts(sel.deps, sel.foldRoots, unsel.sl)
    }

    /** Pushes one dependency and queues the packages that only it names. */
    method PushDependency(a: Atom, d: CompleteDep, lm: map<Ident, Version>)
      requires sel.w == w
      modifies sel`deps, sel`foldRoots, unsel
      ensures PushesOne(w, a, d, lm, old(Now()), Now())
    {
      ghost var es := Stack(sel.deps, d.ident.root);
      sel.PushDep(Dependency(a, d));
      var rpm := sel.GetRequiredPackagesIn(d.ident);
      forall p | p in d.pl
        ensures p in rpm && rpm[p] == 1 <==> !Names(es, p)
      {
        CountedOnceIsNew(es, Dependency(a, d), p);
      }
      var newp := set p | p in d.pl && p in rpm && rpm[p] == 1;
      assert newp == NewPackages(es, d.pl);
      if newp != {} {
        var id := sel.GetIdentFor(d.ident.root).value;
        assert id == FirstIdent(es, d);
        unsel.Push(Bmi(id, newp, if d.ident in lm then Some(lm[d.ident]) else None, false));
      }
    }

    method PushDependencies(a: Atom, nd: map<Root, CompleteDep>, lm: map<Ident, Version>)
      requires sel.w == w && Rooted(sel.deps) && KeysNameRoots(nd)
      modifies sel`deps, sel`foldRoots, unsel
      ensures Pushing(w, old(St()), a, nd, lm, old(unsel.sl), nd.Keys, Now())
    {
      ghost var st, rest, done: set<Root> := St(), unsel.sl, {};
      var todo := nd.Keys;
      PushingStart(w, st, a, nd, lm);
      while todo != {}
        invariant forall q :: q in nd.Keys <==> q in done || q in todo
        invariant forall q :: q in done ==> q !in todo
        invariant Pushing(w, st, a, nd, lm, rest, done, Now())
      {
        var r :| r in todo;
        ghost var x := Now();
        PushDependency(a, nd[r], lm);
        PushingStep(w, st, a, nd, lm, rest, done, r, x, Now());
        todo, done := todo - {r}, done + {r};
      }
      assert done == nd.Keys;
    }

    /** Puts a on the selection stack with the packages pl and all they reach in it, and its
      dependencies on the edge stacks; a dependency on the root project is skipped. */
    method SelectAtom(a: Atom, pl: set<Pkg>, pkgonly: bool)
      requires sel.w == w && Imports(w, a, pl).Some?
      requires Rooted(sel.deps) && KeysNameRoots(Imports(w, a, pl).value.1)
      modifies sel, unsel
      ensures Selects(w, old(St()), a, pl, pkgonly, St())
    {
      ghost var st := St();
      var _ := unsel.Remove(a.id, pl);
      assert RemovedOne(st.unsel, unsel.sl, a.id, pl);
      var (cl, ds) := Imports(w, a, pl).value;
      sel.PushSelection(a, cl, pkgonly);
      ghost var mid := St();
      PushDependencies(a, ds - {w.root}, LockMap(w.lock(a.id, a.v)));
      PushingDone(w, st, a, pl, pkgonly, mid, Now());
    }

    /** Pops one dependency; when it was the last on its project, the worklist entry for
      exactly its packages goes too. */
    method PopDependency(d: CompleteDep) returns (ghost b: Option<Bmi>)
      requires sel.w == w && Stack(sel.deps, d.ident.root) != []
      modifies sel`deps, sel`foldRoots, unsel
      ensures PopsOne(w, d, old(Now()), b, Now())
    {
      b := None;
      var _ := sel.PopDep(d.ident);
      if Stack(sel.deps, d.ident.root) == [] {
        var c := unsel.Remove(d.ident, d.pl);
        b := c;
      }
    }

    method PopDependencies(nd: map<Root, CompleteDep>) returns (ghost gone: set<Bmi>)
      requires sel.w == w && KeysNameRoots(nd) && forall r :: r in nd ==> Stack(sel.deps, r) != []
      modifies sel`deps, sel`foldRoots, unsel
      ensures Popping(w, old(St()), nd, old(unsel.sl), gone, nd.Keys, Now())
    {
      ghost var st, all, done: set<Root> := St(), unsel.sl, {};
      gone := {};
      var todo := nd.Keys;
      PoppingStart(w, st, nd);
      while todo != {}
        invariant forall q :: q in nd.Keys <==> q in done || q in todo
        invariant forall q :: q in done ==> q !in todo
        invariant Popping(w, st, nd, all, gone, done, Now())
      {
        var r :| r in todo;
        ghost var x := Now();
        ghost var b := PopDependency(nd[r]);
        PoppingStep(w, st, nd, all, gone, done, r, x, b, Now());
        gone := if b.Some? then gone + {b.value} else gone;
        todo, done := todo - {r}, done + {r};
      }
      assert done == nd.Keys;
    }

    /** Takes the last entry off the selection stack and its dependencies off the edge stacks;
      the entry's packages go back to the worklist. */
    method UnselectLast() returns (s: Selected)
      requires sel.w == w && Lawful(w) && Inv(w, u, St()) && |sel.projects| > 1
      modifies sel, unsel
      ensures Unselects(w, old(St()), s, St())
    {
      ghost var st := St();
      s := sel.PopSelection();
      LastEntry(w, u, st, sel.projects, s);
      unsel.Push(Bmi(s.a.id, s.pl, None, false));
      var nd := Imports(w, s.a, s.pl).value.1 - {w.root};
      ghost var mid := St();
      ghost var gone := PopDependencies(nd);
      PoppingDone(w, st, s, mid, gone, Now());
    }

    /** Puts the root project on the stack, its dependencies on the edge stacks, and all the
      packages they name on the worklist. */
    method SelectRoot()
      requires Static() && vqs == []
      requires sel.projects == [] && sel.deps == map[] && sel.foldRoots == map[] && unsel.sl == multiset{}
      modifies sel, unsel
      ensures Running() && unsel.sl == multiset(RootBmis(w, w.rootDeps.Keys)) && Grown(w, St())
    {
      hide FoldsPushed, Bounded, RootBmis, Holds, Inv, Aligned, Running;
      ghost var st := St();
      var a := w.RootAtom();
      sel.PushSelection(a, w.rootPackages, false);
      var todo := w.rootDeps.Keys;
      ghost var done: set<Root> := {};
      RootPushStart(w, st);
      while todo != {}
        invariant forall q :: q in w.rootDeps <==> q in done || q in todo
        invariant forall q :: q in done ==> q !in todo
        invariant RootPushed(w, st, done, Now())
        invariant sel.projects == [Selected(a, w.rootPackages, true)]
      {
        var r :| r in todo;
        ghost var x := Now();
        var d := w.rootDeps[r];
        sel.PushDep(Dependency(a, d));
        unsel.Push(Bmi(d.ident, d.pl, None, true));
        RootPushStep(w, st, done, r, x, Now());
        todo, done := todo - {r}, done + {r};
      }
      assert done == w.rootDeps.Keys;
      RootRuns(st);
    }

    lemma RootRuns(st: State)
      requires Static() && vqs == [] && st.deps == map[] && st.folds == map[]
      requires RootPushed(w, st, w.rootDeps.Keys, Now())
      requires sel.projects == [Selected(w.RootAtom(), w.rootPackages, true)]
      ensures Running() && Grown(w, St())
    {
      hide Lawful, Bounded, RootBmis, Grown;
      RootIsInv(w, u, st, St());
      RootIsClean(w, St());
      StartIsGrown(w, St());
    }

    /* ----- Looking for a version ----- */

    /** The versions that are left are the last of all, and those before them fail the checks. */
    ghost predicate Passed(st: State, id: Ident, pl: set<Pkg>, all: seq<Version>, left: seq<Version>) {
      && |left| <= |all| && left == all[|all| - |left|..]
      && forall v :: v in all[..|all| - |left|] ==> !CheckOk(w, st, Atom(id, v), pl, false)
    }

    lemma PassedMore(st: State, id: Ident, pl: set<Pkg>, all: seq<Version>, left: seq<Version>)
      requires Passed(st, id, pl, all, left) && left != [] && !CheckOk(w, st, Atom(id, left[0]), pl, false)
      ensures Passed(st, id, pl, all, left[1..])
    {
      hide CheckOk;
      var n := |all| - |left|;
      assert all[..n + 1] == all[..n] + [left[0]];
      assert all[n + 1..] == left[1..];
    }

    lemma PassedNone(st: State, id: Ident, pl: set<Pkg>, all: seq<Version>)
      ensures Passed(st, id, pl, all, all)
    {
      assert all[0..] == all && all[..0] == [];
    }

    lemma PassedAll(st: State, id: Ident, pl: set<Pkg>, all: seq<Version>, left: seq<Version>)
      requires Passed(st, id, pl, all, left)
      ensures left == [] ==> NonePasses(st, id, pl, all)
      ensures left != [] && CheckOk(w, st, Atom(id, left[0]), pl, false) ==> !NonePasses(st, id, pl, all)
    {
      hide CheckOk;
      assert left == [] ==> all[..|all|] == all;
      if left != [] { assert left[0] in all; }
    }

    ghost predicate NonePasses(st: State, id: Ident, pl: set<Pkg>, vs: seq<Version>) {
      forall v :: v in vs ==> !CheckOk(w, st, Atom(id, v), pl, false)
    }

    /** Walks the queue to the first version that passes the checks for pl.  When there is none,
      the project that first asked for this one is marked; the source crashes exactly when none
      did, or when it is handed an empty queue. */
    method FindValidVersion(q: VersionQueue, pl: set<Pkg>) returns (r: Search)
      requires sel.w == w && q.Valid() && q.id.root != w.root
      modifies q, vqs`failed
      ensures q.Valid() && |q.Remaining()| <= old(|q.Remaining()|)
      ensures Passed(St(), q.id, pl, old(q.Remaining()), q.Remaining())
      ensures r.Found? ==> q.pi != [] && CheckOk(w, St(), Atom(q.id, q.pi[0]), pl, false)
      ensures r.NoVersion? ==> q.Remaining() == []
      ensures r.Found? <==> old(q.pi) != [] && !NonePasses(St(), q.id, pl, old(q.Remaining()))
      ensures r.Crashed? <==>
        old(q.pi) == [] || (Stack(sel.deps, q.id.root) == [] && NonePasses(St(), q.id, pl, old(q.Remaining())))
      ensures vqs == old(vqs) && forall p :: p in vqs && p != q && old(p.failed) ==> p.failed
      ensures r.NoVersion? ==> AskerMarked(q.id)
    {
      hide CheckOk, Passed, NonePasses, Blames, Hit;
      PassedNone(St(), q.id, pl, q.Remaining());
      if q.pi == [] { return Crashed; }
      while true
        invariant q.Valid() && q.pi != [] && |q.Remaining()| <= old(|q.Remaining()|)
        invariant Passed(St(), q.id, pl, old(q.Remaining()), q.Remaining())
        invariant vqs == old(vqs) && forall p :: p in vqs && p != q && old(p.failed) ==> p.failed
        decreases |q.Remaining()|
      {
        var ok, _ := Check(Atom(q.id, q.pi[0]), pl, false);
        if ok {
          PassedAll(St(), q.id, pl, old(q.Remaining()), q.Remaining());
          return Found;
        }
        PassedMore(St(), q.id, pl, old(q.Remaining()), q.Remaining());
        var err := q.Advance();
        if err { break; }
        var exhausted := q.IsExhausted();
        if exhausted { break; }
      }
      PassedAll(St(), q.id, pl, old(q.Remaining()), q.Remaining());
      var es := sel.GetDependenciesOn(q.id);
      if es == [] { return Crashed; }
      Fail(es[0].depender.id);
      return NoVersion;
    }

    /** The project that first asked for id. */
    function Asker(id: Ident): set<Ident>
      reads sel`deps
    {
      var es := Stack(sel.deps, id.root);
      if es == [] then {} else {es[0].depender.id}
    }

    /** The oldest queue of the project that first asked for id is marked. */
    ghost predicate AskerMarked(id: Ident)
      reads this, sel`deps, vqs`failed
    {
      forall q :: q in vqs && Hit(q, Asker(id)) ==> q.failed
    }

    /** The version the root lock has for id, unless the project is to change: as it is if the
      constraints allow it, else a listed version at the same revision that they allow.  True
      is an error. */
    method GetLockVersionIfValid(id: Ident) returns (v: Option<Version>, err: bool)
      requires sel.w == w
      ensures err <==> id.root in w.change && w.sourceExists(id) != Some(true)
      ensures !err ==>
        (v.Some? <==>
          id.root in w.rootLock && !((id.root in w.change || w.changeAll) && w.sourceExists(id) == Some(true)))
      ensures v.Some? ==>
        && id.root in w.rootLock
        && LockChoice(w, w.rootLock[id.root], CompositeOf(w, id, Stack(sel.deps, id.root)), id, v.value)
      ensures !err ==> v == LockFor(w, sel.deps, id)
    {
      hide CompositeOf, FirstAllowed, Allows;
      LockForIs(w, sel.deps, id);
      if id.root in w.change || w.changeAll {
        if w.sourceExists(id) == Some(true) { return None, false; }
        if id.root in w.change { return None, true; }
      }
      if id.root !in w.rootLock { return None, false; }
      var c := sel.GetConstraint(id);
      var lv := w.rootLock[id.root];
      if !Allows(w, c, lv) && lv.Revision? {
        var pvs := PairRevision(w.lib, w.versions(id), lv.r);
        assert pvs[0..] == pvs;
        for i := 0 to |pvs|
          invariant FirstAllowed(w, c, pvs, lv) == FirstAllowed(w, c, pvs[i..], lv)
        {
          FirstAllowedStep(w, c, pvs[i..], lv);
          assert pvs[i..][1..] == pvs[i + 1..];
          if Allows(w, c, pvs[i]) { return Some(pvs[i]), false; }
        }
        FirstAllowedStep(w, c, [], lv);
      }
      return Some(lv), false;
    }

    /** The last version that a depender's lock has for the project, root left out. */
    method PreferredVersion(bmi: Bmi) returns (v: Option<Version>)
      ensures v == PreferredFor(w, sel.deps, bmi)
    {
      hide LockedByAll, Entries;
      if !bmi.fromRoot { return bmi.prefv; }
      v := None;
      NothingLocked(w, bmi.id);
      var es := sel.GetDependenciesOn(bmi.id);
      for i := 0 to |es|
        invariant v == LastOf(LockedByAll(w, es[..i], bmi.id))
      {
        ghost var before := LockedByAll(w, es[..i], bmi.id);
        LockedByMore(w, es, i, bmi.id);
        if es[i].depender.id.root != w.root && w.manifest(es[i].depender.id, es[i].depender.v) {
          var lps := w.lock(es[i].depender.id, es[i].depender.v);
          assert before + [] == before;
          for k := 0 to |lps|
            invariant v == LastOf(before + Entries(lps[..k], bmi.id))
          {
            EntriesMore(lps, k, bmi.id);
            if lps[k].0.Eq(bmi.id) {
              v := Some(lps[k].1);
            }
          }
          assert lps[..|lps|] == lps;
        } else {
          assert before + [] == before;
        }
      }
      assert es[..|es|] == es;
    }

    /** A queue for a project whose source exists, or whose code is vendored: the locked and
      preferred versions first. */
    method MakeQueue(bmi: Bmi) returns (q: Option<VersionQueue>)
      requires Static()
      ensures q.None? <==> NoQueue(w, sel.deps, bmi)
      ensures q.Some? ==>
        && q.value.lockv == LockFor(w, sel.deps, bmi.id) && q.value.prefv == PreferredFor(w, sel.deps, bmi)
        && fresh(q.value) && q.value.Valid() && q.value.w == w && q.value.id == bmi.id
        && |q.value.Remaining()| <= u.limit + 2
        && q.value.Remaining() == Schedule(w, bmi.id, q.value.lockv, q.value.prefv)
        && (q.value.pi == [] ==> w.versions(bmi.id) == Some([]))
    {
      hide LockFor, PreferredFor, LockChoice, CompositeOf;
      var there := w.sourceExists(bmi.id);
      if there.None? { return None; }
      if !there.value {
        there := w.vendorExists(bmi.id);
        if there != Some(true) { return None; }
      }
      var lockv: Option<Version> := None;
      if w.rootLock != map[] {
        var err: bool;
        lockv, err := GetLockVersionIfValid(bmi.id);
        if err { return None; }
      } else {
        NoLock(w, sel.deps, bmi.id);
      }
      var prefv := PreferredVersion(bmi);
      q := VersionQueue.New(w, bmi.id, lockv, prefv);
    }

    /** A queue for a project that is not selected, standing at a version that may be.  When
      the constraints come down to a revision, that revision is put in front: lists have none. */
    method CreateVersionQueue(bmi: Bmi) returns (r: Search, q: Option<VersionQueue>)
      requires Static() && bmi.id.root != w.root && bmi.id.root in u.roots
      modifies vqs`failed
      ensures r.Found? ==> q.Some? && fresh(q.value) && QueueOk(q.value) && q.value.id == bmi.id
      ensures r.Found? ==> CheckOk(w, St(), Atom(bmi.id, q.value.pi[0]), bmi.pl, false)
      ensures (q.None? <==> NoQueue(w, sel.deps, bmi)) && (q.None? ==> r.NoVersion?)
      ensures q.Some? ==>
        && q.value.lockv == LockFor(w, sel.deps, bmi.id) && q.value.prefv == PreferredFor(w, sel.deps, bmi)
        && (!r.Crashed? ==> Passed(St(), bmi.id, bmi.pl, CandidatesFor(w, sel.deps, bmi), q.value.Remaining()))
        && (r.NoVersion? ==> q.value.Remaining() == [])
        && (r.Crashed? <==>
              || Scheduled(w, sel.deps, bmi) == []
              || (Stack(sel.deps, bmi.id.root) == []
                  && NonePasses(St(), bmi.id, bmi.pl, CandidatesFor(w, sel.deps, bmi))))
      ensures r.Crashed? ==> w.versions(bmi.id) == Some([]) || Stack(sel.deps, bmi.id.root) == []
      ensures r.Found? ==> StandsRight(bmi, q.value)
      ensures vqs == old(vqs) && forall p :: p in vqs && old(p.failed) ==> p.failed
      ensures q.Some? && r.NoVersion? ==> AskerMarked(bmi.id)
    {
      hide *;
      StaticHas();
      q := MakeQueue(bmi);
      if q.None? { return NoVersion, None; }
      var vq := q.value;
      var crashed := PutRevisionFirst(bmi, vq);
      if crashed { return Crashed, q; }
      r := FindValidVersion(vq, bmi.pl);
      if r.Found? {
        FirstIsTaken(bmi, vq);
        NewQueueIsOk(vq);
      }
    }

    lemma StaticHas()
      requires Static()
      ensures sel.w == w
    {
    }

    /** A revision that the constraints come down to is put in front; the source crashes when there is
      no other version to compare it with. */
    method PutRevisionFirst(bmi: Bmi, vq: VersionQueue) returns (crashed: bool)
      requires sel.w == w && vq.Valid() && vq.w == w && vq.id == bmi.id
      requires vq.lockv == LockFor(w, sel.deps, bmi.id) && vq.prefv == PreferredFor(w, sel.deps, bmi)
      requires vq.Remaining() == Schedule(w, bmi.id, vq.lockv, vq.prefv)
      modifies vq`pi
      ensures crashed ==> Scheduled(w, sel.deps, bmi) == [] && old(vq.pi) == []
      ensures !crashed ==> vq.Valid() && vq.Remaining() == CandidatesFor(w, sel.deps, bmi)
      ensures !crashed ==> (vq.pi == [] <==> Scheduled(w, sel.deps, bmi) == []) && (vq.pi == [] ==> old(vq.pi) == [])
      ensures |vq.Remaining()| <= old(|vq.Remaining()|) + 1
    {
      hide Schedule, Unseen, CompositeOf, LockFor, PreferredFor, CandidatesFor, ToTry;
      ghost var vs := vq.Remaining();
      CandidatesAre(w, sel.deps, bmi);
      var c := sel.GetConstraint(bmi.id);
      if c.Ver? && c.v.Revision? {
        if vq.pi == [] { return true; }
        assert vs[0] == vq.pi[0];
        if vq.pi[0] != c.v { vq.pi := [c.v] + vq.pi; }
      }
      return false;
    }

    lemma NewQueueIsOk(q: VersionQueue)
      requires q.Valid() && q.w == w && q.id.root != w.root && q.id.root in u.roots
      requires q.pi != [] && |q.Remaining()| <= u.limit + 3
      ensures QueueOk(q)
    {
    }

    /** A version that passes the checks. */
    ghost predicate Passes(bmi: Bmi, v: Version)
      reads sel, unsel
    {
      CheckOk(w, St(), Atom(bmi.id, v), bmi.pl, false)
    }

    /** Unless the constraints come down to a revision, the queue stands at the locked version if that
      passes the checks, and at the preferred one if nothing is locked and that passes: in particular
      at what the root lock says, when no change is asked for and the constraints allow it. */
    ghost predicate StandsRight(bmi: Bmi, q: VersionQueue)
      reads sel, unsel, q`pi
    {
      var c, r := CompositeOf(w, bmi.id, Stack(sel.deps, bmi.id.root)), bmi.id.root;
      !(c.Ver? && c.v.Revision?) && q.pi != [] ==>
        && (q.lockv.Some? && Passes(bmi, q.lockv.value) ==> q.pi[0] == q.lockv.value)
        && (q.lockv.None? && q.prefv.Some? && Passes(bmi, q.prefv.value) ==> q.pi[0] == q.prefv.value)
        && (r in w.rootLock && r !in w.change && !w.changeAll && Matches(w.lib, c, Ver(w.rootLock[r])) ==>
              Passes(bmi, w.rootLock[r]) ==> q.pi[0] == w.rootLock[r])
    }

    lemma FirstIsTaken(bmi: Bmi, q: VersionQueue)
      requires q.pi != [] && q.w == w && q.id == bmi.id && q.Valid()
      requires q.lockv == LockFor(w, sel.deps, bmi.id) && q.prefv == PreferredFor(w, sel.deps, bmi)
      requires Passed(St(), bmi.id, bmi.pl, CandidatesFor(w, sel.deps, bmi), q.Remaining())
      ensures StandsRight(bmi, q)
    {
      hide CheckOk, CompositeOf, Unseen, FirstAllowed, PreferredFor;
      var vs := CandidatesFor(w, sel.deps, bmi);
      assert vs != [] && CheckOk(w, St(), Atom(bmi.id, vs[0]), bmi.pl, false) ==> q.Remaining() == vs;
    }

    /* ----- Backtracking ----- */

    /** Pops entries up to and including the last one that selected a project.  The root
      project stays where it is. */
    method UnselectProject() returns (s: Selected)
      requires Static() && Holds() && FirstAtoms(w, sel.projects) != []
      modifies `untidy, sel, unsel
      ensures Holds() && FirstAtoms(w, old(sel.projects)) == FirstAtoms(w, sel.projects) + [s.a]
      ensures s.first && EntryOk(w, u, s) && Fits(w, St(), s.a, false) && Bmi(s.a.id, s.pl, None, false) in unsel.sl
    {
      ghost var fs := FirstAtoms(w, sel.projects);
      s := UnselectOne();
      while !s.first
        invariant Holds() && EntryOk(w, u, s) && Fits(w, St(), s.a, !s.first)
        invariant Bmi(s.a.id, s.pl, None, false) in unsel.sl
        invariant FirstAtoms(w, sel.projects) + (if s.first then [s.a] else []) == fs
        decreases |sel.projects|
      {
        s := UnselectOne();
      }
    }

    /** `unselectLast` above the root project keeps the invariants, and leaves nothing stale
      if and only if the worklist was tidy. */
    method UnselectOne() returns (s: Selected)
      requires Static() && Holds() && FirstAtoms(w, sel.projects) != []
      modifies `untidy, sel, unsel
      ensures Holds() && EntryOk(w, u, s) && untidy == (old(untidy) || !Tidy(w, old(St()), s))
      ensures Clean(w, old(St())) ==> (Clean(w, St()) <==> Tidy(w, old(St()), s))
      ensures Fits(w, St(), s.a, !s.first)
      ensures FirstAtoms(w, old(sel.projects)) == FirstAtoms(w, sel.projects) + if s.first then [s.a] else []
      ensures |sel.projects| < |old(sel.projects)| && Bmi(s.a.id, s.pl, None, false) in unsel.sl
    {
      ghost var st := St();
      MoreThanRoot(w, u, st);
      s := UnselectLast();
      PoppedIsQueued(w, st, s, St());
      UnselectKeepsInv(w, u, st, s, St());
      if Clean(w, st) { UnselectKeepsClean(w, u, st, s, St()); }
      untidy := untidy || !Tidy(w, st, s);
      Push(w, sel.projects, s, s.a.id.root);
    }

    /** Drops the queues on top that are not marked, with the projects they belong to. */
    method PopUnfailed()
      requires Running()
      modifies `vqs, `untidy, sel, unsel
      ensures Running() && |vqs| <= |old(vqs)| && vqs == old(vqs)[..|vqs|]
      ensures vqs == [] || vqs[|vqs| - 1].failed
      ensures forall i :: |vqs| <= i < |old(vqs)| ==> !old(vqs)[i].failed
    {
      hide *;
      while vqs != [] && !vqs[|vqs| - 1].failed
        invariant Running() && |vqs| <= |old(vqs)| && vqs == old(vqs)[..|vqs|]
        invariant forall i :: |vqs| <= i < |old(vqs)| ==> !old(vqs)[i].failed
        decreases |vqs|
      {
        DropTop();
      }
    }

    /** The worklist has an entry for a project that has no version; or, after an untidy
      unselection, for one that no live edge names: the two ways to a crash. */
    ghost predicate Stale()
      reads `untidy, sel`deps, unsel
    {
      exists b :: b in unsel.sl && ((untidy && Stack(sel.deps, b.id.root) == []) || w.versions(b.id) == Some([]))
    }

    /** Moves the queue of the unselected project s on, and selects the project again if
      another version will do. */
    method Retry(q: VersionQueue, s: Selected) returns (r: Search)
      requires Static() && Holds() && EntryOk(w, u, s) && s.a.id == q.id && Fits(w, St(), s.a, false)
      requires QueueOk(q) && Bmi(s.a.id, s.pl, None, false) in unsel.sl
      modifies sel, unsel, q, vqs`failed
      ensures r.Crashed? ==> Stale()
      ensures r.Found? ==> Holds() && QueueOk(q) && |q.Remaining()| < old(|q.Remaining()|)
      ensures r.Found? ==> FirstAtoms(w, sel.projects) == FirstAtoms(w, old(sel.projects)) + [Atom(q.id, q.pi[0])]
      ensures r.NoVersion? ==> Holds() && St() == old(St()) && q.Remaining() == []
      ensures r.Crashed? <==>
        var rest := old(q.Remaining())[1..];
        && rest != [] && Stack(old(sel.deps), q.id.root) == [] && NonePasses(old(St()), q.id, s.pl, rest)
      ensures !r.Crashed? ==>
        old(q.Remaining()) != [] && Passed(old(St()), q.id, s.pl, old(q.Remaining())[1..], q.Remaining())
      ensures vqs == old(vqs) && forall p :: p in vqs && p != q && old(p.failed) ==> p.failed
      ensures r.NoVersion? && old(q.Remaining())[1..] != [] ==> AskerMarked(q.id)
    {
      hide Inv, Holds, Lawful, Bounded, FirstAtoms, CheckOk, Selects, Passed, NonePasses, Stale, AskerMarked, Hit;
      PassedNone(St(), q.id, s.pl, q.Remaining()[1..]);
      var err := q.Advance();
      if err { return NoVersion; }
      var exhausted := q.IsExhausted();
      if exhausted { return NoVersion; }
      assert |q.Remaining()| < old(|q.Remaining()|);
      r := FindValidVersion(q, s.pl);
      if r.Found? {
        Select(Atom(q.id, q.pi[0]), Bmi(s.a.id, s.pl, None, false), false);
      } else if r.Crashed? {
        StaleBy(Bmi(s.a.id, s.pl, None, false));
      }
    }

    /** Unselects the project of the top queue.  The queue stack and the selection line up, so
      the project unselected is the queue's own. */
    method UnselectTop(ghost below: seq<VersionQueue>) returns (s: Selected)
      requires Running() && vqs != [] && below == vqs[..|vqs| - 1]
      modifies `untidy, sel, unsel
      ensures Holds() && EntryOk(w, u, s) && Fits(w, St(), s.a, false)
      ensures Bmi(s.a.id, s.pl, None, false) in unsel.sl
      ensures vqs[|vqs| - 1].id == s.a.id && QueueOk(vqs[|vqs| - 1]) && vqs[|vqs| - 1] !in below
      ensures Aligned(below, FirstAtoms(w, sel.projects))
    {
      hide Inv, Holds, Lawful, Bounded, Fits, EntryOk, FirstAtoms;
      ghost var fs := FirstAtoms(w, sel.projects);
      AlignedTop(vqs, fs);
      s := UnselectProject();
      assert fs[..|below|] == FirstAtoms(w, sel.projects);
    }

    /** Drops the top queue and unselects its project. */
    method DropTop()
      requires Running() && vqs != []
      modifies `vqs, `untidy, sel, unsel
      ensures Running() && vqs == old(vqs)[..|old(vqs)| - 1]
    {
      hide Inv, Holds, Lawful, Bounded, Aligned, FirstAtoms, EntryOk, Fits;
      ghost var below := vqs[..|vqs| - 1];
      var _ := UnselectTop(below);
      vqs := vqs[..|vqs| - 1];
    }

    /** Unselects the project of the top queue and tries it at another version; the queue is
      dropped when there is none. */
    method RetryTop() returns (r: Search)
      requires Running() && vqs != []
      modifies `vqs, `untidy, sel, unsel, vqs[|vqs| - 1], vqs`failed
      ensures r.Crashed? ==> Stale() && vqs == old(vqs)
      ensures r.Found? ==> Running() && vqs == old(vqs)
      ensures r.Found? ==> |vqs[|vqs| - 1].Remaining()| < old(|vqs[|vqs| - 1].Remaining()|)
      ensures r.NoVersion? ==> Running() && vqs == old(vqs)[..|old(vqs)| - 1]
      ensures r.NoVersion? ==> old(vqs)[|old(vqs)| - 1].Remaining() == []
      ensures forall i :: 0 <= i < |old(vqs)| - 1 && old(vqs[i].failed) ==> old(vqs)[i].failed
    {
      hide Inv, Holds, Lawful, Bounded, Aligned, FirstAtoms, Fits, EntryOk, QueueOk, Passed, NonePasses;
      var q := vqs[|vqs| - 1];
      ghost var below := vqs[..|vqs| - 1];
      assert vqs == below + [q];
      var s := UnselectTop(below);
      ghost var fs := FirstAtoms(w, sel.projects);
      r := Retry(q, s);
      if r.NoVersion? {
        vqs := vqs[..|vqs| - 1];
      } else if r.Found? {
        AlignedPush(below, fs, q);
      }
    }

    lemma AlignedTop(qs: seq<VersionQueue>, atoms: seq<Atom>)
      requires Aligned(qs, atoms) && qs != []
      ensures var n := |qs| - 1;
        && Aligned(qs[..n], atoms[..n]) && QueueOk(qs[n]) && qs[n] !in qs[..n]
        && atoms[n].id == qs[n].id
    {
    }

    lemma AlignedPush(qs: seq<VersionQueue>, atoms: seq<Atom>, q: VersionQueue)
      requires Aligned(qs, atoms) && QueueOk(q) && q !in qs
      ensures Aligned(qs + [q], atoms + [Atom(q.id, q.pi[0])])
    {
    }

    /** `selectAtom` for a worklist entry, of an atom that passed the checks, keeps the invariants. */
    method Select(a: Atom, bmi: Bmi, pkgonly: bool)
      requires Static() && Holds() && a.id.root in u.roots && Fits(w, St(), a, pkgonly)
      requires bmi in unsel.sl && bmi.id == a.id && CheckOk(w, St(), a, bmi.pl, pkgonly)
      modifies sel, unsel
      ensures Selects(w, old(St()), a, bmi.pl, pkgonly, St()) && Holds()
      ensures FirstAtoms(w, sel.projects) ==
        (if pkgonly then FirstAtoms(w, old(sel.projects)) else FirstAtoms(w, old(sel.projects)) + [a])
    {
      ghost var st := St();
      StacksAreRooted(w, u, st, a, bmi.pl);
      SelectAtom(a, bmi.pl, pkgonly);
      SelectHolds(st, a, bmi, pkgonly);
      Push(w, st.projects, Pushed(w, a, bmi.pl, pkgonly), a.id.root);
    }

    lemma SelectHolds(st: State, a: Atom, bmi: Bmi, pkgonly: bool)
      requires Static() && Inv(w, u, st) && (untidy || Clean(w, st)) && a.id.root in u.roots && Fits(w, st, a, pkgonly)
      requires bmi in st.unsel && bmi.id == a.id && CheckOk(w, st, a, bmi.pl, pkgonly)
      requires Selects(w, st, a, bmi.pl, pkgonly, St())
      ensures Holds()
    {
      hide CheckOk, Selects, Lawful, Bounded, Inv;
      SelectKeepsInv(w, u, st, a, bmi.pl, pkgonly, St());
      if Clean(w, st) { SelectKeepsClean(w, u, st, a, bmi.pl, pkgonly, St()); }
    }

    /** The queues qs, at the bottom of the stack that had lefts versions left, are as they were. */
    ghost predicate Untouched(qs: seq<VersionQueue>, lefts: seq<nat>)
      reads qs`pi, qs`allLoaded
    {
      |qs| <= |lefts| && forall i :: 0 <= i < |qs| ==> |qs[i].Remaining()| == lefts[i]
    }

    /** The queues that are marked, or are about to be because of ids. */
    ghost function Owed(ids: set<Ident>): (qs: set<VersionQueue>)
      reads this, vqs`failed
      ensures forall q :: q in qs ==> q in vqs && (q.failed || Hit(q, ids))
      ensures forall q :: q in vqs && (q.failed || Hit(q, ids)) ==> q in qs
    {
      set q | q in vqs && (q.failed || Hit(q, ids))
    }

    /** Of these queues only those without a version left are off the stack. */
    ghost predicate Spent(qs: set<VersionQueue>)
      reads this, qs`pi, qs`allLoaded
    {
      forall q :: q in qs && q !in vqs ==> q.Remaining() == []
    }

    /** Works back to the next state to go on from.  `NoVersion` means there is none.  What is left is
      the bottom of the stack; of the queues that were marked, only those without a version left are
      gone. */
    method Backtrack() returns (r: Search)
      requires Running()
      modifies this, sel, unsel, vqs
      ensures r.Crashed? ==> Stale()
      ensures r.NoVersion? ==> Running() && vqs == []
      ensures r.Found? ==> Running() && RankOf(Lefts(vqs)) < old(RankOf(Lefts(vqs)))
      ensures |vqs| <= |old(vqs)| && vqs == old(vqs)[..|vqs|]
      ensures !r.Crashed? ==> Spent(old(Owed({})))
    {
      hide *;
      LeftsNow();
      ghost var all, lefts, owed := vqs, Lefts(vqs), Owed({});
      BacktrackStarts(owed);
      AllApart();
      ghost var gone := all[|all|..];
      assert all[..|all|] == all;
      while true
        invariant Running() && |vqs| <= |all| && vqs == all[..|vqs|] && gone == all[|vqs|..] && all == old(vqs)
        invariant Untouched(vqs, lefts) && MarkedIn(vqs, owed) && SpentIn(gone, owed)
        decreases |vqs|
      {
        ApartAt(all, |vqs|);
        ghost var off, m := [], |vqs|;
        r, off := BackOnce(lefts, owed);
        SliceBack(all, |vqs|, m);
        if r.Crashed? { return; }
        SpentBoth(off, gone, owed);
        gone := off + gone;
        if r.Found? || vqs == [] { break; }
      }
      AllSpent(all, gone, owed);
    }

    lemma SliceBack<T>(all: seq<T>, n: nat, m: nat)
      requires n <= m <= |all|
      ensures all[..m][n..] + all[m..] == all[n..] && all[..m][..n] == all[..n]
    {
    }

    /** Drops what is not marked, and retries the queue on top then.  `NoVersion` means that no queue
      is left, or that the one retried is dropped too. */
    method BackOnce(ghost lefts: seq<nat>, ghost owed: set<VersionQueue>)
      returns (r: Search, ghost off: seq<VersionQueue>)
      requires Running() && Untouched(vqs, lefts) && Digits(lefts, u.limit + 5) && MarkedIn(vqs, owed)
      modifies this, sel, unsel, vqs
      ensures |vqs| <= |old(vqs)| && vqs == old(vqs)[..|vqs|] && off == old(vqs)[|vqs|..]
      ensures r.Crashed? ==> Stale()
      ensures !r.Crashed? ==> Running() && SpentIn(off, owed)
      ensures r.Found? ==> RankOf(Lefts(vqs)) < RankOf(lefts)
      ensures r.NoVersion? ==> Untouched(vqs, lefts) && MarkedIn(vqs, owed) && (vqs == [] || |vqs| < |old(vqs)|)
    {
      hide *;
      ghost var all := vqs;
      AllApart();
      PopUnfailed();
      UntouchedBelow(all, |vqs|, lefts);
      UnmarkedMayGo(all, |vqs|, owed);
      off := all[|vqs|..];
      if vqs == [] { return NoVersion, off; }
      ApartAt(all, |vqs|);
      ghost var top := vqs[|vqs| - 1];
      r := RetryOrDrop(lefts, owed);
      if r.NoVersion? {
        SpentBoth([top], off, owed);
        off := [top] + off;
      }
    }

    /** Of these queues those that are owed are marked. */
    ghost predicate MarkedIn(qs: seq<VersionQueue>, owed: set<VersionQueue>)
      reads qs`failed
    {
      forall q :: q in qs && q in owed ==> q.failed
    }

    /** Of these queues those that are owed have no version left. */
    ghost predicate SpentIn(qs: seq<VersionQueue>, owed: set<VersionQueue>)
      reads qs`pi, qs`allLoaded
    {
      forall q :: q in qs && q in owed ==> q.Remaining() == []
    }

    lemma AllApart()
      requires Running()
      ensures Apart(vqs)
    {
    }

    ghost predicate Apart(qs: seq<VersionQueue>) {
      forall i, j :: 0 <= i < j < |qs| ==> qs[i] != qs[j]
    }

    lemma ApartAt(all: seq<VersionQueue>, n: nat)
      requires Apart(all) && n <= |all|
      ensures forall q :: q in all[..n] ==> q !in all[n..]
    {
      forall q | q in all[..n] ensures q !in all[n..] {
        var i :| 0 <= i < n && all[..n][i] == q;
        forall j | 0 <= j < |all| - n ensures all[n..][j] != q { assert all[n..][j] == all[n + j]; }
      }
    }

    lemma BacktrackStarts(owed: set<VersionQueue>)
      requires owed == Owed({})
      ensures MarkedIn(vqs, owed) && SpentIn(vqs[|vqs|..], owed) && owed <= Members(vqs)
    {
    }

    lemma MarkedEach(qs: seq<VersionQueue>, owed: set<VersionQueue>)
      requires MarkedIn(qs, owed)
      ensures forall i :: 0 <= i < |qs| && qs[i] in owed ==> qs[i].failed
    {
    }

    lemma MarkedAll(qs: seq<VersionQueue>, owed: set<VersionQueue>)
      requires forall i :: 0 <= i < |qs| && qs[i] in owed ==> qs[i].failed
      ensures MarkedIn(qs, owed)
    {
    }

    lemma OneIsSpent(q: VersionQueue, owed: set<VersionQueue>)
      requires q.Remaining() == []
      ensures SpentIn([q], owed)
    {
    }

    /** What is not marked is not owed, and may go. */
    lemma UnmarkedMayGo(qs: seq<VersionQueue>, n: nat, owed: set<VersionQueue>)
      requires n <= |qs| && MarkedIn(qs, owed) && forall i :: n <= i < |qs| ==> !qs[i].failed
      ensures MarkedIn(qs[..n], owed) && SpentIn(qs[n..], owed)
    {
      forall q | q in qs[n..] ensures q !in owed {
        var i :| 0 <= i < |qs| - n && qs[n..][i] == q;
        assert qs[n + i] == q;
      }
    }

    lemma SpentBoth(qs: seq<VersionQueue>, rs: seq<VersionQueue>, owed: set<VersionQueue>)
      requires SpentIn(qs, owed) && SpentIn(rs, owed)
      ensures SpentIn(qs + rs, owed)
    {
    }

    lemma AllSpent(all: seq<VersionQueue>, gone: seq<VersionQueue>, owed: set<VersionQueue>)
      requires |vqs| <= |all| && vqs == all[..|vqs|] && gone == all[|vqs|..] && SpentIn(gone, owed)
      requires owed <= Members(all)
      ensures Spent(owed)
    {
      assert all == vqs + gone;
    }

    ghost function Members(qs: seq<VersionQueue>): set<VersionQueue> {
      set q | q in qs
    }

    lemma TopIsApart()
      requires Running() && vqs != []
      ensures vqs[|vqs| - 1] !in vqs[..|vqs| - 1]
    {
    }

    lemma UntouchedBelow(qs: seq<VersionQueue>, n: nat, lefts: seq<nat>)
      requires n <= |qs| && Untouched(qs, lefts)
      ensures Untouched(qs[..n], lefts) && |qs| <= |lefts| && (n < |qs| ==> |qs[n].Remaining()| == lefts[n])
    {
    }

    method RetryOrDrop(ghost lefts: seq<nat>, ghost owed: set<VersionQueue>) returns (r: Search)
      requires Running() && vqs != [] && Untouched(vqs, lefts) && Digits(lefts, u.limit + 5) && MarkedIn(vqs, owed)
      modifies `vqs, `attempts, `untidy, sel, unsel, vqs[|vqs| - 1], vqs`failed
      ensures r.Crashed? ==> Stale()
      ensures r.Found? ==> Running() && vqs == old(vqs) && RankOf(Lefts(vqs)) < RankOf(lefts)
      ensures r.NoVersion? ==> Running() && vqs == old(vqs)[..|old(vqs)| - 1] && Untouched(vqs, lefts)
      ensures r.NoVersion? ==> MarkedIn(vqs, owed) && SpentIn([old(vqs)[|old(vqs)| - 1]], owed)
      ensures r.Crashed? ==> vqs == old(vqs)
    {
      hide *;
      ghost var below, top := vqs[..|vqs| - 1], vqs[|vqs| - 1];
      TopIsApart();
      UntouchedBelow(vqs, |vqs| - 1, lefts);
      MarkedEach(vqs, owed);
      r := RetryTop();
      if r.NoVersion? {
        MarkedAll(below, owed);
        OneIsSpent(top, owed);
      }
      if r.Found? {
        attempts := attempts + 1;
        LeftsFell(lefts, below);
      }
    }

    /** With the queues below as they were and fewer versions left on the one on top, the rank
      of the stack has fallen. */
    lemma LeftsFell(lefts: seq<nat>, below: seq<VersionQueue>)
      requires Running() && vqs != [] && below == vqs[..|vqs| - 1] && |vqs| <= |lefts| && Digits(lefts, u.limit + 5)
      requires Untouched(below, lefts) && |vqs[|vqs| - 1].Remaining()| < lefts[|vqs| - 1]
      ensures RankOf(Lefts(vqs)) < RankOf(lefts)
    {
      hide Inv, Clean, Lawful, Bounded, FirstAtoms, Rank;
      var n := |vqs| - 1;
      RunningIsGrounded();
      StackIsBounded(w, u, sel.projects);
      assert Lefts(vqs) == lefts[..n] + [|vqs[n].Remaining()|] by {
        assert forall i :: 0 <= i < n ==> vqs[i] == below[i];
      }
      RankFalls(lefts, n, |vqs[n].Remaining()|, |u.roots|, u.limit + 5);
    }

    lemma RunningIsGrounded()
      requires Running()
      ensures Grounded(w, u, sel.projects) && OneVersion(sel.projects)
    {
      hide Clean, Lawful, Bounded, FirstAtoms, Aligned;
    }

    lemma LeftsNow()
      requires Running()
      ensures Digits(Lefts(vqs), u.limit + 5) && Untouched(vqs, Lefts(vqs))
    {
      hide Holds, Lawful, Bounded, FirstAtoms;
    }

    lemma RunningHas(bmi: Bmi)
      requires Running() && bmi in unsel.sl
      ensures Static() && Holds() && sel.w == w && bmi.id.root != w.root && bmi.id.root in u.roots
    {
      hide Lawful, Bounded, FirstAtoms, Aligned;
      QueuedIsOk(w, u, St(), bmi);
    }

    /* ----- The main loop ----- */

    /** Until the first refusal, the state is one that a solve without backtracking comes to. */
    ghost predicate Eager()
      reads sel, unsel
    {
      Grown(w, St()) || Refusal(w)
    }

    /** Whom the refusal of an entry blames: the project that first asked for it, when it is to be
      selected; else those whose requirements the new packages break. */
    ghost predicate RefusalBlames(bmi: Bmi, ids: set<Ident>)
      reads sel, unsel
    {
      match SelectedFor(sel.projects, bmi.id.root)
      case Some(s) => Blames(St(), Atom(bmi.id, s.a.v), bmi.pl, true, ids)
      case None => ids == if NoQueue(w, sel.deps, bmi) then {} else Asker(bmi.id)
    }

    /** Takes up a project that is not selected yet; if no version of it will do, backtracks. */
    method AddProject(bmi: Bmi) returns (r: Search)
      requires Running() && Eager() && bmi in unsel.sl && SelectedFor(sel.projects, bmi.id.root).None?
      modifies this, sel, unsel, vqs
      ensures r.Crashed? ==> Stale()
      ensures r.NoVersion? ==> Running() && vqs == []
      ensures r.Found? ==> Running() && Eager() && RankOf(Lefts(vqs)) < old(RankOf(Lefts(vqs)))
      ensures r.Found? ==> forall q :: q in vqs ==> q in old(vqs) || fresh(q)
      ensures !r.Found? ==> Refusal(w)
      ensures !r.Crashed? && old(Refused(w, St(), bmi)) ==>
        exists ids :: old(RefusalBlames(bmi, ids)) && Spent(old(Owed(ids)))
    {
      hide *;
      RunningHas(bmi);
      LeftsNow();
      ghost var lefts := Lefts(vqs);
      var q: Option<VersionQueue>;
      r, q := CreateVersionQueue(bmi);
      if r.Found? { QueueStands(q.value); }
      QueueSays(bmi, q, r);
      if r.Found? {
        TakeUp(bmi, q.value, lefts);
        return;
      }
      RefusedNow(bmi);
      if r.NoVersion? {
        ghost var ids := if q.None? then {} else Asker(bmi.id);
        BlamesAsker(bmi, ids);
        AskersAreMarked(bmi.id, ids);
        ghost var owed := Owed({});
        NoneHit();
        assert old(Owed(ids)) <= owed;
        r := Backtrack();
        EagerAfter();
        if !r.Crashed? { SpentLess(owed, old(Owed(ids))); }
      } else {
        RunningHas(bmi);
        StaleBy(bmi);
      }
    }

    /** What the queue that was made says of the entry. */
    lemma QueueSays(bmi: Bmi, q: Option<VersionQueue>, r: Search)
      requires SelectedFor(sel.projects, bmi.id.root).None?
      requires (q.None? <==> NoQueue(w, sel.deps, bmi)) && (q.None? ==> r.NoVersion?)
      requires r.Found? ==> q.Some? && q.value.pi != [] && CheckOk(w, St(), Atom(bmi.id, q.value.pi[0]), bmi.pl, false)
      requires q.Some? ==>
        && (!r.Crashed? ==> Passed(St(), bmi.id, bmi.pl, CandidatesFor(w, sel.deps, bmi), q.value.Remaining()))
        && (r.NoVersion? ==> q.value.Remaining() == [])
        && (r.Crashed? <==>
              || Scheduled(w, sel.deps, bmi) == []
              || (Stack(sel.deps, bmi.id.root) == []
                  && NonePasses(St(), bmi.id, bmi.pl, CandidatesFor(w, sel.deps, bmi))))
      ensures r.Found? <==> !Refused(w, St(), bmi)
      ensures r.Found? ==> Served(w, St(), bmi, Atom(bmi.id, q.value.pi[0]), false)
    {
      hide CheckOk, NoQueue, Scheduled, CandidatesFor, SelectedFor;
      if q.Some? && !r.Crashed? {
        var all, left := CandidatesFor(w, sel.deps, bmi), q.value.Remaining();
        if r.Found? {
          var n := |all| - |left|;
          assert left[0] == q.value.pi[0] && all[n] == left[0];
          assert forall j :: 0 <= j < n ==> all[j] in all[..n];
          assert FirstPassing(w, St(), bmi, all, all[n]);
        } else {
          PassedAll(St(), bmi.id, bmi.pl, all, left);
        }
      }
    }

    lemma RefusedNow(bmi: Bmi)
      requires Eager() && bmi in unsel.sl && Refused(w, St(), bmi)
      ensures Refusal(w)
    {
      if Grown(w, St()) { assert RefusedAt(w, St(), bmi); }
    }

    lemma SpentLess(qs: set<VersionQueue>, rs: set<VersionQueue>)
      requires Spent(qs) && rs <= qs
      ensures Spent(rs)
    {
    }

    lemma EagerAfter()
      requires Refusal(w)
      ensures Eager()
    {
    }

    lemma QueueStands(q: VersionQueue)
      requires QueueOk(q)
      ensures q.pi != []
    {
    }

    lemma AskersAreMarked(id: Ident, ids: set<Ident>)
      requires ids == {} || (ids == Asker(id) && AskerMarked(id))
      ensures forall q :: q in vqs && Hit(q, ids) ==> q.failed
    {
    }

    lemma BlamesAsker(bmi: Bmi, ids: set<Ident>)
      requires SelectedFor(sel.projects, bmi.id.root).None?
      requires ids == if NoQueue(w, sel.deps, bmi) then {} else Asker(bmi.id)
      ensures RefusalBlames(bmi, ids)
    {
    }

    lemma StaleBy(bmi: Bmi)
      requires Holds() && bmi in unsel.sl && (Stack(sel.deps, bmi.id.root) == [] || w.versions(bmi.id) == Some([]))
      ensures Stale()
    {
      hide Inv;
    }

    /** Selects a project at the version its new queue stands at, and stacks the queue. */
    method TakeUp(bmi: Bmi, q: VersionQueue, ghost lefts: seq<nat>)
      requires Running() && bmi in unsel.sl && SelectedFor(sel.projects, bmi.id.root).None?
      requires QueueOk(q) && q !in vqs && q.id == bmi.id
      requires Eager() && Served(w, St(), bmi, Atom(bmi.id, q.pi[0]), false)
      requires Untouched(vqs, lefts) && |lefts| == |vqs| && Digits(lefts, u.limit + 5)
      modifies `vqs, sel, unsel
      ensures Running() && Eager() && vqs == old(vqs) + [q] && RankOf(Lefts(vqs)) < RankOf(lefts)
    {
      hide Served, Eager, Grown, Refusal, Inv, Lawful, Bounded, FirstAtoms, Rank, Aligned, CheckOk, Untouched, Selects;
      ServedIsOk(St(), bmi, Atom(bmi.id, q.pi[0]), false);
      ghost var st := St();
      EagerIs();
      RoomForOne(w, u, St(), bmi.id.root);
      ghost var fs := FirstAtoms(w, sel.projects);
      AlignedLength(vqs, fs);
      Select(Atom(bmi.id, q.pi[0]), bmi, false);
      StillEager(st, bmi, Atom(bmi.id, q.pi[0]), false);
      AlignedPush(vqs, fs, q);
      LeftsGrew(vqs, lefts, q);
      vqs := vqs + [q];
    }

    lemma ServedIsOk(st: State, bmi: Bmi, a: Atom, pkgonly: bool)
      requires Served(w, st, bmi, a, pkgonly)
      ensures CheckOk(w, st, a, bmi.pl, pkgonly) && a.id == bmi.id
    {
      hide CheckOk, NoQueue, Scheduled, CandidatesFor;
    }

    lemma EagerIs()
      requires Eager()
      ensures Grown(w, St()) || Refusal(w)
    {
    }

    lemma StillEager(st: State, bmi: Bmi, a: Atom, pkgonly: bool)
      requires Grown(w, st) || Refusal(w)
      requires bmi in st.unsel && Served(w, st, bmi, a, pkgonly) && Selects(w, st, a, bmi.pl, pkgonly, St())
      ensures Eager()
    {
      hide Served, Selects, Grown, Refusal;
      if Grown(w, st) { GrowsOn(w, st, bmi, a, pkgonly, St()); }
    }

    lemma AlignedLength(qs: seq<VersionQueue>, atoms: seq<Atom>)
      requires Aligned(qs, atoms)
      ensures |qs| == |atoms|
    {
    }

    /** Adds packages to the version selected of a project; if they will not do, backtracks. */
    method AddPackages(bmi: Bmi, s: Selected) returns (r: Search)
      requires Running() && Eager() && bmi in unsel.sl && SelectedFor(sel.projects, bmi.id.root) == Some(s)
      modifies this, sel, unsel, vqs
      ensures r.Crashed? ==> Stale()
      ensures r.NoVersion? ==> Running() && vqs == []
      ensures r.Found? ==> Running() && Eager() && forall q :: q in vqs ==> q in old(vqs)
      ensures r.Found? ==>
        || RankOf(Lefts(vqs)) < old(RankOf(Lefts(vqs)))
        || (RankOf(Lefts(vqs)) == old(RankOf(Lefts(vqs))) && Narrower(w, u, old(St()), St()))
      ensures !r.Found? ==> Refusal(w)
      ensures !r.Crashed? && old(Refused(w, St(), bmi)) ==>
        exists ids :: old(RefusalBlames(bmi, ids)) && Spent(old(Owed(ids)))
    {
      hide *;
      RunningHas(bmi);
      var a := Atom(bmi.id, s.a.v);
      var ok, ids := Check(a, bmi.pl, true);
      AdditionSays(bmi, s);
      if ok {
        AddTo(bmi, a);
        r := Found;
      } else {
        RefusedNow(bmi);
        BlamesBroken(bmi, s, ids);
        ghost var owed := Owed({});
        assert old(Owed(ids)) <= owed;
        r := Backtrack();
        EagerAfter();
        if !r.Crashed? { SpentLess(owed, old(Owed(ids))); }
      }
    }

    lemma AdditionSays(bmi: Bmi, s: Selected)
      requires SelectedFor(sel.projects, bmi.id.root) == Some(s)
      ensures var a := Atom(bmi.id, s.a.v);
        && (CheckOk(w, St(), a, bmi.pl, true) <==> !Refused(w, St(), bmi))
        && (CheckOk(w, St(), a, bmi.pl, true) ==> Served(w, St(), bmi, a, true))
    {
      hide CheckOk;
    }

    lemma BlamesBroken(bmi: Bmi, s: Selected, ids: set<Ident>)
      requires SelectedFor(sel.projects, bmi.id.root) == Some(s) && Blames(St(), Atom(bmi.id, s.a.v), bmi.pl, true, ids)
      ensures RefusalBlames(bmi, ids)
    {
      hide Blames;
    }

    method AddTo(bmi: Bmi, a: Atom)
      requires Running() && Eager() && bmi in unsel.sl && Served(w, St(), bmi, a, true)
      requires SelectedFor(sel.projects, bmi.id.root).Some? && SelectedFor(sel.projects, bmi.id.root).value.a.v == a.v
      modifies sel, unsel
      ensures Running() && Eager() && Narrower(w, u, old(St()), St())
    {
      hide Served, Eager, Grown, Refusal, Inv, Lawful, Bounded, FirstAtoms, Aligned, CheckOk, Selects, Narrower, Fits;
      ServedIsOk(St(), bmi, a, true);
      ghost var st := St();
      EagerIs();
      QueuedIsOk(w, u, st, bmi);
      MoreFits(w, u, st, a);
      Select(a, bmi, true);
      StillEager(st, bmi, a, true);
      PackageStepProgresses(w, u, st, bmi, a, true, St());
    }

    lemma LeftsGrew(qs: seq<VersionQueue>, lefts: seq<nat>, q: VersionQueue)
      requires Untouched(qs, lefts) && |qs| == |lefts| < |u.roots| && Digits(lefts, u.limit + 5) && QueueOk(q)
      ensures RankOf(Lefts(qs + [q])) < RankOf(lefts)
    {
      var ls := lefts[..|qs|] + [|q.Remaining()|];
      assert Lefts(qs + [q]) == ls by {
        assert forall i :: 0 <= i < |qs| ==> (qs + [q])[i] == qs[i];
      }
      RankFalls(lefts, |qs|, |q.Remaining()|, |u.roots|, u.limit + 5);
    }

    /** One round of the main loop, for any entry of the worklist. */
    method Step() returns (r: Search)
      requires Running() && Eager() && unsel.sl != multiset{}
      modifies this, sel, unsel, vqs
      ensures r.Crashed? ==> Stale()
      ensures r.NoVersion? ==> Running() && vqs == []
      ensures r.Found? ==> Running() && Eager() && forall q :: q in vqs ==> q in old(vqs) || fresh(q)
      ensures !r.Found? ==> Refusal(w)
      ensures !r.Crashed? ==>
        exists bmi :: bmi in old(unsel.sl) && (old(Refused(w, St(), bmi)) ==>
          exists ids :: old(RefusalBlames(bmi, ids)) && Spent(old(Owed(ids))))
      ensures r.Found? ==>
        || RankOf(Lefts(vqs)) < old(RankOf(Lefts(vqs)))
        || (RankOf(Lefts(vqs)) == old(RankOf(Lefts(vqs)))
            && (|Unrequired(w, u, sel.projects)| < old(|Unrequired(w, u, sel.projects)|)
                || (|Unrequired(w, u, sel.projects)| == old(|Unrequired(w, u, sel.projects)|)
                    && |unsel.sl| < old(|unsel.sl|))))
    {
      hide Inv, Lawful, Bounded, FirstAtoms, Rank, Aligned, Eager, Refusal, Refused, RefusalBlames, Owed, Spent, Running;
      var bmi :| bmi in unsel.sl;
      var s := sel.SelectedEntry(bmi.id);
      if s.None? {
        r := AddProject(bmi);
      } else {
        r := AddPackages(bmi, s.value);
      }
    }

    /** The rounds of a solve.  Found means the worklist is empty. */
    method Run() returns (r: Search)
      requires Running() && Eager()
      modifies this, sel, unsel, vqs
      ensures r.Crashed? ==> Stale()
      ensures r.NoVersion? ==> Running() && vqs == []
      ensures r.Found? ==> Running() && Eager() && unsel.sl == multiset{}
      ensures !r.Found? ==> Refusal(w)
    {
      hide *;
      while unsel.sl != multiset{}
        invariant Running() && Eager() && forall q :: q in vqs ==> q in old(vqs) || fresh(q)
        invariant forall i :: 0 <= i < |vqs| ==> vqs[i] in old(vqs) || fresh(vqs[i])
        decreases RankOf(Lefts(vqs)), |Unrequired(w, u, sel.projects)|, |unsel.sl|
      {
        r := Step();
        if !r.Found? { return; }
      }
      r := Found;
    }

    /** Starts from nothing but the world.  What it returns is a solution. */
    method Solve() returns (r: Outcome)
      requires Static() && vqs == [] && !untidy
      requires sel.projects == [] && sel.deps == map[] && sel.foldRoots == map[] && unsel.sl == multiset{}
      modifies this, sel, unsel
      ensures r.Solved? ==> IsSolution(w, r.projects)
      ensures r.Solved? && !untidy ==> forall a :: a in r.projects ==> OneSource(w, r.projects, a)
      ensures r.Unsolvable? ==> Running() && vqs == []
      ensures r.Panicked? ==> Stale()
      ensures !Refusal(w) ==> r.Solved? && exists st :: ResultOf(st, r.projects)
    {
      hide Grown, Refusal;
      SelectRoot();
      var s := Run();
      if s.NoVersion? { return Unsolvable; }
      if s.Crashed? { return Panicked; }
      EmptyWorklistIsSolution(w, u, St());
      if !untidy {
        forall a | a in Collect(sel.projects) ensures OneSource(w, Collect(sel.projects), a) {
          CleanHasOneSource(w, u, St(), a);
        }
      }
      var projs := CollectProjects();
      assert !Refusal(w) ==> ResultOf(St(), projs);
      return Solved(projs);
    }

    /** What is selected in a state without work left that serving entries alone leads to. */
    ghost predicate ResultOf(st: State, projects: Projects) {
      Grown(w, st) && st.unsel == multiset{} && projects == Collect(st.projects)
    }

    method CollectProjects() returns (projs: Projects)
      ensures projs == Collect(sel.projects)
    {
      var ps := sel.projects;
      projs := map[];
      if ps == [] { return; }
      for i := 1 to |ps|
        invariant projs == Collect(ps[..i])
      {
        assert ps[..i + 1][..i] == ps[..i];
        projs := projs[ps[i].a := PackagesOf(projs, ps[i].a) + ps[i].pl];
      }
      assert ps[..|ps|] == ps;
    }
  }

  /** The last entry's dependencies can be had again, and each has an edge to pop. */
  lemma LastEntry(w: World, u: Universe, st: State, ps: seq<Selected>, s: Selected)
    requires Lawful(w) && Inv(w, u, st) && st.projects == ps + [s] && ps != []
    ensures Imports(w, s.a, s.pl).Some?
    ensures var nd := Imports(w, s.a, s.pl).value.1 - {w.root};
      KeysNameRoots(nd) && forall r :: r in nd ==> Stack(st.deps, r) != []
  {
    assert st.projects[|ps|] == s && EntryOk(w, u, s);
    DepsAreLawful(w, s.a, s.pl);
    forall r | r in Imports(w, s.a, s.pl).value.1 - {w.root}
      ensures Stack(st.deps, r) != []
    {
      Push(w, ps, s, r);
    }
  }

  /** Above the root project there is something to pop while a project is selected. */
  lemma MoreThanRoot(w: World, u: Universe, st: State)
    requires Inv(w, u, st) && FirstAtoms(w, st.projects) != []
    ensures |st.projects| > 1
  {
    var s := st.projects[0];
    assert [] + [s] == [s];
    Push(w, [], s, w.root);
    assert FirstAtoms(w, [s]) == [];
  }

  lemma StacksAreRooted(w: World, u: Universe, st: State, a: Atom, pl: set<Pkg>)
    requires Lawful(w) && Inv(w, u, st) && Imports(w, a, pl).Some?
    ensures Rooted(st.deps) && KeysNameRoots(Imports(w, a, pl).value.1)
  {
    DepsAreLawful(w, a, pl);
    forall r, i | 0 <= i < |Stack(st.deps, r)|
      ensures Stack(st.deps, r)[i].dep.ident.root == r
    {
      assert Stack(st.deps, r)[i] in EdgesOn(w, st.projects, r);
    }
  }

  lemma QueuedIsOk(w: World, u: Universe, st: State, bmi: Bmi)
    requires Inv(w, u, st) && bmi in st.unsel
    ensures bmi.id.root != w.root && bmi.id.root in u.roots
  {
  }

  lemma MoreFits(w: World, u: Universe, st: State, a: Atom)
    requires Inv(w, u, st) && a.id.root != w.root && SelectedFor(st.projects, a.id.root).Some?
    requires SelectedFor(st.projects, a.id.root).value.a.v == a.v
    ensures Fits(w, st, a, true) && Mirrored(w, st)
  {
  }

  /** While a project is not selected, the queue stack is lower than there are projects. */
  lemma RoomForOne(w: World, u: Universe, st: State, r: Root)
    requires Inv(w, u, st) && r in u.roots && SelectedFor(st.projects, r).None?
    ensures |FirstAtoms(w, st.projects)| < |u.roots|
  {
    StackIsBounded(w, u, st.projects);
  }
}
