/** The selection and the worklist of a solve as objects (gps/selection.go). */
module Selections {
  import opened Versions
  import opened Unifier
  import opened World
  import opened SolverState

  /** How many of the edges es name package p. */
  function Count(es: seq<Dependency>, p: Pkg): nat {
    if es == [] then 0 else Count(es[..|es| - 1], p) + if p in es[|es| - 1].dep.pl then 1 else 0
  }

  lemma {:induction false} CountsNames(es: seq<Dependency>, p: Pkg)
    ensures Count(es, p) > 0 <==> Names(es, p)
  {
    if es != [] {
      var n := |es| - 1;
      CountsNames(es[..n], p);
      assert forall i :: 0 <= i < n ==> es[..n][i] == es[i];
    }
  }

  /** Of the packages a pushed edge d names, those counted once are the ones no edge named before. */
  lemma CountedOnceIsNew(es: seq<Dependency>, d: Dependency, p: Pkg)
    requires p in d.dep.pl
    ensures Count(es + [d], p) == 1 <==> !Names(es, p)
  {
    CountsNames(es, p);
    assert (es + [d])[..|es|] == es;
  }

  class Selection {
    const w: World
    var projects: seq<Selected>
    var deps: map<Root, seq<Dependency>>
    var foldRoots: map<string, Root>

    constructor (w: World)
      ensures this.w == w && projects == [] && deps == map[] && foldRoots == map[]
    {
      this.w, projects, deps, foldRoots := w, [], map[], map[];
    }

    function GetDependenciesOn(id: Ident): seq<Dependency>
      reads this
    {
      Stack(deps, id.root)
    }

    function GetIdentFor(r: Root): Option<Ident>
      reads this
    {
      if Stack(deps, r) == [] then None else Some(Stack(deps, r)[0].dep.ident)
    }

    /** The differently cased project selected in place of r, if there is one. */
    function FindCaseConflicts(r: Root): Option<Root>
      reads this
    {
      if w.fold(r) in foldRoots && foldRoots[w.fold(r)] != r then Some(foldRoots[w.fold(r)]) else None
    }

    method PushSelection(a: Atom, pl: set<Pkg>, pkgonly: bool)
      modifies `projects
      ensures projects == old(projects) + [Selected(a, pl, !pkgonly)]
    {
      projects := projects + [Selected(a, pl, !pkgonly)];
    }

    method PopSelection() returns (s: Selected)
      requires projects != []
      modifies `projects
      ensures old(projects) == projects + [s]
    {
      s := projects[|projects| - 1];
      projects := projects[..|projects| - 1];
    }

    method PushDep(d: Dependency)
      modifies `deps, `foldRoots
      ensures forall r :: Stack(deps, r) == Stack(old(deps), r) + if r == d.dep.ident.root then [d] else []
      ensures foldRoots == if Stack(old(deps), d.dep.ident.root) == []
                           then old(foldRoots)[w.fold(d.dep.ident.root) := d.dep.ident.root] else old(foldRoots)
    {
      var r := d.dep.ident.root;
      var es := Stack(deps, r);
      if es == [] { foldRoots := foldRoots[w.fold(r) := r]; }
      deps := deps[r := es + [d]];
    }

    method PopDep(id: Ident) returns (d: Dependency)
      requires Stack(deps, id.root) != []
      modifies `deps, `foldRoots
      ensures forall r :: r != id.root ==> Stack(deps, r) == Stack(old(deps), r)
      ensures Stack(old(deps), id.root) == Stack(deps, id.root) + [d]
      ensures foldRoots == if |Stack(old(deps), id.root)| == 1
                           then old(foldRoots) - {w.fold(id.root)} else old(foldRoots)
    {
      var es := Stack(deps, id.root);
      if |es| == 1 { foldRoots := foldRoots - {w.fold(id.root)}; }
      d := es[|es| - 1];
      deps := deps[id.root := es[..|es| - 1]];
    }

    /** The packages named by edges on the project, with the number of edges that name them. */
    method GetRequiredPackagesIn(id: Ident) returns (uniq: map<Pkg, nat>)
      ensures forall p :: (if p in uniq then uniq[p] else 0) == Count(Stack(deps, id.root), p)
    {
      var es := Stack(deps, id.root);
      uniq := map[];
      for i := 0 to |es|
        invariant forall p :: (if p in uniq then uniq[p] else 0) == Count(es[..i], p)
      {
        assert es[..i + 1][..i] == es[..i];
        var pl := es[i].dep.pl;
        uniq := map p | p in uniq.Keys + pl :: (if p in uniq then uniq[p] else 0) + if p in pl then 1 else 0;
      }
      assert es[..|es|] == es;
    }

    /** The composite constraint on a project, folded up edge by edge. */
    method GetConstraint(id: Ident) returns (c: Constraint)
      ensures c == CompositeOf(w, id, Stack(deps, id.root))
    {
      var es := Stack(deps, id.root);
      ghost var cs := Constraints(es);
      c := AnyC;
      assert cs[0..] == cs;
      for i := 0 to |es|
        invariant Composite(w.lib, w.versions(id), c, cs[i..]) == CompositeOf(w, id, es)
      {
        assert cs[i..][1..] == cs[i + 1..];
        c := UIntersect(w.lib, w.versions(id), c, es[i].dep.c);
      }
    }

    /** The entry at which the project was selected: the first on the stack that is for it. */
    method SelectedEntry(id: Ident) returns (s: Option<Selected>)
      ensures s == SelectedFor(projects, id.root)
    {
      for i := 0 to |projects|
        invariant SelectedFor(projects[..i], id.root).None?
      {
        assert projects[..i + 1][..i] == projects[..i];
        if projects[i].a.id.root == id.root {
          FirstMatch(projects, id.root, i);
          return Some(projects[i]);
        }
      }
      assert projects[..|projects|] == projects;
      return None;
    }
  }

  lemma {:induction false} FirstMatch(ps: seq<Selected>, r: Root, i: nat)
    requires i < |ps| && SelectedFor(ps[..i], r).None? && ps[i].a.id.root == r
    ensures SelectedFor(ps, r) == Some(ps[i])
    decreases |ps|
  {
    var n := |ps| - 1;
    if i < n {
      assert ps[..n][..i] == ps[..i];
      FirstMatch(ps[..n], r, i);
    }
  }

  /** The worklist.  The order its heap keeps is not modelled: any entry may come first. */
  class Unselected {
    var sl: multiset<Bmi>

    constructor ()
      ensures sl == multiset{}
    {
      sl := multiset{};
    }

    method Push(b: Bmi)
      modifies this
      ensures sl == old(sl) + multiset{b}
    {
      sl := sl + multiset{b};
    }

    /** Takes one entry for exactly (id, pl) out, if there is one. */
    method Remove(id: Ident, pl: set<Pkg>) returns (b: Option<Bmi>)
      modifies this
      ensures b.Some? ==> b.value in old(sl) && b.value.IsFor(id, pl) && sl == old(sl) - multiset{b.value}
      ensures b.None? ==> sl == old(sl) && forall c :: c in sl ==> !c.IsFor(id, pl)
    {
      if c :| c in sl && c.IsFor(id, pl) {
        sl := sl - multiset{c};
        return Some(c);
      }
      return None;
    }
  }
}
