/** Why a solve ends.  Each queue on the stack has a number of versions left to try.  These
  numbers, read as digits with an absent queue as the largest digit, fall with every new
  project and every successful backtrack.  Between those, adding packages to a selected
  project either makes a package required that was not, or shortens the worklist. */
module Progress {
  import opened World
  import opened SolverState
  import opened SolverInvariants

  function Power(b: nat, n: nat): nat {
    if n == 0 then 1 else b * Power(b, n - 1)
  }

  /** ls as n digits to base b, most significant first; digits that are absent are b - 1. */
  function Rank(ls: seq<nat>, n: nat, b: nat): nat
    requires b > 0
    decreases n
  {
    if n == 0 then 0
    else (if ls == [] then b - 1 else ls[0]) * Power(b, n - 1) + Rank(if ls == [] then [] else ls[1..], n - 1, b)
  }

  predicate Digits(ls: seq<nat>, b: nat) {
    forall i :: 0 <= i < |ls| ==> ls[i] < b - 1
  }

  lemma MulMonotone(x: nat, y: nat, z: nat)
    requires x <= y
    ensures x * z <= y * z
  {
  }

  lemma {:induction false} RankOfNothing(n: nat, b: nat)
    requires b > 0
    ensures Rank([], n, b) == Power(b, n) - 1
  {
    if n > 0 {
      RankOfNothing(n - 1, b);
      assert (b - 1) * Power(b, n - 1) + Power(b, n - 1) == b * Power(b, n - 1);
    }
  }

  /** Cutting the stack to k queues and putting a queue on top with fewer versions left than
    the one that was at k, or where there was none, lowers the rank. */
  lemma {:induction false} RankFalls(ls: seq<nat>, k: nat, x: nat, n: nat, b: nat)
    requires b > 0 && Digits(ls, b) && k <= |ls| && k < n && x < b - 1
    requires k < |ls| ==> x < ls[k]
    ensures Rank(ls[..k] + [x], n, b) < Rank(ls, n, b)
    decreases k
  {
    if k == 0 {
      var d := if ls == [] then b - 1 else ls[0];
      assert (ls[..0] + [x])[1..] == [];
      RankOfNothing(n - 1, b);
      MulMonotone(x + 1, d, Power(b, n - 1));
      assert (x + 1) * Power(b, n - 1) == x * Power(b, n - 1) + Power(b, n - 1);
    } else {
      RankFalls(ls[1..], k - 1, x, n - 1, b);
      assert (ls[..k] + [x])[1..] == ls[1..][..k - 1] + [x];
    }
  }

  /* ----- Between new projects ----- */

  /** The packages that can come up and that no live edge names. */
  ghost function Unrequired(w: World, u: Universe, ps: seq<Selected>): set<(Root, Pkg)> {
    set x | x in u.pkgs && !Names(EdgesOn(w, ps, x.0), x.1)
  }

  lemma PushShrinksUnrequired(w: World, u: Universe, ps: seq<Selected>, s: Selected)
    ensures Unrequired(w, u, ps + [s]) <= Unrequired(w, u, ps)
  {
    forall x | x in Unrequired(w, u, ps + [s])
      ensures x in Unrequired(w, u, ps)
    {
      Push(w, ps, s, x.0);
      assert Names(EdgesOn(w, ps, x.0), x.1) ==> Names(EdgesOn(w, ps, x.0) + EdgeFrom(w, s, x.0), x.1) by {
        NamesMore(EdgesOn(w, ps, x.0), EdgeFrom(w, s, x.0), x.1);
      }
    }
  }

  lemma NamesMore(es: seq<Dependency>, fs: seq<Dependency>, p: Pkg)
    ensures Names(es + fs, p) <==> Names(es, p) || Names(fs, p)
  {
    forall i | 0 <= i < |es| ensures (es + fs)[i] == es[i] { }
    forall i | 0 <= i < |fs| ensures (es + fs)[|es| + i] == fs[i] { }
  }

  /** A package that a worklist entry is made for becomes required. */
  lemma NewlyRequired(w: World, u: Universe, st: State, a: Atom, pl: set<Pkg>, pkgonly: bool, r: Root, p: Pkg)
    requires Lawful(w) && Bounded(w, u) && Mirrored(w, st) && a.id.root != w.root && Imports(w, a, pl).Some?
    requires r in Imports(w, a, pl).value.1 - {w.root}
    requires p in NewPackages(Stack(st.deps, r), Imports(w, a, pl).value.1[r].pl)
    ensures (r, p) in Unrequired(w, u, st.projects)
    ensures (r, p) !in Unrequired(w, u, st.projects + [Pushed(w, a, pl, pkgonly)])
  {
    var s := Pushed(w, a, pl, pkgonly);
    PushedEdges(w, a, pl, pkgonly);
    DepIsBounded(w, u, a, pl, r);
    Push(w, st.projects, s, r);
    NamesMore(EdgesOn(w, st.projects, r), EdgeFrom(w, s, r), p);
    assert EdgeFrom(w, s, r)[0].dep.pl == Imports(w, a, pl).value.1[r].pl;
  }

  ghost predicate Narrower(w: World, u: Universe, st: State, st': State) {
    || |Unrequired(w, u, st'.projects)| < |Unrequired(w, u, st.projects)|
    || (|Unrequired(w, u, st'.projects)| == |Unrequired(w, u, st.projects)| && |st'.unsel| < |st.unsel|)
  }

  /** Adding packages to a selected project either requires a new package, or leaves the
    worklist one shorter. */
  lemma PackageStepProgresses(w: World, u: Universe, st: State, bmi: Bmi, a: Atom, pkgonly: bool, st': State)
    requires Lawful(w) && Bounded(w, u) && Mirrored(w, st) && a.id.root != w.root
    requires bmi in st.unsel && bmi.id == a.id && Selects(w, st, a, bmi.pl, pkgonly, st')
    ensures Narrower(w, u, st, st')
  {
    PushShrinksUnrequired(w, u, st.projects, Pushed(w, a, bmi.pl, pkgonly));
    SubsetSizes(Unrequired(w, u, st'.projects), Unrequired(w, u, st.projects));
    var nd := Imports(w, a, bmi.pl).value.1 - {w.root};
    if r :| r in nd && NewPackages(Stack(st.deps, r), nd[r].pl) != {} {
      var p :| p in NewPackages(Stack(st.deps, r), nd[r].pl);
      NewlyRequired(w, u, st, a, bmi.pl, pkgonly, r, p);
    } else {
      assert NewBmis(st.deps, nd, LockMap(w.lock(a.id, a.v))) == {};
      var rest :| RemovedOne(st.unsel, rest, a.id, bmi.pl) && st'.unsel == rest + multiset{};
      assert bmi.IsFor(a.id, bmi.pl);
    }
  }

  lemma SubsetSizes<T>(a: set<T>, b: set<T>)
    requires a <= b
    ensures |a| <= |b|
    ensures a != b ==> |a| < |b|
  {
    assert b == a + (b - a);
    if a != b {
      var x :| x in b - a;
    }
  }

  /* ----- The stack is no taller than there are projects ----- */

  function Roots(s: seq<Atom>): set<Root> {
    set i | 0 <= i < |s| :: s[i].id.root
  }

  lemma RootsOfMore(fs: seq<Atom>, a: Atom)
    ensures Roots(fs + [a]) == Roots(fs) + {a.id.root}
  {
    assert (fs + [a])[|fs|] == a;
    assert forall i :: 0 <= i < |fs| ==> (fs + [a])[i] == fs[i];
  }

  lemma {:induction false} FirstAtomsAreDistinct(w: World, u: Universe, ps: seq<Selected>)
    requires ps == [] || Grounded(w, u, ps)
    requires OneVersion(ps)
    ensures Roots(FirstAtoms(w, ps)) <= u.roots
    ensures |Roots(FirstAtoms(w, ps))| == |FirstAtoms(w, ps)|
    ensures forall r :: r in Roots(FirstAtoms(w, ps)) ==> SelectedFor(ps, r).Some?
    decreases |ps|
  {
    hide Grounded, OneVersion, Roots, FirstAtoms, SelectedFor;
    if ps == [] {
      NoFirstAtoms(w);
    } else {
      var n := |ps| - 1;
      var qs, s := ps[..n], ps[n];
      PrefixIsFine(w, u, ps);
      FirstAtomsAreDistinct(w, u, qs);
      assert qs + [s] == ps;
      OneMoreFirst(w, qs, s);
    }
  }

  lemma NoFirstAtoms(w: World)
    ensures FirstAtoms(w, []) == [] && Roots([]) == {}
  {
  }

  lemma OneMoreFirst(w: World, qs: seq<Selected>, s: Selected)
    ensures var fs, r := FirstAtoms(w, qs), s.a.id.root;
      FirstAtoms(w, qs + [s]) == if s.first && r != w.root then fs + [s.a] else fs
    ensures s.first && s.a.id.root != w.root ==>
      Roots(FirstAtoms(w, qs + [s])) == Roots(FirstAtoms(w, qs)) + {s.a.id.root}
    ensures forall r :: SelectedFor(qs, r).Some? || r == s.a.id.root ==> SelectedFor(qs + [s], r).Some?
  {
    hide Roots;
    RootsOfMore(FirstAtoms(w, qs), s.a);
    forall r
      ensures SelectedFor(qs, r).Some? || r == s.a.id.root ==> SelectedFor(qs + [s], r).Some?
    {
      Push(w, qs, s, r);
    }
    assert FirstAtoms(w, qs) + [] == FirstAtoms(w, qs);
    Push(w, qs, s, s.a.id.root);
  }

  lemma PrefixIsFine(w: World, u: Universe, ps: seq<Selected>)
    requires ps != [] && Grounded(w, u, ps) && OneVersion(ps)
    ensures var n := |ps| - 1;
      && (n == 0 || Grounded(w, u, ps[..n])) && OneVersion(ps[..n])
      && (ps[n].first ==> SelectedFor(ps[..n], ps[n].a.id.root).None?)
      && (ps[n].a.id.root != w.root ==> ps[n].a.id.root in u.roots)
  {
    var n := |ps| - 1;
    assert forall i :: 0 <= i < n ==> ps[..n][..i] == ps[..i];
    assert Placed(ps[..n], ps[n]);
    if n > 0 { assert EntryOk(w, u, ps[n]); }
  }

  lemma StackIsBounded(w: World, u: Universe, ps: seq<Selected>)
    requires Grounded(w, u, ps) && OneVersion(ps)
    ensures |FirstAtoms(w, ps)| <= |u.roots|
    ensures (exists r :: r in u.roots && SelectedFor(ps, r).None?) ==> |FirstAtoms(w, ps)| < |u.roots|
  {
    FirstAtomsAreDistinct(w, u, ps);
    SubsetSizes(Roots(FirstAtoms(w, ps)), u.roots);
  }
}
