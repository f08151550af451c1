/** The steps inside one transition: dependencies are pushed and popped one at a time, in any
  order.  `Part` is what has been handled so far. */
module Transitions {
  import opened Versions
  import opened World
  import opened SolverState

  function Part(nd: map<Root, CompleteDep>, done: set<Root>): map<Root, CompleteDep> {
    map r | r in nd && r in done :: nd[r]
  }

  /** Every edge is stacked under the project its identifier names. */
  ghost predicate Rooted(deps: map<Root, seq<Dependency>>) {
    forall r, i :: 0 <= i < |Stack(deps, r)| ==> Stack(deps, r)[i].dep.ident.root == r
  }

  ghost predicate KeysNameRoots(nd: map<Root, CompleteDep>) {
    forall r :: r in nd ==> nd[r].ident.root == r
  }

  lemma FoldsPushStep(w: World, st: State, nd: map<Root, CompleteDep>, done: set<Root>, r: Root,
                      folds: map<string, Root>, folds': map<string, Root>)
    requires r in nd && r !in done && FoldsPushed(w, st, Part(nd, done), folds)
    requires folds' == if Stack(st.deps, r) == [] then folds[w.fold(r) := r] else folds
    ensures FoldsPushed(w, st, Part(nd, done + {r}), folds')
  {
    var p, p' := Part(nd, done), Part(nd, done + {r});
    forall f
      ensures if exists q :: q in p' && Stack(st.deps, q) == [] && w.fold(q) == f
        then f in folds' && folds'[f] in p' && Stack(st.deps, folds'[f]) == [] && w.fold(folds'[f]) == f
        else (f in folds' <==> f in st.folds) && (f in folds' ==> folds'[f] == st.folds[f])
    {
      if f == w.fold(r) && Stack(st.deps, r) == [] {
        assert r in p';
      } else if q :| q in p' && Stack(st.deps, q) == [] && w.fold(q) == f {
        assert q in p;
      }
    }
  }

  lemma FoldsPopStep(w: World, st: State, nd: map<Root, CompleteDep>, done: set<Root>, r: Root,
                     folds: map<string, Root>, folds': map<string, Root>)
    requires r in nd && r !in done && FoldsPopped(w, st, Part(nd, done), folds)
    requires folds' == if |Stack(st.deps, r)| == 1 then folds - {w.fold(r)} else folds
    ensures FoldsPopped(w, st, Part(nd, done + {r}), folds')
  {
    var p, p' := Part(nd, done), Part(nd, done + {r});
    forall f
      ensures if exists q :: q in p' && |Stack(st.deps, q)| == 1 && w.fold(q) == f
        then f !in folds'
        else (f in folds' <==> f in st.folds) && (f in folds' ==> folds'[f] == st.folds[f])
    {
      if f == w.fold(r) && |Stack(st.deps, r)| == 1 {
      } else if q :| q in p' && |Stack(st.deps, q)| == 1 && w.fold(q) == f {
        assert q in p;
      } else {
        assert forall q :: q in p ==> q in p';
      }
    }
  }

  lemma NewBmisStep(deps: map<Root, seq<Dependency>>, nd: map<Root, CompleteDep>, lm: map<Ident, Version>,
                    done: set<Root>, r: Root)
    requires r in nd && r !in done && Rooted(deps) && KeysNameRoots(nd)
    ensures multiset(NewBmis(deps, Part(nd, done + {r}), lm)) ==
      multiset(NewBmis(deps, Part(nd, done), lm))
      + (if NewPackages(Stack(deps, r), nd[r].pl) != {} then multiset{NewBmi(Stack(deps, r), nd[r], lm)}
         else multiset{})
  {
    var p, p' := Part(nd, done), Part(nd, done + {r});
    var b := NewBmi(Stack(deps, r), nd[r], lm);
    forall q | q in p
      ensures NewBmi(Stack(deps, q), p[q], lm).id.root == q
    {
    }
    assert b.id.root == r;
    assert b !in NewBmis(deps, p, lm);
    forall c | c in NewBmis(deps, p', lm)
      ensures c in NewBmis(deps, p, lm) || (c == b && NewPackages(Stack(deps, r), nd[r].pl) != {})
    {
      var q :| q in p' && NewPackages(Stack(deps, q), p'[q].pl) != {} && c == NewBmi(Stack(deps, q), p'[q], lm);
      if q != r { assert q in p; }
    }
    forall c | c in NewBmis(deps, p, lm)
      ensures c in NewBmis(deps, p', lm)
    {
      var q :| q in p && NewPackages(Stack(deps, q), p[q].pl) != {} && c == NewBmi(Stack(deps, q), p[q], lm);
      assert q in p';
    }
    if NewPackages(Stack(deps, r), nd[r].pl) != {} {
      assert r in p';
      assert NewBmis(deps, p', lm) == NewBmis(deps, p, lm) + {b};
    } else {
      assert NewBmis(deps, p', lm) == NewBmis(deps, p, lm);
    }
  }

  /** One more dependency is popped; b is the worklist entry taken out for it, if any. */
  ghost predicate Pops(deps: map<Root, seq<Dependency>>, deps': map<Root, seq<Dependency>>, r: Root, d: CompleteDep,
                       u1: multiset<Bmi>, b: Option<Bmi>, u2: multiset<Bmi>) {
    && (forall q :: q != r ==> Stack(deps', q) == Stack(deps, q))
    && (b.Some? ==>
          Stack(deps', r) == [] && b.value in u1 && b.value.IsFor(d.ident, d.pl) && u2 == u1 - multiset{b.value})
    && (b.None? ==> u2 == u1 && (Stack(deps', r) == [] ==> forall c :: c in u1 ==> !c.IsFor(d.ident, d.pl)))
  }

  lemma DroppableElsewhere(deps: map<Root, seq<Dependency>>, deps': map<Root, seq<Dependency>>,
                           nd: map<Root, CompleteDep>, done: set<Root>, r: Root, c: Bmi)
    requires c.id.root != r && Stack(deps', c.id.root) == Stack(deps, c.id.root)
    ensures Droppable(deps', Part(nd, done + {r}), c) <==> Droppable(deps, Part(nd, done), c)
  {
  }

  lemma TakeOut(u: multiset<Bmi>, u1: multiset<Bmi>, gone: set<Bmi>, b: Bmi)
    requires u == u1 + multiset(gone) && b in u1 && b !in gone
    ensures u == u1 - multiset{b} + multiset(gone + {b})
  {
    assert multiset(gone + {b}) == multiset(gone) + multiset{b};
  }

  lemma NoneDroppable(deps: map<Root, seq<Dependency>>, nd: map<Root, CompleteDep>, r: Root)
    requires r !in nd
    ensures forall c: Bmi :: c.id.root == r ==> !Droppable(deps, nd, c)
  {
  }

  lemma DropOne(deps: map<Root, seq<Dependency>>, nd: map<Root, CompleteDep>, gone: set<Bmi>,
                deps': map<Root, seq<Dependency>>, nd': map<Root, CompleteDep>, b: Bmi,
                u: multiset<Bmi>, u1: multiset<Bmi>)
    requires Dropped(deps, nd, u, gone, u1) && b in u1 && b.id.root !in nd && Droppable(deps', nd', b)
    requires forall c: Bmi :: c.id.root != b.id.root ==> (Droppable(deps', nd', c) <==> Droppable(deps, nd, c))
    ensures Dropped(deps', nd', u, gone + {b}, u1 - multiset{b})
  {
    hide Droppable;
    NoneDroppable(deps, nd, b.id.root);
    TakeOut(u, u1, gone, b);
    forall c | c in u && Droppable(deps', nd', c)
      ensures ForProject(gone + {b}, c.id.root)
    {
      if c.id.root != b.id.root {
        var d :| d in gone && d.id.root == c.id.root;
        assert d in gone + {b};
      }
    }
  }

  lemma DropNone(deps: map<Root, seq<Dependency>>, nd: map<Root, CompleteDep>, gone: set<Bmi>,
                 deps': map<Root, seq<Dependency>>, nd': map<Root, CompleteDep>, r: Root,
                 u: multiset<Bmi>, u1: multiset<Bmi>)
    requires Dropped(deps, nd, u, gone, u1) && r !in nd
    requires forall c :: c in u1 && c.id.root == r ==> !Droppable(deps', nd', c)
    requires forall c: Bmi :: c.id.root != r ==> (Droppable(deps', nd', c) <==> Droppable(deps, nd, c))
    ensures Dropped(deps', nd', u, gone, u1)
  {
    forall c | c in u && c !in u1
      ensures c.id.root != r
    {
      assert c in gone;
    }
  }

  lemma DropStep(deps: map<Root, seq<Dependency>>, deps': map<Root, seq<Dependency>>, nd: map<Root, CompleteDep>,
                 done: set<Root>, r: Root,
                 u: multiset<Bmi>, gone: set<Bmi>, u1: multiset<Bmi>, b: Option<Bmi>, u2: multiset<Bmi>)
    requires r in nd && r !in done && KeysNameRoots(nd)
    requires Dropped(deps, Part(nd, done), u, gone, u1) && Pops(deps, deps', r, nd[r], u1, b, u2)
    ensures Dropped(deps', Part(nd, done + {r}), u, if b.Some? then gone + {b.value} else gone, u2)
  {
    forall c: Bmi | c.id.root != r
      ensures Droppable(deps', Part(nd, done + {r}), c) <==> Droppable(deps, Part(nd, done), c)
    {
      DroppableElsewhere(deps, deps', nd, done, r, c);
    }
    if b.Some? {
      DropOne(deps, Part(nd, done), gone, deps', Part(nd, done + {r}), b.value, u, u1);
    } else {
      DropNone(deps, Part(nd, done), gone, deps', Part(nd, done + {r}), r, u, u1);
    }
  }

  /* ----- A push or a pop of one dependency ----- */

  /** The edge stacks, the case-fold map and the worklist, which both loops change. */
  datatype Parts = Parts(deps: map<Root, seq<Dependency>>, folds: map<string, Root>, unsel: multiset<Bmi>)

  ghost predicate PushesOne(w: World, a: Atom, d: CompleteDep, lm: map<Ident, Version>, x: Parts, y: Parts) {
    var r := d.ident.root;
    var es := Stack(x.deps, r);
    && (forall q :: Stack(y.deps, q) == Stack(x.deps, q) + if q == r then [Dependency(a, d)] else [])
    && y.folds == (if es == [] then x.folds[w.fold(r) := r] else x.folds)
    && y.unsel == x.unsel + if NewPackages(es, d.pl) != {} then multiset{NewBmi(es, d, lm)} else multiset{}
  }

  /** x is st with the dependencies `done` of nd pushed, when rest was left of the worklist. */
  ghost predicate Pushing(w: World, st: State, a: Atom, nd: map<Root, CompleteDep>, lm: map<Ident, Version>,
                          rest: multiset<Bmi>, done: set<Root>, x: Parts) {
    && (forall r :: Stack(x.deps, r) == Stack(st.deps, r) + if r in nd && r in done then [Dependency(a, nd[r])] else [])
    && FoldsPushed(w, st, Part(nd, done), x.folds)
    && x.unsel == rest + multiset(NewBmis(st.deps, Part(nd, done), lm))
  }

  lemma PushingStep(w: World, st: State, a: Atom, nd: map<Root, CompleteDep>, lm: map<Ident, Version>,
                    rest: multiset<Bmi>, done: set<Root>, r: Root, x: Parts, y: Parts)
    requires r in nd && r !in done && Rooted(st.deps) && KeysNameRoots(nd)
    requires Pushing(w, st, a, nd, lm, rest, done, x) && PushesOne(w, a, nd[r], lm, x, y)
    ensures Pushing(w, st, a, nd, lm, rest, done + {r}, y)
  {
    hide FoldsPushed, NewBmis, NewPackages, NewBmi, Rooted;
    assert Stack(x.deps, r) == Stack(st.deps, r);
    FoldsPushStep(w, st, nd, done, r, x.folds, y.folds);
    NewBmisStep(st.deps, nd, lm, done, r);
  }

  lemma PushingStart(w: World, st: State, a: Atom, nd: map<Root, CompleteDep>, lm: map<Ident, Version>)
    ensures Pushing(w, st, a, nd, lm, st.unsel, {}, Parts(st.deps, st.folds, st.unsel))
  {
    assert Part(nd, {}) == map[];
    assert NewBmis(st.deps, map[], lm) == {};
  }

  /** With every dependency pushed, the atom is selected; mid is the state they were pushed on. */
  lemma PushingDone(w: World, st: State, a: Atom, pl: set<Pkg>, pkgonly: bool, mid: State, x: Parts)
    requires Imports(w, a, pl).Some? && RemovedOne(st.unsel, mid.unsel, a.id, pl)
    requires mid.projects == st.projects + [Selected(a, Imports(w, a, pl).value.0, !pkgonly)]
    requires mid.deps == st.deps && mid.folds == st.folds
    requires var nd := Imports(w, a, pl).value.1 - {w.root};
      Pushing(w, mid, a, nd, LockMap(w.lock(a.id, a.v)), mid.unsel, nd.Keys, x)
    ensures Selects(w, st, a, pl, pkgonly, State(mid.projects, x.deps, x.folds, x.unsel))
  {
    var nd := Imports(w, a, pl).value.1 - {w.root};
    assert Part(nd, nd.Keys) == nd;
    assert FoldsPushed(w, st, nd, x.folds);
    assert x.unsel == mid.unsel + multiset(NewBmis(st.deps, nd, LockMap(w.lock(a.id, a.v))));
  }

  ghost predicate PopsOne(w: World, d: CompleteDep, x: Parts, b: Option<Bmi>, y: Parts) {
    var r := d.ident.root;
    && |Stack(x.deps, r)| == |Stack(y.deps, r)| + 1 && Stack(x.deps, r)[..|Stack(y.deps, r)|] == Stack(y.deps, r)
    && y.folds == (if |Stack(x.deps, r)| == 1 then x.folds - {w.fold(r)} else x.folds)
    && Pops(x.deps, y.deps, r, d, x.unsel, b, y.unsel)
  }

  /** x is st with the dependencies `done` of nd popped and the entries gone taken off all. */
  ghost predicate Popping(w: World, st: State, nd: map<Root, CompleteDep>, all: multiset<Bmi>, gone: set<Bmi>,
                          done: set<Root>, x: Parts) {
    && (forall r :: Stack(x.deps, r) == Popped(st, nd, done, r))
    && FoldsPopped(w, st, Part(nd, done), x.folds)
    && Dropped(x.deps, Part(nd, done), all, gone, x.unsel)
  }

  function Popped(st: State, nd: map<Root, CompleteDep>, done: set<Root>, r: Root): seq<Dependency> {
    var es := Stack(st.deps, r);
    if r in nd && r in done && es != [] then es[..|es| - 1] else es
  }

  lemma PoppingStep(w: World, st: State, nd: map<Root, CompleteDep>, all: multiset<Bmi>, gone: set<Bmi>,
                    done: set<Root>, r: Root,
                    x: Parts, b: Option<Bmi>, y: Parts)
    requires r in nd && r !in done && KeysNameRoots(nd)
    requires Popping(w, st, nd, all, gone, done, x) && PopsOne(w, nd[r], x, b, y)
    ensures Popping(w, st, nd, all, if b.Some? then gone + {b.value} else gone, done + {r}, y)
  {
    hide FoldsPopped, Dropped;
    assert Stack(x.deps, r) == Stack(st.deps, r);
    FoldsPopStep(w, st, nd, done, r, x.folds, y.folds);
    DropStep(x.deps, y.deps, nd, done, r, all, gone, x.unsel, b, y.unsel);
  }

  lemma PoppingStart(w: World, st: State, nd: map<Root, CompleteDep>)
    ensures Popping(w, st, nd, st.unsel, {}, {}, Parts(st.deps, st.folds, st.unsel))
  {
    assert Part(nd, {}) == map[];
  }

  /** With every dependency popped, the entry s is unselected; mid is the state they were popped from. */
  lemma PoppingDone(w: World, st: State, s: Selected, mid: State, gone: set<Bmi>, x: Parts)
    requires st.projects == mid.projects + [s] && Imports(w, s.a, s.pl).Some?
    requires mid.deps == st.deps && mid.folds == st.folds
    requires mid.unsel == st.unsel + multiset{Bmi(s.a.id, s.pl, None, false)}
    requires var nd := Imports(w, s.a, s.pl).value.1 - {w.root};
      (forall r :: r in nd ==> Stack(st.deps, r) != []) && Popping(w, mid, nd, mid.unsel, gone, nd.Keys, x)
    ensures Unselects(w, st, s, State(mid.projects, x.deps, x.folds, x.unsel))
  {
    hide Imports, Droppable, ForProject;
    var nd := Imports(w, s.a, s.pl).value.1 - {w.root};
    assert Part(nd, nd.Keys) == nd;
    assert FoldsPopped(w, st, nd, x.folds);
    assert Dropped(x.deps, nd, mid.unsel, gone, x.unsel);
  }
}
