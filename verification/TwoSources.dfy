/** A run of the search that ends with one project taken from two sources.  Version 2 of `a` wants
  `b` from its own source, and `b` with a second package is selected; `c` wants version 1 of `a`,
  so both are unselected, and the entry for `b` is left on the worklist.  Version 1 of `a` wants
  `b` from a fork.  The entry that is left is taken first, at the wrong source; the new one then
  counts as an addition to a project that is selected already, and no source is compared. */
module TwoSources {
  import opened Versions
  import opened Unifier
  import opened World
  import opened SolverState
  import opened SolverInvariants
  import opened Solution
  import opened Staleness
  import opened Runs

  const A: Ident := Ident("a", "")
  const B: Ident := Ident("b", "")
  const F: Ident := Ident("b", "fork")
  const C: Ident := Ident("c", "")

  function OnA(): CompleteDep { CompleteDep(A, AnyC, {"a"}) }
  function OnA1(): CompleteDep { CompleteDep(A, Range("1"), {"a"}) }
  function OnB(): CompleteDep { CompleteDep(B, AnyC, {"b"}) }
  function OnFork(): CompleteDep { CompleteDep(F, AnyC, {"b"}) }
  function OnC(): CompleteDep { CompleteDep(C, AnyC, {"c"}) }

  /* ----- The world ----- */

  function Forked(): World {
    World(
      Semver((a, b) => a == b, (c, s) => c == s, (c, s) => c == s, (c, d) => if c == d then Some(c) else None),
      "main", map["a" := OnA()],
      (id: Ident) => Some(if id.root == "a" then [V2, V1] else [V2]),
      id => Some(true), id => Some(true), (id, r) => true,
      (id: Ident, v) => Some(map p | p in ForkedReach(id) :: false), (id: Ident, v) => ForkedReach(id), (id, v) => true,
      (id: Ident, v, e) => if e in ["a", "b", "c"] && e != id.root then At(e) else Std, (id, v, ext) => true,
      (id: Ident, v, r) =>
        (Ident(r, if id.root == "a" && v == V1 && r == "b" then "fork" else ""), if r == "a" then Range("1") else AnyC),
      (id, v) => [], {"main"}, p => false, s => s, map[], {}, false)
  }

  /** The fork has no second package, and needs nothing. */
  function ForkedReach(id: Ident): map<Pkg, Reach> {
    if id.root == "a" then map["a" := Reach({}, {"b"})]
    else if id == F then map["b" := Reach({}, {})]
    else if id.root == "b" then map["b" := Reach({"b/x"}, {"c"}), "b/x" := Reach({}, {})]
    else map["c" := Reach({}, {"a"})]
  }

  lemma ForkedIsLawful()
    ensures Lawful(Forked()) && Bounded(Forked(), ExampleUniverse())
  {
    hide ReachClosed, Bounded, Semver.Laws, Consistent;
    ForkedListsAreFine();
    ForkedDepsAreFine();
    forall id, v ensures ReachClosed(Forked(), Forked().reach(id, v)) { ForkedIsClosed(id); }
    ForkedIsBounded();
  }

  lemma ForkedDepsAreFine()
    ensures var w := Forked();
      && (forall id, v, e :: w.target(id, v, e) != At(id.root) && w.target(id, v, e) != Unknown)
      && (forall id, v, r :: w.working(id, v, r).0.root == r && Declared(w.working(id, v, r).1))
  {
  }

  lemma ForkedIsBounded()
    ensures Bounded(Forked(), ExampleUniverse())
  {
  }

  lemma ForkedListsAreFine()
    ensures var w := Forked();
      w.lib.Laws() && forall id :: w.versions(id).Some? ==> Consistent(w.lib, w.versions(id).value)
  {
  }

  lemma ForkedIsClosed(id: Ident)
    ensures ReachClosed(Forked(), ForkedReach(id))
  {
  }

  lemma ForkedIsBare()
    ensures Bare(Forked()) && Forked().root == "main"
  {
  }

  lemma ImportsInForked()
    ensures Imports(Forked(), Atom(A, V2), {"a"}) == Some(({"a"}, map["b" := OnB()]))
    ensures Imports(Forked(), Atom(A, V1), {"a"}) == Some(({"a"}, map["b" := OnFork()]))
    ensures Imports(Forked(), Atom(B, V2), {"b"}) == Some(({"b", "b/x"}, map["c" := OnC()]))
    ensures Imports(Forked(), Atom(B, V2), {"b", "b/x"}) == Some(({"b", "b/x"}, map["c" := OnC()]))
    ensures Imports(Forked(), Atom(F, V2), {"b"}) == Some(({"b"}, map[]))
    ensures Imports(Forked(), Atom(C, V2), {"c"}) == Some(({"c"}, map["a" := OnA1()]))
  {
    hide Imports, Bare;
    ForkedIsBare();
    var w := Forked();
    ReachedFrom(w, Atom(A, V2), {"a"}, "a", {"a"}, "b");
    ReachedFrom(w, Atom(A, V1), {"a"}, "a", {"a"}, "b");
    ReachedFrom(w, Atom(B, V2), {"b"}, "b", {"b", "b/x"}, "c");
    ReachedFrom(w, Atom(B, V2), {"b", "b/x"}, "b", {"b", "b/x"}, "c");
    ReachedFrom(w, Atom(C, V2), {"c"}, "c", {"c"}, "a");
    ReachedAlone(w, Atom(F, V2), "b");
  }

  /* ----- The states ----- */

  function Left(): Bmi { Wanting(B, {"b", "b/x"}) }

  function Start(): State { AtRoot(Forked(), OnA()) }
  function WithA2(): State { Chosen(Start(), Atom(A, V2), {"a"}, OnB(), multiset{}) }
  function WithB2(): State { Chosen(WithA2(), Atom(B, V2), {"b", "b/x"}, OnC(), multiset{}) }
  function WithoutB2(): State { Unchosen(WithB2(), OnC(), multiset{Left()}) }
  function WithoutA2(): State { Unchosen(WithoutB2(), OnB(), multiset{Left(), Wanting(A, {"a"})}) }
  function WithA1(): State { Chosen(WithoutA2(), Atom(A, V1), {"a"}, OnFork(), multiset{Left()}) }
  function WithB(): State { Chosen(WithA1(), Atom(B, V2), {"b", "b/x"}, OnC(), multiset{Wanting(F, {"b"})}) }
  function WithFork(): State { ChosenAlone(WithB(), Atom(F, V2), {"b"}, true, multiset{Wanting(C, {"c"})}) }
  function End(): State { ChosenAgain(WithFork(), Atom(C, V2), {"c"}, OnA1(), multiset{}) }

  lemma StartHas()
    ensures var st := Start();
      && "b" !in st.deps && "b" !in st.folds && "c" !in st.deps && "c" !in st.folds
      && Stack(st.deps, "c") == [] && Stack(st.deps, "a") == [Dependency(Forked().RootAtom(), OnA())]
      && st.projects == [Selected(Forked().RootAtom(), {"main"}, true)]
  {
  }

  /** The states between are those before with another worklist. */
  lemma TheSame()
    ensures WithoutB2() == WithA2().(unsel := multiset{Left()})
    ensures WithoutA2() == Start().(unsel := multiset{Left(), Wanting(A, {"a"})})
  {
    hide Unchosen, Start;
    StartHas();
    var some, all := multiset{Left()}, multiset{Left(), Wanting(A, {"a"})};
    Undone(WithA2(), Atom(B, V2), {"b", "b/x"}, OnC(), multiset{}, WithB2().unsel, some);
    Undone(Start(), Atom(A, V2), {"a"}, OnB(), multiset{}, some, all);
  }

  /* ----- The steps up to the fork ----- */

  lemma SelectA2()
    ensures CheckOk(Forked(), Start(), Atom(A, V2), {"a"}, false)
    ensures Selects(Forked(), Start(), Atom(A, V2), {"a"}, false, WithA2())
  {
    hide Imports, Bare, CheckOk, Selects;
    ForkedIsBare();
    ImportsInForked();
    SelectsOne(Forked(), Start(), Atom(A, V2), {"a"}, {"a"}, OnB(), Bmi(A, {"a"}, None, true), multiset{});
    FirstDepIsOk(Forked(), Start(), Atom(A, V2), {"a"}, {"a"}, Dependency(Forked().RootAtom(), OnA()), OnB());
  }

  lemma SelectB2()
    ensures CheckOk(Forked(), WithA2(), Atom(B, V2), {"b"}, false)
    ensures Selects(Forked(), WithA2(), Atom(B, V2), {"b"}, false, WithB2())
  {
    hide Imports, Bare, CheckOk, Selects;
    ForkedIsBare();
    ImportsInForked();
    SelectsOne(Forked(), WithA2(), Atom(B, V2), {"b"}, {"b", "b/x"}, OnC(), Wanting(B, {"b"}), multiset{});
    FirstDepIsOk(Forked(), WithA2(), Atom(B, V2), {"b"}, {"b", "b/x"}, Dependency(Atom(A, V2), OnB()), OnC());
  }

  /** `c` needs version 1 of `a`, and version 2 is selected. */
  lemma NoC()
    ensures !CheckOk(Forked(), WithB2(), Atom(C, V2), {"c"}, false)
  {
    hide Imports, CheckOk, AtomAllowable, RequiredPackagesExist, DepOk, Start;
    ImportsInForked();
    StartHas();
    SelectedForIs(Start().projects, "a");
    Push(Forked(), Start().projects, Selected(Atom(A, V2), {"a"}, true), "a");
    Push(Forked(), WithA2().projects, Selected(Atom(B, V2), {"b", "b/x"}, true), "a");
    WrongVersion(WithB2(), Selected(Atom(A, V2), {"a"}, true));
    ChecksOne(Forked(), WithB2(), Atom(C, V2), {"c"}, {"c"}, "a", OnA1());
  }

  lemma WrongVersion(st: State, s: Selected)
    requires SelectedFor(st.projects, "a") == Some(s) && s.a.v == V2
    ensures !DepOk(Forked(), st, OnA1())
  {
    assert !SelectedAllowed(Forked(), Some(s), OnA1());
  }

  lemma UnselectB2()
    ensures Unselects(Forked(), WithB2(), Selected(Atom(B, V2), {"b", "b/x"}, true), WithoutB2())
  {
    hide Imports, Unselects, Bare;
    ImportsInForked();
    ForkedIsBare();
    UnselectsAndDrops(Forked(), WithB2(), Selected(Atom(B, V2), {"b", "b/x"}, true), OnC());
  }

  lemma UnselectA2()
    ensures Imports(Forked(), Atom(A, V2), {"a"}).Some?
    ensures Unselects(Forked(), WithoutB2(), Selected(Atom(A, V2), {"a"}, true), WithoutA2())
    ensures !Tidy(Forked(), WithoutB2(), Selected(Atom(A, V2), {"a"}, true))
  {
    hide Imports, Unselects, WithoutB2, Bare, Tidy;
    ImportsInForked();
    TheSame();
    ForkedIsBare();
    assert "b/x" in Left().pl && "b/x" !in OnB().pl;
    UnselectsAndLeaves(Forked(), WithoutB2(), Selected(Atom(A, V2), {"a"}, true), OnB(), Left());
  }

  lemma SelectA1()
    ensures CheckOk(Forked(), WithoutA2(), Atom(A, V1), {"a"}, false)
    ensures Selects(Forked(), WithoutA2(), Atom(A, V1), {"a"}, false, WithA1())
  {
    hide Imports, Bare, CheckOk, Selects, WithoutA2, Chosen;
    ForkedIsBare();
    ImportsInForked();
    TheSame();
    StartHas();
    SelectsOne(Forked(), WithoutA2(), Atom(A, V1), {"a"}, {"a"}, OnFork(), Wanting(A, {"a"}), multiset{Left()});
    FirstDepIsOk(Forked(), WithoutA2(), Atom(A, V1), {"a"}, {"a"}, Dependency(Forked().RootAtom(), OnA()), OnFork());
  }

  /* ----- The steps after it ----- */

  /** What is left is taken before the entry for the fork, by its name. */
  lemma AfterA1()
    ensures var st := WithA1();
      && st.unsel == multiset{Left(), Wanting(F, {"b"})} && IsNext(Forked(), st, Left())
      && Stack(st.deps, "a") == [Dependency(Forked().RootAtom(), OnA())]
      && Stack(st.deps, "b") == [Dependency(Atom(A, V1), OnFork())]
      && Stack(st.deps, "c") == [] && "c" !in st.folds
      && st.projects == [Selected(Forked().RootAtom(), {"main"}, true), Selected(Atom(A, V1), {"a"}, true)]
  {
    hide Forked, WithoutA2, Start, Chosen, Stack, SelectedFor, Ahead, IsNext;
    TheSame();
    StartHas();
    NotMain();
    var st := WithA1();
    ChosenHas(WithoutA2(), Atom(A, V1), {"a"}, OnFork(), multiset{Left()});
    SelectedForIs(st.projects, "b");
    ByName(st.projects);
    FirstOfTwo(Forked(), st, Left(), Wanting(F, {"b"}));
  }

  lemma NotMain()
    ensures Forked().RootAtom().id.root == "main"
  {
  }

  lemma ByName(ps: seq<Selected>)
    requires SelectedFor(ps, "b").None?
    ensures Ahead(Forked(), ps, Left(), Wanting(F, {"b"}))
  {
  }

  lemma SelectB()
    ensures CheckOk(Forked(), WithA1(), Atom(B, V2), {"b", "b/x"}, false)
    ensures Selects(Forked(), WithA1(), Atom(B, V2), {"b", "b/x"}, false, WithB())
  {
    hide Imports, Bare, CheckOk, Selects, WithA1;
    ForkedIsBare();
    ImportsInForked();
    AfterA1();
    var f := Wanting(F, {"b"});
    assert multiset{Left(), f} - multiset{Left()} == multiset{f};
    SelectsOne(Forked(), WithA1(), Atom(B, V2), {"b", "b/x"}, {"b", "b/x"}, OnC(), Left(), multiset{f});
    FirstDepIsOk(Forked(), WithA1(), Atom(B, V2), {"b", "b/x"}, {"b", "b/x"}, Dependency(Atom(A, V1), OnFork()), OnC());
  }

  /** The entry for the fork is taken before that of `c`, as an addition to a selected project. */
  lemma AfterB()
    ensures var st := WithB();
      && st.unsel == multiset{Wanting(F, {"b"}), Wanting(C, {"c"})} && IsNext(Forked(), st, Wanting(F, {"b"}))
      && Stack(st.deps, "a") == [Dependency(Forked().RootAtom(), OnA())]
      && Stack(st.deps, "b") == [Dependency(Atom(A, V1), OnFork())]
      && Stack(st.deps, "c") == [Dependency(Atom(B, V2), OnC())]
      && SelectedFor(st.projects, "a") == Some(Selected(Atom(A, V1), {"a"}, true))
      && SelectedFor(st.projects, "b") == Some(Selected(Atom(B, V2), {"b", "b/x"}, true))
      && SelectedFor(st.projects, "c").None?
  {
    hide WithA1;
    AfterA1();
    var root, a := Selected(Forked().RootAtom(), {"main"}, true), Selected(Atom(A, V1), {"a"}, true);
    var b := WithB().projects[2];
    assert WithA1().projects == [root] + [a] && WithB().projects == WithA1().projects + [b];
    forall r
      ensures SelectedFor(WithB().projects, r) ==
        if r == "main" then Some(root) else if r == "a" then Some(a) else if r == "b" then Some(b) else None
    {
      assert [root] == [] + [root];
      Push(Forked(), [], root, r);
      Push(Forked(), [root], a, r);
      Push(Forked(), WithA1().projects, b, r);
    }
    FirstOfTwo(Forked(), WithB(), Wanting(F, {"b"}), Wanting(C, {"c"}));
  }

  lemma SelectFork()
    ensures CheckOk(Forked(), WithB(), Atom(F, V2), {"b"}, true)
    ensures Selects(Forked(), WithB(), Atom(F, V2), {"b"}, true, WithFork())
  {
    hide Imports, CheckOk, Selects, WithB;
    ImportsInForked();
    AfterB();
    var f, c := Wanting(F, {"b"}), Wanting(C, {"c"});
    assert multiset{f, c} - multiset{f} == multiset{c};
    SelectsAlone(Forked(), WithB(), Atom(F, V2), {"b"}, {"b"}, true, f, multiset{c});
    AnyIsAllowed(Forked(), Stack(WithB().deps, "b"), Atom(F, V2), Dependency(Atom(A, V1), OnFork()));
    AloneIsOk(Forked(), WithB(), Atom(F, V2), {"b"}, {"b"}, true);
  }

  lemma AfterFork()
    ensures var st := WithFork();
      && st.unsel == multiset{Wanting(C, {"c"})} && IsNext(Forked(), st, Wanting(C, {"c"}))
      && Stack(st.deps, "a") == [Dependency(Forked().RootAtom(), OnA())]
      && Stack(st.deps, "b") == [Dependency(Atom(A, V1), OnFork())]
      && Stack(st.deps, "c") == [Dependency(Atom(B, V2), OnC())]
      && SelectedFor(st.projects, "a") == Some(Selected(Atom(A, V1), {"a"}, true))
      && SelectedFor(st.projects, "c").None?
  {
    hide WithB;
    AfterB();
    forall r
      ensures SelectedFor(WithB().projects, r).Some? ==>
        SelectedFor(WithFork().projects, r) == SelectedFor(WithB().projects, r)
      ensures r == "c" ==> SelectedFor(WithFork().projects, r).None?
    {
      Push(Forked(), WithB().projects, Selected(Atom(F, V2), {"b"}, false), r);
    }
    OnlyIsNext(Forked(), WithFork(), Wanting(C, {"c"}));
  }

  /** Now `c` has the version of `a` that it needs. */
  lemma RightVersion(st: State, e: Dependency, s: Selected)
    requires Stack(st.deps, "a") == [e] && e.dep == OnA() && SelectedFor(st.projects, "a") == Some(s)
    requires s.a == Atom(A, V1) && NoCaseConflict(Forked(), st.folds, OnA1())
    ensures DepOk(Forked(), st, OnA1()) && NewPackages([e], OnA1().pl) == {}
  {
    assert Constraints([e]) == [AnyC];
    assert Composite(Forked().lib, Forked().versions(A), AnyC, [AnyC]) == AnyC;
    assert Names([e], "a");
  }

  lemma NoConflict()
    ensures NoCaseConflict(Forked(), WithFork().folds, OnA1())
  {
    hide WithoutA2;
    TheSame();
  }

  lemma SelectC()
    ensures CheckOk(Forked(), WithFork(), Atom(C, V2), {"c"}, false)
    ensures Selects(Forked(), WithFork(), Atom(C, V2), {"c"}, false, End())
  {
    hide Imports, Bare, CheckOk, Selects, WithFork, DepOk, NewPackages;
    ForkedIsBare();
    ImportsInForked();
    AfterFork();
    NoConflict();
    var st, c := WithFork(), Wanting(C, {"c"});
    RightVersion(st, Stack(st.deps, "a")[0], SelectedFor(st.projects, "a").value);
    assert multiset{c} - multiset{c} == multiset{};
    SelectsAgain(Forked(), st, Atom(C, V2), {"c"}, {"c"}, OnA1(), c, multiset{});
    AnyIsAllowed(Forked(), Stack(st.deps, "c"), Atom(C, V2), Dependency(Atom(B, V2), OnC()));
    ChecksOne(Forked(), st, Atom(C, V2), {"c"}, {"c"}, "a", OnA1());
  }

  /* ----- The end ----- */

  lemma StartIsRoot()
    ensures Inv(Forked(), ExampleUniverse(), Start()) && Clean(Forked(), Start())
  {
    hide Inv, Lawful, Bounded, Clean, AtRoot, Bare;
    ForkedIsLawful();
    ForkedIsBare();
    AtRootIsStart(Forked(), ExampleUniverse(), OnA());
  }

  lemma EarlyFits()
    ensures Fits(Forked(), Start(), Atom(A, V2), false) && Fits(Forked(), WithA2(), Atom(B, V2), false)
    ensures Fits(Forked(), WithoutA2(), Atom(A, V1), false) && |WithB2().projects| > 1 && |WithoutB2().projects| > 1
  {
    hide Start, WithoutA2, WithoutB2;
    StartHas();
    TheSame();
    SelectedForIs(Start().projects, "a");
    SelectedForIs(WithA2().projects, "b");
  }

  lemma LateFits()
    ensures Fits(Forked(), WithA1(), Atom(B, V2), false)
    ensures Fits(Forked(), WithB(), Atom(F, V2), true) && Fits(Forked(), WithFork(), Atom(C, V2), false)
  {
    hide WithA1, WithB, WithFork;
    AfterA1();
    AfterB();
    AfterFork();
    SelectedForIs(WithA1().projects, "b");
  }

  lemma EarlyIsInv()
    ensures Inv(Forked(), ExampleUniverse(), WithA1())
  {
    hide *;
    var w, u, a, pb := Forked(), ExampleUniverse(), {"a"}, {"b", "b/x"};
    ForkedIsLawful();
    RootsOfExample();
    StartIsRoot();
    EarlyFits();
    SelectA2();
    SelectKeepsInv(w, u, Start(), Atom(A, V2), a, false, WithA2());
    SelectB2();
    SelectKeepsInv(w, u, WithA2(), Atom(B, V2), {"b"}, false, WithB2());
    UnselectB2();
    UnselectKeepsInv(w, u, WithB2(), Selected(Atom(B, V2), pb, true), WithoutB2());
    UnselectA2();
    UnselectKeepsInv(w, u, WithoutB2(), Selected(Atom(A, V2), a, true), WithoutA2());
    SelectA1();
    SelectKeepsInv(w, u, WithoutA2(), Atom(A, V1), a, false, WithA1());
  }

  lemma EndIsInv()
    ensures Inv(Forked(), ExampleUniverse(), End())
  {
    hide *;
    var w, u := Forked(), ExampleUniverse();
    ForkedIsLawful();
    RootsOfExample();
    EarlyIsInv();
    LateFits();
    SelectB();
    SelectKeepsInv(w, u, WithA1(), Atom(B, V2), {"b", "b/x"}, false, WithB());
    SelectFork();
    SelectKeepsInv(w, u, WithB(), Atom(F, V2), {"b"}, true, WithFork());
    SelectC();
    SelectKeepsInv(w, u, WithFork(), Atom(C, V2), {"c"}, false, End());
  }

  lemma RootsOfExample()
    ensures ExampleUniverse().roots == {"a", "b", "c"}
    ensures A.root == "a" && B.root == "b" && F.root == "b" && C.root == "c"
  {
  }

  /** Both sources are in the result, and only the fork is wanted. */
  lemma BothAreTaken()
    ensures var w, sol := Forked(), Collect(End().projects);
      Atom(B, V2) in sol && Atom(F, V2) in sol && Agreed(w, sol, "b", F) && !Agreed(w, sol, "b", B)
  {
    hide Inv, Lawful, Bounded, WithB, Wanted;
    var w, u, ps := Forked(), ExampleUniverse(), End().projects;
    ForkedIsLawful();
    EndIsInv();
    WhereTheyAre();
    CollectIs(ps, Atom(B, V2), "b");
    CollectIs(ps, Atom(F, V2), "b");
    FirstOnB();
    FirstIsAgreed(w, u, End(), "b");
  }

  lemma WhereTheyAre()
    ensures var ps := End().projects; |ps| == 5 && ps[2].a == Atom(B, V2) && ps[3].a == Atom(F, V2)
  {
    hide WithA1;
    AfterA1();
  }

  lemma FirstOnB()
    ensures EdgesOn(Forked(), End().projects, "b") != []
    ensures EdgesOn(Forked(), End().projects, "b")[0].dep.ident == F
  {
    hide WithFork, Inv;
    AfterFork();
    EndIsInv();
    InvMirrors(Forked(), ExampleUniverse(), End());
  }

  lemma TakenInOrder()
    ensures var w := Forked();
      && IsNext(w, Start(), Bmi(A, {"a"}, None, true)) && IsNext(w, WithA2(), Wanting(B, {"b"}))
      && IsNext(w, WithB2(), Wanting(C, {"c"}))
  {
    OnlyIsNext(Forked(), Start(), Bmi(A, {"a"}, None, true));
    OnlyIsNext(Forked(), WithA2(), Wanting(B, {"b"}));
    OnlyIsNext(Forked(), WithB2(), Wanting(C, {"c"}));
  }

  /** From the root state, in the order of the worklist, to an empty worklist and a solution that
    has `b` at its own source and at the fork, of which only the fork is wanted. */
  lemma SolveCanMixSources()
    ensures var w, u, pa, pb := Forked(), ExampleUniverse(), {"a"}, {"b", "b/x"};
      && Lawful(w) && Bounded(w, u) && Inv(w, u, Start()) && Clean(w, Start())
      && IsNext(w, Start(), Bmi(A, pa, None, true))
      && CheckOk(w, Start(), Atom(A, V2), pa, false) && Selects(w, Start(), Atom(A, V2), pa, false, WithA2())
      && IsNext(w, WithA2(), Wanting(B, {"b"}))
      && CheckOk(w, WithA2(), Atom(B, V2), {"b"}, false) && Selects(w, WithA2(), Atom(B, V2), {"b"}, false, WithB2())
      && IsNext(w, WithB2(), Wanting(C, {"c"}))
      && w.versions(C) == Some([V2]) && !CheckOk(w, WithB2(), Atom(C, V2), {"c"}, false)
      && w.versions(B) == Some([V2])
      && Unselects(w, WithB2(), Selected(Atom(B, V2), pb, true), WithoutB2())
      && Unselects(w, WithoutB2(), Selected(Atom(A, V2), pa, true), WithoutA2())
      && Imports(w, Atom(A, V2), pa).Some? && !Tidy(w, WithoutB2(), Selected(Atom(A, V2), pa, true))
      && CheckOk(w, WithoutA2(), Atom(A, V1), pa, false) && Selects(w, WithoutA2(), Atom(A, V1), pa, false, WithA1())
      && IsNext(w, WithA1(), Wanting(B, pb))
      && CheckOk(w, WithA1(), Atom(B, V2), pb, false) && Selects(w, WithA1(), Atom(B, V2), pb, false, WithB())
      && IsNext(w, WithB(), Wanting(F, {"b"})) && SelectedFor(WithB().projects, F.root).Some?
      && CheckOk(w, WithB(), Atom(F, V2), {"b"}, true) && Selects(w, WithB(), Atom(F, V2), {"b"}, true, WithFork())
      && IsNext(w, WithFork(), Wanting(C, {"c"}))
      && CheckOk(w, WithFork(), Atom(C, V2), {"c"}, false) && Selects(w, WithFork(), Atom(C, V2), {"c"}, false, End())
      && End().unsel == multiset{}
    ensures var w, sol := Forked(), Collect(End().projects);
      && IsSolution(w, sol) && Atom(B, V2) in sol && Atom(F, V2) in sol
      && Agreed(w, sol, "b", F) && !Agreed(w, sol, "b", B)
  {
    hide Inv, Lawful, Bounded, CheckOk, Selects, Unselects, Clean, IsNext, Tidy, IsSolution, Agreed, Collect;
    hide Start, WithA2, WithB2, WithoutB2, WithoutA2, WithA1, WithB, WithFork, SelectedFor;
    ForkedIsLawful();
    StartIsRoot();
    TakenInOrder();
    SelectA2();
    SelectB2();
    NoC();
    UnselectB2();
    UnselectA2();
    SelectA1();
    AfterA1();
    SelectB();
    AfterB();
    SelectFork();
    AfterFork();
    SelectC();
    BothAreTaken();
    EndIsInv();
    EmptyWorklistIsSolution(Forked(), ExampleUniverse(), End());
  }
}
