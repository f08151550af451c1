/** A run of the search, in the world of `World.Example`, that ends in the crash.  Version 2 of
  `a` and version 2 of `b` are selected; no version of `c` will do, nor another one of `b`, so
  both are unselected.  The entry for `b` and its second package is left on the worklist.
  Version 1 of `a` is selected, then `c`; no version of `b` goes with them, and no edge on `b`
  says whom to blame. */
module CrashingRun {
  import opened Versions
  import opened Unifier
  import opened World
  import opened SolverState
  import opened SolverInvariants
  import opened Staleness
  import opened Runs

  const A: Ident := Ident("a", "")
  const B: Ident := Ident("b", "")
  const C: Ident := Ident("c", "")

  function OnA(): Dependency { Dependency(Example().RootAtom(), CompleteDep(A, AnyC, {"a"})) }
  function OnB(): Dependency { Dependency(Atom(A, V2), CompleteDep(B, AnyC, {"b"})) }
  function OnC1(): Dependency { Dependency(Atom(B, V2), CompleteDep(C, Range("1"), {"c"})) }
  function OnC2(): Dependency { Dependency(Atom(A, V1), CompleteDep(C, Range("2"), {"c"})) }

  function Start(): State { AtRoot(Example(), OnA().dep) }
  function WithA2(): State { Chosen(Start(), Atom(A, V2), {"a"}, OnB().dep, multiset{}) }
  function WithB2(): State { Chosen(WithA2(), Atom(B, V2), {"b", "b/x"}, OnC1().dep, multiset{}) }
  function WithoutB2(): State { Unchosen(WithB2(), OnC1().dep, multiset{Wanting(B, {"b", "b/x"})}) }
  function WithoutA2(): State {
    Unchosen(WithoutB2(), OnB().dep, multiset{Wanting(B, {"b", "b/x"}), Wanting(A, {"a"})})
  }
  function WithA1(): State { Chosen(WithoutA2(), Atom(A, V1), {"a"}, OnC2().dep, multiset{Wanting(B, {"b", "b/x"})}) }
  function WithC2(): State { ChosenAlone(WithA1(), Atom(C, V2), {"c"}, false, multiset{Wanting(B, {"b", "b/x"})}) }

  /* ----- What the atoms need ----- */

  lemma ExampleIsBare()
    ensures Bare(Example()) && Example().root == "main"
  {
  }

  lemma ImportsInExample()
    ensures Imports(Example(), Atom(A, V2), {"a"}) == Some(({"a"}, map["b" := OnB().dep]))
    ensures Imports(Example(), Atom(A, V1), {"a"}) == Some(({"a"}, map["c" := OnC2().dep]))
    ensures Imports(Example(), Atom(B, V2), {"b"}) == Some(({"b", "b/x"}, map["c" := OnC1().dep]))
    ensures Imports(Example(), Atom(B, V2), {"b", "b/x"}) == Some(({"b", "b/x"}, map["c" := OnC1().dep]))
  {
    hide Imports, Bare;
    ExampleIsBare();
    var w := Example();
    ReachedFrom(w, Atom(A, V2), {"a"}, "a", {"a"}, "b");
    ReachedFrom(w, Atom(A, V1), {"a"}, "a", {"a"}, "c");
    ReachedFrom(w, Atom(B, V2), {"b"}, "b", {"b", "b/x"}, "c");
    ReachedFrom(w, Atom(B, V2), {"b", "b/x"}, "b", {"b", "b/x"}, "c");
  }

  /* ----- The steps ----- */

  lemma SelectA2()
    ensures CheckOk(Example(), Start(), Atom(A, V2), {"a"}, false)
    ensures Selects(Example(), Start(), Atom(A, V2), {"a"}, false, WithA2())
  {
    hide Imports, Bare, CheckOk, Selects;
    ExampleIsBare();
    ImportsInExample();
    SelectsOne(Example(), Start(), Atom(A, V2), {"a"}, {"a"}, OnB().dep, Bmi(A, {"a"}, None, true), multiset{});
    FirstDepIsOk(Example(), Start(), Atom(A, V2), {"a"}, {"a"}, OnA(), OnB().dep);
  }

  lemma SelectB2()
    ensures CheckOk(Example(), WithA2(), Atom(B, V2), {"b"}, false)
    ensures Selects(Example(), WithA2(), Atom(B, V2), {"b"}, false, WithB2())
  {
    hide Imports, Bare, CheckOk, Selects;
    ExampleIsBare();
    ImportsInExample();
    SelectsOne(Example(), WithA2(), Atom(B, V2), {"b"}, {"b", "b/x"}, OnC1().dep, Wanting(B, {"b"}), multiset{});
    FirstDepIsOk(Example(), WithA2(), Atom(B, V2), {"b"}, {"b", "b/x"}, OnB(), OnC1().dep);
  }

  lemma TheSame()
    ensures WithoutB2() == WithA2().(unsel := multiset{Wanting(B, {"b", "b/x"})})
    ensures WithoutA2() == Start().(unsel := multiset{Wanting(B, {"b", "b/x"}), Wanting(A, {"a"})})
  {
    hide Unchosen, Chosen;
    var some, all := multiset{Wanting(B, {"b", "b/x"})}, multiset{Wanting(B, {"b", "b/x"}), Wanting(A, {"a"})};
    FreshInStart();
    Undone(WithA2(), Atom(B, V2), {"b", "b/x"}, OnC1().dep, multiset{}, WithB2().unsel, some);
    Undone(Start(), Atom(A, V2), {"a"}, OnB().dep, multiset{}, some, all);
  }

  lemma FreshInStart()
    ensures "b" !in Start().deps && "b" !in Start().folds && "c" !in WithA2().deps && "c" !in WithA2().folds
  {
  }

  lemma SelectA1()
    ensures CheckOk(Example(), WithoutA2(), Atom(A, V1), {"a"}, false)
    ensures Selects(Example(), WithoutA2(), Atom(A, V1), {"a"}, false, WithA1())
  {
    hide Imports, Bare, CheckOk, Selects, WithoutA2, Chosen, Example;
    ExampleIsBare();
    ImportsInExample();
    TheSame();
    WithoutA2Has();
    var left := multiset{Wanting(B, {"b", "b/x"})};
    SelectsOne(Example(), WithoutA2(), Atom(A, V1), {"a"}, {"a"}, OnC2().dep, Wanting(A, {"a"}), left);
    FirstDepIsOk(Example(), WithoutA2(), Atom(A, V1), {"a"}, {"a"}, OnA(), OnC2().dep);
  }

  lemma WithoutA2Has()
    ensures var w, st := Example(), Start();
      && Stack(st.deps, "a") == [OnA()] && Stack(st.deps, "c") == [] && w.fold("c") !in st.folds
      && w.packages(A, V1).Some? && HasPackage(w, Atom(A, V1), "a")
      && forall s :: s in st.projects ==> s.a.id.root != "c"
  {
  }

  lemma UnselectB2()
    ensures Unselects(Example(), WithB2(), Selected(Atom(B, V2), {"b", "b/x"}, true), WithoutB2())
  {
    hide Imports, Unselects, Bare;
    ImportsInExample();
    ExampleIsBare();
    UnselectsAndDrops(Example(), WithB2(), Selected(Atom(B, V2), {"b", "b/x"}, true), OnC1().dep);
  }

  /** The entry of `b` is for one package more than the dependency that goes. */
  lemma UnselectA2()
    ensures Imports(Example(), Atom(A, V2), {"a"}).Some?
    ensures Unselects(Example(), WithoutB2(), Selected(Atom(A, V2), {"a"}, true), WithoutA2())
    ensures !Tidy(Example(), WithoutB2(), Selected(Atom(A, V2), {"a"}, true))
  {
    hide Imports, Unselects, WithoutB2, Bare, Tidy;
    ImportsInExample();
    TheSame();
    ExampleIsBare();
    var b := Wanting(B, {"b", "b/x"});
    assert "b/x" in b.pl && "b/x" !in OnB().dep.pl;
    UnselectsAndLeaves(Example(), WithoutB2(), Selected(Atom(A, V2), {"a"}, true), OnB().dep, b);
  }

  /* ----- What fails ----- */

  /** No version of `c` goes with version 2 of `b`. */
  lemma NoC()
    ensures !CheckOk(Example(), WithB2(), Atom(C, V2), {"c"}, false)
  {
    hide Imports, RequiredPackagesExist, UMatches, CompositeOf;
    assert Stack(WithB2().deps, "c") == [OnC1()];
    OnlyVersion1();
  }

  lemma OnlyVersion1()
    ensures !AtomAllowable(Example(), [OnC1()], Atom(C, V2))
  {
    var w := Example();
    assert Constraints([OnC1()]) == [Range("1")];
    assert Composite(w.lib, w.versions(C), AnyC, [Range("1")]) == Range("1");
  }

  lemma NoOtherB()
    ensures !CheckOk(Example(), WithoutB2(), Atom(B, V1), {"b", "b/x"}, false)
  {
    hide CheckOk, Imports, WithoutB2;
    NoPackages(V1);
    NothingChecks(Example(), WithoutB2(), Atom(B, V1), {"b", "b/x"});
  }

  lemma DisjointRanges(st: State, d: CompleteDep, e: Dependency)
    requires Stack(st.deps, d.ident.root) == [e] && e.dep.c == Range("2") && d.c == Range("1")
    ensures !DepOk(Example(), st, d)
  {
    var w := Example();
    assert Constraints([e]) == [Range("2")];
    assert Composite(w.lib, w.versions(d.ident), AnyC, [Range("2")]) == Range("2");
    assert !ConstraintAllowable(w, [e], d);
  }

  /** With version 1 of `a`, `c` is ahead of `b`: it has fewer versions. */
  lemma AfterA1()
    ensures var st := WithA1();
      && st.unsel == multiset{Wanting(B, {"b", "b/x"}), Wanting(C, {"c"})} && IsNext(Example(), st, Wanting(C, {"c"}))
      && Stack(st.deps, "b") == [] && Stack(st.deps, "c") == [OnC2()]
  {
    hide Example, WithoutA2, Start, Chosen, Stack, SelectedFor, Ahead, IsNext;
    TheSame();
    StartHas();
    var st, b, c := WithA1(), Wanting(B, {"b", "b/x"}), Wanting(C, {"c"});
    ChosenHas(WithoutA2(), Atom(A, V1), {"a"}, OnC2().dep, multiset{b});
    SelectedForIs(st.projects, "b");
    SelectedForIs(st.projects, "c");
    FewerVersions(st.projects, b, c);
    FirstOfTwo(Example(), st, c, b);
  }

  lemma StartHas()
    ensures var st := Start();
      Stack(st.deps, "b") == [] && forall s :: s in st.projects ==> s.a.id.root == "main"
  {
  }

  lemma FewerVersions(ps: seq<Selected>, b: Bmi, c: Bmi)
    requires b.id == B && c.id == C && SelectedFor(ps, "b").None? && SelectedFor(ps, "c").None?
    ensures Ahead(Example(), ps, c, b)
  {
  }

  lemma SelectC2()
    ensures CheckOk(Example(), WithA1(), Atom(C, V2), {"c"}, false)
    ensures Selects(Example(), WithA1(), Atom(C, V2), {"c"}, false, WithC2())
  {
    hide Imports, Bare, CheckOk, Selects, WithA1;
    AfterA1();
    ExampleIsBare();
    ReachedAlone(Example(), Atom(C, V2), "c");
    var b, c := Wanting(B, {"b", "b/x"}), Wanting(C, {"c"});
    assert WithA1().unsel - multiset{c} == multiset{b};
    SelectsAlone(Example(), WithA1(), Atom(C, V2), {"c"}, {"c"}, false, c, multiset{b});
    Version2Allowed();
    AloneIsOk(Example(), WithA1(), Atom(C, V2), {"c"}, {"c"}, false);
  }

  lemma Version2Allowed()
    ensures AtomAllowable(Example(), [OnC2()], Atom(C, V2)) && RequiredPackagesExist(Example(), [OnC2()], Atom(C, V2))
  {
    var w := Example();
    assert Constraints([OnC2()]) == [Range("2")];
    assert Composite(w.lib, w.versions(C), AnyC, [Range("2")]) == Range("2");
  }

  lemma EndOfRun()
    ensures var st := WithC2();
      && st.unsel == multiset{Wanting(B, {"b", "b/x"})}
      && Stack(st.deps, "b") == [] && Stack(st.deps, "c") == [OnC2()]
  {
    hide WithA1;
    AfterA1();
  }

  /** In the end no version of `b` goes with what is selected. */
  lemma NoB(v: Version)
    ensures !CheckOk(Example(), WithC2(), Atom(B, v), {"b", "b/x"}, false)
  {
    hide Imports, CheckOk, WithC2, DepOk, AtomAllowable, RequiredPackagesExist, Stack;
    ImportsInExample();
    EndOfRun();
    if v == V2 {
      DisjointRanges(WithC2(), OnC1().dep, OnC2());
      ChecksOne(Example(), WithC2(), Atom(B, V2), {"b", "b/x"}, {"b", "b/x"}, "c", OnC1().dep);
    } else {
      NoPackages(v);
      NothingChecks(Example(), WithC2(), Atom(B, v), {"b", "b/x"});
    }
  }

  lemma NoPackages(v: Version)
    requires v != V2
    ensures Imports(Example(), Atom(B, v), {"b", "b/x"}).None?
  {
    assert "b" in {"b", "b/x"} && "b" !in Example().reach(B, v);
  }

  lemma StartIsRoot()
    ensures Inv(Example(), ExampleUniverse(), Start()) && Clean(Example(), Start())
  {
    hide Inv, Lawful, Bounded, Clean, AtRoot, Bare;
    LawsCanBeMet();
    ExampleIsBare();
    AtRootIsStart(Example(), ExampleUniverse(), OnA().dep);
  }

  /** What is taken next at each step: the only entry there is. */
  lemma TakenInOrder()
    ensures var w := Example();
      && IsNext(w, Start(), Bmi(A, {"a"}, None, true)) && IsNext(w, WithA2(), Wanting(B, {"b"}))
      && IsNext(w, WithB2(), Wanting(C, {"c"})) && IsNext(w, WithC2(), Wanting(B, {"b", "b/x"}))
  {
    hide WithA1, NewBmi;
    OnlyIsNext(Example(), Start(), Bmi(A, {"a"}, None, true));
    OnlyIsNext(Example(), WithA2(), Wanting(B, {"b"}));
    OnlyIsNext(Example(), WithB2(), Wanting(C, {"c"}));
    OnlyIsNext(Example(), WithC2(), Wanting(B, {"b", "b/x"}));
  }

  /** From the root state, in the order of the worklist, through selections that pass the checks,
    and unselections when no version is left, to an entry that no edge names and for which no
    version will do.  By the contract of `Solver.FindValidVersion` that is the crash. */
  lemma SearchCanCrash()
    ensures var w, u, pa, pb := Example(), ExampleUniverse(), {"a"}, {"b", "b/x"};
      && Lawful(w) && Bounded(w, u) && Inv(w, u, Start()) && Clean(w, Start())
      && IsNext(w, Start(), Bmi(A, pa, None, true))
      && CheckOk(w, Start(), Atom(A, V2), pa, false) && Selects(w, Start(), Atom(A, V2), pa, false, WithA2())
      && IsNext(w, WithA2(), Wanting(B, {"b"}))
      && CheckOk(w, WithA2(), Atom(B, V2), {"b"}, false) && Selects(w, WithA2(), Atom(B, V2), {"b"}, false, WithB2())
      && IsNext(w, WithB2(), Wanting(C, {"c"}))
      && w.versions(C) == Some([V2]) && !CheckOk(w, WithB2(), Atom(C, V2), {"c"}, false)
      && Unselects(w, WithB2(), Selected(Atom(B, V2), pb, true), WithoutB2())
      && !CheckOk(w, WithoutB2(), Atom(B, V1), pb, false)
      && Unselects(w, WithoutB2(), Selected(Atom(A, V2), pa, true), WithoutA2())
      && Imports(w, Atom(A, V2), pa).Some? && !Tidy(w, WithoutB2(), Selected(Atom(A, V2), pa, true))
      && CheckOk(w, WithoutA2(), Atom(A, V1), pa, false) && Selects(w, WithoutA2(), Atom(A, V1), pa, false, WithA1())
      && IsNext(w, WithA1(), Wanting(C, {"c"}))
      && CheckOk(w, WithA1(), Atom(C, V2), {"c"}, false) && Selects(w, WithA1(), Atom(C, V2), {"c"}, false, WithC2())
      && IsNext(w, WithC2(), Wanting(B, pb)) && Stack(WithC2().deps, "b") == []
      && (forall v :: !CheckOk(w, WithC2(), Atom(B, v), pb, false))
  {
    hide Inv, Lawful, Bounded, CheckOk, Selects, Unselects, Clean, IsNext, Tidy;
    hide Start, WithA2, WithB2, WithoutB2, WithoutA2, WithA1, WithC2;
    LawsCanBeMet();
    StartIsRoot();
    TakenInOrder();
    SelectA2();
    SelectB2();
    NoC();
    NoOtherB();
    UnselectB2();
    UnselectA2();
    SelectA1();
    AfterA1();
    SelectC2();
    EndOfRun();
    forall v ensures !CheckOk(Example(), WithC2(), Atom(B, v), {"b", "b/x"}, false) { NoB(v); }
  }
}
