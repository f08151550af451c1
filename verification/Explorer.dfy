/** Transitive reachability with poisoned paths: `wmToReach` and the construction of its work
  map in `ToReachMap` (gps/pkgtree/pkgtree.go). */
module Explorer {
  import opened Versions
  import opened World
  import opened PackageGraph
  import opened ExplorerMarks

  /** The depth-first exploration and the four maps it shares between its calls. */
  class Explorer {
    const wm: Workmap
    const backprop: bool
    var colors: map<Pkg, Color>
    var exrsets: map<Pkg, set<Pkg>>
    var inrsets: map<Pkg, set<Pkg>>
    var errmap: map<Pkg, Problem>

    constructor (wm: Workmap, backprop: bool)
      ensures this.wm == wm && this.backprop == backprop
      ensures M() == Marks(map[], map[], map[], map[])
    {
      this.wm, this.backprop := wm, backprop;
      colors, exrsets, inrsets, errmap := map[], map[], map[], map[];
    }

    ghost function M(): Marks
      reads this
    {
      Marks(colors, exrsets, inrsets, errmap)
    }

    ghost predicate Ok(path: seq<Pkg>)
      reads this
    {
      MarksOk(wm, backprop, M(), path)
    }

    method Poison(path: seq<Pkg>, err: Err, cause: seq<Pkg>)
      requires |path| <= |cause|
      requires forall i, j :: 0 <= i < j < |path| ==> path[i] != path[j]
      requires forall k :: 0 <= k < |path| - 1 ==> path[k] in wm
      modifies this
      ensures Poisoned(wm, old(M()), M(), path, err, cause)
    {
      hide Stripped, Blamed;
      NothingPoisoned(wm, exrsets, inrsets, errmap, err, cause);
      assert path[..0] == [];
      for k := 0 to |path|
        invariant colors == old(colors)
        invariant Stripped(old(exrsets), exrsets, path[..k]) && Stripped(old(inrsets), inrsets, path[..k])
        invariant Blamed(wm, old(errmap), errmap, path[..k], err, cause)
      {
        var ppkg := path[k];
        StripOne(old(exrsets), exrsets, path, k);
        StripOne(old(inrsets), inrsets, path, k);
        BlameOne(wm, old(errmap), errmap, path, k, err, cause);
        exrsets := exrsets - {ppkg};
        inrsets := inrsets - {ppkg};
        assert k + 1 == |cause| ==> cause[k + 1..] == [];
        if k + 1 < |path| || ppkg in wm {
          errmap := errmap[ppkg := Problem(ppkg, err, if k + 1 < |cause| then cause[k + 1..] else [])];
        }
      }
      assert path[..|path|] == path;
    }

    /** Poisons the path with the error of its last package. */
    method PoisonWhite(path: seq<Pkg>)
      requires path != []
      requires forall i, j :: 0 <= i < j < |path| ==> path[i] != path[j]
      requires forall k :: 0 <= k < |path| - 1 ==> path[k] in wm
      requires var tail := path[|path| - 1]; tail in wm ==> wm[tail].err.Some?
      modifies this
      ensures var tail := path[|path| - 1];
        Poisoned(wm, old(M()), M(), path, if tail in wm then Own(wm[tail].err.value) else Missing(tail), path)
    {
      var tail := path[|path| - 1];
      Poison(path, if tail in wm then Own(wm[tail].err.value) else Missing(tail), path);
    }

    /** Poisons the path with what poisoned from before. */
    method PoisonBlack(path: seq<Pkg>, from: Pkg)
      requires path != [] && backprop && Ok(path) && Next(wm, path, from)
      requires IsBlack(M(), from) && from !in exrsets
      modifies this
      ensures Ok(path) && NoneLeft(M(), path) && Kept(old(M()), M())
      ensures IsBlack(M(), from) && from !in exrsets
    {
      var err, rest := Mystery(from), [];
      if from in errmap {
        err, rest := errmap[from].err, errmap[from].cause;
      }
      BlackCauseIsOk(wm, M(), path, from, err, rest);
      label before:
      Poison(path, err, path + [from] + rest);
      PoisonKeepsMarks(wm, old@before(M()), M(), path, err, path + [from] + rest);
    }

    /** Adds imports to the sets of all packages on the path that still have any. */
    method PushImports(path: seq<Pkg>, ex: set<Pkg>, inn: set<Pkg>)
      modifies this
      ensures M() == PushedMarks(old(M()), path, ex, inn)
    {
      for k := 0 to |path|
        invariant colors == old(colors) && errmap == old(errmap)
        invariant exrsets == PushTo(old(exrsets), path[..k], ex)
        invariant inrsets == PushTo(old(inrsets), path[..k], inn)
      {
        PushOne(old(exrsets), path, k, ex);
        PushOne(old(inrsets), path, k, inn);
        var ppkg := path[k];
        if ppkg in exrsets {
          exrsets := exrsets[ppkg := exrsets[ppkg] + ex];
        }
        if ppkg in inrsets {
          inrsets := inrsets[ppkg := inrsets[ppkg] + inn];
        }
      }
      assert path[..|path|] == path;
    }

    /** Visits pkg, to which path leads; false when the path is poisoned. */
    method Dfe(pkg: Pkg, path: seq<Pkg>) returns (clean: bool)
      requires Ok(path) && Clear(M(), path) && Next(wm, path, pkg)
      requires path == [] ==> pkg !in colors
      modifies this
      decreases Nodes(wm) - colors.Keys
      ensures Ok(path) && Kept(old(M()), M()) && Visited(wm, backprop, M(), path, pkg, clean)
    {
      hide MarksOk, Kept, Nested, Next, NoneLeft;
      if pkg !in colors {
        var known := pkg in wm;
        var path' := path + [pkg];
        if !known || wm[pkg].err.Some? {
          if backprop {
            WhitePathIsOk(wm, backprop, M(), path, pkg);
            colors := colors[pkg := Grey];
            PoisonWhite(path');
            WhitePoisonKeepsMarks(wm, old(M()), M(), path, pkg, if known then Own(wm[pkg].err.value) else Missing(pkg));
            colors := colors[pkg := Black];
          } else {
            BadIsMarked(wm, backprop, M(), path, pkg);
            if known {
              errmap := errmap[pkg := Problem(pkg, Own(wm[pkg].err.value), [])];
            }
            colors := colors[pkg := Black];
            assert M() == BadMarks(wm, old(M()), pkg);
          }
          return false;
        }
        clean := DfeInto(pkg, path);
      } else if colors[pkg] == Grey {
        KeptReflexive(M());
        clean := true;
      } else if pkg !in exrsets {
        KeptReflexive(M());
        if backprop {
          PoisonBlack(path, pkg);
        }
        clean := false;
      } else {
        BlackIsPushed(wm, backprop, M(), path, pkg);
        PushImports(path, exrsets[pkg], inrsets[pkg]);
        clean := true;
      }
    }

    /** Visits an error-free package for the first time. */
    method DfeInto(pkg: Pkg, path: seq<Pkg>) returns (clean: bool)
      requires Ok(path) && Clear(M(), path) && Next(wm, path, pkg)
      requires pkg !in colors && Good(wm, pkg)
      modifies this
      decreases Nodes(wm) - colors.Keys, 0
      ensures Ok(path) && Kept(old(M()), M()) && Visited(wm, backprop, M(), path, pkg, clean)
    {
      hide MarksOk, Kept, Clear, Next, AllSeen, Visited;
      var w, path' := wm[pkg], path + [pkg];
      EnterKeepsMarks(wm, backprop, M(), path, pkg);
      colors := colors[pkg := Grey];
      exrsets, inrsets := exrsets[pkg := w.ex], inrsets[pkg := w.inn];
      PushImports(path', w.ex, w.inn);
      var todo := w.inn;
      assert w.inn - todo == {};
      NoneSeen(wm, backprop, M(), path', pkg);
      while todo != {}
        invariant todo <= w.inn
        invariant Ok(path') && Clear(M(), path') && Kept(old(M()), M())
        invariant AllSeen(wm, backprop, M(), path', pkg, w.inn - todo)
      {
        var inn :| inn in todo;
        assert w.inn - (todo - {inn}) == w.inn - todo + {inn};
        if inn == pkg {
          SelfIsSeen(wm, backprop, M(), path', pkg, w.inn - todo);
        } else {
          NextFromTop(wm, path, pkg, inn);
          FewerLeft(wm, backprop, old(M()), M(), path, pkg);
          ghost var m := M();
          clean := Dfe(inn, path');
          KeptTransitive(old(M()), m, M());
          if !clean && backprop {
            LeavePoisonedKeepsMarks(wm, M(), path, pkg, inn);
            KeptWhenFinished(old(M()), M(), pkg);
            colors := colors[pkg := Black];
            return false;
          }
          ImportIsSeen(wm, backprop, m, M(), path, pkg, inn, clean, w.inn - todo);
        }
        todo := todo - {inn};
      }
      assert w.inn - todo == w.inn;
      LeaveKeepsMarks(wm, backprop, M(), path, pkg);
      KeptWhenFinished(old(M()), M(), pkg);
      colors := colors[pkg := Black];
      clean := true;
    }

    /** Visits every package. */
    method Explore()
      requires M() == Marks(map[], map[], map[], map[])
      modifies this
      ensures Ok([]) && wm.Keys <= colors.Keys
    {
      NothingIsMarked(wm, backprop);
      var todo := wm.Keys;
      while todo != {}
        invariant todo <= wm.Keys <= todo + colors.Keys
        invariant Ok([]) && Clear(M(), [])
      {
        var pkg :| pkg in todo;
        todo := todo - {pkg};
        OutsideIsBlack(wm, backprop, M(), pkg);
        if pkg !in colors || colors[pkg] != Black {
          var _ := Dfe(pkg, []);
        }
      }
    }
  }

  /** The packages that are kept, with all they import, and the problems of the others. */
  method WmToReach(wm: Workmap, backprop: bool) returns (rm: map<Pkg, Reach>, em: map<Pkg, Problem>)
    ensures Reported(wm, rm, em)
    ensures !backprop ==> forall p :: p in rm <==> p in wm && Good(wm, p)
    ensures Acyclic(wm) ==> Exact(wm, backprop, rm)
  {
    var e := new Explorer(wm, backprop);
    e.Explore();
    EndIsReported(wm, backprop, e.M());
    if !backprop { GoodIsKept(wm, e.M()); }
    if Acyclic(wm) { EndIsExact(wm, backprop, e.M()); }
    em := e.errmap;
    rm := map p | p in e.exrsets :: Reach(e.inrsets[p], e.exrsets[p]);
  }

  /* ----- Package trees ----- */

  datatype PackageOrErr = Broken(err: string) | Package(name: string, imports: set<Pkg>, testImports: set<Pkg>)

  datatype PackageTree = PackageTree(importRoot: string, packages: map<Pkg, PackageOrErr>)

  predicate EqOrSlashedPrefix(s: string, prefix: string) {
    prefix <= s && (|prefix| == |s| || s[|prefix|] == '/')
  }

  /** Broken packages stay even when they are ignored. */
  predicate InWorkmap(t: PackageTree, main: bool, ignored: Pkg -> bool, p: Pkg) {
    p in t.packages && (t.packages[p].Broken? || (!(t.packages[p].name == "main" && !main) && !ignored(p)))
  }

  predicate Relevant(tests: bool, ignored: Pkg -> bool, pkg: PackageOrErr, i: Pkg) {
    pkg.Package? && (i in pkg.imports || (tests && i in pkg.testImports)) && !ignored(i) && i != "."
  }

  ghost predicate Entry(w: Wm, pkg: PackageOrErr, root: string, tests: bool, ignored: Pkg -> bool) {
    && w.err == (if pkg.Broken? then Some(pkg.err) else None)
    && (forall i :: i in w.inn <==> Relevant(tests, ignored, pkg, i) && EqOrSlashedPrefix(i, root))
    && (forall i :: i in w.ex <==> Relevant(tests, ignored, pkg, i) && !EqOrSlashedPrefix(i, root))
  }

  /** What a work map says of a package tree. */
  ghost predicate Describes(wm: Workmap, t: PackageTree, main: bool, tests: bool, ignored: Pkg -> bool) {
    && (forall p :: p in wm <==> InWorkmap(t, main, ignored, p))
    && (forall p :: p in wm ==> Entry(wm[p], t.packages[p], t.importRoot, tests, ignored))
  }

  method SplitImports(imps: set<Pkg>, root: string, ignored: Pkg -> bool) returns (ex: set<Pkg>, inn: set<Pkg>)
    ensures forall i :: i in ex <==> i in imps && !ignored(i) && i != "." && !EqOrSlashedPrefix(i, root)
    ensures forall i :: i in inn <==> i in imps && !ignored(i) && i != "." && EqOrSlashedPrefix(i, root)
  {
    ex, inn := {}, {};
    var todo := imps;
    while todo != {}
      invariant todo <= imps
      invariant forall i :: i in ex <==>
        i in imps && i !in todo && !ignored(i) && i != "." && !EqOrSlashedPrefix(i, root)
      invariant forall i :: i in inn <==>
        i in imps && i !in todo && !ignored(i) && i != "." && EqOrSlashedPrefix(i, root)
    {
      var imp :| imp in todo;
      todo := todo - {imp};
      if ignored(imp) || imp == "." {
        continue;
      }
      if !EqOrSlashedPrefix(imp, root) {
        ex := ex + {imp};
      } else {
        inn := inn + {imp};
      }
    }
  }

  lemma BrokenEntry(pkg: PackageOrErr, root: string, tests: bool, ignored: Pkg -> bool)
    requires pkg.Broken?
    ensures Entry(Wm(Some(pkg.err), {}, {}), pkg, root, tests, ignored)
  {
  }

  lemma PackageEntry(pkg: PackageOrErr, ex: set<Pkg>, inn: set<Pkg>, root: string, tests: bool, ignored: Pkg -> bool)
    requires pkg.Package?
    requires var imps := if tests then pkg.imports + pkg.testImports else pkg.imports;
      && (forall i :: i in ex <==> i in imps && !ignored(i) && i != "." && !EqOrSlashedPrefix(i, root))
      && (forall i :: i in inn <==> i in imps && !ignored(i) && i != "." && EqOrSlashedPrefix(i, root))
    ensures Entry(Wm(None, ex, inn), pkg, root, tests, ignored)
  {
  }

  method BuildWorkmap(t: PackageTree, main: bool, tests: bool, ignored: Pkg -> bool) returns (wm: Workmap)
    ensures Describes(wm, t, main, tests, ignored)
  {
    wm := map[];
    var todo := t.packages.Keys;
    while todo != {}
      invariant todo <= t.packages.Keys
      invariant Describes(wm, t.(packages := t.packages - todo), main, tests, ignored)
    {
      var ip :| ip in todo;
      todo := todo - {ip};
      var perr := t.packages[ip];
      hide Entry, Relevant, EqOrSlashedPrefix;
      if perr.Broken? {
        wm := wm[ip := Wm(Some(perr.err), {}, {})];
        BrokenEntry(perr, t.importRoot, tests, ignored);
        continue;
      }
      if (perr.name == "main" && !main) || ignored(ip) {
        continue;
      }
      var imps := if tests then perr.imports + perr.testImports else perr.imports;
      var ex, inn := SplitImports(imps, t.importRoot, ignored);
      wm := wm[ip := Wm(None, ex, inn)];
      PackageEntry(perr, ex, inn, t.importRoot, tests, ignored);
    }
    assert t.packages - {} == t.packages;
  }

  /** Kept packages are in the tree and not ignored, and what they import is sorted into the two
    lists by the root of the tree. */
  ghost predicate Placed(t: PackageTree, ignored: Pkg -> bool, rm: map<Pkg, Reach>) {
    && (forall p :: p in rm ==> p in t.packages && t.packages[p].Package? && !ignored(p))
    && (forall p, i :: p in rm && i in rm[p].internal ==> !ignored(i) && EqOrSlashedPrefix(i, t.importRoot))
    && (forall p, i :: p in rm && i in rm[p].external ==> !ignored(i) && !EqOrSlashedPrefix(i, t.importRoot))
  }

  lemma ImportIsPlaced(wm: Workmap, t: PackageTree, main: bool, tests: bool, ignored: Pkg -> bool, p: Pkg, i: Pkg,
                       inner: bool)
    requires Describes(wm, t, main, tests, ignored) && Imported(wm, p, i, inner)
    ensures !ignored(i) && (inner <==> EqOrSlashedPrefix(i, t.importRoot))
  {
    var q :| Reaches(wm, p, q) && Good(wm, q) && i in Direct(wm, q, inner);
    assert Entry(wm[q], t.packages[q], t.importRoot, tests, ignored);
  }

  lemma ReportIsPlaced(wm: Workmap, t: PackageTree, main: bool, tests: bool, ignored: Pkg -> bool,
                       rm: map<Pkg, Reach>, em: map<Pkg, Problem>)
    requires Describes(wm, t, main, tests, ignored) && Reported(wm, rm, em)
    ensures Placed(t, ignored, rm)
  {
    hide Imported, EqOrSlashedPrefix;
    forall p | p in rm
      ensures p in t.packages && t.packages[p].Package? && !ignored(p)
    {
      assert Good(wm, p) && Entry(wm[p], t.packages[p], t.importRoot, tests, ignored);
    }
    forall p, i | p in rm && i in rm[p].internal
      ensures !ignored(i) && EqOrSlashedPrefix(i, t.importRoot)
    {
      ImportIsPlaced(wm, t, main, tests, ignored, p, i, true);
    }
    forall p, i | p in rm && i in rm[p].external
      ensures !ignored(i) && !EqOrSlashedPrefix(i, t.importRoot)
    {
      ImportIsPlaced(wm, t, main, tests, ignored, p, i, false);
    }
  }

  /** Every package of the tree that is sound, not ignored, and not a main package unless these are
    asked for, is kept or has a problem, and no other is kept. */
  lemma KeptAreAsked(wm: Workmap, t: PackageTree, main: bool, tests: bool, ignored: Pkg -> bool,
                     rm: map<Pkg, Reach>, em: map<Pkg, Problem>, p: Pkg)
    requires Describes(wm, t, main, tests, ignored) && Reported(wm, rm, em)
    requires p in t.packages && t.packages[p].Package?
    ensures p in rm ==> !ignored(p) && (t.packages[p].name == "main" ==> main)
    ensures !ignored(p) && (t.packages[p].name == "main" ==> main) ==> Good(wm, p) && (p in rm || p in em)
  {
    hide Imported, EqOrSlashedPrefix, ProblemOk, Relevant;
  }

  /** A package that is kept lists what it imports itself, tests only when these are asked for; and
    what is listed is imported so by some package. */
  lemma OwnImportsAreListed(wm: Workmap, t: PackageTree, main: bool, tests: bool, ignored: Pkg -> bool,
                            rm: map<Pkg, Reach>, em: map<Pkg, Problem>, p: Pkg, i: Pkg)
    requires Describes(wm, t, main, tests, ignored) && Reported(wm, rm, em)
    requires p in rm
    ensures p in t.packages && t.packages[p].Package?
    ensures !ignored(i) && i != "." && (i in t.packages[p].imports || (tests && i in t.packages[p].testImports)) ==>
      if EqOrSlashedPrefix(i, t.importRoot) then i in rm[p].internal else i in rm[p].external
    ensures i in rm[p].internal || i in rm[p].external ==>
      && !ignored(i) && i != "."
      && exists q :: q in t.packages && t.packages[q].Package? && ImportsIt(t.packages[q], tests, i)
  {
    assert Good(wm, p) && Entry(wm[p], t.packages[p], t.importRoot, tests, ignored);
    if i in rm[p].internal { ListedIsImported(wm, t, main, tests, ignored, p, i, true); }
    if i in rm[p].external { ListedIsImported(wm, t, main, tests, ignored, p, i, false); }
    hide Reported, Imported, EqOrSlashedPrefix;
  }

  lemma InWork(wm: Workmap, t: PackageTree, main: bool, tests: bool, ignored: Pkg -> bool, p: Pkg)
    requires Describes(wm, t, main, tests, ignored) && p in t.packages
    ensures !ignored(p) && (t.packages[p].Package? && t.packages[p].name == "main" ==> main) ==> p in wm
  {
  }

  predicate ImportsIt(pkg: PackageOrErr, tests: bool, i: Pkg)
    requires pkg.Package?
  {
    i in pkg.imports || (tests && i in pkg.testImports)
  }

  lemma ListedIsImported(wm: Workmap, t: PackageTree, main: bool, tests: bool, ignored: Pkg -> bool, p: Pkg, i: Pkg,
                         inner: bool)
    requires Describes(wm, t, main, tests, ignored) && Imported(wm, p, i, inner)
    ensures !ignored(i) && i != "."
    ensures exists q :: q in t.packages && t.packages[q].Package? && ImportsIt(t.packages[q], tests, i)
  {
    var q :| Reaches(wm, p, q) && Good(wm, q) && i in Direct(wm, q, inner);
    assert Entry(wm[q], t.packages[q], t.importRoot, tests, ignored);
    assert ImportsIt(t.packages[q], tests, i);
  }

  /** On an acyclic graph the reach map is exact, and closed as the solver needs it. */
  method ToReachMap(t: PackageTree, main: bool, tests: bool, backprop: bool, ignored: Pkg -> bool)
    returns (rm: map<Pkg, Reach>, em: map<Pkg, Problem>, ghost wm: Workmap)
    ensures Describes(wm, t, main, tests, ignored) && Reported(wm, rm, em) && Placed(t, ignored, rm)
    ensures forall p :: p in t.packages && t.packages[p].Package? ==>
      if !ignored(p) && (t.packages[p].name == "main" ==> main) then p in rm || (backprop && p in em) else p !in rm
    ensures forall p :: p in rm ==> p in t.packages && t.packages[p].Package?
    ensures !backprop ==> forall p :: p in rm <==> p in wm && Good(wm, p)
    ensures forall p, i :: p in rm && !ignored(i) && i != "." && ImportsIt(t.packages[p], tests, i) ==>
      if EqOrSlashedPrefix(i, t.importRoot) then i in rm[p].internal else i in rm[p].external
    ensures Acyclic(wm) ==> Exact(wm, backprop, rm)
    ensures Acyclic(wm) && backprop ==> forall w: World | w.ignored == ignored :: ReachClosed(w, rm)
  {
    var workmap := BuildWorkmap(t, main, tests, ignored);
    wm := workmap;
    rm, em := WmToReach(workmap, backprop);
    hide Describes, Reported, Acyclic, Exact, ReachClosed, Good;
    ReportIsPlaced(wm, t, main, tests, ignored, rm, em);
    forall p | p in t.packages && t.packages[p].Package?
      ensures
        if !ignored(p) && (t.packages[p].name == "main" ==> main) then p in rm || (backprop && p in em)
        else p !in rm
    {
      KeptAreAsked(wm, t, main, tests, ignored, rm, em, p);
      InWork(wm, t, main, tests, ignored, p);
    }
    forall p, i | p in rm
      ensures p in t.packages && t.packages[p].Package?
      ensures !ignored(i) && i != "." && ImportsIt(t.packages[p], tests, i) ==>
        if EqOrSlashedPrefix(i, t.importRoot) then i in rm[p].internal else i in rm[p].external
    {
      OwnImportsAreListed(wm, t, main, tests, ignored, rm, em, p, i);
    }
    if Acyclic(wm) && backprop {
      forall w: World | w.ignored == ignored ensures ReachClosed(w, rm) { ExactIsClosed(w, wm, rm); }
    }
  }
}
