/** The marks a depth-first exploration leaves on packages, what holds of them at every point
  of it, and why each kind of step keeps that. */
module ExplorerMarks {
  import opened World
  import opened PackageGraph

  /** A package without a colour is white: not visited yet. */
  datatype Color = Grey | Black

  datatype Marks = Marks(
    colors: map<Pkg, Color>,
    ex: map<Pkg, set<Pkg>>,
    inn: map<Pkg, set<Pkg>>,
    errs: map<Pkg, Problem>)

  predicate IsBlack(m: Marks, p: Pkg) {
    p in m.colors && m.colors[p] == Black
  }

  /** path is a chain of distinct error-free packages, and exactly the grey ones. */
  ghost predicate Stacked(wm: Workmap, m: Marks, path: seq<Pkg>) {
    && (path != [] ==> Chain(wm, path))
    && (forall i, j :: 0 <= i < j < |path| ==> path[i] != path[j])
    && (forall p :: p in path ==> Good(wm, p))
    && (forall p :: p in path <==> p in m.colors && m.colors[p] == Grey)
  }

  /** Sets of error-free packages, with what each imports directly and nothing untrue. */
  ghost predicate Listing(wm: Workmap, s: map<Pkg, set<Pkg>>, inner: bool) {
    (forall p :: p in s ==> Good(wm, p) && Direct(wm, p, inner) <= s[p]) && Sound(wm, s, inner)
  }

  ghost predicate SetsOk(wm: Workmap, m: Marks) {
    && (forall p :: p in m.ex <==> p in m.inn)
    && (forall p :: p in m.ex ==> p in m.colors)
    && Listing(wm, m.ex, false) && Listing(wm, m.inn, true)
  }

  /** Which visited packages have reach sets, and which a problem. */
  ghost predicate Split(wm: Workmap, back: bool, m: Marks) {
    && (forall p :: p in m.errs ==> p in m.colors && p !in m.ex && ProblemOk(wm, p, m.errs[p]))
    && (back ==> forall p :: p in m.colors && p in wm && p !in m.ex ==> p in m.errs)
    && (!back ==> forall p :: p in m.colors ==>
          (p in m.ex <==> Good(wm, p)) && (p in m.errs <==> p in wm && !Good(wm, p)))
  }

  /** The import q of the finished package p is finished and its sets are in those of p. */
  ghost predicate Absorbed(wm: Workmap, back: bool, m: Marks, p: Pkg, q: Pkg) {
    && IsBlack(m, q)
    && (back ==> q in m.ex)
    && (Good(wm, q) ==> q in m.ex)
    && (q in m.ex && q in m.inn && p in m.ex && p in m.inn ==> m.ex[q] <= m.ex[p] && m.inn[q] <= m.inn[p])
  }

  ghost predicate Finished(wm: Workmap, back: bool, m: Marks) {
    forall p, q :: IsBlack(m, p) && p in m.ex && Edge(wm, p, q) ==> Absorbed(wm, back, m, p, q)
  }

  ghost predicate MarksOk(wm: Workmap, back: bool, m: Marks, path: seq<Pkg>) {
    && Stacked(wm, m, path)
    && SetsOk(wm, m)
    && Split(wm, back, m)
    && Known(wm, m)
    && (Acyclic(wm) ==> Finished(wm, back, m))
  }

  ghost predicate Known(wm: Workmap, m: Marks) {
    m.colors.Keys <= Nodes(wm)
  }

  /** Nothing on the path is poisoned, and what is below has everything that is above. */
  ghost predicate Nested(s: map<Pkg, set<Pkg>>, path: seq<Pkg>) {
    && (forall p :: p in path ==> p in s)
    && (forall i, j :: 0 <= i < j < |path| ==> s[path[j]] <= s[path[i]])
  }

  ghost predicate Clear(m: Marks, path: seq<Pkg>) {
    Nested(m.ex, path) && Nested(m.inn, path)
  }

  /** What was finished stays as it is; what was in progress stays so, and only grows or loses
    its sets. */
  ghost predicate Kept(m: Marks, m': Marks) {
    && (forall p :: p in m.colors ==> p in m'.colors && m'.colors[p] == m.colors[p])
    && KeptSets(m.colors, m.ex, m'.ex) && KeptSets(m.colors, m.inn, m'.inn)
  }

  ghost predicate KeptSets(colors: map<Pkg, Color>, s: map<Pkg, set<Pkg>>, s': map<Pkg, set<Pkg>>) {
    && (forall p :: p in colors && p in s' ==> p in s && s[p] <= s'[p])
    && (forall p :: p in colors && colors[p] == Black ==> SameSets(s, s', p))
  }

  ghost predicate SameSets(s: map<Pkg, set<Pkg>>, s': map<Pkg, set<Pkg>>, p: Pkg) {
    (p in s <==> p in s') && (p in s ==> s[p] == s'[p])
  }

  lemma KeptTransitive(m: Marks, m1: Marks, m2: Marks)
    requires Kept(m, m1) && Kept(m1, m2)
    ensures Kept(m, m2)
  {
  }

  lemma KeptWhenFinished(m: Marks, m': Marks, p: Pkg)
    requires Kept(m, m') && p !in m.colors
    ensures Kept(m, m'.(colors := m'.colors[p := Black]))
  {
  }

  lemma KeptReflexive(m: Marks)
    ensures Kept(m, m)
  {
  }

  /** p can be visited from the top of the path, or from the outside when the path is empty. */
  ghost predicate Next(wm: Workmap, path: seq<Pkg>, p: Pkg) {
    if path == [] then p in wm else Edge(wm, path[|path| - 1], p)
  }

  lemma NextFromTop(wm: Workmap, path: seq<Pkg>, p: Pkg, q: Pkg)
    requires Edge(wm, p, q)
    ensures Next(wm, path + [p], q)
  {
  }

  /** On an acyclic graph no import leads back into the path. */
  lemma NoWayBack(wm: Workmap, path: seq<Pkg>, p: Pkg)
    requires Acyclic(wm) && path != [] && Chain(wm, path) && Next(wm, path, p)
    ensures p !in path
  {
    forall i | 0 <= i < |path| ensures path[i] != p {
      var c := path[i..] + [p];
      assert Chain(wm, path[i..]);
      ChainsJoin(wm, path[i..], [p]);
      assert c[0] != c[|c| - 1];
    }
  }

  /* ----- Pushing imports into every set on the path ----- */

  function PushTo(m: map<Pkg, set<Pkg>>, path: seq<Pkg>, s: set<Pkg>): map<Pkg, set<Pkg>> {
    map p | p in m :: if p in path then m[p] + s else m[p]
  }

  function PushedMarks(m: Marks, path: seq<Pkg>, ex: set<Pkg>, inn: set<Pkg>): Marks {
    Marks(m.colors, PushTo(m.ex, path, ex), PushTo(m.inn, path, inn), m.errs)
  }

  lemma PushIsSound(wm: Workmap, m: map<Pkg, set<Pkg>>, inner: bool, path: seq<Pkg>, p: Pkg, s: set<Pkg>)
    requires Sound(wm, m, inner) && (path != [] ==> Chain(wm, path)) && Next(wm, path, p)
    requires forall x :: x in s ==> Imported(wm, p, x, inner)
    ensures Sound(wm, PushTo(m, path, s), inner)
  {
    forall q, x | q in PushTo(m, path, s) && x in PushTo(m, path, s)[q]
      ensures Imported(wm, q, x, inner)
    {
      if x !in m[q] {
        var i :| 0 <= i < |path| && path[i] == q;
        ChainsJoin(wm, path, [p]);
        ImportedAlong(wm, path + [p], i, x, inner);
      }
    }
  }

  /** What is finished stays finished when neither the black packages nor their sets change. */
  lemma FinishedStays(wm: Workmap, back: bool, m: Marks, m': Marks)
    requires Finished(wm, back, m)
    requires forall p :: IsBlack(m, p) ==> IsBlack(m', p) && SameSets(m.ex, m'.ex, p) && SameSets(m.inn, m'.inn, p)
    requires forall p :: IsBlack(m', p) && p in m'.ex ==> IsBlack(m, p)
    ensures Finished(wm, back, m')
  {
    hide Edge, Good;
    forall a, q | IsBlack(m', a) && a in m'.ex && Edge(wm, a, q)
      ensures Absorbed(wm, back, m', a, q)
    {
      assert Absorbed(wm, back, m, a, q);
    }
  }

  lemma PushedMap(wm: Workmap, inner: bool, m: Marks, l: map<Pkg, set<Pkg>>, path: seq<Pkg>, p: Pkg, s: set<Pkg>)
    requires Listing(wm, l, inner) && Nested(l, path) && Stacked(wm, m, path) && Next(wm, path, p)
    requires forall x :: x in s ==> Imported(wm, p, x, inner)
    ensures var l' := PushTo(l, path, s);
      Listing(wm, l', inner) && Nested(l', path) && KeptSets(m.colors, l, l') && forall a :: a in path ==> s <= l'[a]
  {
    hide Chain, Imported, Edge, Good, Sound;
    PushIsSound(wm, l, inner, path, p, s);
  }

  /** Packages keep or lose both their sets and their problem together. */
  lemma SplitStays(wm: Workmap, back: bool, m: Marks, m': Marks)
    requires Split(wm, back, m)
    requires forall p :: p in m.colors <==> p in m'.colors
    requires forall p :: p in m.ex <==> p in m'.ex
    requires m.errs == m'.errs
    ensures Split(wm, back, m')
  {
    hide ProblemOk, Good;
  }

  /** Pushing what p imports keeps everything, when p is finished or has just been entered. */
  lemma PushKeepsMarks(wm: Workmap, back: bool, m: Marks, path: seq<Pkg>, p: Pkg, ex: set<Pkg>, inn: set<Pkg>)
    requires MarksOk(wm, back, m, path) && Clear(m, path) && Next(wm, path, p)
    requires forall x :: x in ex ==> Imported(wm, p, x, false)
    requires forall x :: x in inn ==> Imported(wm, p, x, true)
    ensures var m' := PushedMarks(m, path, ex, inn);
      && MarksOk(wm, back, m', path) && Clear(m', path) && Kept(m, m')
      && forall a :: a in path ==> a in m'.ex && a in m'.inn && ex <= m'.ex[a] && inn <= m'.inn[a]
  {
    hide Imported, Acyclic, Listing, Finished, Split, Stacked, Nested, KeptSets;
    var m' := PushedMarks(m, path, ex, inn);
    SplitStays(wm, back, m, m');
    StackStays(wm, m, m', path);
    PushedMap(wm, false, m, m.ex, path, p, ex);
    PushedMap(wm, true, m, m.inn, path, p, inn);
    NestedHas(m.ex, path);
    NestedHas(m.inn, path);
    if Acyclic(wm) { PushIsFinished(wm, back, m, path, ex, inn); }
  }

  lemma NestedHas(s: map<Pkg, set<Pkg>>, path: seq<Pkg>)
    requires Nested(s, path)
    ensures forall p :: p in path ==> p in s
  {
  }

  lemma StackStays(wm: Workmap, m: Marks, m': Marks, path: seq<Pkg>)
    requires Stacked(wm, m, path) && m'.colors == m.colors
    ensures Stacked(wm, m', path)
  {
    hide Chain;
  }

  lemma PushIsFinished(wm: Workmap, back: bool, m: Marks, path: seq<Pkg>, ex: set<Pkg>, inn: set<Pkg>)
    requires Finished(wm, back, m) && Stacked(wm, m, path)
    ensures Finished(wm, back, PushedMarks(m, path, ex, inn))
  {
    hide Finished, Chain;
    FinishedStays(wm, back, m, PushedMarks(m, path, ex, inn));
  }

  /* ----- Entering and leaving an error-free package ----- */

  function EnteredMarks(wm: Workmap, m: Marks, p: Pkg): Marks
    requires p in wm
  {
    Marks(m.colors[p := Grey], m.ex[p := wm[p].ex], m.inn[p := wm[p].inn], m.errs)
  }

  lemma EnterKeepsMarks(wm: Workmap, back: bool, m: Marks, path: seq<Pkg>, p: Pkg)
    requires MarksOk(wm, back, m, path) && Clear(m, path) && Next(wm, path, p) && p !in m.colors && Good(wm, p)
    ensures var path' := path + [p];
      var m' := PushedMarks(EnteredMarks(wm, m, p), path', wm[p].ex, wm[p].inn);
      MarksOk(wm, back, m', path') && Clear(m', path') && Kept(m, m')
  {
    hide MarksOk, Clear, Kept, Next, Imported;
    var m1 := PushedMarks(m, path, wm[p].ex, wm[p].inn);
    forall x | x in wm[p].ex ensures Imported(wm, p, x, false) { ImportedDirectly(wm, p, x, false); }
    forall x | x in wm[p].inn ensures Imported(wm, p, x, true) { ImportedDirectly(wm, p, x, true); }
    PushKeepsMarks(wm, back, m, path, p, wm[p].ex, wm[p].inn);
    EnterAfterPush(wm, back, m1, path, p);
    KeptTransitive(m, m1, EnteredMarks(wm, m1, p));
    PushAndEnter(m.ex, path, p, wm[p].ex);
    PushAndEnter(m.inn, path, p, wm[p].inn);
  }

  lemma PushAndEnter(m: map<Pkg, set<Pkg>>, path: seq<Pkg>, p: Pkg, s: set<Pkg>)
    ensures PushTo(m[p := s], path + [p], s) == PushTo(m, path, s)[p := s]
  {
    assert forall q :: q in path + [p] <==> q in path || q == p;
    assert s + s == s;
  }

  lemma EnterAfterPush(wm: Workmap, back: bool, m: Marks, path: seq<Pkg>, p: Pkg)
    requires MarksOk(wm, back, m, path) && Clear(m, path) && Next(wm, path, p) && p !in m.colors && Good(wm, p)
    requires forall a :: a in path ==> a in m.ex && a in m.inn && wm[p].ex <= m.ex[a] && wm[p].inn <= m.inn[a]
    ensures var m' := EnteredMarks(wm, m, p);
      MarksOk(wm, back, m', path + [p]) && Clear(m', path + [p]) && Kept(m, m')
  {
    hide SetsOk, Acyclic, Finished, Stacked, Nested, Split, KeptSets, Next, Known;
    var m' := EnteredMarks(wm, m, p);
    EnterIsStacked(wm, m, path, p);
    EnterIsSound(wm, m, p);
    EnterIsNested(m.ex, path, p, wm[p].ex);
    EnterIsNested(m.inn, path, p, wm[p].inn);
    GoodIsKnown(wm, m, m', p);
    EnterIsSplit(wm, back, m, p);
    NewIsKept(m, p, wm[p].ex, wm[p].inn);
    if Acyclic(wm) { EnterIsFinished(wm, back, m, p); }
  }

  lemma GoodIsKnown(wm: Workmap, m: Marks, m': Marks, p: Pkg)
    requires Known(wm, m) && Good(wm, p) && m'.colors == m.colors[p := Grey]
    ensures Known(wm, m')
  {
  }

  lemma EnterIsFinished(wm: Workmap, back: bool, m: Marks, p: Pkg)
    requires Finished(wm, back, m) && p !in m.colors && p in wm
    ensures Finished(wm, back, EnteredMarks(wm, m, p))
  {
    hide Finished;
    FinishedStays(wm, back, m, EnteredMarks(wm, m, p));
  }

  lemma NewIsKept(m: Marks, p: Pkg, ex: set<Pkg>, inn: set<Pkg>)
    requires p !in m.colors
    ensures KeptSets(m.colors, m.ex, m.ex[p := ex]) && KeptSets(m.colors, m.inn, m.inn[p := inn])
    ensures KeptSets(m.colors, m.ex, m.ex) && KeptSets(m.colors, m.inn, m.inn)
  {
  }

  lemma EnterIsSplit(wm: Workmap, back: bool, m: Marks, p: Pkg)
    requires Split(wm, back, m) && p !in m.colors && Good(wm, p)
    ensures Split(wm, back, EnteredMarks(wm, m, p))
  {
    hide ProblemOk;
  }

  lemma EnterIsNested(m: map<Pkg, set<Pkg>>, path: seq<Pkg>, p: Pkg, s: set<Pkg>)
    requires Nested(m, path) && p !in path && forall a :: a in path ==> s <= m[a]
    ensures Nested(m[p := s], path + [p])
  {
    var path', m' := path + [p], m[p := s];
    assert path'[|path|] == p && forall i :: 0 <= i < |path| ==> path'[i] == path[i] && path[i] in path;
    forall i, j | 0 <= i < j < |path'|
      ensures m'[path'[j]] <= m'[path'[i]]
    {
    }
  }

  lemma EnterIsStacked(wm: Workmap, m: Marks, path: seq<Pkg>, p: Pkg)
    requires Stacked(wm, m, path) && Next(wm, path, p) && p !in m.colors && Good(wm, p)
    ensures Stacked(wm, EnteredMarks(wm, m, p), path + [p]) && p !in path
  {
    if path != [] { ChainsJoin(wm, path, [p]); }
    var path' := path + [p];
    hide Chain, Edge;
    assert forall q :: q in path' <==> q in path || q == p;
    assert forall i :: 0 <= i < |path| ==> path'[i] == path[i] && path[i] in path;
  }

  lemma EnterIsSound(wm: Workmap, m: Marks, p: Pkg)
    requires SetsOk(wm, m) && Good(wm, p)
    ensures SetsOk(wm, EnteredMarks(wm, m, p))
  {
    forall x | x in wm[p].ex ensures Imported(wm, p, x, false) { ImportedDirectly(wm, p, x, false); }
    forall x | x in wm[p].inn ensures Imported(wm, p, x, true) { ImportedDirectly(wm, p, x, true); }
    hide Imported;
  }

  /** Everything p imports has been seen: each is finished and absorbed, unless it closes a cycle. */
  ghost predicate AllSeen(wm: Workmap, back: bool, m: Marks, path: seq<Pkg>, p: Pkg, seen: set<Pkg>) {
    forall q :: q in seen && q != p ==> q in path || Absorbed(wm, back, m, p, q)
  }

  lemma LeaveKeepsMarks(wm: Workmap, back: bool, m: Marks, path: seq<Pkg>, p: Pkg)
    requires MarksOk(wm, back, m, path + [p]) && Clear(m, path + [p])
    requires p in wm && AllSeen(wm, back, m, path + [p], p, wm[p].inn)
    ensures var m' := m.(colors := m.colors[p := Black]);
      MarksOk(wm, back, m', path) && Visited(wm, back, m', path, p, true)
  {
    hide Acyclic, Finished, Listing, Nested, Stacked, Split, AllSeen;
    var m' := m.(colors := m.colors[p := Black]);
    LeaveIsStacked(wm, m, path, p);
    LeaveIsNested(m.ex, path, p);
    LeaveIsNested(m.inn, path, p);
    if Acyclic(wm) { LeaveIsFinished(wm, back, m, path, p); }
    SplitStays(wm, back, m, m');
  }

  lemma LeaveIsNested(m: map<Pkg, set<Pkg>>, path: seq<Pkg>, p: Pkg)
    requires Nested(m, path + [p])
    ensures Nested(m, path) && p in m && forall a :: a in path ==> m[p] <= m[a]
  {
    var path' := path + [p];
    assert path'[|path|] == p && p in path' && forall i :: 0 <= i < |path| ==> path'[i] == path[i];
    forall a | a in path
      ensures m[p] <= m[a]
    {
      var i :| 0 <= i < |path| && path[i] == a;
    }
  }

  lemma LeaveIsFinished(wm: Workmap, back: bool, m: Marks, path: seq<Pkg>, p: Pkg)
    requires Acyclic(wm) && Stacked(wm, m, path + [p]) && Finished(wm, back, m)
    requires p in wm && AllSeen(wm, back, m, path + [p], p, wm[p].inn)
    ensures Finished(wm, back, m.(colors := m.colors[p := Black]))
  {
    var path', m' := path + [p], m.(colors := m.colors[p := Black]);
    assert path'[|path|] == p;
    forall a, q | IsBlack(m', a) && a in m'.ex && Edge(wm, a, q)
      ensures Absorbed(wm, back, m', a, q)
    {
      if a == p { NoWayBack(wm, path', q); }
      hide Acyclic, Chain;
      assert Absorbed(wm, back, m, a, q);
    }
  }

  lemma NoneSeen(wm: Workmap, back: bool, m: Marks, path: seq<Pkg>, p: Pkg)
    ensures AllSeen(wm, back, m, path, p, {})
  {
  }

  lemma SelfIsSeen(wm: Workmap, back: bool, m: Marks, path: seq<Pkg>, p: Pkg, seen: set<Pkg>)
    requires AllSeen(wm, back, m, path, p, seen)
    ensures AllSeen(wm, back, m, path, p, seen + {p})
  {
  }

  /** What was seen stays so as the exploration goes on. */
  lemma SeenIsKept(wm: Workmap, back: bool, m: Marks, m': Marks, path: seq<Pkg>, p: Pkg, seen: set<Pkg>)
    requires AllSeen(wm, back, m, path, p, seen) && Kept(m, m')
    requires p in m.colors && SetsOk(wm, m) && SetsOk(wm, m')
    requires p in m.ex && p in m'.ex
    ensures AllSeen(wm, back, m', path, p, seen)
  {
    forall q | q in seen && q != p && q !in path
      ensures Absorbed(wm, back, m', p, q)
    {
      assert Absorbed(wm, back, m, p, q);
    }
  }

  /* ----- Poison ----- */

  /** All packages of a path lose their sets, and get the same error with the rest of the cause. */
  ghost predicate Poisoned(wm: Workmap, m: Marks, m': Marks, path: seq<Pkg>, err: Err, cause: seq<Pkg>)
    requires |path| <= |cause|
  {
    && m'.colors == m.colors
    && Stripped(m.ex, m'.ex, path) && Stripped(m.inn, m'.inn, path)
    && Blamed(wm, m.errs, m'.errs, path, err, cause)
  }

  ghost predicate Stripped(s: map<Pkg, set<Pkg>>, s': map<Pkg, set<Pkg>>, path: seq<Pkg>) {
    && (forall p :: p in s' <==> p in s && p !in path)
    && (forall p :: p in s' ==> s'[p] == s[p])
  }

  ghost predicate Blamed(wm: Workmap, e: map<Pkg, Problem>, e': map<Pkg, Problem>, path: seq<Pkg>, err: Err,
                         cause: seq<Pkg>)
    requires |path| <= |cause|
  {
    && (forall p :: p in e' <==> p in e || (p in path && p in wm))
    && (forall p :: p in e && !(p in path && p in wm) ==> e'[p] == e[p])
    && (forall k :: 0 <= k < |path| ==> BlamedAt(wm, e', path[k], k, err, cause))
  }

  predicate BlamedAt(wm: Workmap, e': map<Pkg, Problem>, p: Pkg, k: nat, err: Err, cause: seq<Pkg>)
    requires k < |cause|
  {
    p in wm ==> p in e' && e'[p] == Problem(p, err, cause[k + 1..])
  }

  lemma NothingPoisoned(wm: Workmap, ex: map<Pkg, set<Pkg>>, inn: map<Pkg, set<Pkg>>, e: map<Pkg, Problem>, err: Err,
                        cause: seq<Pkg>)
    ensures Stripped(ex, ex, []) && Stripped(inn, inn, []) && Blamed(wm, e, e, [], err, cause)
  {
  }

  lemma StripOne(s: map<Pkg, set<Pkg>>, s': map<Pkg, set<Pkg>>, path: seq<Pkg>, k: nat)
    requires k < |path| && Stripped(s, s', path[..k])
    ensures Stripped(s, s' - {path[k]}, path[..k + 1])
  {
    assert path[..k + 1] == path[..k] + [path[k]];
  }

  lemma BlameOne(wm: Workmap, e: map<Pkg, Problem>, e': map<Pkg, Problem>, path: seq<Pkg>, k: nat, err: Err,
                 cause: seq<Pkg>)
    requires k < |path| <= |cause| && path[k] !in path[..k] && Blamed(wm, e, e', path[..k], err, cause)
    ensures var marked := if path[k] in wm then e'[path[k] := Problem(path[k], err, cause[k + 1..])] else e';
      Blamed(wm, e, marked, path[..k + 1], err, cause)
  {
    hide BlamedAt;
    var p, l, l' := path[k], path[..k], path[..k + 1];
    var e1 := if p in wm then e'[p := Problem(p, err, cause[k + 1..])] else e';
    assert forall q :: q in l' <==> q in l || q == p by { assert l' == l + [p]; }
    forall i | 0 <= i < |l'|
      ensures BlamedAt(wm, e1, l'[i], i, err, cause)
    {
      if i < k {
        assert l'[i] == l[i] && l[i] in l;
        BlamedStill(wm, e', e1, l'[i], i, err, cause);
      } else {
        BlamedNow(wm, e', p, k, err, cause);
      }
    }
  }

  lemma BlamedStill(wm: Workmap, e: map<Pkg, Problem>, e': map<Pkg, Problem>, p: Pkg, k: nat, err: Err, cause: seq<Pkg>)
    requires k < |cause| && BlamedAt(wm, e, p, k, err, cause) && (p in e ==> p in e' && e'[p] == e[p])
    ensures BlamedAt(wm, e', p, k, err, cause)
  {
  }

  lemma BlamedNow(wm: Workmap, e: map<Pkg, Problem>, p: Pkg, k: nat, err: Err, cause: seq<Pkg>)
    requires k < |cause|
    ensures BlamedAt(wm, if p in wm then e[p := Problem(p, err, cause[k + 1..])] else e, p, k, err, cause)
  {
  }

  ghost predicate NoneLeft(m: Marks, path: seq<Pkg>) {
    forall p :: p in path ==> p !in m.ex
  }

  lemma PoisonKeepsMarks(wm: Workmap, m: Marks, m': Marks, path: seq<Pkg>, err: Err, cause: seq<Pkg>)
    requires MarksOk(wm, true, m, path) && |path| <= |cause| && Poisoned(wm, m, m', path, err, cause)
    requires forall k :: 0 <= k < |path| ==> ProblemOk(wm, path[k], Problem(path[k], err, cause[k + 1..]))
    ensures MarksOk(wm, true, m', path) && NoneLeft(m', path) && Kept(m, m')
  {
    hide Chain, Imported, Acyclic, Edge, ProblemOk, Finished, Nodes, Split, Listing;
    assert forall a :: IsBlack(m, a) ==> a !in path;
    PoisonIsSplit(wm, m, m', path, err, cause);
    PoisonIsKept(m.colors, m.ex, m'.ex, path);
    PoisonIsKept(m.colors, m.inn, m'.inn, path);
    hide KeptSets;
    PoisonIsListed(wm, m.ex, m'.ex, path, false);
    PoisonIsListed(wm, m.inn, m'.inn, path, true);
    if Acyclic(wm) { FinishedStays(wm, true, m, m'); }
  }

  lemma PoisonIsKept(colors: map<Pkg, Color>, s: map<Pkg, set<Pkg>>, s': map<Pkg, set<Pkg>>, path: seq<Pkg>)
    requires forall p :: p in path ==> p in colors && colors[p] == Grey
    requires Stripped(s, s', path)
    ensures KeptSets(colors, s, s')
  {
  }

  lemma PoisonIsListed(wm: Workmap, s: map<Pkg, set<Pkg>>, s': map<Pkg, set<Pkg>>, path: seq<Pkg>, inner: bool)
    requires Listing(wm, s, inner) && Stripped(s, s', path)
    ensures Listing(wm, s', inner)
  {
    hide Imported;
  }

  lemma PoisonIsSplit(wm: Workmap, m: Marks, m': Marks, path: seq<Pkg>, err: Err, cause: seq<Pkg>)
    requires Stacked(wm, m, path) && Split(wm, true, m) && |path| <= |cause| && Poisoned(wm, m, m', path, err, cause)
    requires forall k :: 0 <= k < |path| ==> ProblemOk(wm, path[k], Problem(path[k], err, cause[k + 1..]))
    ensures Split(wm, true, m')
  {
    hide Chain, ProblemOk;
    forall p | p in m'.errs
      ensures p in m'.colors && p !in m'.ex && ProblemOk(wm, p, m'.errs[p])
    {
      if p in path {
        var k :| 0 <= k < |path| && path[k] == p;
      }
    }
  }

  /** Poisoning from a visited package without sets; the cause goes on where its own begins. */
  lemma BlackCauseIsOk(wm: Workmap, m: Marks, path: seq<Pkg>, p: Pkg, err: Err, rest: seq<Pkg>)
    requires MarksOk(wm, true, m, path) && path != [] && Next(wm, path, p)
    requires if p in wm then ProblemOk(wm, p, Problem(p, err, rest)) else err == Mystery(p) && rest == []
    ensures forall k :: 0 <= k < |path| ==>
      ProblemOk(wm, path[k], Problem(path[k], err, (path + [p] + rest)[k + 1..]))
  {
    var cause := path + ([p] + rest);
    assert path + [p] + rest == cause;
    ChainsJoin(wm, path, [p] + rest);
    forall k | 0 <= k < |path|
      ensures ProblemOk(wm, path[k], Problem(path[k], err, cause[k + 1..]))
    {
      var c := [path[k]] + cause[k + 1..];
      assert c == cause[k..];
      assert path[k] in path;
    }
  }

  /** A missing or erroneous package, visited for the first time, poisons itself and its parents. */
  lemma WhitePoisonKeepsMarks(wm: Workmap, m: Marks, m': Marks, path: seq<Pkg>, p: Pkg, err: Err)
    requires MarksOk(wm, true, m, path) && Next(wm, path, p) && p !in m.colors && !Good(wm, p)
    requires err == if p in wm then Own(wm[p].err.value) else Missing(p)
    requires Poisoned(wm, m.(colors := m.colors[p := Grey]), m', path + [p], err, path + [p])
    ensures var m'' := m'.(colors := m'.colors[p := Black]);
      MarksOk(wm, true, m'', path) && NoneLeft(m'', path) && p !in m''.ex && Kept(m, m'')
  {
    var all := path + [p];
    var m1, m'' := BadMarks(wm, m, p), m'.(colors := m'.colors[p := Black]);
    assert p !in m.ex && p !in m.inn && p !in path;
    hide SetsOk, Split, Finished, Acyclic, Nodes, Good, BadMarks;
    WhiteCauseIsOk(wm, m, path, p, err);
    hide Stacked, Next;
    BadIsMarked(wm, true, m, path, p);
    WhiteIsPoisoned(wm, m, m', path, p, err);
    hide ProblemOk, MarksOk, Chain, Edge, Poisoned, Kept, BadMarks;
    PoisonKeepsMarks(wm, m1, m'', path, err, all);
    KeptTransitive(m, m1, m'');
  }

  lemma WhiteIsPoisoned(wm: Workmap, m: Marks, m': Marks, path: seq<Pkg>, p: Pkg, err: Err)
    requires p !in m.ex && p !in m.inn && p !in path && !Good(wm, p)
    requires err == if p in wm then Own(wm[p].err.value) else Missing(p)
    requires Poisoned(wm, m.(colors := m.colors[p := Grey]), m', path + [p], err, path + [p])
    ensures Poisoned(wm, BadMarks(wm, m, p), m'.(colors := m'.colors[p := Black]), path, err, path + [p])
    ensures p !in m'.ex
  {
    assert forall q :: q in path + [p] <==> q in path || q == p;
    WhiteIsBlamed(wm, m.errs, m'.errs, path, p, err);
    hide Blamed;
  }

  lemma WhiteIsBlamed(wm: Workmap, e: map<Pkg, Problem>, e': map<Pkg, Problem>, path: seq<Pkg>, p: Pkg, err: Err)
    requires p !in path && Blamed(wm, e, e', path + [p], err, path + [p])
    ensures Blamed(wm, if p in wm then e[p := Problem(p, err, [])] else e, e', path, err, path + [p])
  {
    hide BlamedAt;
    var all, e0 := path + [p], if p in wm then e[p := Problem(p, err, [])] else e;
    assert forall q :: q in all <==> q in path || q == p;
    LastIsBlamed(wm, e', path, p, err);
    forall k | 0 <= k < |path|
      ensures BlamedAt(wm, e', path[k], k, err, all)
    {
      assert all[k] == path[k];
    }
    forall q | q in e0 && !(q in path && q in wm)
      ensures e'[q] == e0[q]
    {
    }
  }

  lemma LastIsBlamed(wm: Workmap, e': map<Pkg, Problem>, path: seq<Pkg>, p: Pkg, err: Err)
    requires var all := path + [p]; forall k :: 0 <= k < |all| ==> BlamedAt(wm, e', all[k], k, err, all)
    ensures p in wm ==> p in e' && e'[p] == Problem(p, err, [])
  {
    var all := path + [p];
    assert all[|path|] == p && all[|path| + 1..] == [];
    assert BlamedAt(wm, e', all[|path|], |path|, err, all);
  }

  lemma WhiteCauseIsOk(wm: Workmap, m: Marks, path: seq<Pkg>, p: Pkg, err: Err)
    requires Stacked(wm, m, path) && Next(wm, path, p) && !Good(wm, p)
    requires err == if p in wm then Own(wm[p].err.value) else Missing(p)
    ensures forall k :: 0 <= k < |path| ==> ProblemOk(wm, path[k], Problem(path[k], err, (path + [p])[k + 1..]))
  {
    var all := path + [p];
    if path != [] { ChainsJoin(wm, path, [p]); }
    forall k | 0 <= k < |path|
      ensures ProblemOk(wm, path[k], Problem(path[k], err, all[k + 1..]))
    {
      assert [path[k]] + all[k + 1..] == all[k..];
      assert path[k] in path;
    }
  }

  function BadMarks(wm: Workmap, m: Marks, p: Pkg): Marks {
    Marks(m.colors[p := Black], m.ex, m.inn,
          if p in wm && wm[p].err.Some? then m.errs[p := Problem(p, Own(wm[p].err.value), [])] else m.errs)
  }

  lemma BadIsMarked(wm: Workmap, back: bool, m: Marks, path: seq<Pkg>, p: Pkg)
    requires MarksOk(wm, back, m, path) && Next(wm, path, p) && p !in m.colors && !Good(wm, p)
    ensures MarksOk(wm, back, BadMarks(wm, m, p), path) && Kept(m, BadMarks(wm, m, p)) && p !in m.ex
  {
    hide Chain, Acyclic, Edge, Finished, Listing, Stacked, Split, Good;
    var m' := BadMarks(wm, m, p);
    BadIsKnown(wm, m, m', path, p);
    BadIsStacked(wm, m, m', path, p);
    hide Next, Known;
    BadIsSplit(wm, back, m, p);
    hide BadMarks;
    NewIsKept(m, p, {}, {});
    hide KeptSets;
    if Acyclic(wm) { SkippedIsFinished(wm, back, m, m', p); }
  }

  lemma BadIsKnown(wm: Workmap, m: Marks, m': Marks, path: seq<Pkg>, p: Pkg)
    requires Known(wm, m) && Next(wm, path, p) && m'.colors == m.colors[p := Black]
    ensures Known(wm, m')
  {
  }

  /** A package without sets can be finished at any time. */
  lemma SkippedIsFinished(wm: Workmap, back: bool, m: Marks, m': Marks, p: Pkg)
    requires Finished(wm, back, m) && p !in m.ex && !IsBlack(m, p)
    requires m'.ex == m.ex && m'.inn == m.inn && m'.colors == m.colors[p := Black]
    ensures Finished(wm, back, m')
  {
    hide Finished;
    FinishedStays(wm, back, m, m');
  }

  lemma BadIsStacked(wm: Workmap, m: Marks, m': Marks, path: seq<Pkg>, p: Pkg)
    requires Stacked(wm, m, path) && p !in m.colors && m'.colors == m.colors[p := Black]
    ensures Stacked(wm, m', path)
  {
    hide Chain;
  }

  lemma BadIsSplit(wm: Workmap, back: bool, m: Marks, p: Pkg)
    requires Split(wm, back, m) && p !in m.colors && p !in m.ex && !Good(wm, p)
    ensures Split(wm, back, BadMarks(wm, m, p))
  {
    if p in wm { assert ProblemOk(wm, p, BadMarks(wm, m, p).errs[p]); }
    hide ProblemOk;
  }

  /** A poisoned package is left before all it imports has been seen. */
  lemma LeavePoisonedKeepsMarks(wm: Workmap, m: Marks, path: seq<Pkg>, p: Pkg, q: Pkg)
    requires MarksOk(wm, true, m, path + [p]) && Visited(wm, true, m, path + [p], q, false)
    ensures var m' := m.(colors := m.colors[p := Black]);
      MarksOk(wm, true, m', path) && Visited(wm, true, m', path, p, false)
  {
    hide Chain, Acyclic, Edge, Finished, Nodes, Listing, Stacked, Split;
    var path', m' := path + [p], m.(colors := m.colors[p := Black]);
    LeaveIsStacked(wm, m, path, p);
    assert p in path';
    SplitStays(wm, true, m, m');
    if Acyclic(wm) { SkippedIsFinished(wm, true, m, m', p); }
    assert Known(wm, m');
    hide Known;
  }

  lemma LeaveIsStacked(wm: Workmap, m: Marks, path: seq<Pkg>, p: Pkg)
    requires Stacked(wm, m, path + [p])
    ensures Stacked(wm, m.(colors := m.colors[p := Black]), path) && p !in path
    ensures p in m.colors && !IsBlack(m, p)
  {
    var path' := path + [p];
    assert path'[|path|] == p && forall i :: 0 <= i < |path| ==> path'[i] == path[i];
    assert forall q :: q in path' <==> q in path || q == p;
    if path != [] { assert Chain(wm, path); }
    hide Chain;
  }

  /* ----- Visits ----- */

  /** What holds of a package when a visit to it from path returns. */
  ghost predicate Visited(wm: Workmap, back: bool, m: Marks, path: seq<Pkg>, p: Pkg, clean: bool) {
    if clean then
      && Clear(m, path) && p in m.colors
      && (IsBlack(m, p) ==>
            p in m.ex && p in m.inn && forall a :: a in path ==> m.ex[p] <= m.ex[a] && m.inn[p] <= m.inn[a])
    else
      && IsBlack(m, p) && p !in m.ex
      && if back then NoneLeft(m, path) else Clear(m, path)
  }

  lemma PushOne(m: map<Pkg, set<Pkg>>, path: seq<Pkg>, k: nat, s: set<Pkg>)
    requires k < |path|
    ensures var m' := PushTo(m, path[..k], s);
      PushTo(m, path[..k + 1], s) == if path[k] in m' then m'[path[k] := m'[path[k]] + s] else m'
  {
    assert path[..k + 1] == path[..k] + [path[k]];
  }

  lemma WhitePathIsOk(wm: Workmap, back: bool, m: Marks, path: seq<Pkg>, p: Pkg)
    requires MarksOk(wm, back, m, path) && p !in m.colors
    ensures var path' := path + [p];
      && (forall i, j :: 0 <= i < j < |path'| ==> path'[i] != path'[j])
      && (forall k :: 0 <= k < |path'| - 1 ==> path'[k] in wm)
  {
    assert forall i :: 0 <= i < |path| ==> path[i] in path;
  }

  /** A visit leaves fewer packages to visit. */
  lemma FewerLeft(wm: Workmap, back: bool, m: Marks, m': Marks, path: seq<Pkg>, p: Pkg)
    requires p !in m.colors && Kept(m, m') && MarksOk(wm, back, m', path + [p])
    ensures Nodes(wm) - m'.colors.Keys < Nodes(wm) - m.colors.Keys
  {
    hide Finished, Split, SetsOk, Acyclic;
    var path' := path + [p];
    assert path'[|path|] == p && p in path';
    assert p in Nodes(wm) - m.colors.Keys;
  }

  /** What a finished package has is pushed to its visitors. */
  lemma BlackIsPushed(wm: Workmap, back: bool, m: Marks, path: seq<Pkg>, p: Pkg)
    requires MarksOk(wm, back, m, path) && Clear(m, path) && Next(wm, path, p) && IsBlack(m, p) && p in m.ex
    ensures p in m.inn
    ensures var m' := PushedMarks(m, path, m.ex[p], m.inn[p]);
      MarksOk(wm, back, m', path) && Kept(m, m') && Visited(wm, back, m', path, p, true)
  {
    assert p !in path;
    hide Acyclic, Chain, Next, Finished, Split, Imported;
    PushKeepsMarks(wm, back, m, path, p, m.ex[p], m.inn[p]);
  }

  /** A visited import is absorbed. */
  lemma ImportIsSeen(wm: Workmap, back: bool, m: Marks, m': Marks, path: seq<Pkg>, p: Pkg, q: Pkg, clean: bool,
                     seen: set<Pkg>)
    requires MarksOk(wm, back, m, path + [p]) && Clear(m, path + [p]) && AllSeen(wm, back, m, path + [p], p, seen)
    requires MarksOk(wm, back, m', path + [p]) && Kept(m, m')
    requires Visited(wm, back, m', path + [p], q, clean) && (clean || !back)
    ensures Clear(m', path + [p]) && AllSeen(wm, back, m', path + [p], p, seen + {q})
  {
    var path' := path + [p];
    assert path'[|path|] == p && p in path';
    hide Acyclic, Chain, Finished, Imported, Known, ProblemOk, Listing;
    SeenIsKept(wm, back, m, m', path', p, seen);
    if q !in path' {
      assert IsBlack(m', q);
      assert Absorbed(wm, back, m', p, q);
    }
  }

  /* ----- The beginning and the end ----- */

  lemma NothingIsMarked(wm: Workmap, back: bool)
    ensures var m := Marks(map[], map[], map[], map[]);
      MarksOk(wm, back, m, []) && Clear(m, [])
  {
  }

  lemma OutsideIsBlack(wm: Workmap, back: bool, m: Marks, p: Pkg)
    requires MarksOk(wm, back, m, [])
    ensures p in m.colors ==> IsBlack(m, p)
  {
    assert p !in [];
  }

  function Flattened(m: Marks): map<Pkg, Reach>
    requires m.ex.Keys == m.inn.Keys
  {
    map p | p in m.ex :: Reach(m.inn[p], m.ex[p])
  }

  lemma EndIsReported(wm: Workmap, back: bool, m: Marks)
    requires MarksOk(wm, back, m, []) && wm.Keys <= m.colors.Keys
    ensures m.ex.Keys == m.inn.Keys && Reported(wm, Flattened(m), m.errs)
  {
    hide Imported, Acyclic, Chain, Finished;
    var rm := Flattened(m);
    forall p | p in wm ensures p in rm.Keys + m.errs.Keys {
      hide ProblemOk;
    }
    forall p | p in m.errs ensures p in wm { assert ProblemOk(wm, p, m.errs[p]); }
    hide ProblemOk;
  }

  lemma EndIsClosed(wm: Workmap, back: bool, m: Marks)
    requires MarksOk(wm, back, m, []) && Acyclic(wm) && wm.Keys <= m.colors.Keys
    ensures Closed(wm, m.ex, false) && Closed(wm, m.inn, true)
    ensures back ==> forall p, q :: p in m.ex && Edge(wm, p, q) ==> q in m.ex
  {
    hide Acyclic, Split, Known, Imported;
    forall p, q | p in m.ex && Edge(wm, p, q)
      ensures Absorbed(wm, back, m, p, q)
    {
      OutsideIsBlack(wm, back, m, p);
    }
  }

  lemma EndIsExact(wm: Workmap, back: bool, m: Marks)
    requires MarksOk(wm, back, m, []) && Acyclic(wm) && wm.Keys <= m.colors.Keys
    ensures m.ex.Keys == m.inn.Keys && Exact(wm, back, Flattened(m))
  {
    hide MarksOk, Acyclic, Imported, Closed, Edge, Doomed, Good, Reported;
    EndIsClosed(wm, back, m);
    EndIsReported(wm, back, m);
    ListsAreExact(wm, back, m);
    if back { EndIsSafe(wm, m); } else { GoodIsKept(wm, m); }
  }

  lemma GoodIsKept(wm: Workmap, m: Marks)
    requires MarksOk(wm, false, m, []) && wm.Keys <= m.colors.Keys
    ensures forall p :: p in m.ex <==> p in wm && Good(wm, p)
  {
    hide ProblemOk, Sound, Acyclic, Finished;
  }

  lemma ListsAreExact(wm: Workmap, back: bool, m: Marks)
    requires MarksOk(wm, back, m, []) && Closed(wm, m.ex, false) && Closed(wm, m.inn, true)
    ensures forall p, x :: p in m.ex ==> (x in m.ex[p] <==> Imported(wm, p, x, false))
    ensures forall p, x :: p in m.inn ==> (x in m.inn[p] <==> Imported(wm, p, x, true))
  {
    hide Closed, Sound, Imported, Acyclic, Finished, Split, Stacked;
    forall p, x | p in m.ex
      ensures x in m.ex[p] <==> Imported(wm, p, x, false)
    {
      ClosedIsExact(wm, m.ex, false, p, x);
    }
    forall p, x | p in m.inn
      ensures x in m.inn[p] <==> Imported(wm, p, x, true)
    {
      ClosedIsExact(wm, m.inn, true, p, x);
    }
  }

  lemma EndIsSafe(wm: Workmap, m: Marks)
    requires m.ex.Keys == m.inn.Keys && Reported(wm, Flattened(m), m.errs)
    requires forall p, q :: p in m.ex && Edge(wm, p, q) ==> q in m.ex
    ensures forall p :: p in m.ex <==> p in wm && !Doomed(wm, p)
  {
    hide Imported, Doomed, ProblemOk, Edge;
    forall p | p in m.ex ensures !Doomed(wm, p) { SafeIsNotDoomed(wm, m.ex.Keys, p); }
    forall p | p in m.errs ensures Doomed(wm, p) { ProblemIsDoom(wm, p, m.errs[p]); }
    assert Flattened(m).Keys == m.ex.Keys;
  }
}
