/** How the packages that a project reaches are grouped into dependencies: overrides
  (gps/constraints.go) and intersectConstraintsWithImports (gps/solver.go). */
module Imports {
  import opened Versions
  import opened Strings
  import opened World
  import Explorer

  datatype Properties = Properties(source: string, c: Constraint)

  /** An override; what is missing or empty is not overridden. */
  datatype Override = Override(source: string, c: Option<Constraint>)

  datatype Working = Working(ident: Ident, c: Constraint, overrNet: bool, overrConstraint: bool)

  datatype Env = Env(
    overrides: map<Root, Override>,
    manifest: map<Root, Properties>,
    std: Pkg -> bool,
    deduce: Pkg -> Option<Root>)

  /* ----- Overrides ----- */

  function Overridden(overrides: map<Root, Override>, r: Root, p: Properties): Working {
    if r !in overrides then Working(Ident(r, p.source), p.c, false, false)
    else
      var o := overrides[r];
      Working(Ident(r, if o.source != "" then o.source else p.source), if o.c.Some? then o.c.value else p.c,
              o.source != "", o.c.Some?)
  }

  predicate SourceSet(overrides: map<Root, Override>, r: Root) {
    r in overrides && overrides[r].source != ""
  }

  predicate ConstraintSet(overrides: map<Root, Override>, r: Root) {
    r in overrides && overrides[r].c.Some?
  }

  /** The identifier and the constraint for r, where a manifest says p: what an override sets comes
    from the override, the rest from the manifest. */
  predicate Decided(overrides: map<Root, Override>, r: Root, p: Properties, ident: Ident, c: Constraint) {
    && ident == Ident(r, if SourceSet(overrides, r) then overrides[r].source else p.source)
    && c == if ConstraintSet(overrides, r) then overrides[r].c.value else p.c
  }

  /** Whatever is set in an override wins over every manifest, so all projects agree on it. */
  lemma OverridesWin(overrides: map<Root, Override>, r: Root, p: Properties, q: Properties)
    ensures var a, b := Overridden(overrides, r, p), Overridden(overrides, r, q);
      && Decided(overrides, r, p, a.ident, a.c)
      && (a.overrNet <==> SourceSet(overrides, r)) && (a.overrConstraint <==> ConstraintSet(overrides, r))
      && a.ident.root == r && (a.overrNet <==> b.overrNet) && (a.overrConstraint <==> b.overrConstraint)
      && (a.overrNet ==> a.ident == b.ident) && (a.overrConstraint ==> a.c == b.c)
      && (!a.overrNet ==> a.ident.source == p.source) && (!a.overrConstraint ==> a.c == p.c)
      && Overridden(overrides, r, Properties(a.ident.source, a.c)) == a
  {
  }

  method OverrideAll(overrides: map<Root, Override>, pcm: map<Root, Properties>) returns (out: seq<Working>)
    ensures forall i :: 0 <= i < |out| ==>
      out[i].ident.root in pcm && out[i] == Overridden(overrides, out[i].ident.root, pcm[out[i].ident.root])
    ensures forall r :: r in pcm ==> Overridden(overrides, r, pcm[r]) in out
    ensures forall i :: 0 <= i < |out| ==>
      var r := out[i].ident.root;
      && Decided(overrides, r, pcm[r], out[i].ident, out[i].c)
      && (out[i].overrNet <==> SourceSet(overrides, r)) && (out[i].overrConstraint <==> ConstraintSet(overrides, r))
    ensures |out| == |pcm|
  {
    out := [];
    var todo := pcm.Keys;
    while todo != {}
      invariant todo <= pcm.Keys && |out| + |todo| == |pcm|
      invariant forall i :: 0 <= i < |out| ==>
        out[i].ident.root in pcm && out[i] == Overridden(overrides, out[i].ident.root, pcm[out[i].ident.root])
      invariant forall r :: r in pcm && r !in todo ==> Overridden(overrides, r, pcm[r]) in out
    {
      var pr :| pr in todo;
      todo := todo - {pr};
      out := out + [Overridden(overrides, pr, pcm[pr])];
    }
  }

  /* ----- The project of a package ----- */

  predicate PathPrefix(r: Root, e: Pkg) {
    Explorer.EqOrSlashedPrefix(e, r)
  }

  /** What the source tests once a key is known to be a prefix of the path. */
  predicate IsPathPrefixOrEqual(pre: string, path: string)
    requires pre <= path
  {
    if |path| == |pre| + 1 then false else |pre| == |path| || path[|pre|] == '/'
  }

  /** The test is right if and only if the path is not the prefix with a slash alone after it. */
  lemma PathPrefixTest(pre: string, path: string)
    requires pre <= path
    ensures (IsPathPrefixOrEqual(pre, path) <==> PathPrefix(pre, path)) <==> path != pre + "/"
  {
  }

  /** The longest key, not longer than n, that is the package or a directory above it. */
  function Owner(keys: set<Root>, e: Pkg, n: nat): (r: Option<Root>)
    requires n <= |e|
    ensures r.Some? ==> r.value in keys && PathPrefix(r.value, e)
    ensures r.None? ==> forall k :: k in keys && PathPrefix(k, e) ==> |k| > n
  {
    assert forall k: string :: k <= e && |k| == n ==> k == e[..n];
    if e[..n] in keys && PathPrefix(e[..n], e) then Some(e[..n])
    else if n == 0 then None
    else Owner(keys, e, n - 1)
  }

  function TargetOf(env: Env, e: Pkg): Target {
    if env.std(e) then Std
    else
      match Owner(env.manifest.Keys, e, |e|)
      case Some(k) => At(k)
      case None => if env.deduce(e).Some? then At(env.deduce(e).value) else Unknown
  }

  /** What the manifest says of a project; nothing if it has none. */
  function Stated(env: Env, r: Root): Properties {
    if r in env.manifest then env.manifest[r] else Properties("", AnyC)
  }

  function WorkingOf(env: Env, r: Root): Working {
    Overridden(env.overrides, r, Stated(env, r))
  }

  ghost predicate IsRoot(env: Env, r: Root) {
    r in env.manifest || exists e :: env.deduce(e) == Some(r)
  }

  /** No root lies beneath another, and a package is deduced to a root above it. */
  ghost predicate Flat(env: Env) {
    && (forall r, q :: IsRoot(env, r) && IsRoot(env, q) && PathPrefix(r, q) ==> r == q)
    && (forall e, r :: env.deduce(e) == Some(r) ==> PathPrefix(r, e))
  }

  /** All packages beneath a deduced root can be deduced to it. */
  ghost predicate DeducesAll(env: Env) {
    forall e, d, r :: env.deduce(e) == Some(r) && PathPrefix(r, d) ==> env.deduce(d) == Some(r)
  }

  /** The packages outside the standard library, and no others, are in the dependencies, each
    under a root above it, which is one of the manifest or was deduced for one of its packages. */
  ghost predicate Conserves(env: Env, done: set<Pkg>, dmap: map<Root, CompleteDep>) {
    && (forall r :: r in dmap ==> Founded(env, r, dmap[r]))
    && (forall r, e :: r in dmap && e in dmap[r].pl ==> e in done && !env.std(e) && PathPrefix(r, e))
    && (forall e :: e in done && !env.std(e) ==> exists r :: r in dmap && e in dmap[r].pl)
  }

  ghost predicate Founded(env: Env, r: Root, d: CompleteDep) {
    && d.ident == WorkingOf(env, r).ident && d.c == WorkingOf(env, r).c && d.pl != {}
    && (r in env.manifest || exists e :: e in d.pl && env.deduce(e) == Some(r))
  }

  /** Where a package leads: to the project whose root lies above it, if there is one. */
  ghost predicate Leads(env: Env, e: Pkg, t: Target) {
    match t
    case Std => env.std(e)
    case At(r) => !env.std(e) && IsRoot(env, r) && PathPrefix(r, e)
    case Unknown => !env.std(e) && forall r :: IsRoot(env, r) ==> !PathPrefix(r, e)
  }

  /** Every package leads to one place; where all beneath a deduced root can be deduced to it,
    that is what the manifest or the deduction says of the package itself. */
  lemma LeadsToOne(env: Env, e: Pkg, t: Target, t': Target)
    requires Flat(env) && Leads(env, e, t)
    ensures Leads(env, e, t') <==> t' == t
    ensures DeducesAll(env) ==> t == TargetOf(env, e)
  {
    hide TargetOf, PathPrefix, DeducesAll;
    if t.At? && t'.At? && Leads(env, e, t') { OneRootAbove(env, t.root, t'.root, e); }
    TargetIsAbove(env, e);
    if DeducesAll(env) {
      if t.At? {
        BeneathHasTarget(env, t.root, e);
      } else if t.Unknown? && TargetOf(env, e).At? {
        assert false;
      }
    }
  }

  /** One dependency for each project that the packages lead to, with all its packages. */
  ghost predicate Groups(env: Env, done: set<Pkg>, dmap: map<Root, CompleteDep>) {
    && (forall r :: r in dmap <==> exists e :: e in done && Leads(env, e, At(r)))
    && (forall r :: r in dmap ==> dmap[r].ident == WorkingOf(env, r).ident && dmap[r].c == WorkingOf(env, r).c)
    && (forall r, e :: r in dmap ==> (e in dmap[r].pl <==> e in done && Leads(env, e, At(r))))
  }

  /** The world of the solver, as far as one atom that reaches these packages goes. */
  ghost predicate Fits(env: Env, w: World, a: Atom, reach: seq<Pkg>) {
    && (forall e :: e in reach ==> Leads(env, e, w.target(a.id, a.v, e)))
    && (w.groups(a.id, a.v, SetOf(reach)) <==> !SomeLost(env, reach))
    && (forall r :: w.working(a.id, a.v, r) == (WorkingOf(env, r).ident, WorkingOf(env, r).c))
  }

  ghost predicate SomeLost(env: Env, reach: seq<Pkg>) {
    exists i :: 0 <= i < |reach| && Lost(env, reach, i)
  }

  /** The dependencies are those the solver is given. */
  lemma GroupsAreDeps(env: Env, w: World, a: Atom, reach: seq<Pkg>, r: Option<map<Root, CompleteDep>>)
    requires Flat(env) && Fits(env, w, a, reach) && (r.None? <==> SomeLost(env, reach))
    requires r.Some? ==> Groups(env, SetOf(reach), r.value)
    ensures r == GroupDeps(w, a, SetOf(reach))
  {
    hide Leads, WorkingOf, SomeLost, Flat;
    if r.Some? {
      var all := SetOf(reach);
      var ds := GroupDeps(w, a, all).value;
      forall e, k | e in all
        ensures w.target(a.id, a.v, e) == At(k) <==> Leads(env, e, At(k))
      {
        LeadsToOne(env, e, w.target(a.id, a.v, e), At(k));
      }
      forall k ensures k in ds <==> k in r.value {}
      forall k | k in r.value ensures ds[k] == r.value[k] {
        var d := DepOn(w, a, all, k);
        assert ds[k] == d;
        forall e ensures e in d.pl <==> e in r.value[k].pl {}
        assert d.pl == r.value[k].pl;
      }
      assert ds.Keys == r.value.Keys;
      assert ds == r.value;
    }
  }

  /** A package is in one dependency only; and where the manifest or the deduction give it a
    project, it is in that of this project. */
  lemma PackagesAreConserved(env: Env, reach: set<Pkg>, dmap: map<Root, CompleteDep>, e: Pkg)
    requires Flat(env) && Conserves(env, reach, dmap)
    ensures forall r, q :: r in dmap && q in dmap && e in dmap[r].pl && e in dmap[q].pl ==> r == q
    ensures e in reach && TargetOf(env, e).At? ==>
      TargetOf(env, e).root in dmap && e in dmap[TargetOf(env, e).root].pl
    ensures forall r :: r in dmap ==> dmap[r].ident.root == r
  {
    hide Flat, TargetOf, WorkingOf, PathPrefix, Owner, IsRoot;
    forall r | r in dmap
      ensures IsRoot(env, r) && dmap[r].ident.root == r
    {
      FoundedIsRoot(env, r, dmap[r]);
    }
    forall r, q | r in dmap && q in dmap && e in dmap[r].pl && e in dmap[q].pl
      ensures r == q
    {
      OneRootAbove(env, r, q, e);
    }
    TargetIsAbove(env, e);
    if e in reach && TargetOf(env, e).At? {
      var r :| r in dmap && e in dmap[r].pl;
      OneRootAbove(env, r, TargetOf(env, e).root, e);
    }
  }

  /** A dependency has the override's source and constraint where these are set, else what the
    manifest says, else no source and any version. */
  lemma FoundedIsDecided(env: Env, r: Root, d: CompleteDep)
    requires Founded(env, r, d)
    ensures Decided(env.overrides, r, Stated(env, r), d.ident, d.c)
  {
  }

  lemma FoundedIsRoot(env: Env, r: Root, d: CompleteDep)
    requires Founded(env, r, d)
    ensures IsRoot(env, r) && d.ident.root == r
  {
    WorkingHasRoot(env, r);
  }

  lemma MemberLeads(env: Env, reach: set<Pkg>, dmap: map<Root, CompleteDep>, r: Root, e: Pkg)
    requires Flat(env) && Conserves(env, reach, dmap) && r in dmap && e in dmap[r].pl
    ensures Leads(env, e, At(r)) && forall t :: Leads(env, e, t) ==> t == At(r)
  {
    hide Flat, WorkingOf, PathPrefix;
    FoundedIsRoot(env, r, dmap[r]);
    forall t ensures Leads(env, e, t) ==> t == At(r) { LeadsToOne(env, e, At(r), t); }
  }

  /** The dependencies are the packages grouped by where they lead, and all lead somewhere. */
  lemma ConservesIsGroups(env: Env, reach: set<Pkg>, dmap: map<Root, CompleteDep>)
    requires Flat(env) && Conserves(env, reach, dmap)
    ensures Groups(env, reach, dmap) && forall e :: e in reach ==> !Leads(env, e, Unknown)
  {
    hide Flat, WorkingOf, PathPrefix, Leads;
    forall r, e | r in dmap && e in dmap[r].pl
      ensures Leads(env, e, At(r)) && forall t :: Leads(env, e, t) ==> t == At(r)
    {
      MemberLeads(env, reach, dmap, r, e);
    }
    forall e | e in reach
      ensures !Leads(env, e, Unknown)
      ensures forall r :: Leads(env, e, At(r)) ==> r in dmap && e in dmap[r].pl
    {
      StdLeadsNowhere(env, e);
    }
    forall r | r in dmap
      ensures exists e :: e in reach && Leads(env, e, At(r))
    {
      assert Founded(env, r, dmap[r]);
      var e :| e in dmap[r].pl;
      assert e in reach && Leads(env, e, At(r));
    }
  }

  lemma StdLeadsNowhere(env: Env, e: Pkg)
    ensures env.std(e) ==> forall t :: Leads(env, e, t) <==> t == Std
  {
  }

  lemma BeneathHasTarget(env: Env, r: Root, e: Pkg)
    requires Flat(env) && DeducesAll(env) && IsRoot(env, r) && PathPrefix(r, e) && !env.std(e)
    ensures TargetOf(env, e) == At(r)
  {
    hide PathPrefix, WorkingOf;
    var k := Owner(env.manifest.Keys, e, |e|);
    if k.Some? {
      OneRootAbove(env, k.value, r, e);
    } else {
      PrefixIsShorter(r, e);
    }
  }

  lemma PrefixIsShorter(r: Root, e: Pkg)
    requires PathPrefix(r, e)
    ensures |r| <= |e|
  {
  }

  lemma TargetIsAbove(env: Env, e: Pkg)
    requires Flat(env)
    ensures TargetOf(env, e) == Std <==> env.std(e)
    ensures TargetOf(env, e).At? ==> PathPrefix(TargetOf(env, e).root, e) && IsRoot(env, TargetOf(env, e).root)
  {
  }

  lemma WorkingHasRoot(env: Env, r: Root)
    ensures WorkingOf(env, r).ident.root == r
  {
  }

  /** A project does not depend on itself: its own packages are not external to it. */
  lemma NoSelfDependency(env: Env, root: Root, e: Pkg)
    requires Flat(env) && !Explorer.EqOrSlashedPrefix(e, root)
    ensures TargetOf(env, e) != At(root)
  {
  }

  /* ----- The walk over the trie ----- */

  /** The trie holds the projects of the manifest, and those that were deduced. */
  ghost predicate TrieFits(env: Env, xt: map<Root, Working>, dmap: map<Root, CompleteDep>) {
    && (forall k :: k in xt ==> IsRoot(env, k) && xt[k] == WorkingOf(env, k))
    && (forall k :: k in env.manifest ==> k in xt)
    && (forall k :: k in dmap ==> k in xt)
    && (forall k :: k in xt ==> k in env.manifest || k in dmap)
  }

  /** Of two roots above one package one is above the other, so they are the same. */
  lemma OneRootAbove(env: Env, r: Root, q: Root, e: Pkg)
    requires Flat(env) && IsRoot(env, r) && IsRoot(env, q) && PathPrefix(r, e) && PathPrefix(q, e)
    ensures r == q
  {
    if |r| <= |q| {
      assert PathPrefix(r, q);
    } else {
      assert PathPrefix(q, r);
    }
  }

  /** When no key passes the test, the project has to be deduced, and is new. */
  lemma NoMatchIsDeduced(env: Env, xt: map<Root, Working>, dmap: map<Root, CompleteDep>, e: Pkg)
    requires Flat(env) && TrieFits(env, xt, dmap) && !env.std(e) && (e == "" || e[|e| - 1] != '/')
    requires var pre := LongestPrefix(xt, e); pre.None? || !IsPathPrefixOrEqual(pre.value, e)
    ensures TargetOf(env, e) == if env.deduce(e).Some? then At(env.deduce(e).value) else Unknown
    ensures env.deduce(e).Some? ==> env.deduce(e).value !in xt
    ensures forall k :: k in xt ==> !PathPrefix(k, e)
  {
    var pre := LongestPrefix(xt, e);
    forall k | k in xt ensures !PathPrefix(k, e) {
      if k <= e {
        if k == pre.value {
          PathPrefixTest(k, e);
          NoSlashAtEnd(k, e);
        } else if PathPrefix(k, e) {
          LongerKey(env, k, pre.value, e);
        }
      }
    }
    hide IsRoot, WorkingOf, PathPrefix;
    assert forall k :: k in env.manifest.Keys ==> k in xt;
  }

  lemma NoSlashAtEnd(k: Root, e: Pkg)
    requires e == "" || e[|e| - 1] != '/'
    ensures e != k + "/"
  {
    assert (k + "/")[|k|] == '/';
  }

  lemma LongerKey(env: Env, k: Root, pre: Root, e: Pkg)
    requires Flat(env) && IsRoot(env, k) && IsRoot(env, pre) && PathPrefix(k, e) && pre <= e && |k| <= |pre|
    ensures k == pre
  {
    assert PathPrefix(k, pre);
  }

  /** The project of the package at i is unknown, and no project before it lies above it. */
  ghost predicate Lost(env: Env, reach: seq<Pkg>, i: nat)
    requires i < |reach|
  {
    && TargetOf(env, reach[i]).Unknown?
    && forall j :: 0 <= j < i && TargetOf(env, reach[j]).At? ==> !PathPrefix(TargetOf(env, reach[j]).root, reach[i])
  }

  /** A project that was deduced is that of a package before. */
  lemma DeducedBefore(env: Env, dmap: map<Root, CompleteDep>, reach: seq<Pkg>, i: nat, k: Root)
    requires i <= |reach| && Flat(env) && Conserves(env, SetOf(reach[..i]), dmap)
    requires k in dmap && k !in env.manifest
    ensures exists j :: 0 <= j < i && TargetOf(env, reach[j]) == At(k)
  {
    hide WorkingOf, PathPrefix, TargetOf, Flat;
    assert Founded(env, k, dmap[k]);
    var e :| e in dmap[k].pl && env.deduce(e) == Some(k);
    DeducedHasTarget(env, e);
    PackagesAreConserved(env, SetOf(reach[..i]), dmap, e);
    var j :| 0 <= j < i && reach[j] == e;
  }

  lemma DeducedHasTarget(env: Env, e: Pkg)
    requires env.deduce(e).Some? && !env.std(e)
    ensures TargetOf(env, e).At?
  {
  }

  lemma UnknownIsNotInManifest(env: Env, e: Pkg, k: Root)
    requires TargetOf(env, e).Unknown? && PathPrefix(k, e)
    ensures k !in env.manifest
  {
    PrefixIsShorter(k, e);
  }

  /** A package beneath a key of the trie is not lost. */
  lemma CaughtIsNotLost(env: Env, xt: map<Root, Working>, dmap: map<Root, CompleteDep>, reach: seq<Pkg>, i: nat,
                        k: Root)
    requires i < |reach| && Flat(env) && TrieFits(env, xt, dmap) && Conserves(env, SetOf(reach[..i]), dmap)
    requires k in xt && PathPrefix(k, reach[i])
    ensures !Lost(env, reach, i)
  {
    hide WorkingOf, PathPrefix, TargetOf, Flat, Conserves;
    if TargetOf(env, reach[i]).Unknown? {
      UnknownIsNotInManifest(env, reach[i], k);
      DeducedBefore(env, dmap, reach, i, k);
    }
  }

  /** One beneath no key is, if it cannot be deduced. */
  lemma UncaughtIsLost(env: Env, xt: map<Root, Working>, dmap: map<Root, CompleteDep>, reach: seq<Pkg>, i: nat)
    requires i < |reach| && Flat(env) && TrieFits(env, xt, dmap) && Conserves(env, SetOf(reach[..i]), dmap)
    requires TargetOf(env, reach[i]).Unknown? && forall k :: k in xt ==> !PathPrefix(k, reach[i])
    ensures Lost(env, reach, i)
  {
    hide WorkingOf, PathPrefix, TargetOf, Flat;
    forall j | 0 <= j < i && TargetOf(env, reach[j]).At?
      ensures !PathPrefix(TargetOf(env, reach[j]).root, reach[i])
    {
      assert reach[..i][j] == reach[j];
      PackagesAreConserved(env, SetOf(reach[..i]), dmap, reach[j]);
    }
  }

  function PackagesIn(dmap: map<Root, CompleteDep>, r: Root): set<Pkg> {
    if r in dmap then dmap[r].pl else {}
  }

  /** A package of the standard library goes into no dependency. */
  lemma ConservesStd(env: Env, done: set<Pkg>, dmap: map<Root, CompleteDep>, e: Pkg)
    requires Conserves(env, done, dmap) && env.std(e)
    ensures Conserves(env, done + {e}, dmap)
  {
    hide WorkingOf, PathPrefix, Founded;
  }

  lemma FoundedWithMore(env: Env, dmap: map<Root, CompleteDep>, e: Pkg, r: Root)
    requires r in dmap ==> Founded(env, r, dmap[r])
    requires r in env.manifest || r in dmap || env.deduce(e) == Some(r)
    ensures Founded(env, r, CompleteDep(WorkingOf(env, r).ident, WorkingOf(env, r).c, PackagesIn(dmap, r) + {e}))
  {
    hide WorkingOf;
    assert e in PackagesIn(dmap, r) + {e};
    assert r in dmap ==> forall x :: x in dmap[r].pl ==> x in PackagesIn(dmap, r) + {e};
  }

  /** Any other goes into the dependency of a root above it. */
  lemma ConservesOneMore(env: Env, done: set<Pkg>, dmap: map<Root, CompleteDep>, e: Pkg, r: Root)
    requires Conserves(env, done, dmap) && !env.std(e) && PathPrefix(r, e)
    requires r in env.manifest || r in dmap || env.deduce(e) == Some(r)
    ensures Conserves(env, done + {e},
      dmap[r := CompleteDep(WorkingOf(env, r).ident, WorkingOf(env, r).c, PackagesIn(dmap, r) + {e})])
  {
    hide WorkingOf, PathPrefix, Founded;
    FoundedWithMore(env, dmap, e, r);
    var next := dmap[r := CompleteDep(WorkingOf(env, r).ident, WorkingOf(env, r).c, PackagesIn(dmap, r) + {e})];
    forall x | x in done + {e} && !env.std(x)
      ensures exists q :: q in next && x in next[q].pl
    {
      if x in done {
        var q :| q in dmap && x in dmap[q].pl;
        assert q in next && x in next[q].pl;
      } else {
        assert r in next && x in next[r].pl;
      }
    }
  }

  /** The list holds the working constraint of each project of the manifest, once. */
  ghost predicate Listed(env: Env, deps: seq<Working>) {
    && (forall i :: 0 <= i < |deps| ==>
          deps[i].ident.root in env.manifest && deps[i] == WorkingOf(env, deps[i].ident.root))
    && (forall r :: r in env.manifest ==> WorkingOf(env, r) in deps)
  }

  method KnownProjects(env: Env, deps: seq<Working>) returns (xt: map<Root, Working>)
    requires Listed(env, deps)
    ensures TrieFits(env, xt, map[])
  {
    xt := map[];
    for i := 0 to |deps|
      invariant forall k :: k in xt ==> k in env.manifest && xt[k] == WorkingOf(env, k)
      invariant forall j :: 0 <= j < i ==> deps[j].ident.root in xt
    {
      xt := xt[deps[i].ident.root := deps[i]];
    }
    forall r | r in env.manifest ensures r in xt {
      var j :| 0 <= j < |deps| && deps[j] == WorkingOf(env, r);
      assert deps[j].ident.root == r;
    }
  }

  /** Groups the reached packages, unless one is lost. */
  method IntersectConstraintsWithImports(env: Env, deps: seq<Working>,
                                         reach: seq<Pkg>) returns (r: Option<map<Root, CompleteDep>>)
    requires Flat(env) && Listed(env, deps)
    requires forall e :: e in reach ==> e == "" || e[|e| - 1] != '/'
    ensures r.None? <==> exists i :: 0 <= i < |reach| && Lost(env, reach, i)
    ensures r.Some? ==> Conserves(env, SetOf(reach), r.value)
    ensures r.Some? ==> forall k :: k in r.value ==>
      Decided(env.overrides, k, Stated(env, k), r.value[k].ident, r.value[k].c)
  {
    hide Flat, TrieFits, Conserves, TargetOf, WorkingOf, PathPrefix, Lost, Decided;
    var xt := KnownProjects(env, deps);
    var dmap: map<Root, CompleteDep> := map[];
    assert Conserves(env, {}, map[]) by { NothingToConserve(env); }
    assert SetOf(reach[..0]) == {};
    for i := 0 to |reach|
      invariant TrieFits(env, xt, dmap) && Conserves(env, SetOf(reach[..i]), dmap)
      invariant forall j :: 0 <= j < i ==> !Lost(env, reach, j)
    {
      var rp := reach[i];
      assert SetOf(reach[..i + 1]) == SetOf(reach[..i]) + {rp};
      if env.std(rp) {
        TargetIsKnown(env, reach, i);
        ConservesStd(env, SetOf(reach[..i]), dmap, rp);
        continue;
      }
      var pre := LongestPrefix(xt, rp);
      if pre.Some? && IsPathPrefixOrEqual(pre.value, rp) {
        MatchIsAbove(pre.value, rp);
        CaughtIsNotLost(env, xt, dmap, reach, i, pre.value);
        var dep := xt[pre.value];
        KeyIsWorking(env, xt, dmap, pre.value);
        var root := dep.ident.root;
        var cdep := CompleteDep(dep.ident, dep.c, PackagesIn(dmap, root) + {rp});
        ConservesOneMore(env, SetOf(reach[..i]), dmap, rp, root);
        TrieStillFits(env, xt, dmap, root, cdep);
        dmap := dmap[root := cdep];
        continue;
      }
      NoMatchIsDeduced(env, xt, dmap, rp);
      var deduced := env.deduce(rp);
      if deduced.None? {
        UncaughtIsLost(env, xt, dmap, reach, i);
        return None;
      }
      TargetIsKnown(env, reach, i);
      var root := deduced.value;
      var pd := Overridden(env.overrides, root, Properties("", AnyC));
      var cdep := CompleteDep(pd.ident, pd.c, {rp});
      DeducedIsNew(env, xt, dmap, rp, pd, cdep);
      ConservesOneMore(env, SetOf(reach[..i]), dmap, rp, root);
      assert PackagesIn(dmap, root) + {rp} == {rp};
      xt := xt[root := pd];
      dmap := dmap[root := cdep];
    }
    assert reach[..|reach|] == reach;
    AllAreDecided(env, SetOf(reach), dmap);
    r := Some(dmap);
  }

  lemma TargetIsKnown(env: Env, reach: seq<Pkg>, i: nat)
    requires i < |reach|
    ensures env.std(reach[i]) || TargetOf(env, reach[i]).At? ==> !Lost(env, reach, i)
  {
  }

  lemma AllAreDecided(env: Env, reach: set<Pkg>, dmap: map<Root, CompleteDep>)
    requires Conserves(env, reach, dmap)
    ensures forall k :: k in dmap ==> Decided(env.overrides, k, Stated(env, k), dmap[k].ident, dmap[k].c)
  {
    hide Founded, Decided;
    forall k | k in dmap ensures Decided(env.overrides, k, Stated(env, k), dmap[k].ident, dmap[k].c) {
      FoundedIsDecided(env, k, dmap[k]);
    }
  }

  lemma NothingToConserve(env: Env)
    ensures Conserves(env, {}, map[])
  {
  }

  lemma MatchIsAbove(pre: Root, e: Pkg)
    requires pre <= e && IsPathPrefixOrEqual(pre, e)
    ensures PathPrefix(pre, e)
  {
    PathPrefixTest(pre, e);
  }

  lemma KeyIsWorking(env: Env, xt: map<Root, Working>, dmap: map<Root, CompleteDep>, k: Root)
    requires TrieFits(env, xt, dmap) && k in xt
    ensures xt[k] == WorkingOf(env, k) && xt[k].ident.root == k && (k in env.manifest || k in dmap)
  {
  }

  lemma TrieStillFits(env: Env, xt: map<Root, Working>, dmap: map<Root, CompleteDep>, r: Root, d: CompleteDep)
    requires TrieFits(env, xt, dmap) && r in xt
    ensures TrieFits(env, xt, dmap[r := d])
  {
  }

  /** A deduced project gets its working constraint, with nothing from the manifest. */
  lemma DeducedIsNew(env: Env, xt: map<Root, Working>, dmap: map<Root, CompleteDep>, e: Pkg, pd: Working,
                     d: CompleteDep)
    requires Flat(env) && TrieFits(env, xt, dmap) && env.deduce(e).Some? && env.deduce(e).value !in xt
    requires pd == Overridden(env.overrides, env.deduce(e).value, Properties("", AnyC))
    ensures var r := env.deduce(e).value;
      && pd == WorkingOf(env, r) && r !in dmap && PathPrefix(r, e)
      && TrieFits(env, xt[r := pd], dmap[r := d])
  {
    assert IsRoot(env, env.deduce(e).value);
  }

  /** Sorting makes one sequence of a set of packages, whatever the order in which they come. */
  lemma OneReach(exs: seq<Pkg>, eys: seq<Pkg>)
    requires multiset(exs) == multiset(eys)
    ensures Sort(exs) == Sort(eys) && SetOf(Sort(exs)) == SetOf(exs)
  {
    LeIsOrdering();
    SortSorts(Le, exs);
    SortSorts(Le, eys);
    SortedIsUnique(Sort(exs), Sort(eys));
    SameElements(Sort(exs), exs);
  }

  /** The dependencies of an atom that reaches these packages, as the solver is given them. */
  method DependenciesOf(env: Env, exs: seq<Pkg>) returns (r: Option<map<Root, CompleteDep>>)
    requires Flat(env)
    requires forall e :: e in exs ==> e == "" || e[|e| - 1] != '/'
    ensures r.Some? ==> Groups(env, SetOf(exs), r.value)
    ensures forall w: World, a: Atom | Fits(env, w, a, Sort(exs)) :: r == GroupDeps(w, a, SetOf(exs))
    ensures r.Some? ==> forall k :: k in r.value ==>
      && r.value[k].ident.root == k
      && r.value[k].ident.source == (
        if k in env.overrides && env.overrides[k].source != "" then env.overrides[k].source
        else if k in env.manifest then env.manifest[k].source
        else "")
      && r.value[k].c == (
        if k in env.overrides && env.overrides[k].c.Some? then env.overrides[k].c.value
        else if k in env.manifest then env.manifest[k].c
        else AnyC)
  {
    hide Flat, Groups, Conserves, Fits, SomeLost, Lost;
    var reach := Sort(exs);
    OneReach(exs, exs);
    forall e | e in reach ensures e in exs {
      assert e in SetOf(reach);
    }
    var deps := OverrideAll(env.overrides, env.manifest);
    r := IntersectConstraintsWithImports(env, deps, reach);
    SomeAreLost(env, reach);
    if r.Some? { ConservesIsGroups(env, SetOf(reach), r.value); }
    forall w: World, a: Atom | Fits(env, w, a, reach) ensures r == GroupDeps(w, a, SetOf(exs)) {
      GroupsAreDeps(env, w, a, reach, r);
    }
  }

  lemma SomeAreLost(env: Env, reach: seq<Pkg>)
    ensures SomeLost(env, reach) <==> exists i :: 0 <= i < |reach| && Lost(env, reach, i)
  {
  }
}
