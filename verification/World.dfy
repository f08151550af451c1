/** What the solver sees of the outside: project identifiers, atoms, and the source bridge
  as a record of fixed functions (gps/identifier.go, gps/bridge.go), together with the imports
  and constraints of an atom (gps/solver.go, getImportsAndConstraintsOf).

  Package lists are sorted and free of duplicates in the source, so a list is represented by
  the set of its members. */
module World {
  import opened Versions
  import opened Unifier

  type Root = string
  type Pkg = string

  datatype Ident = Ident(root: Root, source: string) {
    function NormalizedSource(): string {
      if source == "" then root else source
    }

    predicate Eq(j: Ident) {
      && root == j.root
      && (source == j.source || (source == "" && j.source == j.root) || (j.source == "" && source == root))
    }

    /** Not symmetric: an explicit source on the left accepts an unstated one on the right. */
    predicate Equiv(j: Ident) {
      root == j.root && (source == j.source || (source != "" && j.source == ""))
    }
  }

  datatype Atom = Atom(id: Ident, v: Version)

  /** What a project needs of another: its identifier, a constraint, and packages in it. */
  datatype CompleteDep = CompleteDep(ident: Ident, c: Constraint, pl: set<Pkg>)

  datatype Dependency = Dependency(depender: Atom, dep: CompleteDep)

  datatype Reach = Reach(internal: set<Pkg>, external: set<Pkg>)

  /** Where an external import leads: nowhere (standard library), to the project whose root lies
    above it, or unknown. */
  datatype Target = Std | At(root: Root) | Unknown

  datatype World = World(
    lib: Semver,
    root: Root,
    rootDeps: map<Root, CompleteDep>,
    // per project: its version list, whether its source and its vendored code exist
    versions: Ident -> VersionList,
    sourceExists: Ident -> Option<bool>,
    vendorExists: Ident -> Option<bool>,
    revisionIn: (Ident, string) -> bool,
    // per project version: its packages (true: in error), their reach map, its manifest and lock
    packages: (Ident, Version) -> Option<map<Pkg, bool>>,
    reach: (Ident, Version) -> map<Pkg, Reach>,
    manifest: (Ident, Version) -> bool,
    target: (Ident, Version, Pkg) -> Target,
    // whether the walk that groups these imports by project succeeds
    groups: (Ident, Version, set<Pkg>) -> bool,
    working: (Ident, Version, Root) -> (Ident, Constraint),
    lock: (Ident, Version) -> seq<(Ident, Version)>,
    // the root project's parameters
    rootPackages: set<Pkg>,
    ignored: Pkg -> bool,
    fold: string -> string,
    rootLock: map<Root, Version>,
    change: set<Root>,
    changeAll: bool)
  {
    function RootAtom(): Atom {
      Atom(Ident(root, ""), Revision(""))
    }
  }

  /* ----- Imports and constraints of an atom ----- */

  function Targets(w: World, a: Atom, ext: set<Pkg>): set<Root> {
    set e | e in ext && w.target(a.id, a.v, e).At? :: w.target(a.id, a.v, e).root
  }

  function DepOn(w: World, a: Atom, ext: set<Pkg>, r: Root): CompleteDep {
    CompleteDep(w.working(a.id, a.v, r).0, w.working(a.id, a.v, r).1,
                set e | e in ext && w.target(a.id, a.v, e) == At(r))
  }

  /** One dependency per project that ext leads to; none at all if the walk fails.  Module Imports
    shows that the trie walk of the source computes this. */
  function GroupDeps(w: World, a: Atom, ext: set<Pkg>): Option<map<Root, CompleteDep>> {
    if !w.groups(a.id, a.v, ext) then None
    else Some(map r | r in Targets(w, a, ext) :: DepOn(w, a, ext, r))
  }

  function Closure(rm: map<Pkg, Reach>, pl: set<Pkg>): set<Pkg> {
    pl + set p, q | p in pl && p in rm && q in rm[p].internal :: q
  }

  function Externals(w: World, rm: map<Pkg, Reach>, pl: set<Pkg>): set<Pkg> {
    set p, e | p in pl && !w.ignored(p) && p in rm && e in rm[p].external :: e
  }

  /** The packages of a reached from pl, and the dependencies they bring; None is an error. */
  function Imports(w: World, a: Atom, pl: set<Pkg>): Option<(set<Pkg>, map<Root, CompleteDep>)> {
    var rm := w.reach(a.id, a.v);
    if !w.manifest(a.id, a.v) || w.packages(a.id, a.v).None? then None
    else if exists p :: p in pl && !w.ignored(p) && p !in rm then None
    else
      match GroupDeps(w, a, Externals(w, rm, pl))
      case None => None
      case Some(ds) => Some((Closure(rm, pl), ds))
  }

  /** A reach map is transitively closed.  Explorer.ToReachMap states when its result is. */
  ghost predicate ReachClosed(w: World, rm: map<Pkg, Reach>) {
    && (forall p :: p in rm ==> !w.ignored(p))
    && (forall p, q :: p in rm && q in rm[p].internal ==>
          q in rm && rm[q].internal <= rm[p].internal && rm[q].external <= rm[p].external)
  }

  /** A constraint a manifest can state: never a pair or a union. */
  predicate Declared(c: Constraint) {
    !c.Union? && (c.Ver? ==> !c.v.Pair?)
  }

  ghost predicate DepLaws(d: CompleteDep, r: Root) {
    d.ident.root == r && Declared(d.c) && d.pl != {}
  }

  /** What is asked of the outside. */
  ghost predicate Lawful(w: World) {
    && w.lib.Laws()
    && (forall id :: w.versions(id).Some? ==> Consistent(w.lib, w.versions(id).value))
    && (forall id, v :: ReachClosed(w, w.reach(id, v)))
    && (forall id, v, e :: w.target(id, v, e) != At(id.root))
    && (forall id, v, ext, e :: w.groups(id, v, ext) && e in ext ==> !w.target(id, v, e).Unknown?)
    && (forall id, v, r :: w.working(id, v, r).0.root == r && Declared(w.working(id, v, r).1))
    && w.root !in w.rootDeps
    && (forall r :: r in w.rootDeps ==> DepLaws(w.rootDeps[r], r))
  }

  /** The projects and packages that can come up, and a bound on the length of version lists. */
  datatype Universe = Universe(roots: set<Root>, pkgs: set<(Root, Pkg)>, limit: nat)

  ghost predicate Bounded(w: World, u: Universe) {
    && (forall id, v, e :: w.target(id, v, e).At? && w.target(id, v, e).root != w.root ==>
          w.target(id, v, e).root in u.roots && (w.target(id, v, e).root, e) in u.pkgs)
    && (forall r :: r in w.rootDeps ==> r in u.roots && forall p :: p in w.rootDeps[r].pl ==> (r, p) in u.pkgs)
    && (forall id :: w.versions(id).Some? ==> |w.versions(id).value| <= u.limit)
  }

  lemma DepsAreLawful(w: World, a: Atom, pl: set<Pkg>)
    requires Lawful(w) && Imports(w, a, pl).Some?
    ensures var ds := Imports(w, a, pl).value.1;
      a.id.root !in ds && forall r :: r in ds ==> DepLaws(ds[r], r)
  {
    var ext := Externals(w, w.reach(a.id, a.v), pl);
    forall r | r in Targets(w, a, ext)
      ensures DepLaws(DepOn(w, a, ext, r), r) && r != a.id.root
    {
      var e :| e in ext && w.target(a.id, a.v, e) == At(r);
      assert e in DepOn(w, a, ext, r).pl;
    }
  }

  /** The imports computed again from the enlarged package list are the same. */
  lemma ImportsOfClosure(w: World, a: Atom, pl: set<Pkg>)
    requires ReachClosed(w, w.reach(a.id, a.v)) && Imports(w, a, pl).Some?
    ensures Imports(w, a, Imports(w, a, pl).value.0) == Imports(w, a, pl)
  {
    var rm := w.reach(a.id, a.v);
    var cl := Closure(rm, pl);
    assert Externals(w, rm, cl) == Externals(w, rm, pl);
    assert Closure(rm, cl) == cl;
  }

  /* ----- An outside as asked ----- */

  const V1: Version := Pair(Sem("1"), "r1")
  const V2: Version := Pair(Sem("2"), "r2")

  /** Three projects.  The root project needs `a`.  Version 2 of `a` needs `b`, and version 1
    needs version 2 of `c`, which has no other.  Version 2 of `b` needs version 1 of `c`, and
    has a second package; version 1 has no package at all. */
  function Example(): World {
    World(
      Semver((a, b) => a == b, (c, s) => c == s, (c, s) => c == s, (c, d) => if c == d then Some(c) else None),
      "main", map["a" := CompleteDep(Ident("a", ""), AnyC, {"a"})],
      (id: Ident) => Some(if id.root == "c" then [V2] else [V2, V1]),
      id => Some(true), id => Some(true), (id, r) => true,
      (id: Ident, v) => Some(map p | p in ExampleReach(id, v) :: false),
      (id: Ident, v) => ExampleReach(id, v), (id, v) => true,
      (id: Ident, v, e) => if e in ["b", "c"] && e != id.root then At(e) else Std, (id, v, ext) => true,
      (id: Ident, v, r) => (Ident(r, ""), if r == "c" then Range(if id.root == "b" then "1" else "2") else AnyC),
      (id, v) => [], {"main"}, p => false, s => s, map[], {}, false)
  }

  function ExampleReach(id: Ident, v: Version): map<Pkg, Reach> {
    if id.root == "a" then map["a" := Reach({}, {if v == V2 then "b" else "c"})]
    else if id.root == "b" then if v == V2 then map["b" := Reach({"b/x"}, {"c"}), "b/x" := Reach({}, {})] else map[]
    else map["c" := Reach({}, {})]
  }

  function ExampleUniverse(): Universe {
    Universe({"a", "b", "c"}, {("a", "a"), ("b", "b"), ("c", "c")}, 2)
  }

  lemma LawsCanBeMet()
    ensures Lawful(Example()) && Bounded(Example(), ExampleUniverse())
  {
    hide ReachClosed, Bounded, Semver.Laws, Consistent;
    ExampleIsBounded();
    ExampleListsAreFine();
    forall id, v ensures ReachClosed(Example(), Example().reach(id, v)) { ExampleIsClosed(id, v); }
  }

  lemma ExampleIsBounded()
    ensures Bounded(Example(), ExampleUniverse())
  {
  }

  lemma ExampleListsAreFine()
    ensures var w := Example();
      w.lib.Laws() && forall id :: w.versions(id).Some? ==> Consistent(w.lib, w.versions(id).value)
  {
  }

  lemma ExampleIsClosed(id: Ident, v: Version)
    ensures ReachClosed(Example(), ExampleReach(id, v))
  {
  }
}
