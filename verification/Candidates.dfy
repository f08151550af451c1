/** What a worklist entry comes to: the versions that may be tried for its project, in order, and
  whether the entry is taken or refused.  A solve that meets no refusal takes every project at its
  first candidate that passes the checks. */
module Candidates {
  import opened Versions
  import opened Unifier
  import opened World
  import opened SolverState
  import opened VersionQueues
  import opened Transitions
  import opened RootSelection

  /* ----- The version of the root lock ----- */

  predicate Allows(w: World, c: Constraint, v: Version) {
    Matches(w.lib, c, Ver(v))
  }

  /** The first of vs that c allows, or lv. */
  function FirstAllowed(w: World, c: Constraint, vs: seq<Version>, lv: Version): Version {
    if vs == [] then lv else if Allows(w, c, vs[0]) then vs[0] else FirstAllowed(w, c, vs[1..], lv)
  }

  function LockedAt(w: World, id: Ident, lv: Version, c: Constraint): Version {
    if Allows(w, c, lv) || !lv.Revision? then lv
    else FirstAllowed(w, c, PairRevisionOf(w.lib, w.versions(id), lv.r), lv)
  }

  /** The root lock is not to be followed: a change is asked for, and there is a source to look in. */
  predicate LockIsOff(w: World, id: Ident) {
    (id.root in w.change || w.changeAll) && w.sourceExists(id) == Some(true)
  }

  function LockFor(w: World, deps: map<Root, seq<Dependency>>, id: Ident): Option<Version> {
    if id.root !in w.rootLock || LockIsOff(w, id) then None
    else Some(LockedAt(w, id, w.rootLock[id.root], CompositeOf(w, id, Stack(deps, id.root))))
  }

  /** What the lock has is kept, if the constraints allow it or it is more than a revision; else it is
    the first version listed at that revision that they allow, if there is one. */
  ghost predicate LockChoice(w: World, lv: Version, c: Constraint, id: Ident, v: Version) {
    if Allows(w, c, lv) || !lv.Revision? then v == lv
    else
      var vs := PairRevisionOf(w.lib, w.versions(id), lv.r);
      || (v == lv && forall p :: p in vs ==> !Allows(w, c, p))
      || (exists i :: 0 <= i < |vs| && vs[i] == v && Allows(w, c, v) && forall j :: 0 <= j < i ==> !Allows(w, c, vs[j]))
  }

  lemma {:induction false} FirstAllowedIs(w: World, c: Constraint, vs: seq<Version>, lv: Version)
    ensures var v := FirstAllowed(w, c, vs, lv);
      || (v == lv && forall p :: p in vs ==> !Allows(w, c, p))
      || (exists i :: 0 <= i < |vs| && vs[i] == v && Allows(w, c, v) && forall j :: 0 <= j < i ==> !Allows(w, c, vs[j]))
  {
    hide Allows;
    if vs != [] && !Allows(w, c, vs[0]) {
      FirstAllowedIs(w, c, vs[1..], lv);
      assert forall j :: 0 < j < |vs| ==> vs[j] == vs[1..][j - 1];
      var v := FirstAllowed(w, c, vs[1..], lv);
      if v != lv || exists p :: p in vs[1..] && Allows(w, c, p) {
        var i :| 0 <= i < |vs[1..]| && vs[1..][i] == v && Allows(w, c, v)
          && forall j :: 0 <= j < i ==> !Allows(w, c, vs[1..][j]);
        assert vs[i + 1] == v;
      }
    }
  }

  lemma FirstAllowedStep(w: World, c: Constraint, vs: seq<Version>, lv: Version)
    ensures FirstAllowed(w, c, vs, lv) ==
      if vs == [] then lv else if Allows(w, c, vs[0]) then vs[0] else FirstAllowed(w, c, vs[1..], lv)
  {
  }

  lemma NoLock(w: World, deps: map<Root, seq<Dependency>>, id: Ident)
    requires w.rootLock == map[]
    ensures LockFor(w, deps, id).None?
  {
  }

  lemma LockForIs(w: World, deps: map<Root, seq<Dependency>>, id: Ident)
    ensures var l := LockFor(w, deps, id);
      && (l.Some? <==>
            id.root in w.rootLock && !((id.root in w.change || w.changeAll) && w.sourceExists(id) == Some(true)))
      && (l.Some? ==> LockChoice(w, w.rootLock[id.root], CompositeOf(w, id, Stack(deps, id.root)), id, l.value))
  {
    hide CompositeOf, FirstAllowed;
    if id.root in w.rootLock && w.rootLock[id.root].Revision? {
      var lv, c := w.rootLock[id.root], CompositeOf(w, id, Stack(deps, id.root));
      FirstAllowedIs(w, c, PairRevisionOf(w.lib, w.versions(id), lv.r), lv);
    }
  }

  /* ----- The version that dependers prefer ----- */

  /** What the lock of a depender says of the project; the root project is not asked. */
  function LockedBy(w: World, e: Dependency, id: Ident): seq<(Ident, Version)> {
    if e.depender.id.root != w.root && w.manifest(e.depender.id, e.depender.v)
    then Entries(w.lock(e.depender.id, e.depender.v), id) else []
  }

  /** The entries for the project. */
  function Entries(l: seq<(Ident, Version)>, id: Ident): seq<(Ident, Version)> {
    if l == [] then []
    else Entries(l[..|l| - 1], id) + if l[|l| - 1].0.Eq(id) then [l[|l| - 1]] else []
  }

  function LockedByAll(w: World, es: seq<Dependency>, id: Ident): seq<(Ident, Version)> {
    if es == [] then [] else LockedByAll(w, es[..|es| - 1], id) + LockedBy(w, es[|es| - 1], id)
  }

  function LastOf(l: seq<(Ident, Version)>): Option<Version> {
    if l == [] then None else Some(l[|l| - 1].1)
  }

  function PreferredFor(w: World, deps: map<Root, seq<Dependency>>, b: Bmi): Option<Version> {
    if b.fromRoot then LastOf(LockedByAll(w, Stack(deps, b.id.root), b.id)) else b.prefv
  }

  lemma NothingLocked(w: World, id: Ident)
    ensures LockedByAll(w, [], id) == [] && Entries([], id) == []
  {
  }

  lemma LockedByMore(w: World, es: seq<Dependency>, i: nat, id: Ident)
    requires i < |es|
    ensures LockedByAll(w, es[..i + 1], id) == LockedByAll(w, es[..i], id) + LockedBy(w, es[i], id)
  {
    assert es[..i + 1][..i] == es[..i];
  }

  lemma EntriesMore(l: seq<(Ident, Version)>, k: nat, id: Ident)
    requires k < |l|
    ensures Entries(l[..k + 1], id) == Entries(l[..k], id) + if l[k].0.Eq(id) then [l[k]] else []
  {
    assert l[..k + 1][..k] == l[..k];
  }

  /** The lock l has v for the project, in its last entry for it. */
  ghost predicate LastEntryIs(l: seq<(Ident, Version)>, id: Ident, v: Version) {
    exists k :: 0 <= k < |l| && l[k].0.Eq(id) && l[k].1 == v && forall m :: k < m < |l| ==> !l[m].0.Eq(id)
  }

  predicate HasEntry(l: seq<(Ident, Version)>, id: Ident) {
    exists k :: 0 <= k < |l| && l[k].0.Eq(id)
  }

  lemma {:induction false} LastOfEntries(l: seq<(Ident, Version)>, id: Ident)
    ensures Entries(l, id) != [] <==> HasEntry(l, id)
    ensures Entries(l, id) != [] ==> LastEntryIs(l, id, Entries(l, id)[|Entries(l, id)| - 1].1)
  {
    if l != [] {
      var n := |l| - 1;
      LastOfEntries(l[..n], id);
      assert forall k :: 0 <= k < n ==> l[..n][k] == l[k];
    }
  }

  /** The depender of e is asked, and its lock has the project. */
  predicate Prefers(w: World, e: Dependency, id: Ident) {
    && e.depender.id.root != w.root && w.manifest(e.depender.id, e.depender.v)
    && HasEntry(w.lock(e.depender.id, e.depender.v), id)
  }

  /** What a project of the root gets as preferred version: the last entry for it in the lock of the
    last depender whose lock has it; none if there is no such depender. */
  lemma {:induction false} PreferredIs(w: World, es: seq<Dependency>, id: Ident)
    ensures LastOf(LockedByAll(w, es, id)).None? ==> forall e :: e in es ==> !Prefers(w, e, id)
    ensures LastOf(LockedByAll(w, es, id)).Some? ==>
      exists i :: 0 <= i < |es| && Prefers(w, es[i], id)
        && LastEntryIs(w.lock(es[i].depender.id, es[i].depender.v), id, LastOf(LockedByAll(w, es, id)).value)
        && forall j :: i < j < |es| ==> !Prefers(w, es[j], id)
  {
    hide Entries, HasEntry, LastEntryIs;
    if es != [] {
      var n := |es| - 1;
      PreferredIs(w, es[..n], id);
      LastOfEntries(w.lock(es[n].depender.id, es[n].depender.v), id);
      assert forall k :: 0 <= k < n ==> es[..n][k] == es[k];
      var all, more := LockedByAll(w, es[..n], id), LockedBy(w, es[n], id);
      if Prefers(w, es[n], id) {
        assert (all + more)[|all + more| - 1] == more[|more| - 1];
      } else {
        assert all + more == all;
        if LastOf(all).Some? {
          var i :| 0 <= i < n && Prefers(w, es[..n][i], id)
            && LastEntryIs(w.lock(es[..n][i].depender.id, es[..n][i].depender.v), id, LastOf(all).value)
            && forall j :: i < j < n ==> !Prefers(w, es[..n][j], id);
          assert es[i] == es[..n][i];
        }
      }
    }
  }

  /** What a lock says of an identifier is its last entry for it; an entry that a dependency brings to
    the worklist prefers what the depender's lock says. */
  lemma {:induction false} LockMapIs(l: seq<(Ident, Version)>, id: Ident)
    ensures id in LockMap(l) <==> exists k :: 0 <= k < |l| && l[k].0 == id
    ensures id in LockMap(l) ==>
      exists k :: 0 <= k < |l| && l[k].0 == id && l[k].1 == LockMap(l)[id] && forall m :: k < m < |l| ==> l[m].0 != id
  {
    if l != [] {
      var n := |l| - 1;
      LockMapIs(l[..n], id);
      assert forall k :: 0 <= k < n ==> l[..n][k] == l[k];
      if l[n].0 != id && id in LockMap(l) {
        var k :| 0 <= k < n && l[..n][k].0 == id && l[..n][k].1 == LockMap(l[..n])[id]
          && forall m :: k < m < n ==> l[..n][m].0 != id;
        assert l[k].0 == id;
      }
    }
  }

  /** After a selection each project with new packages has an entry for them, with the preference of
    the selected atom's lock for that dependency. */
  lemma NewEntryPrefers(w: World, st: State, a: Atom, pl: set<Pkg>, pkgonly: bool, st': State, r: Root)
    requires Selects(w, st, a, pl, pkgonly, st') && r in Imports(w, a, pl).value.1 && r != w.root
    requires NewPackages(Stack(st.deps, r), Imports(w, a, pl).value.1[r].pl) != {}
    ensures var d, l := Imports(w, a, pl).value.1[r], w.lock(a.id, a.v);
      exists b :: b in st'.unsel && b.pl == NewPackages(Stack(st.deps, r), d.pl) && !b.fromRoot
        && (b.prefv.None? <==> forall k :: 0 <= k < |l| ==> l[k].0 != d.ident)
        && (b.prefv.Some? ==>
              exists k :: 0 <= k < |l| && l[k] == (d.ident, b.prefv.value)
                && forall m :: k < m < |l| ==> l[m].0 != d.ident)
  {
    hide Imports, FoldsPushed, NewPackages, LockMap, RemovedOne;
    var nd, l := Imports(w, a, pl).value.1 - {w.root}, w.lock(a.id, a.v);
    var b := NewBmi(Stack(st.deps, r), nd[r], LockMap(l));
    assert r in nd && b in NewBmis(st.deps, nd, LockMap(l));
    assert b in st'.unsel;
    LockMapIs(l, nd[r].ident);
  }

  /* ----- The candidates ----- */

  /** The versions to try: a revision that the constraints come down to is put in front. */
  function ToTry(w: World, deps: map<Root, seq<Dependency>>, id: Ident, lockv: Option<Version>,
                 prefv: Option<Version>): seq<Version> {
    var c, vs := CompositeOf(w, id, Stack(deps, id.root)), Schedule(w, id, lockv, prefv);
    if c.Ver? && c.v.Revision? && (vs == [] || vs[0] != c.v) then [c.v] + vs else vs
  }

  /** No queue can be made: there is no code, or a change is asked for of code without a source, or
    there is neither a version to start with nor a list. */
  predicate NoQueue(w: World, deps: map<Root, seq<Dependency>>, b: Bmi) {
    || w.sourceExists(b.id).None?
    || (w.sourceExists(b.id) == Some(false) && w.vendorExists(b.id) != Some(true))
    || (w.rootLock != map[] && b.id.root in w.change && w.sourceExists(b.id) != Some(true))
    || (LockFor(w, deps, b.id).None? && PreferredFor(w, deps, b).None? && w.versions(b.id).None?)
  }

  function Scheduled(w: World, deps: map<Root, seq<Dependency>>, b: Bmi): seq<Version> {
    Schedule(w, b.id, LockFor(w, deps, b.id), PreferredFor(w, deps, b))
  }

  function CandidatesFor(w: World, deps: map<Root, seq<Dependency>>, b: Bmi): seq<Version> {
    ToTry(w, deps, b.id, LockFor(w, deps, b.id), PreferredFor(w, deps, b))
  }

  lemma CandidatesAre(w: World, deps: map<Root, seq<Dependency>>, b: Bmi)
    ensures var c, vs := CompositeOf(w, b.id, Stack(deps, b.id.root)), Scheduled(w, deps, b);
      CandidatesFor(w, deps, b) == if c.Ver? && c.v.Revision? && (vs == [] || vs[0] != c.v) then [c.v] + vs else vs
  {
  }

  /* ----- Taken or refused ----- */

  /** The entry cannot be served in the state: its packages fail the checks at the version selected;
    or the project is not selected, and there is no queue, no version, or none that passes. */
  ghost predicate Refused(w: World, st: State, b: Bmi) {
    match SelectedFor(st.projects, b.id.root)
    case Some(s) => !CheckOk(w, st, Atom(b.id, s.a.v), b.pl, true)
    case None =>
      || NoQueue(w, st.deps, b) || Scheduled(w, st.deps, b) == []
      || forall v :: v in CandidatesFor(w, st.deps, b) ==> !CheckOk(w, st, Atom(b.id, v), b.pl, false)
  }

  ghost predicate FirstPassing(w: World, st: State, b: Bmi, vs: seq<Version>, v: Version) {
    exists i :: 0 <= i < |vs| && vs[i] == v && CheckOk(w, st, Atom(b.id, v), b.pl, false)
      && forall j :: 0 <= j < i ==> !CheckOk(w, st, Atom(b.id, vs[j]), b.pl, false)
  }

  /** The entry is served with a: at the version selected, or at the first candidate that passes. */
  ghost predicate Served(w: World, st: State, b: Bmi, a: Atom, pkgonly: bool) {
    match SelectedFor(st.projects, b.id.root)
    case Some(s) => pkgonly && a == Atom(b.id, s.a.v) && CheckOk(w, st, a, b.pl, true)
    case None =>
      && !pkgonly && a.id == b.id && !NoQueue(w, st.deps, b) && Scheduled(w, st.deps, b) != []
      && FirstPassing(w, st, b, CandidatesFor(w, st.deps, b), a.v)
  }

  /** Every entry is refused or can be served, never both. */
  lemma RefusedOrServed(w: World, st: State, b: Bmi)
    ensures Refused(w, st, b) <==> !(exists a, pkgonly :: Served(w, st, b, a, pkgonly))
  {
    hide CheckOk, NoQueue, Scheduled, CandidatesFor;
    var sel := SelectedFor(st.projects, b.id.root);
    if !Refused(w, st, b) {
      if sel.Some? {
        assert Served(w, st, b, Atom(b.id, sel.value.a.v), true);
      } else {
        var vs := CandidatesFor(w, st.deps, b);
        var v :| v in vs && CheckOk(w, st, Atom(b.id, v), b.pl, false);
        var k :| 0 <= k < |vs| && vs[k] == v;
        var i := FirstThatPasses(w, st, b, vs, k);
        assert Served(w, st, b, Atom(b.id, vs[i]), false);
      }
    }
  }

  lemma {:induction false} FirstThatPasses(w: World, st: State, b: Bmi, vs: seq<Version>, k: nat) returns (i: nat)
    requires k < |vs| && CheckOk(w, st, Atom(b.id, vs[k]), b.pl, false)
    ensures i <= k && CheckOk(w, st, Atom(b.id, vs[i]), b.pl, false)
    ensures forall j :: 0 <= j < i ==> !CheckOk(w, st, Atom(b.id, vs[j]), b.pl, false)
    decreases k
  {
    hide CheckOk;
    if j :| 0 <= j < k && CheckOk(w, st, Atom(b.id, vs[j]), b.pl, false) {
      i := FirstThatPasses(w, st, b, vs, j);
    } else {
      i := k;
    }
  }

  /* ----- A solve without backtracking ----- */

  /** The state after the root project is selected. */
  ghost predicate IsStart(w: World, st: State) {
    && st.projects == [Selected(w.RootAtom(), w.rootPackages, true)]
    && RootPushed(w, State([], map[], map[], multiset{}), w.rootDeps.Keys, Parts(st.deps, st.folds, st.unsel))
  }

  /** One entry of the worklist is served. */
  ghost predicate Serves(w: World, st: State, st': State) {
    exists b, a, pkgonly :: ServedBy(w, st, b, a, pkgonly, st')
  }

  ghost predicate ServedBy(w: World, st: State, b: Bmi, a: Atom, pkgonly: bool, st': State) {
    b in st.unsel && Served(w, st, b, a, pkgonly) && Selects(w, st, a, b.pl, pkgonly, st')
  }

  ghost predicate Ascent(w: World, run: seq<State>) {
    run != [] && IsStart(w, run[0]) && forall i :: 0 < i < |run| ==> Serves(w, run[i - 1], run[i])
  }

  /** st is reached from the start by serving entries alone. */
  ghost predicate Grown(w: World, st: State) {
    exists run :: Ascent(w, run) && run[|run| - 1] == st
  }

  /** Somewhere on a way up from the start an entry is refused. */
  ghost predicate Refusal(w: World) {
    exists st, b :: RefusedAt(w, st, b)
  }

  ghost predicate RefusedAt(w: World, st: State, b: Bmi) {
    Grown(w, st) && b in st.unsel && Refused(w, st, b)
  }

  lemma StartIsGrown(w: World, st: State)
    requires IsStart(w, st)
    ensures Grown(w, st)
  {
    assert Ascent(w, [st]);
  }

  lemma GrowsOn(w: World, st: State, b: Bmi, a: Atom, pkgonly: bool, st': State)
    requires Grown(w, st) && ServedBy(w, st, b, a, pkgonly, st')
    ensures Grown(w, st')
  {
    hide IsStart, ServedBy;
    var run :| Ascent(w, run) && run[|run| - 1] == st;
    var next := run + [st'];
    forall i | 0 < i < |next|
      ensures Serves(w, next[i - 1], next[i])
    {
      if i == |run| { assert Serves(w, st, st'); }
    }
    assert Ascent(w, next);
  }
}
