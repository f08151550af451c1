/** Checking a vendor directory against a lock: the walk and the marking of `VerifyDepTree`
  (gps/pkgtree/digest.go).  The file system is a finite tree of names; what DigestFromDirectory
  computes for a directory is a parameter. */
module VerifyTree {
  import opened Versions

  type Name = string
  type Path = seq<Name>
  type Sum = seq<int>

  /** A directory lists distinct names, or cannot be read. */
  datatype Node = Dir(names: Option<seq<Name>>) | Plain

  /** What is not in the map cannot be looked at. */
  type Tree = map<Path, Node>

  datatype VendorStatus = NotInLock | NotInTree | NoMismatch | EmptyDigestInLock | DigestMismatchInLock

  predicate Skipped(n: Name) {
    n in {".", "..", "vendor", ".bzr", ".git", ".hg", ".svn"}
  }

  ghost predicate WellFormed(t: Tree) {
    forall p, i, j :: p in t && t[p].Dir? && t[p].names.Some? && 0 <= i < j < |t[p].names.value| ==>
      t[p].names.value[i] != t[p].names.value[j]
  }

  /* ----- What is to be reported ----- */

  predicate IsDir(t: Tree, p: Path) {
    p in t && t[p].Dir?
  }

  function Kept(names: seq<Name>): seq<Name> {
    if names == [] then []
    else (if Skipped(names[0]) then [] else [names[0]]) + Kept(names[1..])
  }

  function ChildNames(t: Tree, p: Path): seq<Name> {
    if IsDir(t, p) && t[p].names.Some? then Kept(t[p].names.value) else []
  }

  /** The walk comes to p: it does not look into the projects of the lock. */
  predicate Visited(t: Tree, want: map<Path, Sum>, p: Path) {
    p == [] ||
    var up := p[..|p| - 1];
    Visited(t, want, up) && up !in want && p[|p| - 1] in ChildNames(t, up)
  }

  /** p is a project of the lock that the walk finds. */
  predicate Reached(t: Tree, want: map<Path, Sum>, p: Path) {
    p in want && Visited(t, want, p) && IsDir(t, p)
  }

  ghost predicate Required(t: Tree, want: map<Path, Sum>, p: Path) {
    p == [] || exists q :: Reached(t, want, q) && p <= q
  }

  /** A topmost node that no project of the lock needs. */
  ghost predicate Stray(t: Tree, want: map<Path, Sum>, p: Path) {
    p != [] && Visited(t, want, p) && !Required(t, want, p) && Required(t, want, p[..|p| - 1])
  }

  function DigestStatus(wanted: Sum, found: Option<Sum>): VendorStatus {
    if wanted == [] then EmptyDigestInLock else if found == Some(wanted) then NoMismatch else DigestMismatchInLock
  }

  /** Something at p that stops the walk: it, the directory or the digest cannot be had. */
  predicate FaultAt(t: Tree, want: map<Path, Sum>, digest: Path -> Option<Sum>, p: Path) {
    Visited(t, want, p) &&
    if p !in t then true
    else t[p].Dir? && if p in want then want[p] != [] && digest(p).None? else t[p].names.None?
  }

  ghost predicate Faulty(t: Tree, want: map<Path, Sum>, digest: Path -> Option<Sum>) {
    !IsDir(t, []) || exists p :: FaultAt(t, want, digest, p)
  }

  /** The full report. */
  ghost predicate Report(t: Tree, want: map<Path, Sum>, digest: Path -> Option<Sum>, status: map<Path, VendorStatus>) {
    && (forall p :: p in status <==> p in want || Stray(t, want, p))
    && (forall p :: p in status ==>
          status[p] == if Stray(t, want, p) then NotInLock
                       else if Reached(t, want, p) then DigestStatus(want[p], digest(p))
                       else NotInTree)
  }

  /* ----- What a report means ----- */

  lemma {:induction false} VisitedAbove(t: Tree, want: map<Path, Sum>, p: Path, q: Path)
    requires Visited(t, want, q) && p <= q
    ensures Visited(t, want, p)
    ensures p != q ==> p !in want
    decreases |q|
  {
    if p != q {
      var up := q[..|q| - 1];
      assert p <= up;
      VisitedAbove(t, want, p, up);
    } else {
      assert p == q;
    }
  }

  lemma RequiredAbove(t: Tree, want: map<Path, Sum>, p: Path, q: Path)
    requires Required(t, want, q) && p <= q
    ensures Required(t, want, p)
  {
    if p != [] {
      var r :| Reached(t, want, r) && q <= r;
      assert p <= r;
    }
  }

  /** Above every node that is not needed there is a topmost one. */
  lemma {:induction false} StrayAbove(t: Tree, want: map<Path, Sum>, p: Path) returns (s: Path)
    requires Visited(t, want, p) && !Required(t, want, p)
    ensures s <= p && Stray(t, want, s)
    decreases |p|
  {
    var up := p[..|p| - 1];
    if Required(t, want, up) {
      s := p;
    } else {
      s := StrayAbove(t, want, up);
    }
  }

  lemma StraysAreApart(t: Tree, want: map<Path, Sum>, p: Path, q: Path)
    requires Stray(t, want, p) && Stray(t, want, q) && p <= q
    ensures p == q
  {
    if p != q {
      RequiredAbove(t, want, p, q[..|q| - 1]);
    }
  }

  ghost predicate Below(p: Path, q: Path) {
    q <= p
  }

  /** Every node that is visited is needed, or lies at or below exactly one node that is reported
    as not in the lock; never both. */
  lemma EveryNodeIsClassified(t: Tree, want: map<Path, Sum>, digest: Path -> Option<Sum>,
                              status: map<Path, VendorStatus>, p: Path)
    requires Report(t, want, digest, status) && Visited(t, want, p)
    ensures Required(t, want, p) <==> !(exists s :: s in status && status[s] == NotInLock && Below(p, s))
    ensures forall s, s' | s in status && s' in status && Below(p, s) && Below(p, s') ::
      status[s] == NotInLock && status[s'] == NotInLock ==> s == s'
  {
    forall s | s in status && status[s] == NotInLock ensures Stray(t, want, s) {}
    if Required(t, want, p) {
      forall s | s in status && status[s] == NotInLock && Below(p, s) ensures false {
        RequiredAbove(t, want, s, p);
      }
    } else {
      var s := StrayAbove(t, want, p);
      assert status[s] == NotInLock && Below(p, s);
    }
    forall s, s' | s in status && s' in status && Below(p, s) && Below(p, s')
        && status[s] == NotInLock && status[s'] == NotInLock
      ensures s == s'
    {
      if |s| <= |s'| {
        assert s <= s';
        StraysAreApart(t, want, s, s');
      } else {
        assert s' <= s;
        StraysAreApart(t, want, s', s);
      }
    }
  }

  /** What is reported of a project that was found: that the lock has no digest for it, that the
    digest in the lock is the one computed, or that it is another. */
  lemma ProjectStatusIs(t: Tree, want: map<Path, Sum>, digest: Path -> Option<Sum>, status: map<Path, VendorStatus>,
                        p: Path)
    requires Report(t, want, digest, status) && !Faulty(t, want, digest) && Reached(t, want, p)
    ensures p in want && p in status && (want[p] != [] ==> digest(p).Some?)
    ensures status[p] == EmptyDigestInLock <==> want[p] == []
    ensures status[p] == NoMismatch <==> want[p] != [] && digest(p).value == want[p]
    ensures status[p] == DigestMismatchInLock <==> want[p] != [] && digest(p).value != want[p]
  {
    assert !FaultAt(t, want, digest, p);
    assert Required(t, want, p) by { assert p <= p; }
  }

  /** Nothing that is reported as not in the lock holds, or lies in, a project that was found. */
  lemma StraysHoldNoProject(t: Tree, want: map<Path, Sum>, digest: Path -> Option<Sum>,
                            status: map<Path, VendorStatus>, s: Path, q: Path)
    requires Report(t, want, digest, status) && s in status && status[s] == NotInLock && Reached(t, want, q)
    ensures !(s <= q) && !(q <= s)
  {
    assert Stray(t, want, s);
    if q <= s { VisitedAbove(t, want, q, s); }
  }

  /** A name of the lock stays not in the tree if and only if it is not found, except that a
    plain file of that name, in a directory that is needed, is not in the lock. */
  lemma NotInTreeIsNotReached(t: Tree, want: map<Path, Sum>, digest: Path -> Option<Sum>,
                              status: map<Path, VendorStatus>, p: Path)
    requires Report(t, want, digest, status) && p in want
    ensures status[p] == NotInTree <==>
      !Reached(t, want, p) && !(p != [] && Visited(t, want, p) && Required(t, want, p[..|p| - 1]))
  {
    if Visited(t, want, p) && Required(t, want, p) && p != [] && !Reached(t, want, p) {
      var q :| Reached(t, want, q) && p <= q;
      VisitedAbove(t, want, p, q);
    }
  }

  /** When no name of the lock is a plain file: exactly what is not found is not in the tree. */
  lemma NotInTreeForDirectories(t: Tree, want: map<Path, Sum>, digest: Path -> Option<Sum>,
                                status: map<Path, VendorStatus>, p: Path)
    requires Report(t, want, digest, status) && p in want
    requires forall q :: q in want && q in t ==> t[q].Dir?
    requires !Faulty(t, want, digest)
    ensures status[p] == NotInTree <==> !Reached(t, want, p)
  {
    assert !FaultAt(t, want, digest, p);
    NotInTreeIsNotReached(t, want, digest, status, p);
  }

  /* ----- The walk ----- */

  class FsNode {
    const osRelative: Path
    const myIndex: nat
    const parentIndex: int
    var isRequiredAncestor: bool

    constructor (osRelative: Path, myIndex: nat, parentIndex: int, required: bool)
      ensures this.osRelative == osRelative && this.myIndex == myIndex && this.parentIndex == parentIndex
      ensures isRequiredAncestor == required
    {
      this.osRelative, this.myIndex, this.parentIndex, isRequiredAncestor := osRelative, myIndex, parentIndex, required;
    }
  }

  /** The nodes are in the order they were found, the root first, each below its parent. */
  ghost predicate Linked(nodes: seq<FsNode>) {
    && nodes != [] && nodes[0].osRelative == []
    && (forall i :: 0 <= i < |nodes| ==> nodes[i].myIndex == i)
    && nodes[0].parentIndex == -1
    && (forall i :: 0 < i < |nodes| ==>
          0 <= nodes[i].parentIndex < i && IsChild(nodes[i].osRelative, nodes[nodes[i].parentIndex].osRelative))
    && (forall i, j :: 0 <= i < j < |nodes| ==> nodes[i].osRelative != nodes[j].osRelative)
  }

  predicate IsChild(p: Path, up: Path) {
    p != [] && p[..|p| - 1] == up
  }

  /** The place of p among the nodes found. */
  ghost predicate Found(nodes: seq<FsNode>, p: Path) {
    exists i :: 0 <= i < |nodes| && nodes[i].osRelative == p
  }

  /** The node at k is at or above p, and below the node at i. */
  predicate Between(nodes: seq<FsNode>, p: Path, i: int, k: nat)
    requires -1 <= i < |nodes| && k < |nodes|
  {
    nodes[k].osRelative <= p && (i == -1 || |nodes[k].osRelative| > |nodes[i].osRelative|)
  }

  lemma OneStepUp(nodes: seq<FsNode>, p: Path, i: nat)
    requires Linked(nodes) && i < |nodes| && nodes[i].osRelative <= p
    ensures var up := nodes[i].parentIndex;
      && -1 <= up < i && (up != -1 ==> nodes[up].osRelative <= p)
      && forall k :: 0 <= k < |nodes| ==> (Between(nodes, p, up, k) <==> Between(nodes, p, i, k) || k == i)
  {
    forall k | 0 <= k < |nodes|
      ensures Between(nodes, p, nodes[i].parentIndex, k) <==> Between(nodes, p, i, k) || k == i
    {
      if nodes[k].osRelative <= p && |nodes[k].osRelative| == |nodes[i].osRelative| {
        assert nodes[k].osRelative == nodes[i].osRelative;
      }
    }
  }

  /** Marks the node at index and all above it. */
  method MarkRequired(nodes: seq<FsNode>, index: nat)
    requires Linked(nodes) && index < |nodes|
    modifies nodes
    ensures forall k :: 0 <= k < |nodes| ==>
      nodes[k].isRequiredAncestor ==
        (old(nodes[k].isRequiredAncestor) || nodes[k].osRelative <= nodes[index].osRelative)
  {
    ghost var p := nodes[index].osRelative;
    var i := index;
    while i != -1
      invariant -1 <= i < |nodes|
      invariant i != -1 ==> nodes[i].osRelative <= p
      invariant forall k :: 0 <= k < |nodes| ==>
        nodes[k].isRequiredAncestor == (old(nodes[k].isRequiredAncestor) || Between(nodes, p, i, k))
      decreases i
    {
      OneStepUp(nodes, p, i);
      NoTwins(nodes);
      hide Between, Linked;
      nodes[i].isRequiredAncestor := true;
      i := nodes[i].parentIndex;
    }
  }

  lemma NoTwins(nodes: seq<FsNode>)
    requires Linked(nodes)
    ensures forall i, j :: 0 <= i < |nodes| && 0 <= j < |nodes| && i != j ==> nodes[i] != nodes[j]
  {
  }

  /** Children of the current node that have been added: those named in part. */
  ghost predicate Added(t: Tree, up: Path, part: seq<Name>, before: seq<FsNode>, nodes: seq<FsNode>) {
    && Linked(nodes) && before <= nodes
    && (forall p :: Found(nodes, p) <==> Found(before, p) || KeptChild(p, up, part))
    && (forall i :: |before| <= i < |nodes| ==> IsChild(nodes[i].osRelative, up) && nodes[i].osRelative in t)
  }

  predicate KeptChild(p: Path, up: Path, part: seq<Name>) {
    IsChild(p, up) && p[|p| - 1] in Kept(part)
  }

  /** The directories among nodes. */
  function Dirs(t: Tree, nodes: seq<FsNode>): seq<FsNode> {
    if nodes == [] then []
    else
      var n := |nodes| - 1;
      Dirs(t, nodes[..n]) + if IsDir(t, nodes[n].osRelative) then [nodes[n]] else []
  }

  lemma DirsOneMore(t: Tree, nodes: seq<FsNode>, x: FsNode)
    ensures Dirs(t, nodes + [x]) == Dirs(t, nodes) + if IsDir(t, x.osRelative) then [x] else []
  {
    assert (nodes + [x])[..|nodes|] == nodes;
  }

  lemma KeptOneMore(names: seq<Name>, k: nat)
    requires k < |names|
    ensures Kept(names[..k + 1]) == Kept(names[..k]) + if Skipped(names[k]) then [] else [names[k]]
  {
    if k == 0 {
      assert names[..1][1..] == [];
    } else {
      KeptOneMore(names[1..], k - 1);
      assert names[..k + 1][1..] == names[1..][..k];
      assert names[..k][1..] == names[1..][..k - 1];
      assert names[..k + 1][0] == names[0] == names[..k][0];
    }
  }

  lemma KeptIsSome(names: seq<Name>, n: Name)
    ensures n in Kept(names) <==> n in names && !Skipped(n)
  {
  }

  lemma FoundOneMore(nodes: seq<FsNode>, x: FsNode, p: Path)
    ensures Found(nodes + [x], p) <==> Found(nodes, p) || p == x.osRelative
  {
    var nodes' := nodes + [x];
    if p == x.osRelative { assert nodes'[|nodes|].osRelative == p; }
    if i :| 0 <= i < |nodes| && nodes[i].osRelative == p { assert nodes'[i].osRelative == p; }
    if i :| 0 <= i < |nodes'| && nodes'[i].osRelative == p { assert i < |nodes| ==> nodes[i].osRelative == p; }
  }

  lemma LinkedOneMore(nodes: seq<FsNode>, x: FsNode)
    requires Linked(nodes) && !Found(nodes, x.osRelative) && x.myIndex == |nodes|
    requires 0 <= x.parentIndex < |nodes| && IsChild(x.osRelative, nodes[x.parentIndex].osRelative)
    ensures Linked(nodes + [x])
  {
    var nodes' := nodes + [x];
    forall i, j | 0 <= i < j < |nodes'|
      ensures nodes'[i].osRelative != nodes'[j].osRelative
    {
      if j == |nodes| { assert Found(nodes, nodes[i].osRelative); }
    }
  }

  lemma ChildOneMore(up: Path, names: seq<Name>, k: nat, p: Path)
    requires k < |names| && !Skipped(names[k])
    ensures KeptChild(p, up, names[..k + 1]) <==> KeptChild(p, up, names[..k]) || p == up + [names[k]]
  {
    KeptOneMore(names, k);
    if IsChild(p, up) && p[|p| - 1] == names[k] { assert p == up + [names[k]]; }
    if p == up + [names[k]] { assert p[..|p| - 1] == up; }
  }

  /** One node more. */
  lemma AddedOneMore(t: Tree, up: Path, names: seq<Name>, k: nat, before: seq<FsNode>, nodes: seq<FsNode>, x: FsNode)
    requires k < |names| && Added(t, up, names[..k], before, nodes) && !Skipped(names[k])
    requires forall i :: 0 <= i < k ==> names[i] != names[k]
    requires !Found(before, up + [names[k]])
    requires x.osRelative == up + [names[k]] && x.osRelative in t && x.myIndex == |nodes|
    requires 0 <= x.parentIndex < |before| && before[x.parentIndex].osRelative == up
    ensures Added(t, up, names[..k + 1], before, nodes + [x])
  {
    KeptIsSome(names[..k], names[k]);
    IsChildOf(up, names[k]);
    hide Linked, Kept, Found, Skipped, IsChild;
    assert !KeptChild(x.osRelative, up, names[..k]);
    hide KeptChild;
    assert !Found(nodes, x.osRelative);
    LinkedOneMore(nodes, x);
    forall p
      ensures Found(nodes + [x], p) <==> Found(before, p) || KeptChild(p, up, names[..k + 1])
    {
      FoundOneMore(nodes, x, p);
      ChildOneMore(up, names, k, p);
    }
  }

  lemma AddedNoMore(t: Tree, up: Path, names: seq<Name>, k: nat, before: seq<FsNode>, nodes: seq<FsNode>)
    requires k < |names| && Added(t, up, names[..k], before, nodes) && Skipped(names[k])
    ensures Added(t, up, names[..k + 1], before, nodes)
  {
    hide Found, Linked, Kept, IsChild;
    KeptOneMore(names, k);
    assert Kept(names[..k]) + [] == Kept(names[..k]);
  }

  lemma ExtendedNone(t: Tree, up: Path, nodes: seq<FsNode>, queue: seq<FsNode>)
    requires Linked(nodes)
    ensures Extended(t, up, [], nodes, queue, nodes, queue, [])
  {
  }

  lemma ExtendedNoMore(t: Tree, up: Path, names: seq<Name>, k: nat, before: seq<FsNode>, waiting: seq<FsNode>,
                       nodes: seq<FsNode>, queue: seq<FsNode>, added: seq<FsNode>)
    requires k < |names| && Extended(t, up, names[..k], before, waiting, nodes, queue, added) && Skipped(names[k])
    ensures Extended(t, up, names[..k + 1], before, waiting, nodes, queue, added)
  {
    hide Added;
    AddedNoMore(t, up, names, k, before, nodes);
  }

  lemma IsChildOf(up: Path, n: Name)
    ensures IsChild(up + [n], up)
  {
  }

  /** The children named in part have been added, and queued if they are directories. */
  ghost predicate Extended(t: Tree, up: Path, part: seq<Name>, before: seq<FsNode>, waiting: seq<FsNode>,
                           nodes: seq<FsNode>, queue: seq<FsNode>, added: seq<FsNode>) {
    && Added(t, up, part, before, nodes)
    && nodes == before + added
    && queue == waiting + Dirs(t, added)
  }

  /** The next child can be added. */
  ghost predicate Addable(up: Path, names: seq<Name>, before: seq<FsNode>) {
    && (forall i, j :: 0 <= i < j < |names| ==> names[i] != names[j])
    && (forall i :: 0 <= i < |names| ==> !Found(before, up + [names[i]]))
  }

  /** Only directories are queued. */
  function Queued(t: Tree, queue: seq<FsNode>, x: FsNode): seq<FsNode> {
    if IsDir(t, x.osRelative) then queue + [x] else queue
  }

  lemma ExtendedOneMore(t: Tree, up: Path, names: seq<Name>, k: nat, before: seq<FsNode>, waiting: seq<FsNode>,
                        nodes: seq<FsNode>, queue: seq<FsNode>, added: seq<FsNode>, x: FsNode)
    requires k < |names| && Extended(t, up, names[..k], before, waiting, nodes, queue, added)
    requires Addable(up, names, before) && !Skipped(names[k])
    requires x.osRelative == up + [names[k]] && x.osRelative in t && x.myIndex == |nodes|
    requires 0 <= x.parentIndex < |before| && before[x.parentIndex].osRelative == up
    ensures Extended(t, up, names[..k + 1], before, waiting, nodes + [x],
                     Queued(t, queue, x), added + [x])
  {
    hide Added, Dirs, Found;
    DirsOneMore(t, added, x);
    assert nodes + [x] == before + (added + [x]);
    assert queue + [x] == waiting + (Dirs(t, added) + [x]);
    AddedOneMore(t, up, names, k, before, nodes, x);
  }

  /** Adds a node for the child names[k]; false when it cannot be looked at. */
  method AddChild(t: Tree, current: FsNode, name: Name, nodes: seq<FsNode>, queue: seq<FsNode>)
    returns (ok: bool, otherNode: FsNode, nodes': seq<FsNode>, queue': seq<FsNode>)
    ensures fresh(otherNode) && !otherNode.isRequiredAncestor && otherNode.osRelative == current.osRelative + [name]
    ensures otherNode.myIndex == |nodes| && otherNode.parentIndex == current.myIndex
    ensures ok == (otherNode.osRelative in t)
    ensures ok ==> nodes' == nodes + [otherNode] && queue' == Queued(t, queue, otherNode)
  {
    nodes', queue' := nodes, queue;
    otherNode := new FsNode(current.osRelative + [name], |nodes|, current.myIndex, false);
    ok := otherNode.osRelative in t;
    if ok {
      nodes' := nodes + [otherNode];
      if t[otherNode.osRelative].Dir? {
        queue' := queue + [otherNode];
      }
    }
  }

  ghost predicate Unmarked(nodes: seq<FsNode>)
    reads nodes
  {
    forall i :: 0 <= i < |nodes| ==> !nodes[i].isRequiredAncestor
  }

  /** Adds a node for each child, and queues the directories; false when one cannot be looked at. */
  method AddChildren(t: Tree, current: FsNode, names: seq<Name>, before: seq<FsNode>, waiting: seq<FsNode>)
    returns (ok: bool, nodes: seq<FsNode>, queue: seq<FsNode>, ghost added: seq<FsNode>)
    requires Linked(before) && current.myIndex < |before| && before[current.myIndex] == current
    requires Addable(current.osRelative, names, before)
    ensures ok ==> Extended(t, current.osRelative, names, before, waiting, nodes, queue, added)
    ensures fresh(added) && Unmarked(added)
    ensures !ok ==> exists n :: n in names && !Skipped(n) && current.osRelative + [n] !in t
  {
    ghost var up := current.osRelative;
    nodes, queue, added, ok := before, waiting, [], true;
    assert names[..0] == [];
    ExtendedNone(t, up, before, waiting);
    hide Linked, Skipped, Extended, Addable, Queued;
    for k := 0 to |names|
      invariant Extended(t, up, names[..k], before, waiting, nodes, queue, added) && ok
      invariant fresh(added) && Unmarked(added)
    {
      if Skipped(names[k]) {
        ExtendedNoMore(t, up, names, k, before, waiting, nodes, queue, added);
        continue;
      }
      var otherNode, nodes', queue';
      ok, otherNode, nodes', queue' := AddChild(t, current, names[k], nodes, queue);
      if !ok {
        assert names[k] in names;
        return;
      }
      ExtendedOneMore(t, up, names, k, before, waiting, nodes, queue, added, otherNode);
      nodes, queue, added := nodes', queue', added + [otherNode];
    }
    assert names[..|names|] == names;
  }

  /* ----- What holds between two steps of the walk ----- */

  ghost predicate Awaits(queue: seq<FsNode>, p: Path) {
    exists i :: 0 <= i < |queue| && queue[i].osRelative == p
  }

  /** The queue holds distinct directories that were found and not seen into yet. */
  ghost predicate QueueOk(t: Tree, nodes: seq<FsNode>, queue: seq<FsNode>, seen: set<Path>) {
    && (forall i :: 0 <= i < |queue| ==>
          && queue[i].myIndex < |nodes| && nodes[queue[i].myIndex] == queue[i]
          && IsDir(t, queue[i].osRelative) && queue[i].osRelative !in seen)
    && (forall i, j :: 0 <= i < j < |queue| ==> queue[i].osRelative != queue[j].osRelative)
  }

  /** The walk came through the directory above p. */
  ghost predicate Opened(want: map<Path, Sum>, seen: set<Path>, p: Path) {
    p == [] || (p[..|p| - 1] in seen && p[..|p| - 1] !in want)
  }

  /** All that was found is visited, and has been seen into or is queued if it is a directory. */
  ghost predicate NodesOk(t: Tree, want: map<Path, Sum>, nodes: seq<FsNode>, queue: seq<FsNode>, seen: set<Path>) {
    forall p :: Found(nodes, p) ==>
      && Visited(t, want, p) && p in t
      && (IsDir(t, p) ==> p in seen || Awaits(queue, p))
      && Opened(want, seen, p)
  }

  ghost predicate ChildrenFound(t: Tree, nodes: seq<FsNode>, p: Path) {
    p in t && t[p].Dir? && t[p].names.Some? && forall n :: n in ChildNames(t, p) ==> Found(nodes, p + [n])
  }

  /** All that was seen into was found, and unless it is a project its children are. */
  ghost predicate SeenOk(t: Tree, want: map<Path, Sum>, nodes: seq<FsNode>, seen: set<Path>) {
    forall p :: p in seen ==>
      && Found(nodes, p) && IsDir(t, p)
      && (p !in want ==> ChildrenFound(t, nodes, p))
  }

  ghost predicate Walking(t: Tree, want: map<Path, Sum>, nodes: seq<FsNode>, queue: seq<FsNode>, seen: set<Path>) {
    && Linked(nodes) && IsDir(t, []) && QueueOk(t, nodes, queue, seen)
    && NodesOk(t, want, nodes, queue, seen) && SeenOk(t, want, nodes, seen)
  }

  /** A project that has been seen lies at or below p. */
  ghost predicate Needed(want: map<Path, Sum>, seen: set<Path>, p: Path) {
    p == [] || exists q :: q in seen && q in want && p <= q
  }

  ghost predicate Flagged(want: map<Path, Sum>, nodes: seq<FsNode>, seen: set<Path>)
    reads nodes
  {
    forall i :: 0 <= i < |nodes| ==> (nodes[i].isRequiredAncestor <==> Needed(want, seen, nodes[i].osRelative))
  }

  ghost predicate StatusSoFar(want: map<Path, Sum>, digest: Path -> Option<Sum>, seen: set<Path>,
                              status: map<Path, VendorStatus>) {
    && status.Keys == want.Keys
    && (forall p :: p in want ==> status[p] == if p in seen then DigestStatus(want[p], digest(p)) else NotInTree)
    && (forall p :: p in want && p in seen && digest(p).None? ==> want[p] == [])
  }

  lemma {:induction false} FoundAbove(nodes: seq<FsNode>, p: Path, q: Path)
    requires Linked(nodes) && Found(nodes, q) && p <= q
    ensures Found(nodes, p)
    decreases |q|
  {
    if p != q {
      var i :| 0 <= i < |nodes| && nodes[i].osRelative == q;
      var up := nodes[nodes[i].parentIndex].osRelative;
      assert up == q[..|q| - 1] && p <= up;
      assert Found(nodes, up);
      FoundAbove(nodes, p, up);
    } else {
      assert p == q;
    }
  }

  lemma DirsAreSome(t: Tree, nodes: seq<FsNode>)
    ensures var ds := Dirs(t, nodes);
      && (forall i :: 0 <= i < |ds| ==> ds[i] in nodes && IsDir(t, ds[i].osRelative))
      && (forall i :: 0 <= i < |nodes| && IsDir(t, nodes[i].osRelative) ==> nodes[i] in ds)
  {
    if nodes != [] {
      var n := |nodes| - 1;
      DirsAreSome(t, nodes[..n]);
      assert nodes == nodes[..n] + [nodes[n]];
    }
  }

  lemma DirsAreApart(t: Tree, nodes: seq<FsNode>)
    requires forall i, j :: 0 <= i < j < |nodes| ==> nodes[i].osRelative != nodes[j].osRelative
    ensures var ds := Dirs(t, nodes); forall i, j :: 0 <= i < j < |ds| ==> ds[i].osRelative != ds[j].osRelative
  {
    if nodes != [] {
      var n := |nodes| - 1;
      var x, ds := nodes[n], Dirs(t, nodes[..n]);
      DirsAreApart(t, nodes[..n]);
      DirsAreSome(t, nodes[..n]);
      forall i | 0 <= i < |ds| ensures ds[i].osRelative != x.osRelative {
        var j :| 0 <= j < n && nodes[..n][j] == ds[i];
        assert nodes[j] == ds[i];
      }
    }
  }

  /** Nothing below a directory that has not been seen into has been found. */
  lemma UnseenIsAddable(t: Tree, want: map<Path, Sum>, nodes: seq<FsNode>, queue: seq<FsNode>, seen: set<Path>,
                        up: Path, names: seq<Name>)
    requires NodesOk(t, want, nodes, queue, seen) && up !in seen
    requires forall i, j :: 0 <= i < j < |names| ==> names[i] != names[j]
    ensures Addable(up, names, nodes)
  {
    forall i | 0 <= i < |names| ensures !Found(nodes, up + [names[i]]) {
      var p := up + [names[i]];
      assert p[..|p| - 1] == up;
    }
  }

  /* ----- The steps of the walk ----- */

  lemma WalkStarts(t: Tree, want: map<Path, Sum>, x: FsNode)
    requires IsDir(t, []) && x.osRelative == [] && x.myIndex == 0 && x.parentIndex == -1
    ensures Walking(t, want, [x], [x], {})
  {
    assert [x][0].osRelative == [];
    assert Awaits([x], []);
  }

  lemma PopKeepsQueue(t: Tree, nodes: seq<FsNode>, queue: seq<FsNode>, seen: set<Path>)
    requires queue != [] && QueueOk(t, nodes, queue, seen)
    ensures var n := |queue| - 1;
      && QueueOk(t, nodes, queue[..n], seen + {queue[n].osRelative})
      && forall p :: Awaits(queue, p) <==> Awaits(queue[..n], p) || p == queue[n].osRelative
  {
    var n := |queue| - 1;
    forall p
      ensures Awaits(queue, p) <==> Awaits(queue[..n], p) || p == queue[n].osRelative
    {
      if i :| 0 <= i < |queue| && queue[i].osRelative == p {
        if i < n { assert queue[..n][i].osRelative == p; }
      }
    }
  }

  lemma OpenedMore(want: map<Path, Sum>, seen: set<Path>, x: Path)
    ensures forall p :: Opened(want, seen, p) ==> Opened(want, seen + {x}, p)
  {
  }

  lemma ProjectStep(t: Tree, want: map<Path, Sum>, nodes: seq<FsNode>, queue: seq<FsNode>, seen: set<Path>)
    requires queue != [] && Walking(t, want, nodes, queue, seen) && queue[|queue| - 1].osRelative in want
    ensures var n := |queue| - 1;
      Walking(t, want, nodes, queue[..n], seen + {queue[n].osRelative})
  {
    hide Linked, QueueOk, Visited, Awaits, Found, IsDir, ChildrenFound, Opened;
    var x := queue[|queue| - 1].osRelative;
    CurrentIsFound(t, want, nodes, queue, seen);
    PopKeepsQueue(t, nodes, queue, seen);
    OpenedMore(want, seen, x);
  }

  /** What has been added is new. */
  lemma AddedAreNew(t: Tree, up: Path, names: seq<Name>, nodes: seq<FsNode>, queue: seq<FsNode>,
                    nodes': seq<FsNode>, queue': seq<FsNode>, added: seq<FsNode>)
    requires Linked(nodes) && Extended(t, up, names, nodes, queue, nodes', queue', added)
    ensures forall i :: 0 <= i < |added| ==>
      && added[i].myIndex < |nodes'| && nodes'[added[i].myIndex] == added[i]
      && !Found(nodes, added[i].osRelative) && added[i].osRelative in t
      && IsChild(added[i].osRelative, up)
    ensures forall i, j :: 0 <= i < j < |added| ==> added[i].osRelative != added[j].osRelative
    ensures forall p :: KeptChild(p, up, names) && !Found(nodes, p) ==> Found(added, p)
    ensures forall p :: Found(added, p) ==> KeptChild(p, up, names)
  {
    hide KeptChild, Dirs;
    assert forall i :: 0 <= i < |added| ==> nodes'[|nodes| + i] == added[i];
    assert forall i :: 0 <= i < |nodes| ==> nodes'[i] == nodes[i];
    forall i, j | 0 <= i < |added| && 0 <= j < |nodes| ensures nodes[j].osRelative != added[i].osRelative {
      assert nodes'[j].osRelative != nodes'[|nodes| + i].osRelative;
    }
    forall p | KeptChild(p, up, names) && !Found(nodes, p) ensures Found(added, p) {
      assert Found(nodes', p);
      assert forall j :: 0 <= j < |nodes| ==> nodes[j].osRelative != p;
      var j :| 0 <= j < |nodes'| && nodes'[j].osRelative == p;
      assert added[j - |nodes|].osRelative == p;
    }
    forall p | Found(added, p) ensures KeptChild(p, up, names) {
      var j :| 0 <= j < |added| && added[j].osRelative == p;
      assert nodes'[|nodes| + j].osRelative == p;
      assert Found(nodes', p) && !Found(nodes, p);
    }
  }

  lemma KeptIsNew(up: Path, names: seq<Name>, nodes: seq<FsNode>, p: Path)
    requires Addable(up, names, nodes) && KeptChild(p, up, names)
    ensures !Found(nodes, p)
  {
    KeptIsSome(names, p[|p| - 1]);
    var i :| 0 <= i < |names| && names[i] == p[|p| - 1];
    assert p == up + [names[i]];
  }

  lemma ChildrenAreQueued(t: Tree, up: Path, names: seq<Name>, nodes: seq<FsNode>, queue: seq<FsNode>, seen: set<Path>,
                          nodes': seq<FsNode>, queue': seq<FsNode>, added: seq<FsNode>)
    requires Linked(nodes) && QueueOk(t, nodes, queue, seen) && Addable(up, names, nodes)
    requires Extended(t, up, names, nodes, queue, nodes', queue', added)
    requires forall p :: p in seen ==> Found(nodes, p)
    ensures QueueOk(t, nodes', queue', seen)
  {
    assert queue' == queue + Dirs(t, added);
    AddedAreNew(t, up, names, nodes, queue, nodes', queue', added);
    DirsAreSome(t, added);
    DirsAreApart(t, added);
    assert |nodes| <= |nodes'| && forall i :: 0 <= i < |nodes| ==> nodes'[i] == nodes[i];
    forall i, j | 0 <= i < |queue| && 0 <= j < |added| ensures queue[i].osRelative != added[j].osRelative {
      assert Found(nodes, queue[i].osRelative);
    }
    var ds := Dirs(t, added);
    assert forall i :: 0 <= i < |ds| ==> exists j :: 0 <= j < |added| && ds[i] == added[j];
    hide Extended, Addable, Linked, Dirs, KeptChild, IsDir, IsChild, Found;
    assert queue' == queue + ds;
  }

  lemma ChildrenAwait(t: Tree, up: Path, names: seq<Name>, nodes: seq<FsNode>, queue: seq<FsNode>,
                      nodes': seq<FsNode>, queue': seq<FsNode>, added: seq<FsNode>, p: Path)
    requires Linked(nodes) && Addable(up, names, nodes) && Extended(t, up, names, nodes, queue, nodes', queue', added)
    ensures Awaits(queue, p) ==> Awaits(queue', p)
    ensures KeptChild(p, up, names) && IsDir(t, p) ==> Awaits(queue', p)
  {
    if i :| 0 <= i < |queue| && queue[i].osRelative == p { assert queue'[i].osRelative == p; }
    if KeptChild(p, up, names) && IsDir(t, p) {
      AddedAreNew(t, up, names, nodes, queue, nodes', queue', added);
      KeptIsNew(up, names, nodes, p);
      DirsAreSome(t, added);
      var j :| 0 <= j < |added| && added[j].osRelative == p;
      var k :| 0 <= k < |Dirs(t, added)| && Dirs(t, added)[k] == added[j];
      assert queue'[|queue| + k].osRelative == p;
    }
  }

  lemma ChildrenStep(t: Tree, want: map<Path, Sum>, nodes: seq<FsNode>, queue: seq<FsNode>, seen: set<Path>,
                     names: seq<Name>,
                     nodes': seq<FsNode>, queue': seq<FsNode>, added: seq<FsNode>)
    requires queue != [] && Walking(t, want, nodes, queue, seen)
    requires var up := queue[|queue| - 1].osRelative;
      up !in want && up in t && t[up] == Dir(Some(names)) && Addable(up, names, nodes)
      && Extended(t, up, names, nodes, queue[..|queue| - 1], nodes', queue', added)
    ensures Walking(t, want, nodes', queue', seen + {queue[|queue| - 1].osRelative})
  {
    hide Linked, QueueOk, Awaits, Addable, Found, Opened, SeenOk, KeptChild, Visited, Extended;
    var n := |queue| - 1;
    var up, rest := queue[n].osRelative, queue[..n];
    var seen' := seen + {up};
    PopKeepsQueue(t, nodes, queue, seen);
    CurrentIsFound(t, want, nodes, queue, seen);
    SeenAreFound(t, want, nodes, seen);
    ChildrenAreQueued(t, up, names, nodes, rest, seen', nodes', queue', added);
    forall p
      ensures Awaits(rest, p) ==> Awaits(queue', p)
      ensures KeptChild(p, up, names) && IsDir(t, p) ==> Awaits(queue', p)
    {
      ChildrenAwait(t, up, names, nodes, rest, nodes', queue', added, p);
    }
    ChildrenAreVisited(t, want, up, names, nodes, rest, nodes', queue', added);
    OpenedMore(want, seen, up);
    ChildrenAreOpened(want, seen, up, names);
    ChildrenAreSeen(t, want, nodes, seen, up, names, nodes');
  }

  lemma SeenAreFound(t: Tree, want: map<Path, Sum>, nodes: seq<FsNode>, seen: set<Path>)
    requires SeenOk(t, want, nodes, seen)
    ensures forall p :: p in seen ==> Found(nodes, p)
  {
  }

  lemma ChildrenAreOpened(want: map<Path, Sum>, seen: set<Path>, up: Path, names: seq<Name>)
    requires up !in want
    ensures forall p :: KeptChild(p, up, names) ==> Opened(want, seen + {up}, p)
  {
  }

  lemma ChildrenAreSeen(t: Tree, want: map<Path, Sum>, nodes: seq<FsNode>, seen: set<Path>, up: Path,
                        names: seq<Name>, nodes': seq<FsNode>)
    requires SeenOk(t, want, nodes, seen) && up in t && t[up] == Dir(Some(names))
    requires forall p :: Found(nodes', p) <==> Found(nodes, p) || KeptChild(p, up, names)
    requires Found(nodes, up)
    ensures SeenOk(t, want, nodes', seen + {up})
  {
    forall p | ChildrenFound(t, nodes, p) ensures ChildrenFound(t, nodes', p) {}
    hide Found, Kept;
    forall n | n in ChildNames(t, up) ensures Found(nodes', up + [n]) {
      IsChildOf(up, n);
      assert KeptChild(up + [n], up, names);
    }
  }

  lemma ChildrenAreVisited(t: Tree, want: map<Path, Sum>, up: Path, names: seq<Name>, nodes: seq<FsNode>,
                           queue: seq<FsNode>,
                           nodes': seq<FsNode>, queue': seq<FsNode>, added: seq<FsNode>)
    requires Linked(nodes) && Extended(t, up, names, nodes, queue, nodes', queue', added)
    requires Visited(t, want, up) && up !in want && up in t && t[up] == Dir(Some(names))
    ensures forall p :: Found(nodes', p) <==> Found(nodes, p) || KeptChild(p, up, names)
    ensures forall p :: KeptChild(p, up, names) ==> p[..|p| - 1] == up && Visited(t, want, p)
    ensures forall p :: Found(nodes', p) && !Found(nodes, p) ==> p in t
    ensures Linked(nodes')
  {
    AddedAreNew(t, up, names, nodes, queue, nodes', queue', added);
    hide Kept, Linked;
    forall p | Found(nodes', p) && !Found(nodes, p) ensures p in t {
      assert forall i :: 0 <= i < |nodes| ==> nodes[i].osRelative != p;
      var i :| 0 <= i < |nodes'| && nodes'[i].osRelative == p;
    }
  }

  lemma ChildIsFound(t: Tree, nodes: seq<FsNode>, p: Path)
    requires p != [] && ChildrenFound(t, nodes, p[..|p| - 1]) && p[|p| - 1] in ChildNames(t, p[..|p| - 1])
    ensures Found(nodes, p)
  {
    assert p == p[..|p| - 1] + [p[|p| - 1]];
  }

  /** When the queue is empty, what was found is exactly what is visited. */
  lemma {:induction false} WalkEnds(t: Tree, want: map<Path, Sum>, nodes: seq<FsNode>, seen: set<Path>, p: Path)
    requires Walking(t, want, nodes, [], seen)
    ensures Found(nodes, p) <==> Visited(t, want, p)
    decreases |p|
  {
    hide Opened, ChildrenFound, QueueOk;
    if p == [] {
      assert nodes[0].osRelative == [];
    } else if Visited(t, want, p) {
      var up := p[..|p| - 1];
      WalkEnds(t, want, nodes, seen, up);
      assert !Awaits([], up);
      assert ChildrenFound(t, nodes, up);
      ChildIsFound(t, nodes, p);
    }
  }

  lemma ReachedIsSeen(t: Tree, want: map<Path, Sum>, nodes: seq<FsNode>, seen: set<Path>)
    requires Walking(t, want, nodes, [], seen)
    ensures forall p :: Reached(t, want, p) <==> p in want && p in seen
    ensures forall p :: Required(t, want, p) <==> Needed(want, seen, p)
  {
    forall p ensures Reached(t, want, p) <==> p in want && p in seen {
      WalkEnds(t, want, nodes, seen, p);
      assert !Awaits([], p);
    }
    hide Reached, Walking;
    forall p ensures Required(t, want, p) <==> Needed(want, seen, p) {
      if p != [] && Required(t, want, p) { var q :| Reached(t, want, q) && p <= q; }
      if p != [] && Needed(want, seen, p) { var q :| q in seen && q in want && p <= q; assert Reached(t, want, q); }
    }
  }

  lemma NeededMore(want: map<Path, Sum>, seen: set<Path>, x: Path, p: Path)
    ensures Needed(want, seen + {x}, p) <==> Needed(want, seen, p) || (x in want && p <= x)
  {
    if q :| q in seen && q in want && p <= q { assert q in seen + {x}; }
    if x in want && p <= x { assert x in seen + {x}; }
  }

  lemma FlaggedWithChildren(t: Tree, want: map<Path, Sum>, nodes: seq<FsNode>, queue: seq<FsNode>, seen: set<Path>,
                            up: Path, names: seq<Name>,
                            rest: seq<FsNode>, nodes': seq<FsNode>, queue': seq<FsNode>, added: seq<FsNode>)
    requires Walking(t, want, nodes, queue, seen) && Flagged(want, nodes, seen)
    requires up !in want && Addable(up, names, nodes)
    requires Extended(t, up, names, nodes, rest, nodes', queue', added) && Unmarked(added)
    ensures Flagged(want, nodes', seen + {up})
  {
    AddedAreNew(t, up, names, nodes, rest, nodes', queue', added);
    hide QueueOk, NodesOk, Added, Dirs, Addable;
    forall i | 0 <= i < |nodes'|
      ensures nodes'[i].isRequiredAncestor <==> Needed(want, seen + {up}, nodes'[i].osRelative)
    {
      NeededMore(want, seen, up, nodes'[i].osRelative);
      if i >= |nodes| { NewIsNotNeeded(t, want, nodes, seen, nodes'[i].osRelative); }
    }
  }

  lemma NewIsNotNeeded(t: Tree, want: map<Path, Sum>, nodes: seq<FsNode>, seen: set<Path>, p: Path)
    requires Linked(nodes) && SeenOk(t, want, nodes, seen) && p != [] && !Found(nodes, p)
    ensures !Needed(want, seen, p)
  {
    if q :| q in seen && q in want && p <= q {
      FoundAbove(nodes, p, q);
      assert false;
    }
  }

  /* ----- The report ----- */

  ghost predicate StrayNode(nodes: seq<FsNode>, i: nat)
    requires Linked(nodes)
    reads nodes
  {
    0 < i < |nodes| && !nodes[i].isRequiredAncestor && nodes[nodes[i].parentIndex].isRequiredAncestor
  }

  ghost predicate StrayPath(nodes: seq<FsNode>, p: Path, from: nat)
    requires Linked(nodes)
    reads nodes
  {
    exists i :: from <= i < |nodes| && nodes[i].osRelative == p && StrayNode(nodes, i)
  }

  /** The status of everything, with what has been found stray from the node at from on. */
  ghost predicate Overridden(nodes: seq<FsNode>, from: nat, base: map<Path, VendorStatus>,
                             status: map<Path, VendorStatus>)
    requires Linked(nodes)
    reads nodes
  {
    && (forall p :: p in status <==> p in base || StrayPath(nodes, p, from))
    && (forall p :: p in status ==>
          if StrayPath(nodes, p, from) then status[p] == NotInLock else p in base && status[p] == base[p])
  }

  lemma StrayPathEarlier(nodes: seq<FsNode>, from: nat, p: Path)
    requires Linked(nodes) && from < |nodes|
    ensures StrayPath(nodes, p, from) <==>
      StrayPath(nodes, p, from + 1) || (p == nodes[from].osRelative && StrayNode(nodes, from))
  {
  }

  lemma OverriddenEarlier(nodes: seq<FsNode>, i: nat, base: map<Path, VendorStatus>, status: map<Path, VendorStatus>)
    requires Linked(nodes) && 0 < i < |nodes| && Overridden(nodes, i + 1, base, status)
    ensures Overridden(nodes, i, base, if StrayNode(nodes, i) then status[nodes[i].osRelative := NotInLock] else status)
  {
    forall p { StrayPathEarlier(nodes, i, p); }
    hide StrayPath, StrayNode;
  }

  /** Goes through the nodes from the last to the first, without the root. */
  method ReportStrays(all: seq<FsNode>, base: map<Path, VendorStatus>) returns (slashStatus: map<Path, VendorStatus>)
    requires Linked(all)
    ensures Overridden(all, 1, base, slashStatus)
  {
    slashStatus := base;
    var nodes := all;
    assert all == all[..|all|];
    while |nodes| > 1
      invariant 1 <= |nodes| <= |all| && nodes == all[..|nodes|]
      invariant Overridden(all, |nodes|, base, slashStatus)
    {
      var ln1 := |nodes| - 1;
      ParentIsBefore(all, ln1);
      OverriddenEarlier(all, ln1, base, slashStatus);
      hide Linked, Overridden;
      var currentNode := nodes[ln1];
      nodes := nodes[..ln1];
      if !currentNode.isRequiredAncestor && nodes[currentNode.parentIndex].isRequiredAncestor {
        slashStatus := slashStatus[currentNode.osRelative := NotInLock];
      }
    }
  }

  lemma ParentIsBefore(nodes: seq<FsNode>, i: nat)
    requires Linked(nodes) && 0 < i < |nodes|
    ensures 0 <= nodes[i].parentIndex < i
  {
  }

  lemma StrayPathIsStray(t: Tree, want: map<Path, Sum>, nodes: seq<FsNode>, seen: set<Path>, p: Path)
    requires Walking(t, want, nodes, [], seen) && Flagged(want, nodes, seen)
    ensures StrayPath(nodes, p, 1) <==> Stray(t, want, p)
  {
    ReachedIsSeen(t, want, nodes, seen);
    WalkEnds(t, want, nodes, seen, p);
    hide QueueOk, NodesOk, SeenOk, Required, Needed, Visited;
    if i :| 1 <= i < |nodes| && nodes[i].osRelative == p && StrayNode(nodes, i) {
      assert Found(nodes, p);
    }
    if Stray(t, want, p) {
      var i :| 0 <= i < |nodes| && nodes[i].osRelative == p;
      assert StrayNode(nodes, i);
    }
  }

  lemma ReportIsRight(t: Tree, want: map<Path, Sum>, digest: Path -> Option<Sum>, nodes: seq<FsNode>, seen: set<Path>,
                      base: map<Path, VendorStatus>, status: map<Path, VendorStatus>)
    requires WalkState(t, want, digest, nodes, [], seen, base) && Overridden(nodes, 1, base, status)
    ensures Report(t, want, digest, status) && !Faulty(t, want, digest)
  {
    hide Walking, Flagged, StrayPath, Stray, Reached, Required, Needed, Faulty, Linked, DigestStatus;
    ReachedIsSeen(t, want, nodes, seen);
    IsLinked(t, want, digest, nodes, [], seen, base);
    forall p ensures StrayPath(nodes, p, 1) <==> Stray(t, want, p) { StrayPathIsStray(t, want, nodes, seen, p); }
    WalkIsFaultless(t, want, digest, nodes, seen, base);
  }

  lemma WalkIsFaultless(t: Tree, want: map<Path, Sum>, digest: Path -> Option<Sum>, nodes: seq<FsNode>,
                        seen: set<Path>, base: map<Path, VendorStatus>)
    requires WalkState(t, want, digest, nodes, [], seen, base)
    ensures !Faulty(t, want, digest)
  {
    forall p ensures !FaultAt(t, want, digest, p) {
      WalkEnds(t, want, nodes, seen, p);
      assert !Awaits([], p);
    }
  }

  /* ----- All of it ----- */

  lemma CurrentIsFound(t: Tree, want: map<Path, Sum>, nodes: seq<FsNode>, queue: seq<FsNode>, seen: set<Path>)
    requires queue != [] && Walking(t, want, nodes, queue, seen)
    ensures var x := queue[|queue| - 1];
      && x.myIndex < |nodes| && nodes[x.myIndex] == x && IsDir(t, x.osRelative) && x.osRelative !in seen
      && Linked(nodes) && Found(nodes, x.osRelative)
  {
  }

  lemma IsLinked(t: Tree, want: map<Path, Sum>, digest: Path -> Option<Sum>, nodes: seq<FsNode>, queue: seq<FsNode>,
                 seen: set<Path>, status: map<Path, VendorStatus>)
    requires WalkState(t, want, digest, nodes, queue, seen, status)
    ensures Linked(nodes)
  {
  }

  lemma StatusStep(want: map<Path, Sum>, digest: Path -> Option<Sum>, seen: set<Path>,
                   status: map<Path, VendorStatus>, x: Path)
    requires StatusSoFar(want, digest, seen, status)
    ensures x in want && (digest(x).Some? || want[x] == []) ==>
      StatusSoFar(want, digest, seen + {x}, status[x := DigestStatus(want[x], digest(x))])
    ensures x !in want ==> StatusSoFar(want, digest, seen + {x}, status)
  {
  }

  lemma CurrentIsVisited(t: Tree, want: map<Path, Sum>, digest: Path -> Option<Sum>, nodes: seq<FsNode>,
                         queue: seq<FsNode>, seen: set<Path>)
    requires queue != [] && Walking(t, want, nodes, queue, seen)
    ensures var p := queue[|queue| - 1].osRelative;
      && p in t && t[p].Dir?
      && (p in want && want[p] != [] && digest(p).None? ==> Faulty(t, want, digest))
      && (p !in want && t[p].names.None? ==> Faulty(t, want, digest))
      && (p !in want && t[p].names.Some? && (exists n :: n in t[p].names.value && !Skipped(n) && p + [n] !in t) ==>
            Faulty(t, want, digest))
  {
    var p := queue[|queue| - 1].osRelative;
    assert Found(nodes, p);
    assert Visited(t, want, p);
    hide Linked, QueueOk, NodesOk, SeenOk, Found, Skipped;
    if FaultAt(t, want, digest, p) {
      assert Faulty(t, want, digest);
    }
    if n :| p !in want && t[p].names.Some? && n in t[p].names.value && !Skipped(n) && p + [n] !in t {
      KeptIsSome(t[p].names.value, n);
      assert (p + [n])[..|p|] == p;
      assert FaultAt(t, want, digest, p + [n]);
    }
  }

  /** Marks a project and everything above it. */
  method MarkProject(nodes: seq<FsNode>, current: FsNode, ghost want: map<Path, Sum>, ghost seen: set<Path>)
    requires Linked(nodes) && current.myIndex < |nodes| && nodes[current.myIndex] == current
    requires current.osRelative in want && Flagged(want, nodes, seen)
    modifies nodes
    ensures Flagged(want, nodes, seen + {current.osRelative})
  {
    MarkRequired(nodes, current.myIndex);
    hide Linked, Needed;
    forall p { NeededMore(want, seen, current.osRelative, p); }
  }

  /** The status of a project that was found; None when its digest cannot be computed. */
  method CheckProject(wanted: Sum, found: Option<Sum>) returns (ls: Option<VendorStatus>)
    ensures ls == if wanted != [] && found.None? then None else Some(DigestStatus(wanted, found))
  {
    ls := Some(EmptyDigestInLock);
    if wanted != [] {
      if found.None? {
        return None;
      }
      ls := Some(if found.value == wanted then NoMismatch else DigestMismatchInLock);
    }
  }

  ghost predicate WalkState(t: Tree, want: map<Path, Sum>, digest: Path -> Option<Sum>, nodes: seq<FsNode>,
                            queue: seq<FsNode>,
                            seen: set<Path>, status: map<Path, VendorStatus>)
    reads nodes
  {
    && Walking(t, want, nodes, queue, seen) && Flagged(want, nodes, seen)
    && StatusSoFar(want, digest, seen, status) && seen <= t.Keys
  }

  lemma WalkStateStarts(t: Tree, want: map<Path, Sum>, digest: Path -> Option<Sum>, x: FsNode,
                        status: map<Path, VendorStatus>)
    requires IsDir(t, []) && x.osRelative == [] && x.myIndex == 0 && x.parentIndex == -1 && x.isRequiredAncestor
    requires status == map p | p in want :: NotInTree
    ensures WalkState(t, want, digest, [x], [x], {}, status)
  {
    WalkStarts(t, want, x);
  }

  /** Pops a directory from the queue: a project is checked, any other directory is looked into. */
  method VisitNext(t: Tree, want: map<Path, Sum>, digest: Path -> Option<Sum>, nodes: seq<FsNode>, queue: seq<FsNode>,
                   status: map<Path, VendorStatus>, ghost seen: set<Path>)
    returns (ok: bool, nodes': seq<FsNode>, queue': seq<FsNode>, status': map<Path, VendorStatus>)
    requires WellFormed(t) && WalkState(t, want, digest, nodes, queue, seen, status) && queue != []
    modifies nodes
    ensures var path := queue[|queue| - 1].osRelative;
      path in t && path !in seen && (ok ==> WalkState(t, want, digest, nodes', queue', seen + {path}, status'))
    ensures ok ==> nodes <= nodes' && fresh(nodes'[|nodes|..])
    ensures !ok ==> Faulty(t, want, digest)
  {
    CurrentIsVisited(t, want, digest, nodes, queue, seen);
    hide Faulty, Visited, Walking, Linked, Flagged, StatusSoFar, DigestStatus, WellFormed;
    CurrentIsFound(t, want, nodes, queue, seen);
    var lq1 := |queue| - 1;
    var currentNode := queue[lq1];
    var path := currentNode.osRelative;
    StatusStep(want, digest, seen, status, path);
    ok, nodes', queue', status' := false, nodes, queue, status;
    if path in want {
      var ls := CheckProject(want[path], digest(path));
      if ls.Some? {
        status' := status[path := ls.value];
        ProjectStep(t, want, nodes, queue, seen);
        MarkProject(nodes, currentNode, want, seen);
        ok, queue' := true, queue[..lq1];
      }
    } else if t[path].names.Some? {
      ok, nodes', queue' := ProcessDirectory(t, currentNode, nodes, queue, want, seen);
    }
  }

  datatype Outcome = Verified(status: map<Path, VendorStatus>) | Error

  lemma NoTreeIsFaulty(t: Tree, want: map<Path, Sum>, digest: Path -> Option<Sum>)
    requires !IsDir(t, [])
    ensures Faulty(t, want, digest)
  {
  }

  /** Classifies the nodes of the tree, unless something in it cannot be looked at. */
  method VerifyDepTree(t: Tree, want: map<Path, Sum>, digest: Path -> Option<Sum>) returns (r: Outcome)
    requires WellFormed(t)
    ensures r.Error? <==> Faulty(t, want, digest)
    ensures r.Verified? ==> Report(t, want, digest, r.status)
    ensures r.Verified? ==> forall p :: Reached(t, want, p) ==>
      && p in r.status && (want[p] != [] ==> digest(p).Some?)
      && (r.status[p] == EmptyDigestInLock <==> want[p] == [])
      && (r.status[p] == NoMismatch <==> want[p] != [] && digest(p).value == want[p])
      && (r.status[p] == DigestMismatchInLock <==> want[p] != [] && digest(p).value != want[p])
  {
    hide WalkState, WellFormed, Linked, Overridden, Report, Reached, Faulty;
    if [] !in t || t[[]].Plain? {
      NoTreeIsFaulty(t, want, digest);
      return Error;
    }
    var currentNode := new FsNode([], 0, -1, true);
    var queue, nodes := [currentNode], [currentNode];
    var slashStatus := map p | p in want :: NotInTree;
    ghost var seen: set<Path> := {};
    WalkStateStarts(t, want, digest, currentNode, slashStatus);
    while |queue| > 0
      invariant WalkState(t, want, digest, nodes, queue, seen, slashStatus) && fresh(nodes)
      decreases t.Keys - seen
    {
      ghost var path, before := queue[|queue| - 1].osRelative, nodes;
      var ok;
      ok, nodes, queue, slashStatus := VisitNext(t, want, digest, nodes, queue, slashStatus, seen);
      if !ok {
        return Error;
      }
      assert nodes == before + nodes[|before|..];
      seen := seen + {path};
    }
    assert queue == [];
    IsLinked(t, want, digest, nodes, queue, seen, slashStatus);
    var status := ReportStrays(nodes, slashStatus);
    ReportIsRight(t, want, digest, nodes, seen, slashStatus, status);
    forall p | Reached(t, want, p)
      ensures p in want && p in status && (want[p] != [] ==> digest(p).Some?)
      ensures status[p] == EmptyDigestInLock <==> want[p] == []
      ensures status[p] == NoMismatch <==> want[p] != [] && digest(p).value == want[p]
      ensures status[p] == DigestMismatchInLock <==> want[p] != [] && digest(p).value != want[p]
    {
      ProjectStatusIs(t, want, digest, status, p);
    }
    return Verified(status);
  }

  /** Adds what is in the current directory, the last of the queue. */
  method ProcessDirectory(t: Tree, current: FsNode, nodes: seq<FsNode>, queue: seq<FsNode>,
                          ghost want: map<Path, Sum>, ghost seen: set<Path>)
    returns (ok: bool, nodes': seq<FsNode>, queue': seq<FsNode>)
    requires WellFormed(t) && Walking(t, want, nodes, queue, seen) && Flagged(want, nodes, seen)
    requires queue != [] && current == queue[|queue| - 1] && current.osRelative in t && current.osRelative !in want
    requires t[current.osRelative].Dir? && t[current.osRelative].names.Some?
    ensures ok ==>
      && Walking(t, want, nodes', queue', seen + {current.osRelative})
      && Flagged(want, nodes', seen + {current.osRelative})
    ensures ok ==> nodes <= nodes' && fresh(nodes'[|nodes|..])
    ensures !ok ==> exists n :: n in t[current.osRelative].names.value && !Skipped(n) && current.osRelative + [n] !in t
  {
    CurrentIsFound(t, want, nodes, queue, seen);
    var names, rest := t[current.osRelative].names.value, queue[..|queue| - 1];
    UnseenIsAddable(t, want, nodes, queue, seen, current.osRelative, names);
    ghost var added;
    hide Linked, QueueOk, NodesOk, SeenOk, Addable, Added, Flagged, Dirs, WellFormed, Unmarked, Skipped;
    ok, nodes', queue', added := AddChildren(t, current, names, nodes, rest);
    if ok {
      FlaggedWithChildren(t, want, nodes, queue, seen, current.osRelative, names, rest, nodes', queue', added);
      ChildrenStep(t, want, nodes, queue, seen, names, nodes', queue', added);
      assert nodes'[|nodes|..] == added;
    }
  }
}
