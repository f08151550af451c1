/** The difference between two locks (gps/lockdiff.go). */
module LockDiff {
  import opened Versions
  import opened Strings
  import opened World

  datatype StringDiff = StringDiff(previous: string, current: string)

  datatype LockedProject = LockedProject(id: Ident, v: Version, pkgs: seq<string>)

  /** Projects of a lock, and the digest of the inputs it was made from. */
  datatype Lock = Lock(projects: seq<LockedProject>, digest: string)

  datatype LockedProjectDiff = LockedProjectDiff(
    name: Root,
    source: Option<StringDiff>,
    version: Option<StringDiff>,
    branch: Option<StringDiff>,
    revision: Option<StringDiff>,
    packages: seq<StringDiff>)

  datatype LockDiff = LockDiff(
    hashDiff: Option<StringDiff>,
    add: seq<LockedProjectDiff>,
    remove: seq<LockedProjectDiff>,
    modified: seq<LockedProjectDiff>)

  /* ----- Merging two sorted sequences ----- */

  datatype Change<E> = Added(x: E) | Removed(x: E) | Both(x: E, y: E)

  /** What turns a into b, in the order of their keys. */
  function Merge<E>(key: E -> string, a: seq<E>, b: seq<E>): seq<Change<E>>
    decreases |a| + |b|
  {
    if a == [] && b == [] then []
    else if a == [] then [Added(b[0])] + Merge(key, a, b[1..])
    else if b == [] then [Removed(a[0])] + Merge(key, a[1..], b)
    else if key(a[0]) == key(b[0]) then [Both(a[0], b[0])] + Merge(key, a[1..], b[1..])
    else if Le(key(b[0]), key(a[0])) then [Added(b[0])] + Merge(key, a, b[1..])
    else [Removed(a[0])] + Merge(key, a[1..], b)
  }

  /** The old and the new sequence that a list of changes leads from and to. */
  function Before<E>(cs: seq<Change<E>>): seq<E> {
    if cs == [] then [] else (if cs[0].Added? then [] else [cs[0].x]) + Before(cs[1..])
  }

  function After<E>(cs: seq<Change<E>>): seq<E> {
    if cs == [] then []
    else (match cs[0] case Added(x) => [x] case Removed(_) => [] case Both(_, y) => [y]) + After(cs[1..])
  }

  function Additions<E>(cs: seq<Change<E>>): seq<E> {
    if cs == [] then [] else (if cs[0].Added? then [cs[0].x] else []) + Additions(cs[1..])
  }

  function Removals<E>(cs: seq<Change<E>>): seq<E> {
    if cs == [] then [] else (if cs[0].Removed? then [cs[0].x] else []) + Removals(cs[1..])
  }

  function Keys<E>(key: E -> string, s: seq<E>): multiset<string> {
    if s == [] then multiset{} else multiset{key(s[0])} + Keys(key, s[1..])
  }

  ghost predicate KeysSorted<E>(key: E -> string, s: seq<E>) {
    forall i, j :: 0 <= i < j < |s| ==> Le(key(s[i]), key(s[j]))
  }

  /** The changes lead exactly from the old to the new sequence, and what they keep has one key. */
  lemma {:induction false} MergeReplays<E>(key: E -> string, a: seq<E>, b: seq<E>)
    ensures Before(Merge(key, a, b)) == a && After(Merge(key, a, b)) == b
    ensures forall c :: c in Merge(key, a, b) && c.Both? ==> key(c.x) == key(c.y)
    decreases |a| + |b|
  {
    if a == [] && b == [] {
    } else if b == [] || (a != [] && key(a[0]) != key(b[0]) && !Le(key(b[0]), key(a[0]))) {
      MergeReplays(key, a[1..], b);
      assert a == [a[0]] + a[1..];
    } else if a == [] || key(a[0]) != key(b[0]) {
      MergeReplays(key, a, b[1..]);
      assert b == [b[0]] + b[1..];
    } else {
      MergeReplays(key, a[1..], b[1..]);
      assert a == [a[0]] + a[1..] && b == [b[0]] + b[1..];
    }
  }

  lemma KeysCons<E>(key: E -> string, x: E, s: seq<E>)
    ensures Keys(key, [x] + s) == multiset{key(x)} + Keys(key, s)
    ensures [] + s == s
  {
    assert ([x] + s)[1..] == s;
  }

  function One<E>(key: E -> string, x: E, there: bool): multiset<string> {
    if there then multiset{key(x)} else multiset{}
  }

  lemma FirstChange<E>(key: E -> string, cs: seq<Change<E>>)
    requires cs != []
    ensures var c, rest := cs[0], cs[1..];
      && Keys(key, Before(cs)) == One(key, c.x, !c.Added?) + Keys(key, Before(rest))
      && Keys(key, After(cs)) == One(key, if c.Both? then c.y else c.x, !c.Removed?) + Keys(key, After(rest))
      && Keys(key, Additions(cs)) == One(key, c.x, c.Added?) + Keys(key, Additions(rest))
      && Keys(key, Removals(cs)) == One(key, c.x, c.Removed?) + Keys(key, Removals(rest))
  {
    var c, rest := cs[0], cs[1..];
    KeysCons(key, c.x, Before(rest));
    KeysCons(key, c.x, Additions(rest));
    KeysCons(key, c.x, Removals(rest));
    KeysCons(key, if c.Both? then c.y else c.x, After(rest));
  }

  lemma SumsAdd(a: multiset<string>, b: multiset<string>, c: multiset<string>, d: multiset<string>,
                a': multiset<string>, b': multiset<string>, c': multiset<string>, d': multiset<string>)
    requires a + b == c + d && a' + b' == c' + d'
    ensures (a + a') + (b + b') == (c + c') + (d + d')
  {
    assert (a + a') + (b + b') == (a + b) + (a' + b');
    assert (c + c') + (d + d') == (c + d) + (c' + d');
  }

  /** What is kept cancels. */
  lemma {:induction false} KeyCounts<E>(key: E -> string, cs: seq<Change<E>>)
    requires forall c :: c in cs && c.Both? ==> key(c.x) == key(c.y)
    ensures Keys(key, Before(cs)) + Keys(key, Additions(cs)) == Keys(key, After(cs)) + Keys(key, Removals(cs))
  {
    if cs != [] {
      hide Keys, Before, After, Additions, Removals;
      var c, rest := cs[0], cs[1..];
      assert c in cs;
      KeyCounts(key, rest);
      FirstChange(key, cs);
      SumsAdd(One(key, c.x, !c.Added?), One(key, c.x, c.Added?),
              One(key, if c.Both? then c.y else c.x, !c.Removed?), One(key, c.x, c.Removed?),
              Keys(key, Before(rest)), Keys(key, Additions(rest)), Keys(key, After(rest)), Keys(key, Removals(rest)));
    }
  }

  lemma {:induction false} KeysHave<E>(key: E -> string, s: seq<E>, k: string)
    ensures k in Keys(key, s) <==> exists i :: 0 <= i < |s| && key(s[i]) == k
  {
    if s != [] {
      KeysHave(key, s[1..], k);
      if i :| 0 <= i < |s[1..]| && key(s[1..][i]) == k { assert key(s[i + 1]) == k; }
      if i :| 0 <= i < |s| && key(s[i]) == k { if i > 0 { assert key(s[1..][i - 1]) == k; } }
    }
  }

  /** All keys of s come after k. */
  ghost predicate AllAfter<E>(key: E -> string, s: seq<E>, k: string) {
    forall i :: 0 <= i < |s| ==> Le(k, key(s[i])) && key(s[i]) != k
  }

  lemma TailsAreSorted<E>(key: E -> string, s: seq<E>)
    requires KeysSorted(key, s) && s != []
    ensures KeysSorted(key, s[1..])
    ensures forall k :: Le(k, key(s[0])) && k != key(s[0]) ==> AllAfter(key, s, k) && AllAfter(key, s[1..], k)
  {
    forall k, i | Le(k, key(s[0])) && k != key(s[0]) && 0 <= i < |s|
      ensures Le(k, key(s[i])) && key(s[i]) != k
    {
      if i > 0 {
        LeTransitive(k, key(s[0]), key(s[i]));
        if key(s[i]) == k { LeAntisymmetric(k, key(s[0])); }
      }
    }
  }

  lemma AllAfterCons<E>(key: E -> string, x: E, s: seq<E>, k: string)
    ensures AllAfter(key, [x] + s, k) <==> Le(k, key(x)) && key(x) != k && AllAfter(key, s, k)
  {
    var t := [x] + s;
    if AllAfter(key, t, k) {
      assert t[0] == x && forall i :: 0 <= i < |s| ==> s[i] == t[i + 1];
    }
  }

  /** Additions come from b and removals from a, and so stay after what is before all of either. */
  lemma {:induction false} AdditionsComeFrom<E>(key: E -> string, cs: seq<Change<E>>, k: string)
    requires AllAfter(key, After(cs), k)
    ensures k !in Keys(key, Additions(cs))
  {
    if cs != [] {
      hide AllAfter, Keys;
      var c, rest := cs[0], cs[1..];
      AllAfterCons(key, if c.Both? then c.y else c.x, After(rest), k);
      assert [] + After(rest) == After(rest);
      AdditionsComeFrom(key, rest, k);
      FirstChange(key, cs);
    }
  }

  lemma {:induction false} RemovalsComeFrom<E>(key: E -> string, cs: seq<Change<E>>, k: string)
    requires AllAfter(key, Before(cs), k)
    ensures k !in Keys(key, Removals(cs))
  {
    if cs != [] {
      hide AllAfter, Keys;
      var c, rest := cs[0], cs[1..];
      AllAfterCons(key, c.x, Before(rest), k);
      assert [] + Before(rest) == Before(rest);
      RemovalsComeFrom(key, rest, k);
      FirstChange(key, cs);
    }
  }

  /** The first change, and what is merged after it. */
  lemma MergeFirst<E>(key: E -> string, a: seq<E>, b: seq<E>)
    requires a != [] || b != []
    ensures var cs := Merge(key, a, b);
      && cs != []
      && (cs[0].Added? ==> b != [] && cs[0].x == b[0] && cs[1..] == Merge(key, a, b[1..]))
      && (cs[0].Added? ==> (a != [] ==> key(b[0]) != key(a[0]) && Le(key(b[0]), key(a[0]))))
      && (cs[0].Removed? ==> a != [] && cs[0].x == a[0] && cs[1..] == Merge(key, a[1..], b))
      && (cs[0].Removed? ==> (b != [] ==> key(a[0]) != key(b[0]) && Le(key(a[0]), key(b[0]))))
      && (cs[0].Both? ==> a != [] && b != [] && cs[1..] == Merge(key, a[1..], b[1..]))
  {
    if a != [] && b != [] { LeTotal(key(a[0]), key(b[0])); }
  }

  lemma StayApart(k: string, m: multiset<string>, n: multiset<string>)
    requires m !! n && k !in n
    ensures multiset{k} + m !! multiset{} + n && multiset{} + n !! multiset{k} + m
    ensures multiset{} + m !! multiset{} + n
  {
  }

  /** In sorted sequences no key is both added and removed. */
  lemma {:induction false} MergeIsApart<E>(key: E -> string, a: seq<E>, b: seq<E>)
    requires KeysSorted(key, a) && KeysSorted(key, b)
    ensures Keys(key, Additions(Merge(key, a, b))) !! Keys(key, Removals(Merge(key, a, b)))
    decreases |a| + |b|
  {
    if a != [] || b != [] {
      hide Keys, Additions, Removals, Le, Merge, KeysSorted, AllAfter;
      MergeFirst(key, a, b);
      var cs := Merge(key, a, b);
      var c, rest := cs[0], cs[1..];
      if a != [] { TailsAreSorted(key, a); }
      if b != [] { TailsAreSorted(key, b); }
      var a', b' := if c.Added? then a else a[1..], if c.Removed? then b else b[1..];
      MergeIsApart(key, a', b');
      MergeReplays(key, a', b');
      FirstChange(key, cs);
      if c.Added? {
        assert AllAfter(key, a, key(c.x)) by { if a == [] { NothingIsAfter(key, a, key(c.x)); } }
        RemovalsComeFrom(key, rest, key(c.x));
        StayApart(key(c.x), Keys(key, Additions(rest)), Keys(key, Removals(rest)));
      } else if c.Removed? {
        assert AllAfter(key, b, key(c.x)) by { if b == [] { NothingIsAfter(key, b, key(c.x)); } }
        AdditionsComeFrom(key, rest, key(c.x));
        StayApart(key(c.x), Keys(key, Removals(rest)), Keys(key, Additions(rest)));
      }
    }
  }

  lemma NothingIsAfter<E>(key: E -> string, s: seq<E>, k: string)
    requires s == []
    ensures AllAfter(key, s, k)
  {
  }

  /** Additions and removals are exactly the two differences of the multisets of keys. */
  lemma MergeIsDifference<E>(key: E -> string, a: seq<E>, b: seq<E>)
    requires KeysSorted(key, a) && KeysSorted(key, b)
    ensures Keys(key, Additions(Merge(key, a, b))) == Keys(key, b) - Keys(key, a)
    ensures Keys(key, Removals(Merge(key, a, b))) == Keys(key, a) - Keys(key, b)
  {
    MergeReplays(key, a, b);
    KeyCounts(key, Merge(key, a, b));
    MergeIsApart(key, a, b);
    hide Merge, Keys, Additions, Removals, Before, After;
    var add, rem := Keys(key, Additions(Merge(key, a, b))), Keys(key, Removals(Merge(key, a, b)));
    forall k ensures add[k] == 0 || rem[k] == 0 {
      assert k !in add || k !in rem;
    }
    DifferencesOf(Keys(key, a), Keys(key, b), add, rem);
  }

  lemma DifferencesOf(a: multiset<string>, b: multiset<string>, add: multiset<string>, rem: multiset<string>)
    requires a + add == b + rem && forall k :: add[k] == 0 || rem[k] == 0
    ensures add == b - a && rem == a - b
  {
    forall k ensures add[k] == (b - a)[k] && rem[k] == (a - b)[k] {
      assert a[k] + add[k] == (a + add)[k] == (b + rem)[k] == b[k] + rem[k];
    }
  }

  /* ----- Packages of a project ----- */

  function Itself(s: string): string {
    s
  }

  /** The side that is missing is left empty. */
  function DiffOf(c: Change<string>): seq<StringDiff> {
    match c
    case Added(x) => [StringDiff("", x)]
    case Removed(x) => [StringDiff(x, "")]
    case Both(_, _) => []
  }

  function StringDiffs(cs: seq<Change<string>>): seq<StringDiff> {
    if cs == [] then [] else DiffOf(cs[0]) + StringDiffs(cs[1..])
  }

  lemma {:induction false} DiffsOneMore(cs: seq<Change<string>>, c: Change<string>)
    ensures StringDiffs(cs + [c]) == StringDiffs(cs) + DiffOf(c)
  {
    if cs == [] {
      assert cs + [c] == [c];
      assert StringDiffs([c]) == DiffOf(c) + StringDiffs([]);
    } else {
      DiffsOneMore(cs[1..], c);
      assert (cs + [c])[1..] == cs[1..] + [c] && (cs + [c])[0] == cs[0];
      Associative(DiffOf(cs[0]), StringDiffs(cs[1..]), DiffOf(c));
    }
  }

  lemma Associative<X>(a: seq<X>, b: seq<X>, c: seq<X>)
    ensures a + (b + c) == (a + b) + c
  {
  }

  /** One step of a merge, from what is left of the two sequences. */
  lemma MergeStep<E>(key: E -> string, a: seq<E>, b: seq<E>, i: nat, j: nat)
    requires i <= |a| && j <= |b|
    ensures i < |a| && (j == |b| || (key(a[i]) != key(b[j]) && !Le(key(b[j]), key(a[i])))) ==>
              Merge(key, a[i..], b[j..]) == [Removed(a[i])] + Merge(key, a[i + 1..], b[j..])
    ensures j < |b| && (i == |a| || (key(a[i]) != key(b[j]) && Le(key(b[j]), key(a[i])))) ==>
              Merge(key, a[i..], b[j..]) == [Added(b[j])] + Merge(key, a[i..], b[j + 1..])
    ensures i < |a| && j < |b| && key(a[i]) == key(b[j]) ==>
              Merge(key, a[i..], b[j..]) == [Both(a[i], b[j])] + Merge(key, a[i + 1..], b[j + 1..])
    ensures i == |a| && j == |b| ==> Merge(key, a[i..], b[j..]) == []
  {
    if i < |a| { assert a[i..][0] == a[i] && a[i..][1..] == a[i + 1..]; }
    if j < |b| { assert b[j..][0] == b[j] && b[j..][1..] == b[j + 1..]; }
  }

  /** The changes are done, then what is merged from the rest. */
  ghost predicate MergedSoFar<E>(key: E -> string, a: seq<E>, b: seq<E>, i: nat, j: nat, done: seq<Change<E>>)
    requires i <= |a| && j <= |b|
  {
    Merge(key, a, b) == done + Merge(key, a[i..], b[j..])
  }

  lemma NothingMerged<E>(key: E -> string, a: seq<E>, b: seq<E>)
    ensures MergedSoFar(key, a, b, 0, 0, [])
  {
    assert a[0..] == a && b[0..] == b;
  }

  lemma AllMerged<E>(key: E -> string, a: seq<E>, b: seq<E>, done: seq<Change<E>>)
    requires MergedSoFar(key, a, b, |a|, |b|, done)
    ensures done == Merge(key, a, b)
  {
  }

  lemma MergeOneMore<E>(key: E -> string, a: seq<E>, b: seq<E>, i: nat, j: nat, done: seq<Change<E>>)
    requires i <= |a| && j <= |b| && MergedSoFar(key, a, b, i, j, done)
    ensures i < |a| && (j == |b| || (key(a[i]) != key(b[j]) && !Le(key(b[j]), key(a[i])))) ==>
              MergedSoFar(key, a, b, i + 1, j, done + [Removed(a[i])])
    ensures j < |b| && (i == |a| || (key(a[i]) != key(b[j]) && Le(key(b[j]), key(a[i])))) ==>
              MergedSoFar(key, a, b, i, j + 1, done + [Added(b[j])])
    ensures i < |a| && j < |b| && key(a[i]) == key(b[j]) ==>
              MergedSoFar(key, a, b, i + 1, j + 1, done + [Both(a[i], b[j])])
  {
    hide Merge, Le;
    MergeStep(key, a, b, i, j);
    if i < |a| { Associative(done, [Removed(a[i])], Merge(key, a[i + 1..], b[j..])); }
    if j < |b| { Associative(done, [Added(b[j])], Merge(key, a[i..], b[j + 1..])); }
    if i < |a| && j < |b| { Associative(done, [Both(a[i], b[j])], Merge(key, a[i + 1..], b[j + 1..])); }
  }

  /** Later elements stay above a key that is below this one. */
  lemma StaysBehind<E>(key: E -> string, s: seq<E>, j: nat, i: nat, k: string)
    requires KeysSorted(key, s) && j <= i < |s| && k != key(s[j]) && !Le(key(s[j]), k)
    ensures k != key(s[i]) && !Le(key(s[i]), k)
  {
    LeTotal(k, key(s[j]));
    if Le(key(s[i]), k) {
      if i > j { LeTransitive(key(s[j]), key(s[i]), k); }
    } else {
      LeTotal(k, k);
    }
  }

  method DiffPackages(p1: seq<string>, p2: seq<string>) returns (packages: seq<StringDiff>)
    requires KeysSorted(Itself, p1) && KeysSorted(Itself, p2)
    ensures packages == StringDiffs(Merge(Itself, p1, p2))
  {
    hide Merge, MergedSoFar, KeysSorted, Le, StringDiffs;
    packages := [];
    ghost var done: seq<Change<string>> := [];
    NothingMerged(Itself, p1, p2);
    NoDiffs();
    var i2next := 0;
    for i1 := 0 to |p1|
      invariant 0 <= i2next <= |p2|
      invariant MergedSoFar(Itself, p1, p2, i1, i2next, done) && packages == StringDiffs(done)
    {
      var matched := false;
      var i2 := i2next;
      while i2 < |p2|
        invariant 0 <= i2next <= i2 <= |p2|
        invariant MergedSoFar(Itself, p1, p2, i1, i2next, done) && packages == StringDiffs(done)
        invariant i2next < i2 ==> p1[i1] != p2[i2next] && !Le(p2[i2next], p1[i1])
      {
        MergeOneMore(Itself, p1, p2, i1, i2next, done);
        if i2next < i2 { StaysBehind(Itself, p2, i2next, i2, p1[i1]); }
        if p1[i1] == p2[i2] {
          matched := true;
          DiffsOneMore(done, Both(p1[i1], p2[i2]));
          done := done + [Both(p1[i1], p2[i2])];
          i2next := i2 + 1;
          break;
        }
        if Le(p2[i2], p1[i1]) {
          DiffsOneMore(done, Added(p2[i2]));
          done := done + [Added(p2[i2])];
          packages := packages + [StringDiff("", p2[i2])];
          i2next := i2 + 1;
        }
        i2 := i2 + 1;
      }
      if !matched {
        MergeOneMore(Itself, p1, p2, i1, i2next, done);
        DiffsOneMore(done, Removed(p1[i1]));
        done := done + [Removed(p1[i1])];
        packages := packages + [StringDiff(p1[i1], "")];
      }
    }
    for i2 := i2next to |p2|
      invariant MergedSoFar(Itself, p1, p2, |p1|, i2, done) && packages == StringDiffs(done)
    {
      MergeOneMore(Itself, p1, p2, |p1|, i2, done);
      DiffsOneMore(done, Added(p2[i2]));
      done := done + [Added(p2[i2])];
      packages := packages + [StringDiff("", p2[i2])];
    }
    AllMerged(Itself, p1, p2, done);
  }

  lemma NoDiffs()
    ensures StringDiffs([]) == []
  {
  }

  /* ----- One project ----- */

  function DiffStrings(a: string, b: string): Option<StringDiff> {
    if a != b then Some(StringDiff(a, b)) else None
  }

  function RevisionOf(v: Version): string {
    match v case Revision(r) => r case Tagged(_) => "" case Pair(_, r) => r
  }

  function BranchOf(v: Version): string {
    match v
    case Tagged(Branch(n, _)) => n
    case Pair(Branch(n, _), _) => n
    case _ => ""
  }

  function ReleaseOf(v: Version): string {
    match v
    case Tagged(Plain(n)) => n
    case Pair(Plain(n), _) => n
    case Tagged(Sem(n)) => n
    case Pair(Sem(n), _) => n
    case _ => ""
  }

  predicate SameTag(u: Unpaired, x: Unpaired) {
    match (u, x)
    case (Branch(m, _), Branch(n, _)) => m == n
    case (Branch(_, _), _) => false
    case (_, Branch(_, _)) => false
    case (Plain(m), Plain(n)) => m == n
    case (Plain(m), Sem(n)) => m == n
    case (Sem(m), Plain(n)) => m == n
    case (Sem(m), Sem(n)) => m == n
  }

  predicate NamedTag(u: Unpaired) {
    match u
    case Branch(n, _) => n != ""
    case Plain(n) => n != ""
    case Sem(n) => n != ""
  }

  predicate Named(v: Version) {
    match v
    case Revision(r) => r != ""
    case Tagged(u) => NamedTag(u)
    case Pair(u, r) => NamedTag(u) && r != ""
  }

  /** The three components tell versions apart, up to which branch is the default one and whether a
    name reads as a semantic version; and a branch shows as a branch, other names as releases. */
  lemma ComponentsTellApart(v: Version, x: Version)
    requires Named(v) && Named(x)
    ensures RevisionOf(v) == RevisionOf(x) && BranchOf(v) == BranchOf(x) && ReleaseOf(v) == ReleaseOf(x) <==>
      match (v, x)
      case (Revision(r), Revision(q)) => r == q
      case (Tagged(u), Tagged(y)) => SameTag(u, y)
      case (Pair(u, r), Pair(y, q)) => SameTag(u, y) && r == q
      case _ => false
    ensures BranchOf(v) != "" ==> ReleaseOf(v) == ""
    ensures (v.Tagged? && v.u.Branch?) || (v.Pair? && v.pu.Branch?) <==> BranchOf(v) != ""
  {
  }

  function PackageDiffs(p1: seq<string>, p2: seq<string>): seq<StringDiff> {
    StringDiffs(Merge(Itself, Sort(p1), Sort(p2)))
  }

  /** What changes between two states of a project; None when nothing does but the branch. */
  function ProjectDiff(lp1: LockedProject, lp2: LockedProject): Option<LockedProjectDiff> {
    var d := LockedProjectDiff(
      lp1.id.root,
      DiffStrings(lp1.id.source, lp2.id.source),
      DiffStrings(ReleaseOf(lp1.v), ReleaseOf(lp2.v)),
      DiffStrings(BranchOf(lp1.v), BranchOf(lp2.v)),
      DiffStrings(RevisionOf(lp1.v), RevisionOf(lp2.v)),
      PackageDiffs(lp1.pkgs, lp2.pkgs));
    if d.source.None? && d.version.None? && d.revision.None? && d.packages == [] then None else Some(d)
  }

  lemma SortIsSorted(p: seq<string>)
    ensures KeysSorted(Itself, Sort(p)) && multiset(Sort(p)) == multiset(p)
  {
    LeIsOrdering();
    SortSorts(Le, p);
  }

  method DiffProjects(lp1: LockedProject, lp2: LockedProject) returns (d: Option<LockedProjectDiff>)
    ensures d == ProjectDiff(lp1, lp2)
  {
    SortIsSorted(lp1.pkgs);
    SortIsSorted(lp2.pkgs);
    var p1, p2 := Sort(lp1.pkgs), Sort(lp2.pkgs);
    var packages := DiffPackages(p1, p2);
    var diff := LockedProjectDiff(lp1.id.root, None, None, None, None, packages);
    if lp1.id.source != lp2.id.source {
      diff := diff.(source := Some(StringDiff(lp1.id.source, lp2.id.source)));
    }
    if RevisionOf(lp1.v) != RevisionOf(lp2.v) {
      diff := diff.(revision := Some(StringDiff(RevisionOf(lp1.v), RevisionOf(lp2.v))));
    }
    if BranchOf(lp1.v) != BranchOf(lp2.v) {
      diff := diff.(branch := Some(StringDiff(BranchOf(lp1.v), BranchOf(lp2.v))));
    }
    if ReleaseOf(lp1.v) != ReleaseOf(lp2.v) {
      diff := diff.(version := Some(StringDiff(ReleaseOf(lp1.v), ReleaseOf(lp2.v))));
    }
    if diff.source.None? && diff.version.None? && diff.revision.None? && |diff.packages| == 0 {
      return None;
    }
    return Some(diff);
  }

  lemma {:induction false} SameWhenAllKept(cs: seq<Change<string>>)
    requires forall c :: c in cs && c.Both? ==> c.x == c.y
    ensures StringDiffs(cs) == [] ==> Before(cs) == After(cs)
  {
    if cs != [] {
      assert cs[0] in cs;
      SameWhenAllKept(cs[1..]);
    }
  }

  lemma {:induction false} MergeOfSame(p: seq<string>)
    ensures StringDiffs(Merge(Itself, p, p)) == []
  {
    if p != [] {
      MergeOfSame(p[1..]);
      assert Merge(Itself, p, p)[0] == Both(p[0], p[0]);
    }
  }

  lemma SortedSame(p1: seq<string>, p2: seq<string>)
    ensures Sort(p1) == Sort(p2) <==> multiset(p1) == multiset(p2)
  {
    LeIsOrdering();
    SortSorts(Le, p1);
    SortSorts(Le, p2);
    if multiset(p1) == multiset(p2) { SortedIsUnique(Sort(p1), Sort(p2)); }
  }

  /** Nothing is reported if and only if source, version, revision and packages agree. */
  lemma DiffIsNilWhenSame(lp1: LockedProject, lp2: LockedProject)
    ensures ProjectDiff(lp1, lp2).None? <==>
      && lp1.id.source == lp2.id.source
      && ReleaseOf(lp1.v) == ReleaseOf(lp2.v) && RevisionOf(lp1.v) == RevisionOf(lp2.v)
      && multiset(lp1.pkgs) == multiset(lp2.pkgs)
  {
    var a, b := Sort(lp1.pkgs), Sort(lp2.pkgs);
    SortedSame(lp1.pkgs, lp2.pkgs);
    MergeReplays(Itself, a, b);
    SameWhenAllKept(Merge(Itself, a, b));
    MergeOfSame(a);
  }

  /** A reported field is one that differs, with what it was and what it is. */
  predicate Says(d: Option<StringDiff>, was: string, now: string) {
    (d.Some? <==> was != now) && (d.Some? ==> d.value.previous == was && d.value.current == now)
  }

  lemma ProjectDiffSays(lp1: LockedProject, lp2: LockedProject)
    requires ProjectDiff(lp1, lp2).Some?
    ensures var d := ProjectDiff(lp1, lp2).value;
      && d.name == lp1.id.root && Says(d.source, lp1.id.source, lp2.id.source)
      && Says(d.revision, RevisionOf(lp1.v), RevisionOf(lp2.v))
      && Says(d.branch, BranchOf(lp1.v), BranchOf(lp2.v)) && Says(d.version, ReleaseOf(lp1.v), ReleaseOf(lp2.v))
  {
  }

  /** An update from one release to another is reported with both, and with their revisions. */
  lemma UpdateIsReported(id: Ident, a: string, r: string, b: string, q: string, pkgs: seq<string>)
    requires a != b && r != q
    ensures var d := ProjectDiff(LockedProject(id, Pair(Sem(a), r), pkgs), LockedProject(id, Pair(Sem(b), q), pkgs));
      && d.Some? && d.value.version == Some(StringDiff(a, b)) && d.value.revision == Some(StringDiff(r, q))
      && d.value.branch.None? && d.value.source.None? && d.value.packages == []
  {
    MergeOfSame(Sort(pkgs));
  }

  /** A project that moves from one branch to another at the same revision is not reported. */
  lemma BranchChangeIsNotReported()
    ensures var id := Ident("example.org/p", "");
      var lp1 := LockedProject(id, Pair(Branch("main", true), "r1"), ["."]);
      var lp2 := LockedProject(id, Pair(Branch("next", false), "r1"), ["."]);
      ProjectDiff(lp1, lp2).None? && BranchOf(lp1.v) != BranchOf(lp2.v)
  {
    var id := Ident("example.org/p", "");
    var lp1 := LockedProject(id, Pair(Branch("main", true), "r1"), ["."]);
    var lp2 := LockedProject(id, Pair(Branch("next", false), "r1"), ["."]);
    DiffIsNilWhenSame(lp1, lp2);
    assert BranchOf(lp1.v)[0] != BranchOf(lp2.v)[0];
  }

  /* ----- Applying package differences ----- */

  /** An entry with a previous name removes that name, any other adds the current one. */
  function Apply(m: multiset<string>, ds: seq<StringDiff>): multiset<string>
    decreases |ds|
  {
    if ds == [] then m
    else Apply(if ds[0].previous != "" then m - multiset{ds[0].previous} else m + multiset{ds[0].current}, ds[1..])
  }

  /** The removal of the empty name reads like its addition. */
  function Counted(m: multiset<string>, add: multiset<string>, rem: multiset<string>, x: string): int {
    var n: int := m[x] + add[x];
    if x == "" then n + rem[x] else n - rem[x]
  }

  lemma {:induction false} ApplyCounts(m: multiset<string>, cs: seq<Change<string>>, x: string)
    requires forall y :: y != "" ==> Keys(Itself, Removals(cs))[y] <= m[y]
    ensures Apply(m, StringDiffs(cs))[x] == Counted(m, Keys(Itself, Additions(cs)), Keys(Itself, Removals(cs)), x)
    decreases |cs|
  {
    if cs != [] {
      hide Keys, Additions, Removals, StringDiffs, Counted;
      var c, rest := cs[0], cs[1..];
      FirstChange(Itself, cs);
      var m' := Changed(m, c);
      ApplyFirst(m, c, rest);
      assert StringDiffs(cs) == DiffOf(c) + StringDiffs(rest) by { FirstDiff(cs); }
      CountedStep(m, c, Keys(Itself, Additions(rest)), Keys(Itself, Removals(rest)), x);
      forall y | y != "" ensures Keys(Itself, Removals(rest))[y] <= m'[y] {
        assert Keys(Itself, Removals(cs))[y] <= m[y];
      }
      ApplyCounts(m', rest, x);
    } else {
      assert cs == [];
      NoChangeCounts(m, x);
    }
  }

  lemma FirstDiff(cs: seq<Change<string>>)
    requires cs != []
    ensures StringDiffs(cs) == DiffOf(cs[0]) + StringDiffs(cs[1..])
  {
  }

  lemma NoChangeCounts(m: multiset<string>, x: string)
    ensures Apply(m, StringDiffs([]))[x] == Counted(m, Keys(Itself, Additions([])), Keys(Itself, Removals([])), x)
  {
  }

  function Changed(m: multiset<string>, c: Change<string>): multiset<string> {
    match c
    case Added(a) => m + multiset{a}
    case Removed(a) => if a != "" then m - multiset{a} else m + multiset{""}
    case Both(_, _) => m
  }

  lemma ApplyFirst(m: multiset<string>, c: Change<string>, rest: seq<Change<string>>)
    ensures Apply(m, DiffOf(c) + StringDiffs(rest)) == Apply(Changed(m, c), StringDiffs(rest))
  {
    var ds := StringDiffs(rest);
    if c.Both? {
      assert [] + ds == ds;
    } else {
      assert (DiffOf(c) + ds)[1..] == ds;
    }
  }

  lemma CountedStep(m: multiset<string>, c: Change<string>, add: multiset<string>, rem: multiset<string>, x: string)
    requires c.Removed? && c.x != "" ==> m[c.x] > 0
    ensures Counted(Changed(m, c), add, rem, x) ==
      Counted(m, One(Itself, c.x, c.Added?) + add, One(Itself, c.x, c.Removed?) + rem, x)
  {
  }

  /** The reported package differences turn the old packages into the new ones, provided no
    package with an empty name goes away. */
  lemma PackageDiffsApply(p1: seq<string>, p2: seq<string>)
    ensures Apply(multiset(p1), PackageDiffs(p1, p2)) == multiset(p2) <==> multiset(p1)[""] <= multiset(p2)[""]
  {
    hide Apply, StringDiffs, Merge, Keys, Additions, Removals, Sort, KeysSorted;
    var a, b := Sort(p1), Sort(p2);
    SortIsSorted(p1);
    SortIsSorted(p2);
    KeysAre(a);
    KeysAre(b);
    MergeIsDifference(Itself, a, b);
    var m, n, cs := multiset(p1), multiset(p2), Merge(Itself, a, b);
    forall x { ApplyCounts(m, cs, x); }
    DifferenceCounts(m, n, Apply(m, StringDiffs(cs)));
  }

  lemma DifferenceCounts(m: multiset<string>, n: multiset<string>, result: multiset<string>)
    requires forall x :: result[x] == Counted(m, n - m, m - n, x)
    ensures result == n <==> m[""] <= n[""]
  {
    if m[""] <= n[""] {
      forall x ensures result[x] == n[x] {
        assert result[x] == Counted(m, n - m, m - n, x);
      }
    } else {
      assert result[""] == Counted(m, n - m, m - n, "");
    }
  }

  lemma {:induction false} KeysAre(s: seq<string>)
    ensures Keys(Itself, s) == multiset(s)
  {
    if s != [] {
      KeysAre(s[1..]);
      assert s == [s[0]] + s[1..];
    }
  }

  /* ----- Two locks ----- */

  function RootOf(lp: LockedProject): string {
    lp.id.root
  }

  /** The order of identifiers: by root, then by normalised source. */
  predicate IdentLe(a: LockedProject, b: LockedProject) {
    if a.id.root == b.id.root then Le(a.id.NormalizedSource(), b.id.NormalizedSource()) else Le(a.id.root, b.id.root)
  }

  lemma IdentLeIsOrdering()
    ensures Ordering(IdentLe)
  {
    forall a: LockedProject, b: LockedProject ensures IdentLe(a, b) || IdentLe(b, a) {
      LeTotal(a.id.root, b.id.root);
      LeTotal(a.id.NormalizedSource(), b.id.NormalizedSource());
    }
    forall a: LockedProject, b: LockedProject, c: LockedProject | IdentLe(a, b) && IdentLe(b, c) ensures IdentLe(a, c) {
      IdentLeTransitive(a, b, c);
    }
  }

  lemma IdentLeTransitive(a: LockedProject, b: LockedProject, c: LockedProject)
    requires IdentLe(a, b) && IdentLe(b, c)
    ensures IdentLe(a, c)
  {
    hide Le;
    if a.id.root == b.id.root == c.id.root {
      LeTransitive(a.id.NormalizedSource(), b.id.NormalizedSource(), c.id.NormalizedSource());
    } else if a.id.root != b.id.root && b.id.root != c.id.root {
      LeTransitive(a.id.root, b.id.root, c.id.root);
      if a.id.root == c.id.root { LeAntisymmetric(a.id.root, b.id.root); }
    }
  }

  function SortedProjects(lps: seq<LockedProject>): seq<LockedProject> {
    SortBy(IdentLe, lps)
  }

  lemma ProjectsAreSorted(lps: seq<LockedProject>)
    ensures KeysSorted(RootOf, SortedProjects(lps)) && multiset(SortedProjects(lps)) == multiset(lps)
  {
    IdentLeIsOrdering();
    SortSorts(IdentLe, lps);
    var s := SortedProjects(lps);
    forall i, j | 0 <= i < j < |s| ensures Le(RootOf(s[i]), RootOf(s[j])) {
      assert IdentLe(s[i], s[j]);
      LeTotal(RootOf(s[i]), RootOf(s[i]));
    }
  }

  function Shown(a: string): Option<StringDiff> {
    if a != "" then Some(StringDiff(a, a)) else None
  }

  /** A project that is added or removed. */
  function Built(lp: LockedProject): LockedProjectDiff {
    LockedProjectDiff(lp.id.root, Shown(lp.id.source),
                      Shown(ReleaseOf(lp.v)), Shown(BranchOf(lp.v)), Shown(RevisionOf(lp.v)),
                      seq(|lp.pkgs|, i requires 0 <= i < |lp.pkgs| => StringDiff(lp.pkgs[i], lp.pkgs[i])))
  }

  /** What a list of changes adds to the three lists. */
  function AddedBy(cs: seq<Change<LockedProject>>): seq<LockedProjectDiff> {
    if cs == [] then [] else AddedBy(cs[..|cs| - 1]) + if cs[|cs| - 1].Added? then [Built(cs[|cs| - 1].x)] else []
  }

  function RemovedBy(cs: seq<Change<LockedProject>>): seq<LockedProjectDiff> {
    if cs == [] then [] else RemovedBy(cs[..|cs| - 1]) + if cs[|cs| - 1].Removed? then [Built(cs[|cs| - 1].x)] else []
  }

  function ModifiedBy(cs: seq<Change<LockedProject>>): seq<LockedProjectDiff> {
    if cs == [] then [] else ModifiedBy(cs[..|cs| - 1]) + ModifiedOnce(cs[|cs| - 1])
  }

  function ModifiedOnce(c: Change<LockedProject>): seq<LockedProjectDiff> {
    if c.Both? && ProjectDiff(c.x, c.y).Some? then [ProjectDiff(c.x, c.y).value] else []
  }

  ghost predicate Collected(cs: seq<Change<LockedProject>>, d: LockDiff) {
    d.add == AddedBy(cs) && d.remove == RemovedBy(cs) && d.modified == ModifiedBy(cs)
  }

  lemma CollectOneMore(cs: seq<Change<LockedProject>>, c: Change<LockedProject>, d: LockDiff)
    requires Collected(cs, d)
    ensures c.Added? ==> Collected(cs + [c], d.(add := d.add + [Built(c.x)]))
    ensures c.Removed? ==> Collected(cs + [c], d.(remove := d.remove + [Built(c.x)]))
    ensures c.Both? ==> Collected(cs + [c], d.(modified := d.modified + ModifiedOnce(c)))
  {
    assert (cs + [c])[..|cs|] == cs;
  }

  function LockChanges(l1: Lock, l2: Lock): seq<Change<LockedProject>> {
    Merge(RootOf, SortedProjects(l1.projects), SortedProjects(l2.projects))
  }

  /** The differences of two locks; None when there are none. */
  ghost predicate IsLockDiff(l1: Lock, l2: Lock, r: Option<LockDiff>) {
    var cs, h := LockChanges(l1, l2), DiffStrings(l1.digest, l2.digest);
    if r.Some? then
      && Collected(cs, r.value) && r.value.hashDiff == h
      && (h.Some? || |r.value.add| + |r.value.remove| + |r.value.modified| > 0)
    else Collected(cs, LockDiff(h, [], [], [])) && h.None?
  }

  method DiffLocks(l1: Lock, l2: Lock) returns (r: Option<LockDiff>)
    ensures IsLockDiff(l1, l2, r)
  {
    ProjectsAreSorted(l1.projects);
    ProjectsAreSorted(l2.projects);
    var p1, p2 := SortedProjects(l1.projects), SortedProjects(l2.projects);
    var diff := LockDiff(None, [], [], []);
    if l1.digest != l2.digest {
      diff := diff.(hashDiff := Some(StringDiff(l1.digest, l2.digest)));
    }
    diff := DiffProjectLists(p1, p2, diff);
    if diff.hashDiff.None? && |diff.add| == 0 && |diff.remove| == 0 && |diff.modified| == 0 {
      return None;
    }
    return Some(diff);
  }

  method DiffProjectLists(p1: seq<LockedProject>, p2: seq<LockedProject>, empty: LockDiff) returns (diff: LockDiff)
    requires KeysSorted(RootOf, p1) && KeysSorted(RootOf, p2) && Collected([], empty)
    ensures Collected(Merge(RootOf, p1, p2), diff) && diff.hashDiff == empty.hashDiff
  {
    hide Merge, MergedSoFar, KeysSorted, Le, Collected, Built, ProjectDiff;
    diff := empty;
    ghost var done: seq<Change<LockedProject>> := [];
    NothingMerged(RootOf, p1, p2);
    var i2next := 0;
    for i1 := 0 to |p1|
      invariant 0 <= i2next <= |p2| && diff.hashDiff == empty.hashDiff
      invariant MergedSoFar(RootOf, p1, p2, i1, i2next, done) && Collected(done, diff)
    {
      var lp1, matched, i2 := p1[i1], false, i2next;
      while i2 < |p2|
        invariant 0 <= i2next <= i2 <= |p2| && diff.hashDiff == empty.hashDiff
        invariant MergedSoFar(RootOf, p1, p2, i1, i2next, done) && Collected(done, diff)
        invariant i2next < i2 ==> RootOf(lp1) != RootOf(p2[i2next]) && !Le(RootOf(p2[i2next]), RootOf(lp1))
      {
        var lp2 := p2[i2];
        MergeOneMore(RootOf, p1, p2, i1, i2next, done);
        if i2next < i2 { StaysBehind(RootOf, p2, i2next, i2, RootOf(lp1)); }
        if RootOf(lp1) == RootOf(lp2) {
          matched := true;
          CollectOneMore(done, Both(lp1, lp2), diff);
          done := done + [Both(lp1, lp2)];
          var pdiff := DiffProjects(lp1, lp2);
          diff := diff.(modified := diff.modified + if pdiff.Some? then [pdiff.value] else []);
          i2next := i2 + 1;
          break;
        }
        if Le(RootOf(lp2), RootOf(lp1)) {
          CollectOneMore(done, Added(lp2), diff);
          done := done + [Added(lp2)];
          diff := diff.(add := diff.add + [Built(lp2)]);
          i2next := i2 + 1;
        }
        i2 := i2 + 1;
      }
      if !matched {
        MergeOneMore(RootOf, p1, p2, i1, i2next, done);
        CollectOneMore(done, Removed(lp1), diff);
        done := done + [Removed(lp1)];
        diff := diff.(remove := diff.remove + [Built(lp1)]);
      }
    }
    for i2 := i2next to |p2|
      invariant MergedSoFar(RootOf, p1, p2, |p1|, i2, done) && Collected(done, diff) && diff.hashDiff == empty.hashDiff
    {
      MergeOneMore(RootOf, p1, p2, |p1|, i2, done);
      CollectOneMore(done, Added(p2[i2]), diff);
      done := done + [Added(p2[i2])];
      diff := diff.(add := diff.add + [Built(p2[i2])]);
    }
    AllMerged(RootOf, p1, p2, done);
  }

  /* ----- What the difference of two locks says ----- */

  lemma KeysFirst<E>(key: E -> string, s: seq<E>)
    ensures Keys(key, s) == if s == [] then multiset{} else multiset{key(s[0])} + Keys(key, s[1..])
  {
  }

  lemma {:induction false} KeysOfParts<E>(key: E -> string, s: seq<E>, t: seq<E>)
    ensures Keys(key, s + t) == Keys(key, s) + Keys(key, t)
  {
    hide Keys;
    KeysFirst(key, s);
    KeysFirst(key, s + t);
    if s == [] {
      assert s + t == t;
    } else {
      KeysOfParts(key, s[1..], t);
      assert (s + t)[1..] == s[1..] + t;
    }
  }

  lemma {:induction false} KeysOfPermutation<E>(key: E -> string, s: seq<E>, t: seq<E>)
    requires multiset(s) == multiset(t)
    ensures Keys(key, s) == Keys(key, t)
    decreases |s|
  {
    hide Keys;
    assert |s| == |multiset(s)| == |multiset(t)| == |t|;
    KeysFirst(key, s);
    KeysFirst(key, t);
    if s != [] {
      var l, r := WithoutFirst(s, t);
      KeysOfPermutation(key, s[1..], l + r);
      KeysOfParts(key, l, [s[0]] + r);
      KeysOfParts(key, l, r);
      KeysCons(key, s[0], r);
    }
  }

  lemma WithoutFirst<E>(s: seq<E>, t: seq<E>) returns (l: seq<E>, r: seq<E>)
    requires s != [] && multiset(s) == multiset(t)
    ensures t == l + ([s[0]] + r) && multiset(s[1..]) == multiset(l + r)
  {
    assert s == [s[0]] + s[1..];
    assert multiset(s[1..]) == multiset(s) - multiset{s[0]};
    assert s[0] in multiset(t);
    var j :| 0 <= j < |t| && t[j] == s[0];
    l, r := t[..j], t[j + 1..];
    assert t == l + ([s[0]] + r);
    assert multiset(t) == multiset(l) + multiset{s[0]} + multiset(r);
  }

  function NameOf(d: LockedProjectDiff): string {
    d.name
  }

  lemma {:induction false} LastAddition<E>(cs: seq<Change<E>>, c: Change<E>)
    ensures Additions(cs + [c]) == Additions(cs) + if c.Added? then [c.x] else []
    ensures Removals(cs + [c]) == Removals(cs) + if c.Removed? then [c.x] else []
  {
    hide Additions, Removals;
    AdditionsFirst(cs);
    AdditionsFirst(cs + [c]);
    if cs == [] {
      assert (cs + [c])[1..] == [] && (cs + [c])[0] == c;
    } else {
      LastAddition(cs[1..], c);
      assert (cs + [c])[1..] == cs[1..] + [c] && (cs + [c])[0] == cs[0];
    }
  }

  lemma AdditionsFirst<E>(cs: seq<Change<E>>)
    ensures Additions(cs) == if cs == [] then [] else (if cs[0].Added? then [cs[0].x] else []) + Additions(cs[1..])
    ensures Removals(cs) == if cs == [] then [] else (if cs[0].Removed? then [cs[0].x] else []) + Removals(cs[1..])
  {
  }

  lemma {:induction false} NamesOfChanges(cs: seq<Change<LockedProject>>)
    ensures Keys(NameOf, AddedBy(cs)) == Keys(RootOf, Additions(cs))
    ensures Keys(NameOf, RemovedBy(cs)) == Keys(RootOf, Removals(cs))
  {
    if cs != [] {
      var front, c := cs[..|cs| - 1], cs[|cs| - 1];
      assert cs == front + [c];
      NamesOfChanges(front);
      LastAddition(front, c);
      NameOfOne(c.x);
      KeysOfParts(NameOf, AddedBy(front), if c.Added? then [Built(c.x)] else []);
      KeysOfParts(NameOf, RemovedBy(front), if c.Removed? then [Built(c.x)] else []);
      KeysOfParts(RootOf, Additions(front), if c.Added? then [c.x] else []);
      KeysOfParts(RootOf, Removals(front), if c.Removed? then [c.x] else []);
      hide Keys, Additions, Removals, Built;
    }
  }

  lemma NameOfOne(lp: LockedProject)
    ensures Keys(NameOf, [Built(lp)]) == Keys(RootOf, [lp]) && Keys(NameOf, []) == Keys(RootOf, [])
  {
    KeysCons(NameOf, Built(lp), []);
    KeysCons(RootOf, lp, []);
    assert [Built(lp)] + [] == [Built(lp)] && [lp] + [] == [lp];
  }

  lemma {:induction false} ModifiedAre(cs: seq<Change<LockedProject>>, d: LockedProjectDiff)
    ensures d in ModifiedBy(cs) <==> exists c :: c in cs && c.Both? && ProjectDiff(c.x, c.y) == Some(d)
  {
    if cs != [] {
      var front, c := cs[..|cs| - 1], cs[|cs| - 1];
      assert cs == front + [c];
      ModifiedAre(front, d);
      hide ProjectDiff;
    }
  }

  /** The roots that are added and removed are exactly the differences of the two locks. */
  lemma AddAndRemoveAreDifferences(l1: Lock, l2: Lock, r: Option<LockDiff>)
    requires IsLockDiff(l1, l2, r)
    ensures var k1, k2 := Keys(RootOf, l1.projects), Keys(RootOf, l2.projects);
      var d := if r.Some? then r.value else LockDiff(None, [], [], []);
      Keys(NameOf, d.add) == k2 - k1 && Keys(NameOf, d.remove) == k1 - k2
  {
    hide Keys, Merge, SortedProjects, KeysSorted, AddedBy, RemovedBy, ModifiedBy;
    ProjectsAreSorted(l1.projects);
    ProjectsAreSorted(l2.projects);
    KeysOfPermutation(RootOf, l1.projects, SortedProjects(l1.projects));
    KeysOfPermutation(RootOf, l2.projects, SortedProjects(l2.projects));
    MergeIsDifference(RootOf, SortedProjects(l1.projects), SortedProjects(l2.projects));
    NamesOfChanges(LockChanges(l1, l2));
  }

  ghost predicate OneEach(lps: seq<LockedProject>) {
    forall k :: Keys(RootOf, lps)[k] <= 1
  }

  lemma {:induction false} BothSidesAreThere<E>(cs: seq<Change<E>>)
    ensures forall c :: c in cs && c.Both? ==> c.x in Before(cs) && c.y in After(cs)
    ensures forall x :: x in Before(cs) ==> Removed(x) in cs || exists y :: Both(x, y) in cs
  {
    if cs != [] {
      BothSidesAreThere(cs[1..]);
      assert cs == [cs[0]] + cs[1..];
      forall x | x in Before(cs) ensures Removed(x) in cs || exists y :: Both(x, y) in cs {
        if x in Before(cs[1..]) {
          if y :| Both(x, y) in cs[1..] { assert Both(x, y) in cs; }
        } else {
          assert x == cs[0].x;
          if cs[0].Both? { assert Both(x, cs[0].y) in cs; }
        }
      }
    }
  }

  lemma {:induction false} RemovedHasKey(cs: seq<Change<LockedProject>>, x: LockedProject)
    requires Removed(x) in cs
    ensures x.id.root in Keys(RootOf, Removals(cs))
  {
    var i :| 0 <= i < |cs| && cs[i] == Removed(x);
    FirstChange(RootOf, cs);
    if i > 0 {
      assert cs[1..][i - 1] == Removed(x);
      RemovedHasKey(cs[1..], x);
    }
  }

  lemma TwoAreCounted(lps: seq<LockedProject>, a: nat, b: nat)
    requires a < b < |lps| && lps[a].id.root == lps[b].id.root
    ensures Keys(RootOf, lps)[lps[a].id.root] >= 2
  {
    hide Keys;
    SplitAt(lps, a);
    SplitAt(lps[a + 1..], b - a - 1);
    KeysOfParts(RootOf, lps[..a], [lps[a]] + lps[a + 1..]);
    KeysCons(RootOf, lps[a], lps[a + 1..]);
    var tail := lps[a + 1..];
    KeysOfParts(RootOf, tail[..b - a - 1], [lps[b]] + tail[b - a..]);
    KeysCons(RootOf, lps[b], tail[b - a..]);
  }

  lemma SplitAt<E>(s: seq<E>, i: nat)
    requires i < |s|
    ensures s == s[..i] + ([s[i]] + s[i + 1..])
  {
  }

  lemma SameRootSameProject(lps: seq<LockedProject>, x: LockedProject, y: LockedProject)
    requires OneEach(lps) && x in lps && y in lps && x.id.root == y.id.root
    ensures x == y
  {
    var i :| 0 <= i < |lps| && lps[i] == x;
    var j :| 0 <= j < |lps| && lps[j] == y;
    if i != j { TwoAreCounted(lps, if i < j then i else j, if i < j then j else i); }
  }

  /** An entry for a project that is added or removed shows all that the lock has of it. */
  predicate Shows(d: LockedProjectDiff, lp: LockedProject) {
    && d.name == lp.id.root
    && d.source == (if lp.id.source == "" then None else Some(StringDiff(lp.id.source, lp.id.source)))
    && (d.version.Some? <==> ReleaseOf(lp.v) != "") && (d.branch.Some? <==> BranchOf(lp.v) != "")
    && (d.revision.Some? <==> RevisionOf(lp.v) != "")
    && (d.version.Some? ==> d.version.value.previous == d.version.value.current == ReleaseOf(lp.v))
    && (d.branch.Some? ==> d.branch.value.previous == d.branch.value.current == BranchOf(lp.v))
    && (d.revision.Some? ==> d.revision.value.previous == d.revision.value.current == RevisionOf(lp.v))
    && |d.packages| == |lp.pkgs|
    && forall i :: 0 <= i < |lp.pkgs| ==> d.packages[i].previous == d.packages[i].current == lp.pkgs[i]
  }

  lemma {:induction false} AddedAre(cs: seq<Change<LockedProject>>, d: LockedProjectDiff)
    ensures d in AddedBy(cs) ==> exists c :: c in cs && c.Added? && Shows(d, c.x)
    ensures d in RemovedBy(cs) ==> exists c :: c in cs && c.Removed? && Shows(d, c.x)
  {
    if cs != [] {
      var front, c := cs[..|cs| - 1], cs[|cs| - 1];
      assert cs == front + [c];
      AddedAre(front, d);
      assert Shows(Built(c.x), c.x);
      hide Built, Shows;
    }
  }

  lemma {:induction false} ChangesComeFrom(cs: seq<Change<LockedProject>>, c: Change<LockedProject>)
    requires c in cs
    ensures !c.Added? ==> c.x in Before(cs)
    ensures c.Added? ==> c.x in After(cs)
    ensures c.Both? ==> c.y in After(cs)
    decreases |cs|
  {
    if c != cs[0] { ChangesComeFrom(cs[1..], c); }
  }

  /** What is added is a project of the new lock and what is removed one of the old, as it is there;
    and the digests are reported when they differ, the old one first. */
  lemma EntriesAreShown(l1: Lock, l2: Lock, r: Option<LockDiff>, d: LockedProjectDiff)
    requires IsLockDiff(l1, l2, r)
    ensures r.Some? && d in r.value.add ==> exists lp :: lp in l2.projects && Shows(d, lp)
    ensures r.Some? && d in r.value.remove ==> exists lp :: lp in l1.projects && Shows(d, lp)
    ensures r.Some? ==> Says(r.value.hashDiff, l1.digest, l2.digest)
  {
    hide Keys, Merge, KeysSorted, SortedProjects, Before, After, Shows;
    var a, b, cs := SortedProjects(l1.projects), SortedProjects(l2.projects), LockChanges(l1, l2);
    ProjectsAreSorted(l1.projects);
    ProjectsAreSorted(l2.projects);
    MergeReplays(RootOf, a, b);
    AddedAre(cs, d);
    forall c | c in cs
      ensures c.Added? ==> c.x in l2.projects
      ensures c.Removed? ==> c.x in l1.projects
    {
      ChangesComeFrom(cs, c);
      if c.Added? { assert c.x in multiset(b) && c.x in multiset(l2.projects); }
      if c.Removed? { assert c.x in multiset(a) && c.x in multiset(l1.projects); }
    }
  }

  /** When each lock has a root once, the pairs that are compared are all pairs of one root. */
  lemma ComparedArePairs(l1: Lock, l2: Lock, x: LockedProject, y: LockedProject)
    requires OneEach(l1.projects) && OneEach(l2.projects)
    ensures Both(x, y) in LockChanges(l1, l2) <==> x in l1.projects && y in l2.projects && x.id.root == y.id.root
  {
    hide Keys, Merge, KeysSorted, SortedProjects, Before, After, OneEach;
    var a, b, cs := SortedProjects(l1.projects), SortedProjects(l2.projects), LockChanges(l1, l2);
    ProjectsAreSorted(l1.projects);
    ProjectsAreSorted(l2.projects);
    assert x in multiset(a) <==> x in multiset(l1.projects);
    assert y in multiset(b) <==> y in multiset(l2.projects);
    MergeReplays(RootOf, a, b);
    BothSidesAreThere(cs);
    if x in l1.projects && y in l2.projects && x.id.root == y.id.root {
      NotRemoved(l1, l2, x, y);
      var y' :| Both(x, y') in cs;
      assert y' in multiset(b) && y' in multiset(l2.projects);
      SameRootSameProject(l2.projects, y, y');
    }
  }

  lemma NotRemoved(l1: Lock, l2: Lock, x: LockedProject, y: LockedProject)
    requires OneEach(l1.projects) && y in l2.projects && x.id.root == y.id.root
    ensures Removed(x) !in LockChanges(l1, l2)
  {
    hide Keys, Merge, KeysSorted, SortedProjects, Additions, Removals;
    var a, b, cs := SortedProjects(l1.projects), SortedProjects(l2.projects), LockChanges(l1, l2);
    ProjectsAreSorted(l1.projects);
    ProjectsAreSorted(l2.projects);
    KeysOfPermutation(RootOf, l1.projects, a);
    KeysOfPermutation(RootOf, l2.projects, b);
    MergeIsDifference(RootOf, a, b);
    var i :| 0 <= i < |l2.projects| && l2.projects[i] == y;
    assert RootOf(l2.projects[i]) == y.id.root;
    KeysHave(RootOf, l2.projects, y.id.root);
    assert x.id.root !in Keys(RootOf, Removals(cs));
    if Removed(x) in cs { RemovedHasKey(cs, x); }
  }

  /** When each lock has a root once, what is modified is exactly what differs between two
    projects of one root. */
  lemma ModifiedAreDifferences(l1: Lock, l2: Lock, r: Option<LockDiff>, d: LockedProjectDiff)
    requires IsLockDiff(l1, l2, r) && OneEach(l1.projects) && OneEach(l2.projects)
    ensures r.Some? && d in r.value.modified <==>
      exists x, y :: x in l1.projects && y in l2.projects && x.id.root == y.id.root && ProjectDiff(x, y) == Some(d)
  {
    hide ProjectDiff, LockChanges, OneEach, AddedBy, RemovedBy;
    var cs := LockChanges(l1, l2);
    ModifiedAre(cs, d);
    if c :| c in cs && c.Both? && ProjectDiff(c.x, c.y) == Some(d) {
      ComparedArePairs(l1, l2, c.x, c.y);
      assert c == Both(c.x, c.y);
    }
    if x, y :| x in l1.projects && y in l2.projects && x.id.root == y.id.root && ProjectDiff(x, y) == Some(d) {
      ComparedArePairs(l1, l2, x, y);
      assert Both(x, y) in cs;
    }
  }

  /** When each lock has a root once, nothing is reported if and only if the digests and the roots
    agree, and no two projects of one root differ. */
  lemma NilWhenSame(l1: Lock, l2: Lock, r: Option<LockDiff>)
    requires IsLockDiff(l1, l2, r) && OneEach(l1.projects) && OneEach(l2.projects)
    ensures r.None? <==>
      && l1.digest == l2.digest
      && Keys(RootOf, l1.projects) == Keys(RootOf, l2.projects)
      && forall x, y :: x in l1.projects && y in l2.projects && x.id.root == y.id.root ==> ProjectDiff(x, y).None?
  {
    var k1, k2 := Keys(RootOf, l1.projects), Keys(RootOf, l2.projects);
    AddAndRemoveAreDifferences(l1, l2, r);
    forall d { ModifiedAreDifferences(l1, l2, r, d); }
    if r.None? {
      assert k2 - k1 == multiset{} && k1 - k2 == multiset{};
      EmptyDifferences(k1, k2);
      forall x, y | x in l1.projects && y in l2.projects && x.id.root == y.id.root ensures ProjectDiff(x, y).None? {
        assert forall d :: ProjectDiff(x, y) != Some(d);
      }
    } else if k1 == k2 {
      assert k2 - k1 == multiset{} && k1 - k2 == multiset{};
      KeysFirst(NameOf, r.value.add);
      KeysFirst(NameOf, r.value.remove);
      if |r.value.modified| > 0 { assert r.value.modified[0] in r.value.modified; }
    }
  }

  lemma EmptyDifferences(a: multiset<string>, b: multiset<string>)
    requires a - b == multiset{} && b - a == multiset{}
    ensures a == b
  {
    forall k ensures a[k] == b[k] {
      assert (a - b)[k] == 0 && (b - a)[k] == 0;
    }
  }
}
