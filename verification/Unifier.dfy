/** The version unifier (gps/version_unifier.go): matching and intersecting across kinds
  of version, by looking names and revisions up in the canonical version list of a project.

  A version list is `None` when it cannot be obtained. */
module Unifier {
  import opened Versions

  type VersionList = Option<seq<Version>>

  /* ----- Pairing through the version list ----- */

  /** The first listed pair that matches the name u. */
  function PairIn(lib: Semver, vl: seq<Version>, u: Unpaired): (p: Option<Version>)
    ensures p.Some? ==> p.value in vl && p.value.Pair? && SameName(lib, p.value.pu, u)
  {
    if vl == [] then None
    else if vl[0].Pair? && VersionMatches(lib, vl[0], Tagged(u)) then Some(vl[0])
    else PairIn(lib, vl[1..], u)
  }

  /** The listed pairs that match the revision r, in list order. */
  function PairsAt(lib: Semver, vl: seq<Version>, r: string): (ps: seq<Version>)
    ensures forall p :: p in ps <==> p in vl && p.Pair? && p.pr == r
  {
    if vl == [] then []
    else (if vl[0].Pair? && VersionMatches(lib, vl[0], Revision(r)) then [vl[0]] else []) + PairsAt(lib, vl[1..], r)
  }

  function PairVersion(lib: Semver, l: VersionList, u: Unpaired): Option<Version> {
    if l.None? then None else PairIn(lib, l.value, u)
  }

  function PairRevisionOf(lib: Semver, l: VersionList, r: string): seq<Version> {
    if l.None? then [] else [Revision(r)] + PairsAt(lib, l.value, r)
  }

  lemma PairsAtStep(lib: Semver, vl: seq<Version>, i: nat, r: string, p: seq<Version>)
    requires i < |vl|
    ensures p + PairsAt(lib, vl[i..], r)
      == (if vl[i].Pair? && VersionMatches(lib, vl[i], Revision(r)) then p + [vl[i]] else p)
         + PairsAt(lib, vl[i + 1..], r)
  {
    assert vl[i..][1..] == vl[i + 1..];
  }

  /** The loop of the source, against `PairRevisionOf`. */
  method PairRevision(lib: Semver, l: VersionList, r: string) returns (p: seq<Version>)
    ensures p == PairRevisionOf(lib, l, r)
  {
    if l.None? { return []; }
    var vl := l.value;
    p := [Revision(r)];
    for i := 0 to |vl|
      invariant p + PairsAt(lib, vl[i..], r) == PairRevisionOf(lib, l, r)
    {
      PairsAtStep(lib, vl, i, r, p);
      if vl[i].Pair? && VersionMatches(lib, vl[i], Revision(r)) {
        p := p + [vl[i]];
      }
    }
    assert vl[|vl|..] == [];
  }

  function CreateTypeUnion(lib: Semver, l: VersionList, v: Version): seq<Version> {
    match v
    case Revision(r) => PairRevisionOf(lib, l, r)
    case Pair(_, r) => PairRevisionOf(lib, l, r)
    case Tagged(u) =>
      match PairVersion(lib, l, u)
      case None => [v]
      case Some(p) => PairRevisionOf(lib, l, p.pr)
  }

  /** The constraint, widened to its union when it is a version. */
  function Widen(lib: Semver, l: VersionList, c: Constraint): Constraint {
    if c.Ver? then Union(CreateTypeUnion(lib, l, c.v)) else c
  }

  predicate UMatches(lib: Semver, l: VersionList, c: Constraint, v: Version) {
    Matches(lib, c, Ver(v)) || Matches(lib, Widen(lib, l, c), Union(CreateTypeUnion(lib, l, v)))
  }

  predicate UMatchesAny(lib: Semver, l: VersionList, c: Constraint, d: Constraint) {
    MatchesAny(lib, c, d) || MatchesAny(lib, Widen(lib, l, c), Widen(lib, l, d))
  }

  function UIntersect(lib: Semver, l: VersionList, c: Constraint, d: Constraint): Constraint {
    var m := Intersect(lib, c, d);
    if m != NoneC then m else Intersect(lib, Widen(lib, l, c), Widen(lib, l, d))
  }

  /** The composite constraint: all of cs, intersected from the left. */
  function Composite(lib: Semver, l: VersionList, acc: Constraint, cs: seq<Constraint>): Constraint
    decreases |cs|
  {
    if cs == [] then acc else Composite(lib, l, UIntersect(lib, l, acc, cs[0]), cs[1..])
  }

  /* ----- What a list says ----- */

  lemma {:induction false} PairInIs(lib: Semver, vl: seq<Version>, u: Unpaired)
    ensures PairIn(lib, vl, u).Some? ==>
      var p := PairIn(lib, vl, u).value; p in vl && p.Pair? && SameName(lib, p.pu, u)
    ensures PairIn(lib, vl, u).None? ==> forall p :: p in vl && p.Pair? ==> !SameName(lib, p.pu, u)
  {
    if vl != [] { PairInIs(lib, vl[1..], u); }
  }

  /** A listed name has one revision. */
  ghost predicate Consistent(lib: Semver, vl: seq<Version>) {
    forall p, q :: p in vl && q in vl && p.Pair? && q.Pair? && SameName(lib, p.pu, q.pu) ==> p.pr == q.pr
  }

  /** The revision a version stands for: its own, or the one its name is listed at. */
  function RevisionOf(lib: Semver, l: VersionList, v: Version): Option<string> {
    match v
    case Revision(r) => Some(r)
    case Pair(_, r) => Some(r)
    case Tagged(u) =>
      match PairVersion(lib, l, u)
      case None => None
      case Some(p) => Some(p.pr)
  }

  /** A pair is listed when the list has its name at its revision; other versions always are. */
  predicate Listed(lib: Semver, l: VersionList, v: Version) {
    v.Pair? ==> RevisionOf(lib, l, Tagged(v.pu)) == Some(v.pr)
  }

  lemma NameHasRevision(lib: Semver, vl: seq<Version>, u: Unpaired, p: Version)
    requires lib.EqualLaws() && Consistent(lib, vl)
    requires p in vl && p.Pair? && SameName(lib, p.pu, u)
    ensures RevisionOf(lib, Some(vl), Tagged(u)) == Some(p.pr)
  {
    PairInIs(lib, vl, u);
  }

  lemma SameNameSameRevision(lib: Semver, vl: seq<Version>, u: Unpaired, w: Unpaired)
    requires lib.EqualLaws() && Consistent(lib, vl) && SameName(lib, u, w)
    ensures RevisionOf(lib, Some(vl), Tagged(u)) == RevisionOf(lib, Some(vl), Tagged(w))
  {
    PairInIs(lib, vl, u);
    PairInIs(lib, vl, w);
  }

  /** The union of v: v's revision with every listed pair at it, or v alone. */
  lemma UnionOf(lib: Semver, vl: seq<Version>, v: Version)
    ensures var us := CreateTypeUnion(lib, Some(vl), v);
      match RevisionOf(lib, Some(vl), v)
      case Some(r) => us == [Revision(r)] + PairsAt(lib, vl, r)
      case None => v.Tagged? && us == [v]
  {
    if v.Tagged? { PairInIs(lib, vl, v.u); }
  }

  /* ----- The unifier's matching is an equivalence on listed versions ----- */

  /** Two versions are the same one if they stand for the same revision, or for none and
    carry the same name. */
  predicate SameVersion(lib: Semver, l: VersionList, a: Version, b: Version) {
    match (RevisionOf(lib, l, a), RevisionOf(lib, l, b))
    case (Some(r), Some(q)) => r == q
    case (None, None) => a.Tagged? && b.Tagged? && SameName(lib, a.u, b.u)
    case _ => false
  }

  /** Any two members of the unions match exactly when the revisions agree. */
  lemma UnionsMatch(lib: Semver, vl: seq<Version>, a: Version, b: Version)
    requires lib.EqualLaws() && Consistent(lib, vl)
    ensures Matches(lib, Union(CreateTypeUnion(lib, Some(vl), a)), Union(CreateTypeUnion(lib, Some(vl), b)))
      <==> SameVersion(lib, Some(vl), a, b)
  {
    var l := Some(vl);
    var us, ws := CreateTypeUnion(lib, l, a), CreateTypeUnion(lib, l, b);
    UnionOf(lib, vl, a);
    UnionOf(lib, vl, b);
    if SameVersion(lib, l, a, b) {
      assert VersionMatches(lib, us[0], ws[0]);
    } else {
      forall i, j | 0 <= i < |us| && 0 <= j < |ws|
        ensures !VersionMatches(lib, us[i], ws[j])
      {
        UnionMember(lib, vl, a, us[i]);
        UnionMember(lib, vl, b, ws[j]);
        if VersionMatches(lib, us[i], ws[j]) {
          MembersMatch(lib, vl, a, b, us[i], ws[j]);
        }
      }
    }
  }

  lemma UnionMember(lib: Semver, vl: seq<Version>, v: Version, m: Version)
    requires m in CreateTypeUnion(lib, Some(vl), v)
    ensures RevisionOf(lib, Some(vl), v).Some? ==>
      m == Revision(RevisionOf(lib, Some(vl), v).value)
      || (m.Pair? && m in vl && m.pr == RevisionOf(lib, Some(vl), v).value)
    ensures RevisionOf(lib, Some(vl), v).None? ==> m == v && v.Tagged?
  {
    UnionOf(lib, vl, v);
  }

  lemma MembersMatch(lib: Semver, vl: seq<Version>, a: Version, b: Version, m: Version, n: Version)
    requires lib.EqualLaws() && Consistent(lib, vl)
    requires m in CreateTypeUnion(lib, Some(vl), a) && n in CreateTypeUnion(lib, Some(vl), b)
    requires VersionMatches(lib, m, n)
    ensures SameVersion(lib, Some(vl), a, b)
  {
    UnionMember(lib, vl, a, m);
    UnionMember(lib, vl, b, n);
    if m.Pair? && n.Tagged? { NameHasRevision(lib, vl, n.u, m); }
    if n.Pair? && m.Tagged? { NameHasRevision(lib, vl, m.u, n); }
  }

  /** A direct match of two listed versions is a match of what they stand for. */
  lemma DirectMatchIsSame(lib: Semver, vl: seq<Version>, a: Version, b: Version)
    requires lib.EqualLaws() && Consistent(lib, vl)
    requires Listed(lib, Some(vl), a) && Listed(lib, Some(vl), b)
    requires VersionMatches(lib, a, b)
    ensures SameVersion(lib, Some(vl), a, b)
  {
    match (a, b)
    case (Tagged(u), Tagged(w)) => SameNameSameRevision(lib, vl, u, w);
    case (Tagged(u), Pair(w, _)) => SameNameSameRevision(lib, vl, u, w);
    case (Pair(u, _), Tagged(w)) => SameNameSameRevision(lib, vl, u, w);
    case _ =>
  }

  /** Between listed versions, `matches` holds exactly when they are the same version. */
  lemma MatchesIsSameVersion(lib: Semver, vl: seq<Version>, a: Version, b: Version)
    requires lib.EqualLaws() && Consistent(lib, vl)
    requires Listed(lib, Some(vl), a) && Listed(lib, Some(vl), b)
    ensures UMatches(lib, Some(vl), Ver(a), b) <==> SameVersion(lib, Some(vl), a, b)
  {
    UnionsMatch(lib, vl, a, b);
    if VersionMatches(lib, a, b) { DirectMatchIsSame(lib, vl, a, b); }
  }

  lemma SameVersionIsEquivalence(lib: Semver, l: VersionList, a: Version, b: Version, c: Version)
    requires lib.EqualLaws()
    ensures SameVersion(lib, l, a, a)
    ensures SameVersion(lib, l, a, b) ==> SameVersion(lib, l, b, a)
    ensures SameVersion(lib, l, a, b) && SameVersion(lib, l, b, c) ==> SameVersion(lib, l, a, c)
  {
  }

  lemma MatchesIsEquivalence(lib: Semver, vl: seq<Version>, a: Version, b: Version, c: Version)
    requires lib.EqualLaws() && Consistent(lib, vl)
    requires Listed(lib, Some(vl), a) && Listed(lib, Some(vl), b) && Listed(lib, Some(vl), c)
    ensures UMatches(lib, Some(vl), Ver(a), a)
    ensures UMatches(lib, Some(vl), Ver(a), b) ==> UMatches(lib, Some(vl), Ver(b), a)
    ensures UMatches(lib, Some(vl), Ver(a), b) && UMatches(lib, Some(vl), Ver(b), c) ==>
      UMatches(lib, Some(vl), Ver(a), c)
  {
    MatchesIsSameVersion(lib, vl, a, a);
    MatchesIsSameVersion(lib, vl, a, b);
    MatchesIsSameVersion(lib, vl, b, a);
    MatchesIsSameVersion(lib, vl, b, c);
    MatchesIsSameVersion(lib, vl, a, c);
    SameVersionIsEquivalence(lib, Some(vl), a, b, c);
  }

  /* ----- The unifier's overlap is its intersection ----- */

  lemma UMatchesAnyIsUIntersect(lib: Semver, l: VersionList, c: Constraint, d: Constraint)
    requires lib.OverlapLaws()
    ensures UMatchesAny(lib, l, c, d) <==> UIntersect(lib, l, c, d) != NoneC || (c.AnyC? && d.NoneC?)
  {
    MatchesAnyIsIntersect(lib, c, d);
    MatchesAnyIsIntersect(lib, Widen(lib, l, c), Widen(lib, l, d));
  }

  /* ----- The composite constraint is sound ----- */

  /** The one way past a composite: c asks for a pair, and v has the name but another revision. */
  predicate Misses(lib: Semver, c: Constraint, v: Version) {
    c.Ver? && c.v.Pair? && v.Pair? && SameName(lib, c.v.pu, v.pu) && c.v.pr != v.pr
  }

  lemma MissedIsNotMatched(lib: Semver, l: VersionList, c: Constraint, v: Version)
    requires lib.EqualLaws() && (l.Some? ==> Consistent(lib, l.value)) && Settled(lib, l, c)
    ensures UMatches(lib, l, c, v) ==> !Misses(lib, c, v)
  {
    if l.Some? && c.Ver? { VersionMatching(lib, l.value, c.v, v); }
  }

  /** What matching a version against a single version comes to, for any pair of versions. */
  predicate Agrees(lib: Semver, l: VersionList, a: Version, v: Version) {
    VersionMatches(lib, a, v) || SameVersion(lib, l, a, v)
  }

  lemma VersionMatching(lib: Semver, vl: seq<Version>, a: Version, v: Version)
    requires lib.EqualLaws() && Consistent(lib, vl)
    ensures UMatches(lib, Some(vl), Ver(a), v) <==> Agrees(lib, Some(vl), a, v)
  {
    UnionsMatch(lib, vl, a, v);
  }

  /** Matching a range: the version itself is in it, or a listed semver at its revision is. */
  lemma RangeMatching(lib: Semver, vl: seq<Version>, k: string, v: Version)
    ensures UMatches(lib, Some(vl), Range(k), v) <==>
      RangeMatches(lib, k, v)
      || exists p :: p in vl && p.Pair? && Some(p.pr) == RevisionOf(lib, Some(vl), v) && RangeMatches(lib, k, p)
  {
    var us := CreateTypeUnion(lib, Some(vl), v);
    UnionOf(lib, vl, v);
    if i :| 0 <= i < |us| && RangeMatches(lib, k, us[i]) {
      UnionMember(lib, vl, v, us[i]);
    }
    if p :| p in vl && p.Pair? && Some(p.pr) == RevisionOf(lib, Some(vl), v) && RangeMatches(lib, k, p) {
      assert p in us;
    }
  }

  /** Without a list too: a version that the intersection of two versions matches is matched by the
    first; and by the second, unless it misses that, or the second is a bare name, which says
    nothing of revisions.  What is not a bare name and is matched by both, the intersection matches. */
  lemma DirectMeet(lib: Semver, a: Version, b: Version, v: Version)
    requires lib.OverlapLaws() && VersionMatches(lib, a, b)
    ensures var m := VersionIntersect(lib, a, Ver(b));
      && m.Ver? && (VersionMatches(lib, m.v, v) ==>
            && VersionMatches(lib, a, v)
            && (VersionMatches(lib, b, v) || Misses(lib, Ver(b), v) || (a.Pair? && b.Tagged? && !v.Tagged?)))
      && (VersionMatches(lib, a, v) && VersionMatches(lib, b, v) && !v.Tagged? ==> VersionMatches(lib, m.v, v))
  {
  }

  /** Intersecting makes no union, and makes only listed pairs out of listed ones. */
  predicate Settled(lib: Semver, l: VersionList, c: Constraint) {
    !c.Union? && (c.Ver? ==> Listed(lib, l, c.v))
  }

  /** The intersection of two versions, when it is not empty. */
  lemma VersionsMeet(lib: Semver, vl: seq<Version>, a: Version, b: Version)
    requires lib.OverlapLaws() && Consistent(lib, vl)
    ensures var m := UIntersect(lib, Some(vl), Ver(a), Ver(b));
      || (VersionMatches(lib, a, b) && m == VersionIntersect(lib, a, Ver(b)))
      || (!VersionMatches(lib, a, b) && m == NoneC && !SameVersion(lib, Some(vl), a, b))
      || (SameVersion(lib, Some(vl), a, b) && RevisionOf(lib, Some(vl), a).Some?
          && m == Ver(Revision(RevisionOf(lib, Some(vl), a).value)))
  {
    hide RevisionOf, CreateTypeUnion;
    VersionOverlap(lib, a, Ver(b));
    if !VersionMatches(lib, a, b) {
      var us, ws := CreateTypeUnion(lib, Some(vl), a), CreateTypeUnion(lib, Some(vl), b);
      UnionOf(lib, vl, a);
      UnionOf(lib, vl, b);
      UnionsMatch(lib, vl, a, b);
      FirstOfUnionsIs(lib, us, ws);
    }
  }

  /** A range met with a version is that version, or a listed semver at its revision. */
  lemma RangeMeets(lib: Semver, vl: seq<Version>, k: string, b: Version)
    requires lib.OverlapLaws()
    ensures var m := Intersect(lib, Range(k), Union(CreateTypeUnion(lib, Some(vl), b)));
      m == NoneC || (m.Ver? && RangeMatches(lib, k, m.v)
        && (m.v == b || (m.v in vl && m.v.Pair? && Some(m.v.pr) == RevisionOf(lib, Some(vl), b))))
    ensures Intersect(lib, Union(CreateTypeUnion(lib, Some(vl), b)), Range(k)) ==
      Intersect(lib, Range(k), Union(CreateTypeUnion(lib, Some(vl), b)))
  {
    var us := CreateTypeUnion(lib, Some(vl), b);
    FirstInRangeIs(lib, k, us);
    if i :| 0 <= i < |us| && RangeMatches(lib, k, us[i]) && FirstInRange(lib, k, us) == Ver(us[i]) {
      UnionMember(lib, vl, b, us[i]);
    }
    RangeCommutes(lib, k, us);
  }

  lemma RangeCommutes(lib: Semver, k: string, us: seq<Version>)
    requires lib.OverlapLaws()
    ensures FirstOfUnion(lib, us, Range(k)) == FirstInRange(lib, k, us)
  {
  }

  /** Meeting a range with a version b gives a version that stands for b and lies in the range. */
  lemma RangeVersionMeet(lib: Semver, vl: seq<Version>, k: string, b: Version)
    requires lib.OverlapLaws()
    ensures UIntersect(lib, Some(vl), Range(k), Ver(b)) == UIntersect(lib, Some(vl), Ver(b), Range(k))
    ensures var m := UIntersect(lib, Some(vl), Range(k), Ver(b));
      m == NoneC || (m.Ver? && RangeMatches(lib, k, m.v)
        && (m.v == b || (m.v in vl && m.v.Pair? && Some(m.v.pr) == RevisionOf(lib, Some(vl), b))))
  {
    RangeOverlap(lib, k, b);
    RangeMeets(lib, vl, k, b);
  }

  /** A listed version in a range has a listed semver at its revision in that range, if it
    stands for a revision at all. */
  lemma ListedInRange(lib: Semver, vl: seq<Version>, k: string, m: Version) returns (p: Version)
    requires lib.OverlapLaws() && Consistent(lib, vl)
    requires RangeMatches(lib, k, m) && RevisionOf(lib, Some(vl), m).Some?
    requires m in vl || Listed(lib, Some(vl), m)
    ensures p in vl && p.Pair? && p.pr == RevisionOf(lib, Some(vl), m).value && RangeMatches(lib, k, p)
  {
    if m.Pair? && m in vl {
      p := m;
    } else {
      var u := if m.Tagged? then m.u else m.pu;
      p := PairIn(lib, vl, u).value;
    }
  }

  lemma InPairListIsListed(lib: Semver, vl: seq<Version>, p: Version)
    requires lib.EqualLaws() && Consistent(lib, vl) && p in vl && p.Pair?
    ensures Listed(lib, Some(vl), p)
  {
    assert SameName(lib, p.pu, p.pu);
    NameHasRevision(lib, vl, p.pu, p);
  }

  /** A version matching a listed pair stands for the pair's revision. */
  lemma MatchesListedPair(lib: Semver, vl: seq<Version>, m: Version, v: Version)
    requires lib.EqualLaws() && Consistent(lib, vl)
    requires m.Pair? && Listed(lib, Some(vl), m) && UMatches(lib, Some(vl), Ver(m), v)
    ensures RevisionOf(lib, Some(vl), v) == Some(m.pr)
  {
    VersionMatching(lib, vl, m, v);
    if v.Tagged? && VersionMatches(lib, m, v) { SameNameSameRevision(lib, vl, m.pu, v.u); }
  }

  lemma RangeVersionSound(lib: Semver, vl: seq<Version>, k: string, b: Version, v: Version)
    requires lib.OverlapLaws() && Consistent(lib, vl) && Listed(lib, Some(vl), b)
    requires UMatches(lib, Some(vl), UIntersect(lib, Some(vl), Range(k), Ver(b)), v)
    ensures UMatches(lib, Some(vl), Range(k), v) && UMatches(lib, Some(vl), Ver(b), v)
  {
    var l := Some(vl);
    RangeVersionMeet(lib, vl, k, b);
    var m := UIntersect(lib, l, Range(k), Ver(b)).v;
    VersionMatching(lib, vl, m, v);
    VersionMatching(lib, vl, b, v);
    RangeMatching(lib, vl, k, v);
    if m.Pair? {
      if m in vl { InPairListIsListed(lib, vl, m); }
      MatchesListedPair(lib, vl, m, v);
      var p := ListedInRange(lib, vl, k, m);
    } else if !VersionMatches(lib, m, v) && RevisionOf(lib, l, m).Some? {
      var p := ListedInRange(lib, vl, k, m);
    }
  }

  lemma RangeMeetIn(lib: Semver, k: string, e: string, m: string, v: Version)
    requires lib.Laws() && lib.meet(k, e) == Some(m) && RangeMatches(lib, m, v)
    ensures RangeMatches(lib, k, v) && RangeMatches(lib, e, v)
  {
  }

  lemma RangesSound(lib: Semver, vl: seq<Version>, k: string, e: string, v: Version)
    requires lib.Laws()
    requires UMatches(lib, Some(vl), UIntersect(lib, Some(vl), Range(k), Range(e)), v)
    ensures UMatches(lib, Some(vl), Range(k), v) && UMatches(lib, Some(vl), Range(e), v)
  {
    var m := lib.meet(k, e).value;
    hide UMatches, RevisionOf, RangeMatches;
    RangeMatching(lib, vl, m, v);
    RangeMatching(lib, vl, k, v);
    RangeMatching(lib, vl, e, v);
    if RangeMatches(lib, m, v) {
      RangeMeetIn(lib, k, e, m, v);
    } else {
      var p :| p in vl && p.Pair? && Some(p.pr) == RevisionOf(lib, Some(vl), v) && RangeMatches(lib, m, p);
      RangeMeetIn(lib, k, e, m, p);
    }
  }

  lemma VersionsSound(lib: Semver, vl: seq<Version>, a: Version, b: Version, v: Version)
    requires lib.OverlapLaws() && Consistent(lib, vl)
    requires Listed(lib, Some(vl), a) && Listed(lib, Some(vl), b)
    requires UMatches(lib, Some(vl), UIntersect(lib, Some(vl), Ver(a), Ver(b)), v)
    ensures UMatches(lib, Some(vl), Ver(a), v) && (UMatches(lib, Some(vl), Ver(b), v) || Misses(lib, Ver(b), v))
  {
    var l := Some(vl);
    VersionsMeet(lib, vl, a, b);
    VersionMatching(lib, vl, a, v);
    VersionMatching(lib, vl, b, v);
    var m := UIntersect(lib, l, Ver(a), Ver(b));
    if VersionMatches(lib, a, b) && m == VersionIntersect(lib, a, Ver(b)) {
      DirectMatchIsSame(lib, vl, a, b);
      VersionMatching(lib, vl, VersionIntersect(lib, a, Ver(b)).v, v);
      DirectVersionsSound(lib, vl, a, b, v);
    } else {
      VersionMatching(lib, vl, Revision(RevisionOf(lib, l, a).value), v);
      hide UMatches;
    }
  }

  lemma DirectVersionsSound(lib: Semver, vl: seq<Version>, a: Version, b: Version, v: Version)
    requires lib.OverlapLaws() && Consistent(lib, vl)
    requires Listed(lib, Some(vl), a) && Listed(lib, Some(vl), b)
    requires VersionMatches(lib, a, b) && SameVersion(lib, Some(vl), a, b)
    requires Agrees(lib, Some(vl), VersionIntersect(lib, a, Ver(b)).v, v)
    ensures Agrees(lib, Some(vl), a, v) && (Agrees(lib, Some(vl), b, v) || Misses(lib, Ver(b), v))
  {
    hide CreateTypeUnion, PairVersion;
    var l := Some(vl);
    var m := VersionIntersect(lib, a, Ver(b)).v;
    if SameVersion(lib, l, m, v) {
      SameVersionIsEquivalence(lib, l, a, m, v);
      SameVersionIsEquivalence(lib, l, b, a, v);
    } else if m.Pair? || b.Pair? {
      if v.Tagged? {
        SameNameSameRevision(lib, vl, if m.Pair? then m.pu else m.u, v.u);
      }
    }
  }

  /** Intersecting stays among settled constraints; in particular a union never escapes. */
  lemma IntersectIsSettled(lib: Semver, l: VersionList, c: Constraint, d: Constraint)
    requires lib.OverlapLaws() && (l.Some? ==> Consistent(lib, l.value))
    requires Settled(lib, l, c) && Settled(lib, l, d)
    ensures Settled(lib, l, UIntersect(lib, l, c, d))
  {
    if l.None? {
      WithoutList(lib, c, d);
    } else {
      var vl := l.value;
      match (c, d)
      case (Ver(a), Ver(b)) => VersionsMeet(lib, vl, a, b);
      case (Ver(a), Range(k)) =>
        RangeVersionMeet(lib, vl, k, a);
        ListedMeet(lib, vl, UIntersect(lib, l, d, c), a);
      case (Range(k), Ver(b)) =>
        RangeVersionMeet(lib, vl, k, b);
        ListedMeet(lib, vl, UIntersect(lib, l, c, d), b);
      case (Ver(a), NoneC) => FirstOfUnionIs(lib, CreateTypeUnion(lib, l, a), d);
      case _ =>
    }
  }

  lemma ListedMeet(lib: Semver, vl: seq<Version>, m: Constraint, b: Version)
    requires lib.EqualLaws() && Consistent(lib, vl) && Listed(lib, Some(vl), b)
    requires m == NoneC || (m.Ver? && (m.v == b || (m.v in vl && m.v.Pair?)))
    ensures Settled(lib, Some(vl), m)
  {
    if m.Ver? && m.v != b { InPairListIsListed(lib, vl, m.v); }
  }

  /** Without a version list the unifier adds nothing to the direct operations. */
  lemma WithoutList(lib: Semver, c: Constraint, d: Constraint)
    requires lib.OverlapLaws() && !c.Union? && !d.Union?
    ensures UIntersect(lib, None, c, d) == Intersect(lib, c, d)
  {
    if c.Ver? { FirstOfUnionIs(lib, CreateTypeUnion(lib, None, c.v), d); VersionOverlap(lib, c.v, d); }
    if d.Ver? && c.Range? { FirstInRangeIs(lib, c.c, CreateTypeUnion(lib, None, d.v)); }
    if c.Ver? && d.Ver? { FirstOfUnionsIs(lib, CreateTypeUnion(lib, None, c.v), CreateTypeUnion(lib, None, d.v)); }
  }

  /** A version that matches an intersection matches the left side, and the right side unless
    it misses it. */
  lemma IntersectIsSound(lib: Semver, l: VersionList, c: Constraint, d: Constraint, v: Version)
    requires lib.Laws() && (l.Some? ==> Consistent(lib, l.value))
    requires Settled(lib, l, c) && Settled(lib, l, d)
    requires UMatches(lib, l, UIntersect(lib, l, c, d), v)
    ensures UMatches(lib, l, c, v) && (UMatches(lib, l, d, v) <==> !Misses(lib, d, v))
  {
    MissedIsNotMatched(lib, l, d, v);
    if l.None? {
      IntersectIsSoundWithoutList(lib, c, d, v);
    } else {
      match (c, d)
      case (Ver(a), Ver(b)) => VersionsSound(lib, l.value, a, b, v);
      case (Ver(a), Range(k)) =>
        RangeVersionMeet(lib, l.value, k, a);
        RangeVersionSound(lib, l.value, k, a, v);
      case (Range(k), Ver(b)) => RangeVersionSound(lib, l.value, k, b, v);
      case (Range(k), Range(e)) => RangesSound(lib, l.value, k, e, v);
      case (Ver(a), NoneC) => FirstOfUnionIs(lib, CreateTypeUnion(lib, l, a), d);
      case _ =>
    }
  }

  lemma IntersectIsSoundWithoutList(lib: Semver, c: Constraint, d: Constraint, v: Version)
    requires lib.Laws() && Settled(lib, None, c) && Settled(lib, None, d)
    requires UMatches(lib, None, UIntersect(lib, None, c, d), v)
    ensures UMatches(lib, None, c, v) && UMatches(lib, None, d, v)
  {
    WithoutList(lib, c, d);
    MatchesWithoutList(lib, UIntersect(lib, None, c, d), v);
    MatchesWithoutList(lib, c, v);
    MatchesWithoutList(lib, d, v);
  }

  lemma MatchesWithoutList(lib: Semver, c: Constraint, v: Version)
    requires lib.OverlapLaws() && !c.Union?
    ensures UMatches(lib, None, c, v) <==> Matches(lib, c, Ver(v))
  {
  }

  /** A version that matches the composite of all constraints matches exactly those of them
    that it does not miss. */
  lemma {:induction false} CompositeIsExact(lib: Semver, l: VersionList, acc: Constraint, cs: seq<Constraint>,
                                            v: Version)
    requires lib.Laws() && (l.Some? ==> Consistent(lib, l.value))
    requires Settled(lib, l, acc) && forall c :: c in cs ==> Settled(lib, l, c)
    requires UMatches(lib, l, Composite(lib, l, acc, cs), v)
    ensures UMatches(lib, l, acc, v) && forall c :: c in cs ==> (UMatches(lib, l, c, v) <==> !Misses(lib, c, v))
    decreases |cs|
  {
    if cs != [] {
      IntersectIsSettled(lib, l, acc, cs[0]);
      assert forall c :: c in cs[1..] ==> c in cs;
      CompositeIsExact(lib, l, UIntersect(lib, l, acc, cs[0]), cs[1..], v);
      IntersectIsSound(lib, l, acc, cs[0], v);
      assert forall c :: c in cs ==> c == cs[0] || c in cs[1..];
    }
  }

  /** A listed version misses nothing, so it matches every constraint if it matches the
    composite; and where no constraint is a pair every version does. */
  lemma CompositeIsSound(lib: Semver, l: VersionList, acc: Constraint, cs: seq<Constraint>, v: Version)
    requires lib.Laws() && (l.Some? ==> Consistent(lib, l.value))
    requires Settled(lib, l, acc) && forall c :: c in cs ==> Settled(lib, l, c)
    requires (exists c :: c in cs && c.Ver? && c.v.Pair?) ==> Listed(lib, l, v)
    requires UMatches(lib, l, Composite(lib, l, acc, cs), v)
    ensures UMatches(lib, l, acc, v) && forall c :: c in cs ==> UMatches(lib, l, c, v)
  {
    CompositeIsExact(lib, l, acc, cs, v);
    forall c | c in cs
      ensures !Misses(lib, c, v)
    {
      if Misses(lib, c, v) { ListedMissesNothing(lib, l, c, v); }
    }
  }

  lemma ListedMissesNothing(lib: Semver, l: VersionList, c: Constraint, v: Version)
    requires lib.Laws() && (l.Some? ==> Consistent(lib, l.value))
    requires Settled(lib, l, c) && Listed(lib, l, v)
    ensures !Misses(lib, c, v)
  {
    if c.Ver? && c.v.Pair? && v.Pair? && l.Some? && SameName(lib, c.v.pu, v.pu) {
      SameNameSameRevision(lib, l.value, c.v.pu, v.pu);
    }
  }

  /** A branch met with a pair on that branch gives back the bare branch, so a pair of the
    same branch at an outdated revision gets through.  No constraint of a manifest is a pair
    (`World.Declared`), so the solver is not handed this one. */
  lemma StalePairEscapes(lib: Semver)
    requires lib.Laws()
    ensures
      var main := Branch("main", false);
      var vl := [Pair(main, "r1")];
      var cs := [Ver(Tagged(main)), Ver(Pair(main, "r1"))];
      && Consistent(lib, vl) && (forall c :: c in cs ==> Settled(lib, Some(vl), c))
      && UMatches(lib, Some(vl), Composite(lib, Some(vl), AnyC, cs), Pair(main, "r0"))
      && !UMatches(lib, Some(vl), cs[1], Pair(main, "r0"))
  {
    var main := Branch("main", false);
    var vl := [Pair(main, "r1")];
    var cs := [Ver(Tagged(main)), Ver(Pair(main, "r1"))];
    assert UIntersect(lib, Some(vl), AnyC, cs[0]) == cs[0];
    assert UIntersect(lib, Some(vl), cs[0], cs[1..][0]) == cs[0];
    assert Composite(lib, Some(vl), AnyC, cs) == Composite(lib, Some(vl), cs[0], cs[1..][1..]);
    VersionMatching(lib, vl, Pair(main, "r1"), Pair(main, "r0"));
  }
}
