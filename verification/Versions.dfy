/** Versions and constraints (gps/version.go, gps/constraints.go).

  Every version is also a constraint.  Three operations are defined between
  constraints: `Matches`, `MatchesAny` and `Intersect`.  The source writes each of
  them as one type switch per kind; the functions below keep those switches. */
module Versions {
  datatype Option<+T> = None | Some(value: T)

  /** A version name that carries no revision.  Semantic versions are identified by
    the text they were parsed from. */
  datatype Unpaired = Branch(name: string, isDefault: bool) | Plain(tag: string) | Sem(sv: string)

  datatype Version = Revision(r: string) | Tagged(u: Unpaired) | Pair(pu: Unpaired, pr: string)

  /** `Union` is the versionTypeUnion of the unifier: versions that are alternatives. */
  datatype Constraint = AnyC | NoneC | Range(c: string) | Ver(v: Version) | Union(vs: seq<Version>)

  /** The operations used from the semver library.  `meetVer(c, s)` says that intersecting
    the range c with the single version s is not empty. */
  datatype Semver = Semver(
    equal: (string, string) -> bool,
    matches: (string, string) -> bool,
    meetVer: (string, string) -> bool,
    meet: (string, string) -> Option<string>)
  {
    ghost predicate EqualLaws() {
      && (forall a :: equal(a, a))
      && (forall a, b :: equal(a, b) ==> equal(b, a))
      && (forall a, b, c :: equal(a, b) && equal(b, c) ==> equal(a, c))
    }

    /** Intersecting a range with one version agrees with matching it, equal versions are
      treated alike, and whether two ranges overlap does not depend on their order. */
    ghost predicate OverlapLaws() {
      && EqualLaws()
      && (forall c, s :: meetVer(c, s) <==> matches(c, s))
      && (forall c, s, t :: equal(s, t) && matches(c, s) ==> matches(c, t))
      && (forall c, d :: meet(c, d).None? <==> meet(d, c).None?)
    }

    /** A version in the intersection of two ranges lies in both. */
    ghost predicate MeetLaw() {
      forall c, d, s :: meet(c, d).Some? && matches(meet(c, d).value, s) ==> matches(c, s) && matches(d, s)
    }

    ghost predicate Laws() {
      OverlapLaws() && MeetLaw()
    }
  }

  /* ----- Matches ----- */

  predicate SameName(lib: Semver, a: Unpaired, b: Unpaired) {
    match (a, b)
    case (Branch(m, _), Branch(n, _)) => m == n
    case (Plain(s), Plain(t)) => s == t
    case (Sem(s), Sem(t)) => lib.equal(s, t)
    case _ => false
  }

  /** Version a, acting as a constraint, against the single version b. */
  predicate VersionMatches(lib: Semver, a: Version, b: Version) {
    match (a, b)
    case (Revision(r), Revision(q)) => r == q
    case (Revision(r), Pair(_, q)) => r == q
    case (Revision(_), Tagged(_)) => false
    case (Tagged(_), Revision(_)) => false
    case (Tagged(u), Tagged(w)) => SameName(lib, u, w)
    case (Tagged(u), Pair(w, _)) => SameName(lib, w, u)
    case (Pair(_, r), Pair(_, q)) => r == q
    case (Pair(_, r), Revision(q)) => r == q
    case (Pair(u, _), Tagged(w)) => SameName(lib, u, w)
  }

  predicate RangeMatches(lib: Semver, c: string, v: Version) {
    match v
    case Tagged(Sem(s)) => lib.matches(c, s)
    case Pair(Sem(s), _) => lib.matches(c, s)
    case _ => false
  }

  /** The argument is a version in the sense of the source: a single one or a union. */
  predicate IsVersion(x: Constraint) {
    x.Ver? || x.Union?
  }

  predicate Matches(lib: Semver, c: Constraint, x: Constraint)
    requires IsVersion(x)
  {
    match (c, x)
    case (AnyC, _) => true
    case (NoneC, _) => false
    case (Range(k), Ver(v)) => RangeMatches(lib, k, v)
    case (Range(k), Union(vs)) => exists i :: 0 <= i < |vs| && RangeMatches(lib, k, vs[i])
    case (Ver(a), Ver(v)) => VersionMatches(lib, a, v)
    case (Ver(a), Union(vs)) => exists i :: 0 <= i < |vs| && VersionMatches(lib, vs[i], a)
    case (Union(us), Ver(v)) => exists i :: 0 <= i < |us| && VersionMatches(lib, us[i], v)
    case (Union(us), Union(vs)) =>
      exists i, j :: 0 <= i < |us| && 0 <= j < |vs| && VersionMatches(lib, us[i], vs[j])
  }

  /* ----- Intersect ----- */

  /** A range intersected with a constraint that is not a union. */
  function RangeIntersect(lib: Semver, c: string, d: Constraint): Constraint
    requires !d.Union?
  {
    match d
    case AnyC => Range(c)
    case Range(e) => (match lib.meet(c, e) case Some(m) => Range(m) case None => NoneC)
    case Ver(Tagged(Sem(s))) => if lib.meetVer(c, s) then d else NoneC
    case Ver(Pair(Sem(s), _)) => if lib.meetVer(c, s) then d else NoneC
    case _ => NoneC
  }

  /** A single version intersected with a constraint that is not a union. */
  function VersionIntersect(lib: Semver, a: Version, d: Constraint): Constraint
    requires !d.Union?
  {
    match (a, d)
    case (_, AnyC) => Ver(a)
    case (_, NoneC) => NoneC
    case (Revision(r), Ver(Revision(q))) => if r == q then Ver(a) else NoneC
    case (Revision(r), Ver(Pair(_, q))) => if r == q then Ver(a) else NoneC
    case (Revision(_), _) => NoneC
    case (Tagged(u), Ver(Tagged(w))) => if SameName(lib, u, w) then Ver(a) else NoneC
    case (Tagged(u), Ver(Pair(w, _))) => if SameName(lib, u, w) then Ver(a) else NoneC
    case (Tagged(Sem(_)), Range(c)) => RangeIntersect(lib, c, Ver(a))
    case (Tagged(_), _) => NoneC
    case (Pair(_, r), Ver(Pair(_, q))) => if r == q then Ver(Revision(r)) else NoneC
    case (Pair(_, r), Ver(Revision(q))) => if r == q then Ver(Revision(r)) else NoneC
    case (Pair(Sem(s), _), Range(c)) =>
      if RangeIntersect(lib, c, Ver(Tagged(Sem(s)))) == Ver(Tagged(Sem(s))) then Ver(a) else NoneC
    case (Pair(_, _), Range(_)) => NoneC
    case (Pair(u, _), Ver(Tagged(w))) =>
      if u.Sem? then (if w.Sem? && lib.equal(u.sv, w.sv) then Ver(a) else NoneC)
      else if VersionMatches(lib, Tagged(w), a) then Ver(a) else NoneC
  }

  /** The first non-empty intersection of a member of vs with d. */
  function FirstOfUnion(lib: Semver, vs: seq<Version>, d: Constraint): Constraint
    requires !d.Union?
  {
    if vs == [] then NoneC
    else
      var m := VersionIntersect(lib, vs[0], d);
      if m != NoneC then m else FirstOfUnion(lib, vs[1..], d)
  }

  /** The first non-empty intersection of a with a member of ws. */
  function FirstAgainst(lib: Semver, a: Version, ws: seq<Version>): Constraint {
    if ws == [] then NoneC
    else
      var m := VersionIntersect(lib, a, Ver(ws[0]));
      if m != NoneC then m else FirstAgainst(lib, a, ws[1..])
  }

  function FirstOfUnions(lib: Semver, vs: seq<Version>, ws: seq<Version>): Constraint {
    if vs == [] then NoneC
    else
      var m := FirstAgainst(lib, vs[0], ws);
      if m != NoneC then m else FirstOfUnions(lib, vs[1..], ws)
  }

  function FirstInRange(lib: Semver, c: string, ws: seq<Version>): Constraint {
    if ws == [] then NoneC
    else
      var m := RangeIntersect(lib, c, Ver(ws[0]));
      if m != NoneC then m else FirstInRange(lib, c, ws[1..])
  }

  function Intersect(lib: Semver, c: Constraint, d: Constraint): Constraint {
    match (c, d)
    case (AnyC, _) => d
    case (NoneC, _) => NoneC
    case (Range(k), Union(ws)) => FirstInRange(lib, k, ws)
    case (Range(k), _) => RangeIntersect(lib, k, d)
    case (Ver(a), Union(ws)) => FirstOfUnion(lib, ws, c)
    case (Ver(a), _) => VersionIntersect(lib, a, d)
    case (Union(vs), Union(ws)) => FirstOfUnions(lib, vs, ws)
    case (Union(vs), _) => FirstOfUnion(lib, vs, d)
  }

  /* ----- MatchesAny ----- */

  /** A single version asked whether it overlaps a constraint that is not a union. */
  predicate VersionMatchesAny(lib: Semver, a: Version, d: Constraint)
    requires !d.Union?
  {
    if a.Pair? then Matches(lib, d, Ver(a)) else
    match (a, d)
    case (_, AnyC) => true
    case (_, NoneC) => false
    case (Revision(r), Ver(Revision(q))) => r == q
    case (Revision(r), Ver(Pair(_, q))) => r == q
    case (Tagged(u), Ver(Tagged(w))) => SameName(lib, u, w)
    case (Tagged(u), Ver(Pair(w, _))) => SameName(lib, w, u)
    case (Tagged(Sem(_)), Range(c)) => RangeIntersect(lib, c, Ver(a)) != NoneC
    case _ => false
  }

  predicate MatchesAny(lib: Semver, c: Constraint, d: Constraint) {
    match (c, d)
    case (AnyC, _) => true
    case (NoneC, _) => false
    case (Range(_), _) => Intersect(lib, c, d) != NoneC
    case (Ver(Pair(_, _)), Union(_)) => Matches(lib, d, c)
    case (Ver(_), Union(ws)) => exists i :: 0 <= i < |ws| && VersionMatchesAny(lib, ws[i], c)
    case (Ver(a), _) => VersionMatchesAny(lib, a, d)
    case (Union(vs), Union(ws)) =>
      exists i, j :: 0 <= i < |vs| && 0 <= j < |ws| && VersionMatchesAny(lib, vs[i], Ver(ws[j]))
    case (Union(vs), _) => exists i :: 0 <= i < |vs| && VersionMatchesAny(lib, vs[i], d)
  }

  /* ----- Overlap is intersection, and is symmetric ----- */

  /** Overlap of a single version with a non-union, stated once and without direction. */
  predicate Overlaps(lib: Semver, a: Version, d: Constraint)
    requires !d.Union?
  {
    match d
    case AnyC => true
    case NoneC => false
    case Range(c) => RangeMatches(lib, c, a)
    case Ver(b) => VersionMatches(lib, a, b)
  }

  lemma VersionOverlap(lib: Semver, a: Version, d: Constraint)
    requires lib.OverlapLaws() && !d.Union?
    ensures VersionIntersect(lib, a, d) != NoneC <==> Overlaps(lib, a, d)
    ensures VersionMatchesAny(lib, a, d) <==> Overlaps(lib, a, d)
  {
  }

  lemma VersionMatchesSymmetric(lib: Semver, a: Version, b: Version)
    requires lib.EqualLaws()
    ensures VersionMatches(lib, a, b) <==> VersionMatches(lib, b, a)
  {
  }

  lemma RangeOverlap(lib: Semver, c: string, b: Version)
    requires lib.OverlapLaws()
    ensures RangeIntersect(lib, c, Ver(b)) != NoneC <==> RangeMatches(lib, c, b)
    ensures RangeIntersect(lib, c, Ver(b)) != NoneC ==> RangeIntersect(lib, c, Ver(b)) == Ver(b)
  {
  }

  lemma {:induction false} FirstOfUnionIs(lib: Semver, vs: seq<Version>, d: Constraint)
    requires lib.OverlapLaws() && !d.Union?
    ensures FirstOfUnion(lib, vs, d) != NoneC <==> exists i :: 0 <= i < |vs| && Overlaps(lib, vs[i], d)
    ensures FirstOfUnion(lib, vs, d) != NoneC ==>
      exists i ::
        && 0 <= i < |vs| && Overlaps(lib, vs[i], d) && FirstOfUnion(lib, vs, d) == VersionIntersect(lib, vs[i], d)
        && forall j :: 0 <= j < i ==> !Overlaps(lib, vs[j], d)
  {
    if vs != [] {
      VersionOverlap(lib, vs[0], d);
      FirstOfUnionIs(lib, vs[1..], d);
      assert forall i :: 0 <= i < |vs| ==> vs[i] == if i == 0 then vs[0] else vs[1..][i - 1];
      if Overlaps(lib, vs[0], d) {
      } else if FirstOfUnion(lib, vs[1..], d) != NoneC {
        var i :| 0 <= i < |vs[1..]| && Overlaps(lib, vs[1..][i], d)
          && FirstOfUnion(lib, vs[1..], d) == VersionIntersect(lib, vs[1..][i], d)
          && forall j :: 0 <= j < i ==> !Overlaps(lib, vs[1..][j], d);
        assert vs[i + 1] == vs[1..][i];
        assert forall j :: 0 < j < i + 1 ==> vs[j] == vs[1..][j - 1];
      }
    }
  }

  lemma {:induction false} FirstAgainstIs(lib: Semver, a: Version, ws: seq<Version>)
    requires lib.OverlapLaws()
    ensures FirstAgainst(lib, a, ws) != NoneC <==> exists j :: 0 <= j < |ws| && VersionMatches(lib, a, ws[j])
    ensures FirstAgainst(lib, a, ws) != NoneC ==>
      exists j ::
        && 0 <= j < |ws| && VersionMatches(lib, a, ws[j])
        && FirstAgainst(lib, a, ws) == VersionIntersect(lib, a, Ver(ws[j]))
        && forall k :: 0 <= k < j ==> !VersionMatches(lib, a, ws[k])
  {
    if ws != [] {
      VersionOverlap(lib, a, Ver(ws[0]));
      FirstAgainstIs(lib, a, ws[1..]);
      if VersionMatches(lib, a, ws[0]) {
      } else if FirstAgainst(lib, a, ws[1..]) != NoneC {
        var i :| 0 <= i < |ws[1..]| && VersionMatches(lib, a, ws[1..][i])
          && FirstAgainst(lib, a, ws[1..]) == VersionIntersect(lib, a, Ver(ws[1..][i]))
          && forall k :: 0 <= k < i ==> !VersionMatches(lib, a, ws[1..][k]);
        assert ws[i + 1] == ws[1..][i];
        assert forall k :: 0 < k < i + 1 ==> ws[k] == ws[1..][k - 1];
      } else {
        forall j | 0 <= j < |ws|
          ensures !VersionMatches(lib, a, ws[j])
        {
          assert j > 0 ==> ws[j] == ws[1..][j - 1];
        }
      }
    }
  }

  /** The members i and j match, and none do in the pairs before: the order is that of vs, then of ws. */
  ghost predicate FirstPair(lib: Semver, vs: seq<Version>, ws: seq<Version>, i: nat, j: nat) {
    && i < |vs| && j < |ws| && VersionMatches(lib, vs[i], ws[j])
    && (forall k, m :: 0 <= k < i && 0 <= m < |ws| ==> !VersionMatches(lib, vs[k], ws[m]))
    && (forall m :: 0 <= m < j ==> !VersionMatches(lib, vs[i], ws[m]))
  }

  lemma FirstPairLater(lib: Semver, vs: seq<Version>, ws: seq<Version>, i: nat, j: nat)
    requires vs != [] && FirstPair(lib, vs[1..], ws, i, j)
    requires forall m :: 0 <= m < |ws| ==> !VersionMatches(lib, vs[0], ws[m])
    ensures FirstPair(lib, vs, ws, i + 1, j)
  {
    hide VersionMatches;
    forall k, m | 0 <= k < i + 1 && 0 <= m < |ws|
      ensures !VersionMatches(lib, vs[k], ws[m])
    {
      assert k > 0 ==> vs[k] == vs[1..][k - 1];
    }
  }

  lemma {:induction false} FirstOfUnionsIs(lib: Semver, vs: seq<Version>, ws: seq<Version>)
    requires lib.OverlapLaws()
    ensures FirstOfUnions(lib, vs, ws) != NoneC <==>
      exists i, j :: 0 <= i < |vs| && 0 <= j < |ws| && VersionMatches(lib, vs[i], ws[j])
    ensures FirstOfUnions(lib, vs, ws) != NoneC ==>
      exists i: nat, j: nat :: FirstPair(lib, vs, ws, i, j)
        && FirstOfUnions(lib, vs, ws) == VersionIntersect(lib, vs[i], Ver(ws[j]))
  {
    hide VersionMatches, VersionIntersect, FirstAgainst, Semver.OverlapLaws;
    if vs != [] {
      FirstAgainstIs(lib, vs[0], ws);
      FirstOfUnionsIs(lib, vs[1..], ws);
      if FirstAgainst(lib, vs[0], ws) != NoneC {
        var j: nat :| j < |ws| && VersionMatches(lib, vs[0], ws[j])
          && FirstAgainst(lib, vs[0], ws) == VersionIntersect(lib, vs[0], Ver(ws[j]))
          && forall k :: 0 <= k < j ==> !VersionMatches(lib, vs[0], ws[k]);
        assert FirstPair(lib, vs, ws, 0, j);
      } else if FirstOfUnions(lib, vs[1..], ws) != NoneC {
        var i: nat, j: nat :| FirstPair(lib, vs[1..], ws, i, j)
          && FirstOfUnions(lib, vs[1..], ws) == VersionIntersect(lib, vs[1..][i], Ver(ws[j]));
        FirstPairLater(lib, vs, ws, i, j);
        assert vs[i + 1] == vs[1..][i];
      } else {
        forall i, j | 0 <= i < |vs| && 0 <= j < |ws|
          ensures !VersionMatches(lib, vs[i], ws[j])
        {
          assert i > 0 ==> vs[i] == vs[1..][i - 1];
        }
      }
    }
  }

  lemma {:induction false} FirstInRangeIs(lib: Semver, c: string, ws: seq<Version>)
    requires lib.OverlapLaws()
    ensures FirstInRange(lib, c, ws) != NoneC <==> exists i :: 0 <= i < |ws| && RangeMatches(lib, c, ws[i])
    ensures FirstInRange(lib, c, ws) != NoneC ==>
      exists i :: 0 <= i < |ws| && RangeMatches(lib, c, ws[i]) && FirstInRange(lib, c, ws) == Ver(ws[i])
        && forall j :: 0 <= j < i ==> !RangeMatches(lib, c, ws[j])
  {
    if ws != [] {
      RangeOverlap(lib, c, ws[0]);
      FirstInRangeIs(lib, c, ws[1..]);
      if RangeMatches(lib, c, ws[0]) {
      } else if FirstInRange(lib, c, ws[1..]) != NoneC {
        var i :|
          && 0 <= i < |ws[1..]| && RangeMatches(lib, c, ws[1..][i])
          && FirstInRange(lib, c, ws[1..]) == Ver(ws[1..][i])
          && forall j :: 0 <= j < i ==> !RangeMatches(lib, c, ws[1..][j]);
        assert ws[i + 1] == ws[1..][i];
        assert forall j :: 0 < j < i + 1 ==> ws[j] == ws[1..][j - 1];
      } else {
        forall i | 0 <= i < |ws|
          ensures !RangeMatches(lib, c, ws[i])
        {
          assert i > 0 ==> ws[i] == ws[1..][i - 1];
        }
      }
    }
  }

  /** For every pair of constraints, `MatchesAny` says whether `Intersect` is empty, with
    one exception in the code: the open constraint claims to overlap the empty one. */
  lemma MatchesAnyIsIntersect(lib: Semver, c: Constraint, d: Constraint)
    requires lib.OverlapLaws()
    ensures MatchesAny(lib, c, d) <==> Intersect(lib, c, d) != NoneC || (c.AnyC? && d.NoneC?)
  {
    match (c, d)
    case (Ver(a), Union(ws)) =>
      FirstOfUnionIs(lib, ws, c);
      forall i | 0 <= i < |ws|
        ensures VersionMatchesAny(lib, ws[i], c) <==> Overlaps(lib, ws[i], c)
      {
        VersionOverlap(lib, ws[i], c);
      }
    case (Union(vs), Union(ws)) =>
      FirstOfUnionsIs(lib, vs, ws);
      forall i, j | 0 <= i < |vs| && 0 <= j < |ws|
        ensures VersionMatchesAny(lib, vs[i], Ver(ws[j])) <==> VersionMatches(lib, vs[i], ws[j])
      {
        VersionOverlap(lib, vs[i], Ver(ws[j]));
      }
    case (Union(vs), _) =>
      FirstOfUnionIs(lib, vs, d);
      forall i | 0 <= i < |vs|
        ensures VersionMatchesAny(lib, vs[i], d) <==> Overlaps(lib, vs[i], d)
      {
        VersionOverlap(lib, vs[i], d);
      }
    case (Ver(a), _) => VersionOverlap(lib, a, d);
    case _ =>
  }

  /** Whether two constraints have an empty intersection does not depend on their order,
    although the constraint that is returned does, except between the open constraint and an
    empty union (which the unifier makes only when the version list cannot be had). */
  lemma EmptinessIsSymmetric(lib: Semver, c: Constraint, d: Constraint)
    requires lib.OverlapLaws()
    ensures (Intersect(lib, c, d) == NoneC <==> Intersect(lib, d, c) == NoneC)
      <==> !(c.AnyC? && d == Union([])) && !(d.AnyC? && c == Union([]))
  {
    if c.Union? && d.Union? {
      FirstOfUnionsIs(lib, c.vs, d.vs);
      FirstOfUnionsIs(lib, d.vs, c.vs);
      forall i, j | 0 <= i < |c.vs| && 0 <= j < |d.vs|
        ensures VersionMatches(lib, c.vs[i], d.vs[j]) <==> VersionMatches(lib, d.vs[j], c.vs[i])
      {
        VersionMatchesSymmetric(lib, c.vs[i], d.vs[j]);
      }
    } else if c.Union? {
      UnionEmptiness(lib, c.vs, d);
    } else if d.Union? {
      UnionEmptiness(lib, d.vs, c);
    } else {
      if c.Ver? { VersionOverlap(lib, c.v, d); }
      if d.Ver? { VersionOverlap(lib, d.v, c); }
      if c.Ver? && d.Ver? { VersionMatchesSymmetric(lib, c.v, d.v); }
    }
  }

  lemma UnionEmptiness(lib: Semver, vs: seq<Version>, d: Constraint)
    requires lib.OverlapLaws() && !d.Union?
    ensures (Intersect(lib, Union(vs), d) == NoneC <==> Intersect(lib, d, Union(vs)) == NoneC) <==>
      !(d.AnyC? && vs == [])
  {
    FirstOfUnionIs(lib, vs, d);
    match d
    case AnyC => assert vs != [] ==> Overlaps(lib, vs[0], d);
    case NoneC =>
    case Range(k) => FirstInRangeIs(lib, k, vs);
    case Ver(b) => FirstOfUnionIs(lib, vs, d);
  }
}
