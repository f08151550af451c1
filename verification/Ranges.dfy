/** Ranges of semantic versions and their intersection, as the vendored semver library computes it
  (vendor/github.com/Masterminds/semver/range.go).  `Versions.Semver.MeetLaw` asks of a library
  that a version in the intersection lies in both ranges; here is when this one keeps it. */
module Ranges {
  import opened Versions

  datatype Nums = Nums(major: nat, minor: nat, patch: nat) {
    predicate Lt(n: Nums) {
      major < n.major || (major == n.major && (minor < n.minor || (minor == n.minor && patch < n.patch)))
    }
  }

  /** A version; a prerelease is given by its place in the order of prereleases. */
  datatype Sv = Sv(nums: Nums, pre: Option<real>) {
    /** Releases come after all their prereleases. */
    predicate Lt(v: Sv) {
      || nums.Lt(v.nums)
      || (nums == v.nums && pre.Some? && (v.pre.None? || pre.value < v.pre.value))
    }
  }

  /** Bounds that are missing are zero and infinity. */
  datatype Range = Range(min: Option<Sv>, max: Option<Sv>, includeMin: bool, includeMax: bool, excl: seq<Sv>) {
    predicate AboveMin(v: Sv) {
      min.None? || min.value.Lt(v) || (includeMin && min.value == v)
    }

    predicate BelowMax(v: Sv) {
      max.None? || v.Lt(max.value) || (includeMax && max.value == v)
    }

    function MinNums(): Option<Nums> {
      if min.None? then None else Some(min.value.nums)
    }

    /** Prereleases count only with the numbers of the lower bound. */
    predicate Matches(v: Sv) {
      AboveMin(v) && BelowMax(v) && v !in excl && (v.pre.Some? ==> MinNums() == Some(v.nums))
    }
  }

  datatype Meet = Nothing | One(v: Sv) | Both(r: Range) {
    predicate Matches(v: Sv) {
      match this
      case Nothing => false
      case One(u) => v == u
      case Both(r) => r.Matches(v)
    }
  }

  /** The excluded versions that the range does not leave out anyway. */
  method Excluding(nr: Range, es: seq<Sv>) returns (r: Range)
    requires nr.excl == []
    ensures r == nr.(excl := r.excl) && forall v :: r.Matches(v) <==> nr.Matches(v) && v !in es
  {
    r := nr;
    for i := 0 to |es|
      invariant r == nr.(excl := r.excl) && forall v :: r.Matches(v) <==> nr.Matches(v) && v !in es[..i]
    {
      assert es[..i + 1] == es[..i] + [es[i]];
      if r.Matches(es[i]) {
        r := r.(excl := r.excl + [es[i]]);
      }
    }
    assert es[..|es|] == es;
  }

  /** The higher lower bound and the lower upper bound, each included if all that set it do. */
  function Narrowed(rc: Range, oc: Range): Range {
    var (min, includeMin) :=
      if oc.min.None? then (rc.min, rc.includeMin)
      else if rc.min.None? || rc.min.value.Lt(oc.min.value) then (oc.min, oc.includeMin)
      else (rc.min, rc.includeMin && (oc.min != rc.min || oc.includeMin));
    var (max, includeMax) :=
      if oc.max.None? then (rc.max, rc.includeMax)
      else if rc.max.None? || oc.max.value.Lt(rc.max.value) then (oc.max, oc.includeMax)
      else (rc.max, rc.includeMax && (oc.max != rc.max || oc.includeMax));
    Range.Range(min, max, includeMin, includeMax, [])
  }

  /** A version goes astray when an intersection can have it without both ranges having it: it is a
    prerelease, and the lower bounds have different numbers; or one of the ranges excludes it. */
  predicate Astray(rc: Range, oc: Range, v: Sv) {
    (v.pre.Some? && rc.MinNums() != oc.MinNums()) || v in rc.excl || v in oc.excl
  }

  lemma LtIsOrder(a: Sv, b: Sv, c: Sv)
    ensures !a.Lt(a) && (a.Lt(b) || b.Lt(a) || a == b) && !(a.Lt(b) && b.Lt(a))
    ensures a.Lt(b) && b.Lt(c) ==> a.Lt(c)
  {
  }

  lemma NarrowedIsBoth(rc: Range, oc: Range, v: Sv)
    ensures var nr := Narrowed(rc, oc);
      && (nr.AboveMin(v) <==> rc.AboveMin(v) && oc.AboveMin(v))
      && (nr.BelowMax(v) <==> rc.BelowMax(v) && oc.BelowMax(v))
      && (nr.MinNums() == rc.MinNums() || nr.MinNums() == oc.MinNums())
  {
    if rc.min.Some? && oc.min.Some? {
      LtIsOrder(rc.min.value, oc.min.value, v);
      LtIsOrder(oc.min.value, rc.min.value, v);
    }
    if rc.max.Some? && oc.max.Some? {
      LtIsOrder(v, rc.max.value, oc.max.value);
      LtIsOrder(v, oc.max.value, rc.max.value);
    }
  }

  /** Whatever both ranges have the intersection has; what it has both have if and only if it does
    not go astray. */
  ghost predicate Sound(rc: Range, oc: Range, m: Meet) {
    && (forall v :: rc.Matches(v) && oc.Matches(v) ==> m.Matches(v))
    && (forall v :: m.Matches(v) ==> (rc.Matches(v) && oc.Matches(v) <==> !Astray(rc, oc, v)))
  }

  /** The intersection: the narrowed range without what either excludes, unless its bounds meet. */
  function Meeting(rc: Range, oc: Range): Meet {
    var nr := Narrowed(rc, oc);
    if nr.min.None? || nr.max.None? then Both(nr.(excl := rc.excl + oc.excl))
    else if nr.min == nr.max then if nr.includeMin && nr.includeMax then One(nr.min.value) else Nothing
    else if nr.max.value.Lt(nr.min.value) then Nothing
    else Both(nr.(excl := rc.excl + oc.excl))
  }

  lemma BothIsSound(rc: Range, oc: Range)
    ensures Sound(rc, oc, Both(Narrowed(rc, oc).(excl := rc.excl + oc.excl)))
  {
    hide Range.AboveMin, Range.BelowMax, Range.MinNums, Narrowed;
    var nr := Narrowed(rc, oc);
    var r := nr.(excl := rc.excl + oc.excl);
    forall v
      ensures rc.Matches(v) && oc.Matches(v) ==> r.Matches(v)
      ensures r.Matches(v) ==> (rc.Matches(v) && oc.Matches(v) <==> !Astray(rc, oc, v))
    {
      NarrowedIsBoth(rc, oc, v);
      ExclusionsAside(nr, r.excl, v);
    }
  }

  lemma ExclusionsAside(r: Range, es: seq<Sv>, v: Sv)
    ensures var x := r.(excl := es);
      && (x.AboveMin(v) <==> r.AboveMin(v)) && (x.BelowMax(v) <==> r.BelowMax(v)) && x.MinNums() == r.MinNums()
  {
  }

  lemma NothingExcluded(rc: Range, oc: Range)
    ensures Narrowed(rc, oc).excl == []
  {
  }

  lemma OneIsSound(rc: Range, oc: Range)
    requires var nr := Narrowed(rc, oc); nr.min.Some? && nr.min == nr.max
    ensures var nr := Narrowed(rc, oc);
      Sound(rc, oc, if nr.includeMin && nr.includeMax then One(nr.min.value) else Nothing)
  {
    hide Range.MinNums, Narrowed;
    var nr := Narrowed(rc, oc);
    var m := if nr.includeMin && nr.includeMax then One(nr.min.value) else Nothing;
    forall v
      ensures rc.Matches(v) && oc.Matches(v) ==> m.Matches(v)
      ensures m.Matches(v) ==> (rc.Matches(v) && oc.Matches(v) <==> !Astray(rc, oc, v))
    {
      NarrowedIsBoth(rc, oc, v);
      LtIsOrder(nr.min.value, v, nr.min.value);
      BoundHasNumbers(nr);
    }
  }

  lemma BoundHasNumbers(r: Range)
    ensures r.min.Some? ==> r.MinNums() == Some(r.min.value.nums)
  {
  }

  lemma NothingIsSound(rc: Range, oc: Range)
    requires var nr := Narrowed(rc, oc); nr.min.Some? && nr.max.Some? && nr.max.value.Lt(nr.min.value)
    ensures Sound(rc, oc, Nothing)
  {
    hide Range.MinNums, Narrowed, Sv.Lt;
    var nr := Narrowed(rc, oc);
    forall v
      ensures !(rc.Matches(v) && oc.Matches(v))
    {
      NarrowedIsBoth(rc, oc, v);
      LtIsOrder(nr.min.value, v, nr.max.value);
      LtIsOrder(nr.max.value, nr.min.value, v);
      LtIsOrder(v, nr.max.value, nr.min.value);
    }
  }

  /** The intersection of two ranges is sound, but for the versions that go astray. */
  lemma MeetIsExact(rc: Range, oc: Range)
    ensures Sound(rc, oc, Meeting(rc, oc))
  {
    hide Sound, Sv.Lt, Narrowed, Range.Matches;
    var nr := Narrowed(rc, oc);
    if nr.min.Some? && nr.min == nr.max {
      OneIsSound(rc, oc);
    } else if nr.min.Some? && nr.max.Some? && nr.max.value.Lt(nr.min.value) {
      NothingIsSound(rc, oc);
    } else {
      BothIsSound(rc, oc);
    }
  }

  method Intersect(rc: Range, oc: Range) returns (m: Meet)
    ensures forall v :: m.Matches(v) <==> Meeting(rc, oc).Matches(v)
    ensures m.One? <==> Meeting(rc, oc).One?
    ensures m.Nothing? <==> Meeting(rc, oc).Nothing?
  {
    hide Sv.Lt, Narrowed, Range.AboveMin, Range.BelowMax, Range.MinNums;
    var nr := Narrowed(rc, oc);
    NothingExcluded(rc, oc);
    var full := Excluding(nr, rc.excl + oc.excl);
    forall v { ExclusionsAside(nr, rc.excl + oc.excl, v); }
    if nr.min.None? || nr.max.None? { return Both(full); }
    if nr.min == nr.max {
      if nr.includeMin && nr.includeMax { return One(nr.min.value); }
      return Nothing;
    }
    if nr.max.value.Lt(nr.min.value) { return Nothing; }
    return Both(full);
  }

  const V1: Sv := Sv(Nums(1, 0, 0), None)
  const ALPHA: Sv := Sv(Nums(2, 0, 0), Some(1.0))
  const BETA: Sv := Sv(Nums(2, 0, 0), Some(2.0))

  /** 2.0.0-beta is in the intersection of >=1.0.0 and >=2.0.0-alpha, and not in the first; 1.0.0
    is in that of >=1.0.0 without 1.0.0 and <=1.0.0, and not in the first. */
  lemma SomeGoAstray()
    ensures var rc, oc := Range.Range(Some(V1), None, true, false, []), Range.Range(Some(ALPHA), None, true, false, []);
      Meeting(rc, oc).Matches(BETA) && !rc.Matches(BETA)
    ensures var rc, oc := Range.Range(Some(V1), None, true, false, [V1]), Range.Range(None, Some(V1), false, true, []);
      Meeting(rc, oc).Matches(V1) && !rc.Matches(V1)
  {
  }
}
