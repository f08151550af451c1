/** The queue of versions to try for a project (gps/version_queue.go). */
module VersionQueues {
  import opened Versions
  import opened World

  predicate Known(v: Version, lockv: Option<Version>, prefv: Option<Version>) {
    Some(v) == lockv || Some(v) == prefv
  }

  /** The versions of vl that are neither the locked nor the preferred one. */
  function Unseen(vl: seq<Version>, lockv: Option<Version>, prefv: Option<Version>): (r: seq<Version>)
    ensures |r| <= |vl|
  {
    if vl == [] then []
    else
      var v := vl[|vl| - 1];
      Unseen(vl[..|vl| - 1], lockv, prefv) + if Known(v, lockv, prefv) then [] else [v]
  }

  lemma {:induction false} UnseenKeeps(vl: seq<Version>, m: nat, n: nat, lockv: Option<Version>, prefv: Option<Version>)
    requires m <= n <= |vl|
    requires forall i :: m <= i < n ==> !Known(vl[i], lockv, prefv)
    ensures Unseen(vl[..n], lockv, prefv) == Unseen(vl[..m], lockv, prefv) + vl[m..n]
  {
    if m < n {
      UnseenKeeps(vl, m, n - 1, lockv, prefv);
      assert vl[..n][..n - 1] == vl[..n - 1];
      assert vl[m..n] == vl[m..n - 1] + [vl[n - 1]];
    }
  }

  /** Just the locked and the preferred version are left out, and what is left keeps its order. */
  lemma {:induction false} UnseenIs(vl: seq<Version>, lockv: Option<Version>, prefv: Option<Version>, v: Version)
    ensures multiset(Unseen(vl, lockv, prefv))[v] == if lockv == Some(v) || prefv == Some(v) then 0 else multiset(vl)[v]
  {
    if vl != [] {
      UnseenIs(vl[..|vl| - 1], lockv, prefv, v);
      assert vl == vl[..|vl| - 1] + [vl[|vl| - 1]];
    }
  }

  lemma UnseenLast(vl: seq<Version>, v: Version, lockv: Option<Version>, prefv: Option<Version>)
    ensures Unseen(vl + [v], lockv, prefv) == Unseen(vl, lockv, prefv) + if Known(v, lockv, prefv) then [] else [v]
  {
    assert (vl + [v])[..|vl|] == vl;
  }

  lemma {:induction false} UnseenOfParts(vl: seq<Version>, more: seq<Version>, lockv: Option<Version>,
                                         prefv: Option<Version>)
    ensures Unseen(vl + more, lockv, prefv) == Unseen(vl, lockv, prefv) + Unseen(more, lockv, prefv)
    decreases |more|
  {
    if more == [] {
      assert vl + more == vl;
    } else {
      hide Unseen, Known;
      var n := |more| - 1;
      var front, v := more[..n], more[n];
      assert more == front + [v] && vl + more == (vl + front) + [v];
      UnseenOfParts(vl, front, lockv, prefv);
      UnseenLast(front, v, lockv, prefv);
      UnseenLast(vl + front, v, lockv, prefv);
    }
  }

  lemma UnseenStep(vl: seq<Version>, from: nat, d: nat, lockv: Option<Version>, prefv: Option<Version>)
    requires from <= d < |vl|
    requires Known(vl[d], lockv, prefv) && forall i :: from <= i < d ==> !Known(vl[i], lockv, prefv)
    ensures Unseen(vl[..d + 1], lockv, prefv) == Unseen(vl[..from], lockv, prefv) + vl[from..d]
  {
    UnseenKeeps(vl, from, d, lockv, prefv);
    assert vl[..d + 1][..d] == vl[..d];
  }

  lemma DeleteFrom(a: seq<Version>, vl: seq<Version>, from: nat, d: nat, vs: seq<Version>, i: nat)
    requires from <= d < |vl| && vs == a + vl[from..] && i == |a| + d - from
    ensures i < |vs| && vs[..i] + vs[i + 1..] == a + vl[from..d] + vl[d + 1..]
  {
  }

  /** The versions a queue tries, in order. */
  function Schedule(w: World, id: Ident, lockv: Option<Version>, prefv: Option<Version>): (vs: seq<Version>)
    ensures |vs| <= 2 + if w.versions(id).Some? then |w.versions(id).value| else 0
  {
    (if lockv.Some? then [lockv.value] else [])
    + (if prefv.Some? then [prefv.value] else [])
    + (if w.versions(id).None? then [] else Unseen(w.versions(id).value, lockv, prefv))
  }

  /** keys are the indices of the known versions of vl, in order. */
  ghost predicate KnownAt(vl: seq<Version>, keys: seq<nat>, lockv: Option<Version>, prefv: Option<Version>) {
    && (forall j :: 0 <= j < |keys| ==> keys[j] < |vl| && Known(vl[keys[j]], lockv, prefv))
    && (forall i, j :: 0 <= i < j < |keys| ==> keys[i] < keys[j])
    && (forall i :: 0 <= i < |vl| && Known(vl[i], lockv, prefv) ==> i in keys)
  }

  function After(keys: seq<nat>, k: nat): nat
    requires k <= |keys|
  {
    if k == 0 then 0 else keys[k - 1] + 1
  }

  /** No version is known between one key and the next. */
  lemma BetweenKeys(vl: seq<Version>, keys: seq<nat>, k: nat, lockv: Option<Version>, prefv: Option<Version>)
    requires KnownAt(vl, keys, lockv, prefv) && k <= |keys|
    ensures var next := if k < |keys| then keys[k] else |vl|;
      After(keys, k) <= next <= |vl| && forall i :: After(keys, k) <= i < next ==> !Known(vl[i], lockv, prefv)
  {
    forall j | 0 <= j < |keys|
      ensures keys[j] < After(keys, k) || (k < |keys| && keys[k] <= keys[j])
    {
      if j < k { assert j < k - 1 ==> keys[j] < keys[k - 1]; }
    }
  }

  /** The list with the known versions at its first k keys deleted. */
  function DeletedFrom(vl: seq<Version>, keys: seq<nat>, k: nat, lockv: Option<Version>,
                       prefv: Option<Version>): seq<Version>
    requires k <= |keys| && After(keys, k) <= |vl|
  {
    Unseen(vl[..After(keys, k)], lockv, prefv) + vl[After(keys, k)..]
  }

  lemma DeletingStart(vl: seq<Version>, keys: seq<nat>, lockv: Option<Version>, prefv: Option<Version>)
    ensures After(keys, 0) == 0 && DeletedFrom(vl, keys, 0, lockv, prefv) == vl
    ensures Unseen(vl[..After(keys, 0)], lockv, prefv) == []
  {
    assert vl[0..] == vl && vl[..0] == [];
  }

  lemma DeletingEnd(vl: seq<Version>, keys: seq<nat>, lockv: Option<Version>, prefv: Option<Version>)
    requires KnownAt(vl, keys, lockv, prefv) && After(keys, |keys|) <= |vl|
    ensures DeletedFrom(vl, keys, |keys|, lockv, prefv) == Unseen(vl, lockv, prefv)
  {
    var from := After(keys, |keys|);
    assert vl[..|vl|] == vl && vl[from..|vl|] == vl[from..];
    BetweenKeys(vl, keys, |keys|, lockv, prefv);
    UnseenKeeps(vl, from, |vl|, lockv, prefv);
  }

  /** Deleting the version at the next key, shifted by the k deletions before it. */
  lemma DeletingNext(vl: seq<Version>, keys: seq<nat>, k: nat, lockv: Option<Version>, prefv: Option<Version>)
    requires KnownAt(vl, keys, lockv, prefv) && k < |keys| && After(keys, k) <= |vl|
    requires |Unseen(vl[..After(keys, k)], lockv, prefv)| == After(keys, k) - k
    ensures After(keys, k + 1) <= |vl|
    ensures |Unseen(vl[..After(keys, k + 1)], lockv, prefv)| == After(keys, k + 1) - (k + 1)
    ensures var vs, dk := DeletedFrom(vl, keys, k, lockv, prefv), keys[k] - k;
      0 <= dk < |vs| && vs[..dk] + vs[dk + 1..] == DeletedFrom(vl, keys, k + 1, lockv, prefv)
  {
    var from, d := After(keys, k), keys[k];
    var done := Unseen(vl[..from], lockv, prefv);
    BetweenKeys(vl, keys, k, lockv, prefv);
    UnseenStep(vl, from, d, lockv, prefv);
    DeleteFrom(done, vl, from, d, done + vl[from..], d - k);
  }

  class VersionQueue {
    const w: World
    const id: Ident
    const lockv: Option<Version>
    const prefv: Option<Version>
    var pi: seq<Version>
    var fails: seq<Version>
    var failed: bool
    var allLoaded: bool
    var adverr: bool

    ghost predicate Valid()
      reads `pi, `allLoaded, `adverr
    {
      && (pi == [] ==> allLoaded)
      && (adverr ==> pi == [] && w.versions(id).None?)
    }

    /** Every version still to be tried, those not loaded yet included. */
    ghost function Remaining(): seq<Version>
      reads `pi, `allLoaded
    {
      pi + if allLoaded || w.versions(id).None? then [] else Unseen(w.versions(id).value, lockv, prefv)
    }

    constructor (w: World, id: Ident, lockv: Option<Version>, prefv: Option<Version>, pi: seq<Version>, allLoaded: bool)
      requires pi == [] ==> allLoaded
      ensures Valid() && this.w == w && this.id == id && this.lockv == lockv && this.prefv == prefv
      ensures this.pi == pi && this.allLoaded == allLoaded && fails == [] && !failed
    {
      this.w, this.id, this.lockv, this.prefv := w, id, lockv, prefv;
      this.pi, this.fails, this.failed, this.allLoaded, this.adverr := pi, [], false, allLoaded, false;
    }

    /** The locked version first, the preferred one next; the version list only if neither is
      given.  None when the list is needed and cannot be had. */
    static method New(w: World, id: Ident, lockv: Option<Version>,
                      prefv: Option<Version>) returns (q: Option<VersionQueue>)
      ensures q.None? <==> lockv.None? && prefv.None? && w.versions(id).None?
      ensures q.Some? ==>
        var vq := q.value;
        && fresh(vq) && vq.Valid() && vq.w == w && vq.id == id && vq.lockv == lockv && vq.prefv == prefv && !vq.failed
        && vq.Remaining() == Schedule(w, id, lockv, prefv)
        && (vq.pi == [] ==> w.versions(id) == Some([]))
    {
      var pi := [];
      if lockv.Some? { pi := pi + [lockv.value]; }
      if prefv.Some? { pi := pi + [prefv.value]; }
      if pi != [] {
        var vq := new VersionQueue(w, id, lockv, prefv, pi, false);
        return Some(vq);
      }
      if w.versions(id).None? { return None; }
      var vl := w.versions(id).value;
      UnseenKeeps(vl, 0, |vl|, lockv, prefv);
      assert vl[..|vl|] == vl && vl[0..|vl|] == vl;
      var vq := new VersionQueue(w, id, lockv, prefv, vl, true);
      return Some(vq);
    }

    /** The indices of the locked and of the preferred version in the list. */
    method FindKnown(vl: seq<Version>) returns (delkeys: seq<nat>)
      ensures KnownAt(vl, delkeys, lockv, prefv)
    {
      delkeys := [];
      for k := 0 to |vl|
        invariant KnownAt(vl[..k], delkeys, lockv, prefv)
      {
        if Known(vl[k], lockv, prefv) {
          delkeys := delkeys + [k];
        }
      }
      assert vl[..|vl|] == vl;
    }

    /** Takes them out of the list, each shifted by the deletions before it. */
    method WithoutKnown(vl: seq<Version>) returns (vs: seq<Version>)
      ensures vs == Unseen(vl, lockv, prefv)
    {
      hide *;
      var delkeys := FindKnown(vl);
      vs := vl;
      DeletingStart(vl, delkeys, lockv, prefv);
      for k := 0 to |delkeys|
        invariant After(delkeys, k) <= |vl| && vs == DeletedFrom(vl, delkeys, k, lockv, prefv)
        invariant |Unseen(vl[..After(delkeys, k)], lockv, prefv)| == After(delkeys, k) - k
      {
        var dk := delkeys[k] - k;
        DeletingNext(vl, delkeys, k, lockv, prefv);
        vs := vs[..dk] + vs[dk + 1..];
      }
      DeletingEnd(vl, delkeys, lockv, prefv);
    }

    /** Moves on to the next version, recording the one that failed.  True means an error.
      Exactly the front of what remained is used up, whether or not the list is loaded now. */
    method Advance() returns (err: bool)
      requires Valid()
      modifies this
      ensures Valid() && err == adverr
      ensures old(pi) == [] ==>
        && pi == [] && fails == old(fails) && failed == old(failed)
        && adverr == old(adverr) && allLoaded == old(allLoaded)
      ensures old(pi) != [] ==>
        && fails == old(fails) + [old(pi)[0]]
        && Remaining() == old(Remaining())[1..]
        && failed == (old(failed) && pi == [])
        && allLoaded == (old(allLoaded) || |old(pi)| == 1)
        && (adverr <==> pi == [] && !old(allLoaded) && w.versions(id).None?)
    {
      if adverr || pi == [] { return adverr; }
      fails := fails + [pi[0]];
      pi := pi[1..];
      if pi == [] {
        if allLoaded { return false; }
        allLoaded := true;
        if w.versions(id).None? {
          adverr := true;
          return true;
        }
        pi := WithoutKnown(w.versions(id).value);
        if pi == [] { return false; }
      }
      failed := false;
      return false;
    }

    method IsExhausted() returns (b: bool)
      requires Valid()
      ensures b <==> Remaining() == []
    {
      b := allLoaded && pi == [];
    }
  }
}
