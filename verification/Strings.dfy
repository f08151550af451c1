/** Strings in the order in which Go sorts them, and sorted sequences of them. */
module Strings {
  import opened Versions

  predicate Le(a: string, b: string) {
    a == "" || (b != "" && (a[0] < b[0] || (a[0] == b[0] && Le(a[1..], b[1..]))))
  }

  lemma {:induction false} LeTotal(a: string, b: string)
    ensures Le(a, b) || Le(b, a)
    ensures Le(a, a)
  {
    if a != "" {
      LeTotal(a[1..], if b == "" then "" else b[1..]);
    }
  }

  lemma {:induction false} LeTransitive(a: string, b: string, c: string)
    requires Le(a, b) && Le(b, c)
    ensures Le(a, c)
  {
    if a != "" && a[0] == b[0] == c[0] {
      LeTransitive(a[1..], b[1..], c[1..]);
    }
  }

  lemma {:induction false} LeAntisymmetric(a: string, b: string)
    requires Le(a, b) && Le(b, a)
    ensures a == b
  {
    if a != "" {
      LeAntisymmetric(a[1..], b[1..]);
      assert a == [a[0]] + a[1..] && b == [b[0]] + b[1..];
    }
  }

  /* ----- Sorting ----- */

  ghost predicate Ordering<E(!new)>(le: (E, E) -> bool) {
    && (forall a, b :: le(a, b) || le(b, a))
    && (forall a, b, c :: le(a, b) && le(b, c) ==> le(a, c))
  }

  lemma LeIsOrdering()
    ensures Ordering(Le)
  {
    forall a, b ensures Le(a, b) || Le(b, a) { LeTotal(a, b); }
    forall a, b, c | Le(a, b) && Le(b, c) ensures Le(a, c) { LeTransitive(a, b, c); }
  }

  function Insert<E>(le: (E, E) -> bool, x: E, s: seq<E>): seq<E> {
    if s == [] then [x] else if le(x, s[0]) then [x] + s else [s[0]] + Insert(le, x, s[1..])
  }

  /** A stable sort; Go's is not stable, which shows only between equal elements. */
  function SortBy<E>(le: (E, E) -> bool, s: seq<E>): seq<E> {
    if s == [] then [] else Insert(le, s[0], SortBy(le, s[1..]))
  }

  ghost predicate SortedBy<E>(le: (E, E) -> bool, s: seq<E>) {
    forall i, j :: 0 <= i < j < |s| ==> le(s[i], s[j])
  }

  lemma {:induction false} InsertHas<E>(le: (E, E) -> bool, x: E, s: seq<E>)
    ensures forall y :: y in Insert(le, x, s) <==> y == x || y in s
    ensures multiset(Insert(le, x, s)) == multiset(s) + multiset{x}
  {
    if s != [] {
      assert s == [s[0]] + s[1..];
      InsertHas(le, x, s[1..]);
    }
  }

  lemma SortedCons<E>(le: (E, E) -> bool, x: E, s: seq<E>)
    requires SortedBy(le, s) && forall y :: y in s ==> le(x, y)
    ensures SortedBy(le, [x] + s)
  {
  }

  lemma {:induction false} InsertSorts<E(!new)>(le: (E, E) -> bool, x: E, s: seq<E>)
    requires Ordering(le) && SortedBy(le, s)
    ensures SortedBy(le, Insert(le, x, s))
  {
    if s != [] {
      assert forall y :: y in s[1..] ==> le(s[0], y);
      if le(x, s[0]) {
        assert forall y :: y in s ==> y == s[0] || y in s[1..];
        SortedCons(le, x, s);
      } else {
        InsertSorts(le, x, s[1..]);
        InsertHas(le, x, s[1..]);
        SortedCons(le, s[0], Insert(le, x, s[1..]));
      }
    } else {
      assert SortedBy(le, [x]);
    }
  }

  lemma {:induction false} SortSorts<E(!new)>(le: (E, E) -> bool, s: seq<E>)
    requires Ordering(le)
    ensures SortedBy(le, SortBy(le, s)) && multiset(SortBy(le, s)) == multiset(s)
  {
    if s != [] {
      SortSorts(le, s[1..]);
      InsertSorts(le, s[0], SortBy(le, s[1..]));
      InsertHas(le, s[0], SortBy(le, s[1..]));
      assert s == [s[0]] + s[1..];
    }
  }

  function Sort(s: seq<string>): seq<string> {
    SortBy(Le, s)
  }

  ghost predicate Sorted(s: seq<string>) {
    SortedBy(Le, s)
  }

  function SetOf(s: seq<string>): set<string> {
    set r | r in s
  }

  lemma SameElements(a: seq<string>, b: seq<string>)
    requires multiset(a) == multiset(b)
    ensures SetOf(a) == SetOf(b)
  {
    forall r ensures r in a <==> r in b {
      assert r in a <==> r in multiset(a);
      assert r in b <==> r in multiset(b);
    }
  }

  lemma HeadIsLeast(s: seq<string>, x: string)
    requires Sorted(s) && x in multiset(s)
    ensures s != [] && Le(s[0], x)
  {
    var i :| 0 <= i < |s| && s[i] == x;
    LeTotal(x, x);
  }

  lemma TailOf(s: seq<string>)
    requires s != [] && Sorted(s)
    ensures Sorted(s[1..]) && multiset(s[1..]) == multiset(s) - multiset{s[0]} && s[0] in multiset(s)
  {
    assert s == [s[0]] + s[1..];
  }

  /** A multiset of strings has one sorted sequence. */
  lemma {:induction false} SortedIsUnique(s: seq<string>, t: seq<string>)
    requires Sorted(s) && Sorted(t) && multiset(s) == multiset(t)
    ensures s == t
    decreases |s|
  {
    hide Sorted, Le;
    assert |s| == |multiset(s)| == |multiset(t)| == |t|;
    if s != [] {
      TailOf(s);
      TailOf(t);
      HeadIsLeast(s, t[0]);
      HeadIsLeast(t, s[0]);
      LeAntisymmetric(s[0], t[0]);
      SortedIsUnique(s[1..], t[1..]);
      assert s == [s[0]] + s[1..] && t == [t[0]] + t[1..];
    }
  }

  /* ----- Radix trees, as the maps of their keys ----- */

  /** The longest key that is a prefix of s and not longer than n. */
  function LongestUpTo<T>(t: map<string, T>, s: string, n: nat): (r: Option<string>)
    requires n <= |s|
    ensures r.None? ==> forall k :: k in t && k <= s ==> |k| > n
    ensures r.Some? ==> r.value in t && r.value <= s && |r.value| <= n
    ensures r.Some? ==> forall k :: k in t && k <= s && |k| <= n ==> |k| <= |r.value|
  {
    assert forall k: string :: k <= s && |k| == n ==> k == s[..n];
    if s[..n] in t then Some(s[..n])
    else if n == 0 then None
    else LongestUpTo(t, s, n - 1)
  }

  function LongestPrefix<T>(t: map<string, T>, s: string): (r: Option<string>)
    ensures r.None? ==> forall k :: k in t ==> !(k <= s)
    ensures r.Some? ==> r.value in t && r.value <= s && forall k :: k in t && k <= s ==> |k| <= |r.value|
  {
    LongestUpTo(t, s, |s|)
  }
}
