/** Line endings on a stream: every CRLF becomes LF, whatever pieces the stream comes in
  (gps/pkgtree/digest.go, lineEndingReader). */
module LineEndings {
  import opened Versions

  type Byte = b: int | 0 <= b < 256

  const CR: Byte := 13
  const LF: Byte := 10

  /* ----- What is wanted ----- */

  function Norm(s: seq<Byte>): seq<Byte> {
    if s == [] then []
    else if |s| > 1 && s[0] == CR && s[1] == LF then [LF] + Norm(s[2..])
    else [s[0]] + Norm(s[1..])
  }

  predicate EndsCR(s: seq<Byte>) {
    s != [] && s[|s| - 1] == CR
  }

  predicate StartsLF(s: seq<Byte>) {
    s != [] && s[0] == LF
  }

  /** One step of the replacement. */
  lemma NormStep(s: seq<Byte>)
    ensures Norm(s) ==
      if s == [] then []
      else if |s| > 1 && s[0] == CR && s[1] == LF then [LF] + Norm(s[2..]) else [s[0]] + Norm(s[1..])
  {
  }

  /** How many bytes the first step takes, and what it gives. */
  function Taking(s: seq<Byte>): nat {
    if |s| > 1 && s[0] == CR && s[1] == LF then 2 else if s == [] then 0 else 1
  }

  function Giving(s: seq<Byte>): seq<Byte> {
    if s == [] then [] else if Taking(s) == 2 then [LF] else [s[0]]
  }

  /** The first step is that of the first part, unless a pair lies across the seam. */
  lemma FirstStep(a: seq<Byte>, b: seq<Byte>)
    requires a != [] && !(EndsCR(a) && StartsLF(b))
    ensures 0 < Taking(a) <= |a| && Norm(a) == Giving(a) + Norm(a[Taking(a)..])
    ensures Norm(a + b) == Giving(a) + Norm(a[Taking(a)..] + b)
    ensures !(EndsCR(a[Taking(a)..]) && StartsLF(b))
  {
    NormStep(a);
    NormStep(a + b);
    hide Norm;
    assert (a + b)[Taking(a)..] == a[Taking(a)..] + b;
    assert (a + b)[0] == a[0] && (|a| > 1 ==> (a + b)[1] == a[1]);
    assert |a| == 1 && |a + b| > 1 ==> (a + b)[1] == b[0];
  }

  lemma {:induction false} NormOfParts(a: seq<Byte>, b: seq<Byte>)
    requires !(EndsCR(a) && StartsLF(b))
    ensures Norm(a + b) == Norm(a) + Norm(b)
    decreases |a|
  {
    hide Norm, Taking, Giving, EndsCR, StartsLF;
    if a == [] {
      NormStep(a);
      assert a + b == b;
    } else {
      FirstStep(a, b);
      NormOfParts(a[Taking(a)..], b);
      assert Giving(a) + (Norm(a[Taking(a)..]) + Norm(b)) == (Giving(a) + Norm(a[Taking(a)..])) + Norm(b);
    }
  }

  /** A pair at the seam is joined: the CR goes. */
  lemma NormOfSeam(a: seq<Byte>, b: seq<Byte>)
    requires EndsCR(a) && StartsLF(b)
    ensures Norm(a + b) == Norm(a[..|a| - 1]) + Norm(b)
    ensures Norm(a) == Norm(a[..|a| - 1]) + [CR]
  {
    var a' := a[..|a| - 1];
    assert a == a' + [CR];
    assert a + b == a' + ([CR] + b);
    NormOfParts(a', [CR] + b);
    NormOfParts(a', [CR]);
    assert ([CR] + b)[2..] == b[1..];
    assert Norm(b) == [LF] + Norm(b[1..]);
  }

  lemma {:induction false} NormEnds(s: seq<Byte>)
    ensures s == [] <==> Norm(s) == []
    ensures EndsCR(Norm(s)) <==> EndsCR(s)
    ensures |Norm(s)| <= |s|
    decreases |s|
  {
    if |s| > 1 && s[0] == CR && s[1] == LF {
      NormEnds(s[2..]);
    } else if s != [] {
      NormEnds(s[1..]);
    }
  }

  predicate HasPair(s: seq<Byte>, i: int) {
    0 <= i < |s| - 1 && s[i] == CR && s[i + 1] == LF
  }

  ghost predicate Pairless(s: seq<Byte>) {
    forall i :: !HasPair(s, i)
  }

  lemma {:induction false} NormWithoutPairs(s: seq<Byte>)
    requires Pairless(s)
    ensures Norm(s) == s
    decreases |s|
  {
    if s != [] {
      assert !HasPair(s, 0);
      forall i ensures !HasPair(s[1..], i) { assert !HasPair(s, i + 1); }
      NormWithoutPairs(s[1..]);
    }
  }

  /* ----- What the reader does, piece by piece ----- */

  /** What is emitted, and what is held back, when d arrives while held is held back. */
  function Passed(held: seq<Byte>, d: seq<Byte>): seq<Byte> {
    var x := Norm(held + d);
    if d == [] then held else if EndsCR(x) then x[..|x| - 1] else x
  }

  function Holds(held: seq<Byte>, d: seq<Byte>): seq<Byte> {
    if d != [] && EndsCR(Norm(held + d)) then [CR] else []
  }

  function Emitted(ds: seq<seq<Byte>>): seq<Byte> {
    if ds == [] then []
    else
      var n := |ds| - 1;
      Emitted(ds[..n]) + Passed(Held(ds[..n]), ds[n])
  }

  function Held(ds: seq<seq<Byte>>): seq<Byte> {
    if ds == [] then [] else Holds(Held(ds[..|ds| - 1]), ds[|ds| - 1])
  }

  function Concat(ds: seq<seq<Byte>>): seq<Byte> {
    if ds == [] then [] else Concat(ds[..|ds| - 1]) + ds[|ds| - 1]
  }

  lemma {:induction false} ConcatOfParts(a: seq<seq<Byte>>, b: seq<seq<Byte>>)
    ensures Concat(a + b) == Concat(a) + Concat(b)
    decreases |b|
  {
    if b == [] {
      assert a + b == a;
    } else {
      var n := |b| - 1;
      assert (a + b)[..|a| + n] == a + b[..n];
      ConcatOfParts(a, b[..n]);
    }
  }

  lemma LastIsEmitted(ds: seq<seq<Byte>>)
    requires ds != []
    ensures Emitted(ds[..|ds| - 1]) <= Emitted(ds)
  {
  }

  lemma {:induction false} EmittedIsPrefix(ds: seq<seq<Byte>>, i: nat)
    requires i <= |ds|
    ensures Emitted(ds[..i]) <= Emitted(ds)
    decreases |ds| - i
  {
    hide Emitted;
    if i < |ds| {
      EmittedIsPrefix(ds, i + 1);
      LastIsEmitted(ds[..i + 1]);
      assert ds[..i + 1][..i] == ds[..i];
    } else {
      assert ds[..i] == ds;
    }
  }

  /** An empty piece, which is taken for the end, comes between a CR and its LF. */
  predicate TornAt(ds: seq<seq<Byte>>, i: int) {
    0 <= i < |ds| && ds[i] == [] && EndsCR(Concat(ds[..i])) && StartsLF(Concat(ds[i + 1..]))
  }

  ghost predicate Torn(ds: seq<seq<Byte>>) {
    exists i :: TornAt(ds, i)
  }

  lemma TornEarly(ds: seq<seq<Byte>>, n: nat, i: int)
    requires n <= |ds| && TornAt(ds[..n], i)
    ensures TornAt(ds, i)
  {
    assert ds[..n][..i] == ds[..i];
    assert ds[i + 1..] == ds[..n][i + 1..] + ds[n..];
    ConcatOfParts(ds[..n][i + 1..], ds[n..]);
  }

  /** Nothing is held back only when the last piece was empty or did not end in CR. */
  lemma {:induction false} HeldIsCR(ds: seq<seq<Byte>>)
    ensures Held(ds) == [] || Held(ds) == [CR]
    ensures Held(ds) == [CR] <==> ds != [] && EndsCR(ds[|ds| - 1])
  {
    if ds != [] {
      var n := |ds| - 1;
      var h, d := Held(ds[..n]), ds[n];
      NormEnds(h + d);
    }
  }

  lemma StepIsNorm(e: seq<Byte>, h: seq<Byte>, c: seq<Byte>, d: seq<Byte>)
    requires e + h == Norm(c) && (h == [] || h == [CR])
    requires !(EndsCR(c) && StartsLF(d) && h == [])
    ensures e + Norm(h + d) == Norm(c + d)
  {
    hide Norm;
    NormEnds(c);
    if EndsCR(c) && StartsLF(d) {
      NormOfSeam(c, d);
      CRBeforeLF([CR], d);
      assert e == Norm(c)[..|Norm(c)| - 1] == Norm(c[..|c| - 1]);
    } else {
      NormOfParts(c, d);
      if h == [] {
        assert h + d == d && e + h == e;
      } else {
        assert EndsCR(e + h);
        NormOfParts([CR], d);
        NormOfOne();
        assert e + ([CR] + Norm(d)) == (e + h) + Norm(d);
      }
    }
  }

  lemma NormOfOne()
    ensures Norm([CR]) == [CR] && Norm([]) == []
  {
  }

  /** As long as no pair is torn, what is emitted and held back is the text with each CRLF
    replaced by LF. */
  lemma {:induction false} UntornIsNorm(ds: seq<seq<Byte>>)
    requires !Torn(ds)
    ensures Emitted(ds) + Held(ds) == Norm(Concat(ds))
    decreases |ds|
  {
    if ds != [] {
      var n := |ds| - 1;
      var before, d := ds[..n], ds[n];
      if i :| TornAt(before, i) { TornEarly(ds, n, i); }
      UntornIsNorm(before);
      HeldIsCR(before);
      var e, h, c := Emitted(before), Held(before), Concat(before);
      if EndsCR(c) && StartsLF(d) && h == [] { LastPieceWasEmpty(ds); }
      StepIsNorm(e, h, c, d);
      HeldAndPassed(e, h, d);
    }
  }

  lemma HeldAndPassed(e: seq<Byte>, h: seq<Byte>, d: seq<Byte>)
    requires h == [] || h == [CR]
    ensures e + Passed(h, d) + Holds(h, d) == e + Norm(h + d)
  {
    if d == [] { assert h + d == h; }
  }

  /** If a CR was let go and an LF follows, the pair was torn. */
  lemma LastPieceWasEmpty(ds: seq<seq<Byte>>)
    requires ds != [] && StartsLF(ds[|ds| - 1])
    requires EndsCR(Concat(ds[..|ds| - 1])) && Held(ds[..|ds| - 1]) == []
    ensures Torn(ds)
  {
    var n := |ds| - 1;
    var before := ds[..n];
    HeldIsCR(before);
    assert Concat(before) == Concat(before[..n - 1]) + before[n - 1];
    assert before[n - 1] == [];
    assert ds[..n - 1] == before[..n - 1];
    assert ds[n - 1 + 1..] == [ds[n]];
    assert Concat([ds[n]]) == Concat([]) + ds[n] == ds[n];
    assert TornAt(ds, n - 1);
  }

  /** A torn pair shows: a CR stands where an LF should. */
  lemma TornIsSeen(ds: seq<seq<Byte>>)
    requires Torn(ds)
    ensures exists k :: 0 <= k < |Emitted(ds)| && k < |Norm(Concat(ds))| && Emitted(ds)[k] != Norm(Concat(ds))[k]
  {
    var i := FirstTorn(ds);
    var c, rest := Concat(ds[..i]), Concat(ds[i + 1..]);
    if j :| TornAt(ds[..i], j) { TornEarly(ds, i, j); }
    UntornIsNorm(ds[..i]);
    EmptyPieceEmits(ds, i);
    EmittedIsPrefix(ds, i + 1);
    NormOfSeam(c, rest);
    hide Torn, TornAt, Emitted, Concat;
    var k := |Norm(c)| - 1;
    assert Norm(rest)[0] == LF;
    assert Emitted(ds)[k] == Norm(c)[k] == CR;
  }

  lemma EmptyPieceEmits(ds: seq<seq<Byte>>, i: nat)
    requires i < |ds| && ds[i] == []
    ensures Emitted(ds[..i + 1]) == Emitted(ds[..i]) + Held(ds[..i])
    ensures Concat(ds) == Concat(ds[..i]) + Concat(ds[i + 1..])
  {
    hide Emitted, Concat, Held;
    var front, back := ds[..i + 1], ds[i + 1..];
    assert ds == front + back && |front| - 1 == i && front[i] == [];
    assert front[..i] == ds[..i];
    LastIsEmpty(front);
    ConcatOfParts(front, back);
  }

  lemma LastIsEmpty(ds: seq<seq<Byte>>)
    requires ds != [] && ds[|ds| - 1] == []
    ensures var before := ds[..|ds| - 1];
      Emitted(ds) == Emitted(before) + Held(before) && Concat(ds) == Concat(before)
  {
  }

  lemma FirstTorn(ds: seq<seq<Byte>>) returns (i: nat)
    requires Torn(ds)
    ensures TornAt(ds, i) && forall j :: 0 <= j < i ==> !TornAt(ds, j)
  {
    i := 0;
    while !TornAt(ds, i)
      invariant i <= |ds|
      invariant forall j :: 0 <= j < i ==> !TornAt(ds, j)
      decreases |ds| - i
    {
      i := i + 1;
    }
  }

  /** The whole text comes out right if and only if no empty piece tears a pair and no CR is
    left behind. */
  lemma EmittedIsNorm(ds: seq<seq<Byte>>)
    ensures Emitted(ds) == Norm(Concat(ds)) <==> !Torn(ds) && (ds == [] || !EndsCR(ds[|ds| - 1]))
  {
    HeldIsCR(ds);
    if Torn(ds) { TornIsSeen(ds); } else { UntornIsNorm(ds); }
  }

  /** Pieces that are not empty, then the bare end of the stream: always right. */
  lemma {:induction false} WholePiecesAreNorm(ds: seq<seq<Byte>>)
    requires forall i :: 0 <= i < |ds| ==> ds[i] != []
    ensures Emitted(ds + [[]]) == Norm(Concat(ds)) && Concat(ds + [[]]) == Concat(ds)
  {
    var all := ds + [[]];
    assert all[..|ds|] == ds;
    assert Concat(all) == Concat(ds) + [] == Concat(ds);
    forall i ensures !TornAt(all, i) {
      if i == |ds| { assert all[i + 1..] == []; }
    }
    EmittedIsNorm(all);
  }

  /* ----- The reader ----- */

  datatype Error = EOF | Fault

  /** Any reader: the pieces it has yet to deliver, one call taking from at most one; then its
    final error, which may come early, together with the last piece. */
  class Source {
    var script: seq<seq<Byte>>
    const early: bool
    const end: Error

    constructor (script: seq<seq<Byte>>, early: bool, end: Error)
      ensures this.script == script && this.early == early && this.end == end
    {
      this.script, this.early, this.end := script, early, end;
    }

    method Read(buf: array<Byte>, limit: nat) returns (n: nat, er: Option<Error>)
      requires limit <= buf.Length
      modifies this, buf
      ensures n <= limit
      ensures (buf[..n], er, script) == Taken(old(script), early, end, limit)
    {
      if script == [] {
        return 0, Some(end);
      }
      var d := script[0];
      n := if |d| <= limit then |d| else limit;
      forall i | 0 <= i < n {
        buf[i] := d[i];
      }
      assert buf[..n] == d[..n];
      if n == |d| {
        assert d[..n] == d;
        er, script := if early && |script| == 1 then Some(end) else None, script[1..];
      } else {
        er, script := None, [d[n..]] + script[1..];
      }
    }
  }

  /** What a read of at most limit bytes delivers, its error, and what remains. */
  function Taken(script: seq<seq<Byte>>, early: bool, end: Error, limit: nat): (seq<Byte>, Option<Error>,
                 seq<seq<Byte>>) {
    if script == [] then ([], Some(end), [])
    else if |script[0]| <= limit then (script[0], if early && |script| == 1 then Some(end) else None, script[1..])
    else (script[0][..limit], None, [script[0][limit..]] + script[1..])
  }

  /** The place of the first pair in buf[lo..hi], or -1. */
  method Index(buf: array<Byte>, lo: nat, hi: nat) returns (at: int)
    requires lo <= hi <= buf.Length
    ensures at == -1 || lo <= at < hi - 1
    ensures at == -1 ==> Pairless(buf[lo..hi])
    ensures at != -1 ==> buf[at] == CR && buf[at + 1] == LF && Pairless(buf[lo..at])
  {
    at := lo;
    while at + 1 < hi
      invariant lo <= at && (at < hi || at == lo == hi)
      invariant forall i :: lo <= i < at ==> !(buf[i] == CR && buf[i + 1] == LF)
    {
      if buf[at] == CR && buf[at + 1] == LF {
        return;
      }
      at := at + 1;
    }
    at := -1;
  }

  /** Moves buf[lo..hi] to begin at to; the two places may overlap. */
  method Move(buf: array<Byte>, to: nat, lo: nat, hi: nat)
    requires lo <= hi <= buf.Length && to + (hi - lo) <= buf.Length
    modifies buf
    ensures buf[..to + (hi - lo)] == old(buf[..to]) + old(buf[lo..hi])
    ensures forall i :: to + (hi - lo) <= i < buf.Length ==> buf[i] == old(buf[i])
  {
    forall i | to <= i < to + (hi - lo) {
      buf[i] := buf[lo + (i - to)];
    }
    assert buf[..to + (hi - lo)] == buf[..to] + buf[to..to + (hi - lo)];
  }

  /** What one more shift to the left does to the normalised front of a buffer. */
  lemma ShiftIsNorm(s: seq<Byte>, p: nat, i: nat)
    requires p + 2 <= i <= |s| && HasPair(s, p) && Pairless(s[p + 2..i])
    ensures Norm(s[..i]) == Norm(s[..p]) + s[p + 1..i]
  {
    hide Norm, Pairless;
    var front, back := s[..p], s[p..i];
    assert s[..i] == front + back;
    assert back[2..] == s[p + 2..i] && back[0] == CR && back[1] == LF;
    NormOfParts(front, back);
    NormWithoutPairs(s[p + 2..i]);
    NormStep(back);
    assert [LF] + s[p + 2..i] == s[p + 1..i];
  }

  /** Moves what lies between the pair at p and the place i to the left, over the CR of the pair
    and the shift bytes that were removed before it. */
  method ShiftLeft(buf: array<Byte>, p: nat, shift: nat, i: nat, ghost s: seq<Byte>)
    requires |s| <= buf.Length && p + 2 <= i <= |s| && shift <= p
    requires HasPair(s, p) && Pairless(s[p + 2..i])
    requires buf[..p - shift] == Norm(s[..p]) && forall j :: p < j < i ==> buf[j] == s[j]
    modifies buf
    ensures buf[..i - shift - 1] == Norm(s[..i])
    ensures forall j :: i <= j < buf.Length ==> buf[j] == old(buf[j])
  {
    hide Norm, Pairless;
    ShiftIsNorm(s, p, i);
    assert buf[p + 1..i] == s[p + 1..i];
    Move(buf, p - shift, p + 1, i);
  }

  /** Removes the CR of every pair in buf[..nr], in place. */
  method RemovePairs(buf: array<Byte>, nr: nat) returns (n: nat)
    requires nr <= buf.Length
    modifies buf
    ensures n <= nr && buf[..n] == Norm(old(buf[..nr]))
  {
    hide Norm, Pairless;
    ghost var s := buf[..nr];
    var searchOffset, shiftCount, previousIndex := 0, 0, -1;
    while true
      invariant previousIndex == -1 ==> searchOffset == 0 && shiftCount == 0 && buf[..nr] == s
      invariant previousIndex != -1 ==> HasPair(s, previousIndex) && searchOffset == previousIndex + 2 <= nr
      invariant previousIndex != -1 ==> 0 <= shiftCount <= previousIndex
      invariant previousIndex != -1 ==> buf[..previousIndex - shiftCount] == Norm(s[..previousIndex])
      invariant forall i :: previousIndex < i < nr ==> buf[i] == s[i]
      decreases nr - searchOffset
    {
      var index := Index(buf, searchOffset, nr);
      if index == -1 {
        assert buf[searchOffset..nr] == s[searchOffset..nr];
        break;
      }
      assert buf[searchOffset..index] == s[searchOffset..index];
      assert HasPair(s, index);
      if previousIndex != -1 {
        ShiftLeft(buf, previousIndex, shiftCount, index, s);
        shiftCount := shiftCount + 1;
      } else {
        NormWithoutPairs(s[..index]);
        assert buf[..index] == s[..index];
      }
      previousIndex := index;
      searchOffset := index + 2;
    }
    if previousIndex != -1 {
      ShiftLeft(buf, previousIndex, shiftCount, nr, s);
      assert s[..nr] == s;
      shiftCount := shiftCount + 1;
    } else {
      assert s[0..nr] == s;
      NormWithoutPairs(s);
    }
    n := nr - shiftCount;
  }

  method PrependCR(buf: array<Byte>, nr: nat)
    requires nr < buf.Length
    modifies buf
    ensures buf[..nr + 1] == [CR] + old(buf[..nr])
  {
    Move(buf, 1, 0, nr);
    buf[0] := CR;
  }

  lemma CRBeforeLF(h: seq<Byte>, d: seq<Byte>)
    requires h == [] || (h == [CR] && StartsLF(d))
    ensures Norm(h + d) == Norm(d)
  {
    if h == [] {
      assert h + d == d;
    } else {
      NormOfSeam(h, d);
      assert h[..0] == [];
    }
  }

  class LineEndingReader {
    const src: Source
    var prevReadEndedCR: bool

    constructor (src: Source)
      ensures this.src == src && !prevReadEndedCR
    {
      this.src, prevReadEndedCR := src, false;
    }

    ghost function Held(): seq<Byte>
      reads this
    {
      if prevReadEndedCR then [CR] else []
    }

    /** Gives what Passed says of the data that the source delivers, and holds back what Holds
      says; d is that data. */
    method Read(buf: array<Byte>) returns (nr: nat, er: Option<Error>, ghost d: seq<Byte>)
      requires prevReadEndedCR ==> buf.Length > 0
      modifies this, src, buf
      ensures var limit := if old(prevReadEndedCR) then buf.Length - 1 else buf.Length;
        var taken := Taken(old(src.script), src.early, src.end, limit);
        && d == taken.0 && src.script == taken.2
        && er == if d == [] && old(prevReadEndedCR) then None else taken.1
      ensures nr <= buf.Length && buf[..nr] == Passed(old(Held()), d) && Held() == Holds(old(Held()), d)
    {
      hide Norm, Taken;
      var buflen := buf.Length;
      if prevReadEndedCR {
        buflen := buflen - 1;
      }
      nr, er := src.Read(buf, buflen);
      d := buf[..nr];
      if nr > 0 {
        if prevReadEndedCR && buf[0] != LF {
          PrependCR(buf, nr);
          nr := nr + 1;
        } else {
          CRBeforeLF(Held(), d);
        }
        ghost var x := Norm(old(Held()) + d);
        assert Norm(buf[..nr]) == x;
        nr := RemovePairs(buf, nr);
        NormEnds(old(Held()) + d);
        prevReadEndedCR := buf[nr - 1] == CR;
        if prevReadEndedCR {
          nr := nr - 1;
        }
      } else if prevReadEndedCR {
        buf[0] := CR;
        nr, er := 1, None;
        prevReadEndedCR := false;
      }
    }
  }

  /* ----- Copying a whole stream ----- */

  /** What bounds the number of reads. */
  function Size(script: seq<seq<Byte>>): nat {
    if script == [] then 0 else 2 + |script[0]| + Size(script[1..])
  }

  lemma TakenIsLess(script: seq<seq<Byte>>, early: bool, end: Error, held: bool, limit: nat)
    requires script != [] && limit >= if held then 1 else 2
    ensures var taken := Taken(script, early, end, limit);
      var held' := Holds(if held then [CR] else [], taken.0) != [];
      Size(taken.2) + (if held' then 1 else 0) < Size(script) + if held then 1 else 0
  {
    hide Norm;
    if |script[0]| > limit {
      assert ([script[0][limit..]] + script[1..])[1..] == script[1..];
    }
  }

  /** Cutting a piece in two does not change which pairs are torn. */
  lemma TornWhenCut(x: seq<seq<Byte>>, a: seq<Byte>, b: seq<Byte>, y: seq<seq<Byte>>)
    requires a != [] && b != []
    ensures Torn(x + [a + b] + y) <==> Torn(x + [a] + [b] + y)
    ensures Concat(x + [a + b] + y) == Concat(x + [a] + [b] + y)
  {
    hide Concat, EndsCR, StartsLF;
    var s, t := x + [a + b] + y, x + [a] + [b] + y;
    CutParts(x, a, b, y);
    if i :| TornAt(s, i) {
      CutAt(x, a, b, y, i);
      assert TornAt(t, if i < |x| then i else i + 1);
    }
    if i :| TornAt(t, i) {
      assert i < |x| || i > |x| + 1;
      CutAt(x, a, b, y, if i < |x| then i else i - 1);
      assert TornAt(s, if i < |x| then i else i - 1);
    }
  }

  lemma CutParts(x: seq<seq<Byte>>, a: seq<Byte>, b: seq<Byte>, y: seq<seq<Byte>>)
    ensures Concat(x + [a + b] + y) == Concat(x + [a] + [b] + y)
  {
    ConcatOfParts(x + [a + b], y);
    ConcatOfParts(x + [a] + [b], y);
    assert (x + [a] + [b])[..|x| + 1] == x + [a];
    assert Concat(x + [a + b]) == Concat(x) + (a + b);
  }

  lemma CutAt(x: seq<seq<Byte>>, a: seq<Byte>, b: seq<Byte>, y: seq<seq<Byte>>, i: nat)
    requires i < |x| + 1 + |y| && i != |x|
    ensures var s, t := x + [a + b] + y, x + [a] + [b] + y;
      var j := if i < |x| then i else i + 1;
      s[i] == t[j] && Concat(s[..i]) == Concat(t[..j]) && Concat(s[i + 1..]) == Concat(t[j + 1..])
  {
    hide Concat;
    var s, t := x + [a + b] + y, x + [a] + [b] + y;
    if i < |x| {
      assert s[..i] == t[..i];
      assert s[i + 1..] == x[i + 1..] + [a + b] + y && t[i + 1..] == x[i + 1..] + [a] + [b] + y;
      CutParts(x[i + 1..], a, b, y);
    } else {
      assert s[i + 1..] == t[i + 2..];
      var k := i - |x| - 1;
      assert s[..i] == x + [a + b] + y[..k] && t[..i + 1] == x + [a] + [b] + y[..k];
      CutParts(x, a, b, y[..k]);
    }
  }

  /** The empty read at the end of a stream tears nothing. */
  lemma TornAtEnd(ds: seq<seq<Byte>>)
    ensures Torn(ds + [[]]) <==> Torn(ds)
    ensures Concat(ds + [[]]) == Concat(ds)
  {
    var t := ds + [[]];
    assert t[..|ds|] == ds;
    LastIsEmpty(t);
    if i :| TornAt(ds, i) { TornEarly(t, |ds|, i); }
    if i :| TornAt(t, i) {
      assert t[|ds| + 1..] == [];
      assert t[..i] == ds[..i];
      assert t[i + 1..] == ds[i + 1..] + [[]];
      LastIsEmpty(t[i + 1..]);
      assert t[i + 1..][..|ds| - i - 1] == ds[i + 1..];
      assert TornAt(ds, i);
    }
  }

  /** ds is what was read of all, and rest is left: nothing is lost, and the same pairs torn. */
  ghost predicate ReadSoFar(all: seq<seq<Byte>>, ds: seq<seq<Byte>>, rest: seq<seq<Byte>>) {
    Concat(ds + rest) == Concat(all) && (Torn(ds + rest) <==> Torn(all))
  }

  lemma TakenIsRead(all: seq<seq<Byte>>, ds: seq<seq<Byte>>, rest: seq<seq<Byte>>, early: bool, end: Error, limit: nat)
    requires ReadSoFar(all, ds, rest) && limit > 0
    ensures var taken := Taken(rest, early, end, limit);
      ReadSoFar(all, ds + [taken.0], taken.2)
  {
    hide Torn, Concat;
    if rest == [] {
      TornAtEnd(ds);
      assert ds + rest == ds && ds + [[]] + [] == ds + [[]];
    } else if |rest[0]| <= limit {
      assert ds + rest == ds + [rest[0]] + rest[1..];
    } else {
      var a, b := rest[0][..limit], rest[0][limit..];
      assert a + b == rest[0];
      TornWhenCut(ds, a, b, rest[1..]);
      assert ds + rest == ds + [a + b] + rest[1..];
      assert ds + [a] + ([b] + rest[1..]) == ds + [a] + [b] + rest[1..];
    }
  }

  predicate LastEndsCR(script: seq<seq<Byte>>) {
    script != [] && EndsCR(script[|script| - 1])
  }

  /** How the last piece goes, and how the end comes. */
  lemma TakenAtEnd(script: seq<seq<Byte>>, early: bool, end: Error, limit: nat)
    requires limit > 0
    ensures var taken := Taken(script, early, end, limit);
      && (script == [] ==> taken == ([], Some(end), []))
      && (taken.1 == None || (taken.1 == Some(end) && taken.2 == []))
      && (taken.2 != [] ==> (LastEndsCR(taken.2) <==> LastEndsCR(script)))
      && (taken.1 == None && taken.2 == [] ==> !early && script != [])
      && (taken.1 == Some(end) ==> (EndsCR(taken.0) <==> early && LastEndsCR(script)))
  {
  }

  lemma NothingEnds()
    ensures !EndsCR([]) && !LastEndsCR([])
  {
  }

  lemma HoldsNothing(held: seq<Byte>)
    ensures Holds(held, []) == []
  {
  }

  /** Copies a stream to its end.  The copy is right if and only if the source never delivers an
    empty piece between a CR and its LF, nor its error together with a last piece ending in CR. */
  method Copy(reader: LineEndingReader, buf: array<Byte>) returns (out: seq<Byte>, er: Option<Error>)
    requires buf.Length >= 2 && !reader.prevReadEndedCR
    modifies reader, reader.src, buf
    ensures er == Some(reader.src.end)
    ensures var script := old(reader.src.script);
      out == Norm(Concat(script)) <==> !Torn(script) && !(reader.src.early && LastEndsCR(script))
  {
    hide Norm, Taken, Torn, Concat, Passed, Holds, EndsCR, LastEndsCR;
    var src := reader.src;
    ghost var script := src.script;
    ghost var ds: seq<seq<Byte>> := [];
    assert ds + script == script;
    out := [];
    while true
      invariant out == Emitted(ds) && reader.Held() == Held(ds)
      invariant ReadSoFar(script, ds, src.script)
      invariant src.script != [] || src.early ==> (LastEndsCR(src.script) <==> LastEndsCR(script))
      decreases Size(src.script) + if reader.prevReadEndedCR then 1 else 0
    {
      ghost var rest, held := src.script, reader.prevReadEndedCR;
      ghost var limit := if held then buf.Length - 1 else buf.Length;
      var nr, e;
      ghost var d;
      nr, e, d := reader.Read(buf);
      TakenIsRead(script, ds, rest, src.early, src.end, limit);
      TakenAtEnd(rest, src.early, src.end, limit);
      HoldsNothing(if held then [CR] else []);
      NothingEnds();
      if rest != [] { TakenIsLess(rest, src.early, src.end, held, limit); }
      out := out + buf[..nr];
      assert (ds + [d])[..|ds|] == ds;
      ds := ds + [d];
      if e.Some? {
        er := e;
        break;
      }
    }
    assert ds + [] == ds;
    EmittedIsNorm(ds);
  }
}
