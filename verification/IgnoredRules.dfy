/** The trie of ignore rules against the plain list of rules (gps/pkgtree/ignored_ruleset.go).
  A radix tree is represented by the map from its keys to their values. */
module IgnoredRules {
  import opened Versions
  import opened Strings

  /** Stems of wildcards lead to true, literal rules to false. */
  type Trie = map<string, bool>

  /* ----- What the rules say ----- */

  predicate IsWildcard(rule: string) {
    rule != "" && rule[|rule| - 1] == '*'
  }

  /** The global wildcard and the empty rule are dropped. */
  predicate IsRule(rule: string) {
    rule != "*" && rule != ""
  }

  predicate HasStem(rules: set<string>, stem: string) {
    IsRule(stem + "*") && stem + "*" in rules
  }

  predicate HasLiteral(rules: set<string>, rule: string) {
    IsRule(rule) && !IsWildcard(rule) && rule in rules
  }

  /** Some rule is the path, or a wildcard whose stem is a prefix of it. */
  ghost predicate Matches(rules: set<string>, path: string) {
    HasLiteral(rules, path) || exists stem :: stem <= path && HasStem(rules, stem)
  }

  /** What follows the stem in the path sorts below the asterisk. */
  predicate Below(stem: string, path: string)
    requires stem <= path
  {
    |stem| < |path| && path[|stem|] < '*'
  }

  /** Literal rule l hides the path from all wildcards that match it: each of their stems is
    shorter, and followed by a character that sorts below the asterisk. */
  ghost predicate Shadows(rules: set<string>, path: string, l: string) {
    && HasLiteral(rules, l) && l <= path && !HasLiteral(rules, path)
    && forall stem :: stem <= path && HasStem(rules, stem) ==> |stem| < |l| && Below(stem, path)
  }

  ghost predicate Shadowed(rules: set<string>, path: string) {
    exists l :: Shadows(rules, path, l)
  }

  /* ----- Order ----- */

  lemma {:induction false} LeAfterPrefix(k: string, x: string, y: string)
    ensures Le(k + x, k + y) <==> Le(x, y)
  {
    if k == "" {
      assert k + x == x && k + y == y;
    } else {
      var a, b := k + x, k + y;
      assert a[1..] == k[1..] + x && b[1..] == k[1..] + y && a[0] == b[0] == k[0];
      LeAfterPrefix(k[1..], x, y);
    }
  }

  /** A string that goes on after a stem, against the wildcard of the stem. */
  lemma WildcardOrder(stem: string, s: string)
    requires stem <= s
    ensures |stem| < |s| && Le(s, stem + "*") ==> Below(stem, s) || s == stem + "*"
    ensures Le(stem + "*", s) ==> |stem| < |s| && !Below(stem, s)
  {
    var rest := s[|stem|..];
    assert s == stem + rest;
    LeAfterPrefix(stem, rest, "*");
    LeAfterPrefix(stem, "*", rest);
    if rest != "" && rest[0] == '*' && Le(rest, "*") { assert rest == "*"; }
  }

  /* ----- The trie ----- */

  predicate UnderWildcard(t: Trie, s: string) {
    var k := LongestPrefix(t, s);
    k.Some? && t[k.value]
  }

  predicate IsIgnored(t: Trie, path: string) {
    path != "" &&
    match LongestPrefix(t, path)
    case None => false
    case Some(k) => t[k] || path == k
  }

  /** What the trie has of the rules that were put into it. */
  ghost predicate TrieOk(t: Trie, rules: set<string>) {
    && (forall k :: k in t ==> if t[k] then HasStem(rules, k) else HasLiteral(rules, k))
    && (forall stem :: HasStem(rules, stem) ==> CoversStem(t, stem))
    && (forall l :: HasLiteral(rules, l) ==> l in t || exists k :: CoversLiteral(t, l, k))
    && (forall k, l :: k in t && t[k] && l in t && k <= l && k != l ==> Below(k, l))
  }

  ghost predicate CoversStem(t: Trie, stem: string) {
    exists k :: k in t && t[k] && k <= stem && !Below(k, stem)
  }

  predicate CoversLiteral(t: Trie, l: string, k: string) {
    k in t && t[k] && k <= l && |k| < |l| && !Below(k, l)
  }

  /** What a rule does to the trie. */
  function Put(t: Trie, rule: string): Trie {
    if !IsRule(rule) || UnderWildcard(t, rule) then t
    else if IsWildcard(rule) then t[rule[..|rule| - 1] := true]
    else t[rule := false]
  }

  /** Rules that are put into the trie in order. */
  ghost predicate Ready(t: Trie, done: set<string>, rule: string) {
    TrieOk(t, done) && IsRule(rule) && forall r :: r in done ==> Le(r, rule)
  }

  /** A wildcard of an earlier rule: it is a proper prefix, and not sorted below. */
  lemma EarlierStem(t: Trie, done: set<string>, rule: string, k: string)
    requires Ready(t, done, rule) && k in t && t[k] && k <= rule
    ensures |k| < |rule| && !Below(k, rule)
  {
    WildcardOrder(k, rule);
  }

  lemma SkippedRule(t: Trie, done: set<string>, rule: string)
    requires Ready(t, done, rule) && UnderWildcard(t, rule)
    ensures TrieOk(t, done + {rule})
  {
    var k := LongestPrefix(t, rule).value;
    EarlierStem(t, done, rule, k);
    var done' := done + {rule};
    forall stem | HasStem(done', stem) ensures CoversStem(t, stem) {
      if stem + "*" == rule {
        assert |k| <= |stem| && k <= stem;
      } else {
        assert HasStem(done, stem);
      }
    }
    forall l | HasLiteral(done', l) ensures l in t || exists k :: CoversLiteral(t, l, k) {
      if l == rule { assert CoversLiteral(t, l, k); } else { assert HasLiteral(done, l); }
    }
    forall k | k in t ensures if t[k] then HasStem(done', k) else HasLiteral(done', k) {
      if t[k] { assert HasStem(done, k); } else { assert HasLiteral(done, k); }
    }
  }

  /** When no wildcard is the longest key of s, each one that is a prefix of s sorts below it. */
  lemma NotUnderWildcard(t: Trie, done: set<string>, s: string, k: string)
    requires TrieOk(t, done) && !UnderWildcard(t, s) && k in t && t[k] && k <= s
    ensures Below(k, s)
  {
    var m := LongestPrefix(t, s).value;
    assert k <= m && k != m;
    assert Below(k, m);
  }

  lemma LiteralRule(t: Trie, done: set<string>, rule: string)
    requires Ready(t, done, rule) && !UnderWildcard(t, rule) && !IsWildcard(rule)
    ensures TrieOk(t[rule := false], done + {rule})
  {
    hide Le;
    var t', done' := t[rule := false], done + {rule};
    assert rule in t ==> !t[rule];
    forall stem | HasStem(done', stem) ensures CoversStem(t', stem) {
      assert HasStem(done, stem) by { assert IsWildcard(stem + "*"); }
      var k :| k in t && t[k] && k <= stem && !Below(k, stem);
      assert k in t' && t'[k];
    }
    forall l | HasLiteral(done', l) ensures l in t' || exists k :: CoversLiteral(t', l, k) {
      if l != rule {
        assert HasLiteral(done, l);
        if k :| CoversLiteral(t, l, k) { assert CoversLiteral(t', l, k); }
      }
    }
    forall k | k in t' ensures if t'[k] then HasStem(done', k) else HasLiteral(done', k) {
      if k != rule { assert if t[k] then HasStem(done, k) else HasLiteral(done, k); }
    }
    forall k, l | k in t' && t'[k] && l in t' && k <= l && k != l ensures Below(k, l) {
      if l == rule { NotUnderWildcard(t, done, rule, k); }
    }
  }

  lemma SameStem(a: string, b: string)
    ensures a + "*" == b + "*" ==> a == b
  {
    assert (a + "*")[..|a|] == a && (b + "*")[..|b|] == b;
  }

  lemma WildcardRule(t: Trie, done: set<string>, stem: string)
    requires Ready(t, done, stem + "*") && !UnderWildcard(t, stem + "*")
    ensures TrieOk(t[stem := true], done + {stem + "*"})
  {
    var rule := stem + "*";
    var t', done' := t[stem := true], done + {rule};
    forall s | HasStem(done', s) ensures CoversStem(t', s) {
      if s == stem {
        assert t'[s] && !Below(s, s);
      } else {
        SameStem(s, stem);
        assert HasStem(done, s);
        var k :| k in t && t[k] && k <= s && !Below(k, s);
        assert k in t' && t'[k];
      }
    }
    assert IsWildcard(rule);
    forall l | HasLiteral(done', l) ensures l in t' || exists k :: CoversLiteral(t', l, k) {
      assert HasLiteral(done, l);
      if k :| CoversLiteral(t, l, k) { assert CoversLiteral(t', l, k); }
    }
    forall k | k in t' ensures if t'[k] then HasStem(done', k) else HasLiteral(done', k) {
      if k != stem { assert if t[k] then HasStem(done, k) else HasLiteral(done, k); }
    }
    forall k, l | k in t' && t'[k] && l in t' && k <= l && k != l ensures Below(k, l) {
      if l == stem {
        NotUnderWildcard(t, done, rule, k);
      } else if k == stem {
        LaterKey(t, done, stem, l);
      }
    }
  }

  /** A key that goes on after a stem that comes later sorts below its wildcard. */
  lemma LaterKey(t: Trie, done: set<string>, stem: string, l: string)
    requires Ready(t, done, stem + "*") && l in t && stem <= l && stem != l
    ensures Below(stem, l)
  {
    if t[l] {
      assert Le(l + "*", stem + "*");
      WildcardOrder(stem, l + "*");
      assert (l + "*")[|stem|] == l[|stem|];
      assert |l + "*"| > |stem + "*"|;
    } else {
      WildcardOrder(stem, l);
      assert IsWildcard(stem + "*");
    }
  }

  lemma PutKeepsTrie(t: Trie, done: set<string>, rule: string)
    requires TrieOk(t, done) && forall r :: r in done ==> Le(r, rule)
    ensures TrieOk(Put(t, rule), done + {rule})
  {
    if !IsRule(rule) {
      DroppedRule(t, done, rule);
    } else if UnderWildcard(t, rule) {
      SkippedRule(t, done, rule);
    } else if IsWildcard(rule) {
      var stem := rule[..|rule| - 1];
      assert stem + "*" == rule;
      WildcardRule(t, done, stem);
    } else {
      LiteralRule(t, done, rule);
    }
  }

  lemma DroppedRule(t: Trie, done: set<string>, rule: string)
    requires TrieOk(t, done) && !IsRule(rule)
    ensures TrieOk(t, done + {rule})
  {
    assert forall s :: HasStem(done, s) <==> HasStem(done + {rule}, s);
    assert forall l :: HasLiteral(done, l) <==> HasLiteral(done + {rule}, l);
  }

  /* ----- The trie against the list ----- */

  /** A wildcard that the path goes on after with no lower character is the longest key. */
  lemma GoodStemIsLongest(t: Trie, rules: set<string>, path: string, k: string)
    requires TrieOk(t, rules) && k in t && t[k] && k <= path && !Below(k, path)
    ensures LongestPrefix(t, path) == Some(k)
  {
    var m := LongestPrefix(t, path).value;
    assert k <= m;
  }

  lemma IgnoredMatches(t: Trie, rules: set<string>, path: string)
    requires TrieOk(t, rules) && IsIgnored(t, path)
    ensures Matches(rules, path)
  {
    var k := LongestPrefix(t, path).value;
    assert if t[k] then HasStem(rules, k) else HasLiteral(rules, k);
  }

  lemma ShadowedIsNotIgnored(t: Trie, rules: set<string>, path: string, l: string)
    requires TrieOk(t, rules) && Shadows(rules, path, l)
    ensures !IsIgnored(t, path)
  {
    forall j ensures !CoversLiteral(t, l, j) {
      if j in t && t[j] && j <= l { assert HasStem(rules, j); }
    }
    assert l in t;
    var k := LongestPrefix(t, path).value;
    assert if t[k] then HasStem(rules, k) else HasLiteral(rules, k);
  }

  lemma {:induction false} LongestStem(rules: set<string>, path: string, n: nat) returns (stem: string)
    requires n <= |path| && exists s :: s <= path && |s| <= n && HasStem(rules, s)
    ensures stem <= path && |stem| <= n && HasStem(rules, stem)
    ensures forall s :: s <= path && |s| <= n && HasStem(rules, s) ==> |s| <= |stem|
    decreases n
  {
    if HasStem(rules, path[..n]) {
      stem := path[..n];
    } else {
      forall s | s <= path && |s| <= n && HasStem(rules, s) ensures |s| < n {
        assert s == path[..|s|];
      }
      stem := LongestStem(rules, path, n - 1);
    }
  }

  lemma MatchesIgnored(t: Trie, rules: set<string>, path: string)
    requires TrieOk(t, rules) && path != "" && Matches(rules, path) && !Shadowed(rules, path)
    ensures IsIgnored(t, path)
  {
    if HasLiteral(rules, path) {
      if k :| CoversLiteral(t, path, k) { GoodStemIsLongest(t, rules, path, k); }
    } else {
      var some :| some <= path && HasStem(rules, some);
      var stem := LongestStem(rules, path, |path|);
      var k :| k in t && t[k] && k <= stem && !Below(k, stem);
      if !Below(k, path) {
        GoodStemIsLongest(t, rules, path, k);
      } else {
        assert k == stem;
        LongestKeyAfterStem(t, rules, path, stem);
      }
    }
  }

  /** Every stem is followed by a lower character, and no literal rule is longer than the longest. */
  lemma LongestKeyAfterStem(t: Trie, rules: set<string>, path: string, stem: string)
    requires TrieOk(t, rules) && path != "" && !Shadowed(rules, path) && !HasLiteral(rules, path)
    requires stem in t && t[stem] && stem <= path && Below(stem, path)
    requires forall s :: s <= path && HasStem(rules, s) ==> |s| <= |stem|
    ensures IsIgnored(t, path)
  {
    hide TrieOk, HasStem, HasLiteral, Shadows;
    var m := LongestPrefix(t, path).value;
    if !t[m] { LiteralKeyShadows(t, rules, path, stem, m); }
  }

  lemma LiteralKeyShadows(t: Trie, rules: set<string>, path: string, stem: string, m: string)
    requires TrieOk(t, rules) && path != "" && !HasLiteral(rules, path)
    requires stem in t && t[stem] && stem <= path && Below(stem, path)
    requires forall s :: s <= path && HasStem(rules, s) ==> |s| <= |stem|
    requires LongestPrefix(t, path) == Some(m) && !t[m]
    ensures Shadows(rules, path, m)
  {
    hide HasStem, HasLiteral;
    assert HasLiteral(rules, m) && m != stem && stem <= m;
    forall s | s <= path && HasStem(rules, s) ensures |s| < |m| && Below(s, path) {
      var k :| k in t && t[k] && k <= s && !Below(k, s);
      if !Below(k, path) { GoodStemIsLongest(t, rules, path, k); }
    }
  }

  /** The trie ignores a path if and only if a rule matches it and no literal rule hides it. */
  lemma TrieAgrees(t: Trie, rules: set<string>, path: string)
    requires TrieOk(t, rules) && path != ""
    ensures IsIgnored(t, path) <==> Matches(rules, path) && !Shadowed(rules, path)
  {
    if l :| Shadows(rules, path, l) {
      ShadowedIsNotIgnored(t, rules, path, l);
    } else if IsIgnored(t, path) {
      IgnoredMatches(t, rules, path);
    } else if Matches(rules, path) && !Shadowed(rules, path) {
      MatchesIgnored(t, rules, path);
    }
  }

  /** A path with no character below the asterisk is never hidden. */
  lemma PlainPathAgrees(t: Trie, rules: set<string>, path: string)
    requires TrieOk(t, rules) && path != "" && forall i :: 0 <= i < |path| ==> path[i] >= '*'
    ensures IsIgnored(t, path) <==> Matches(rules, path)
  {
    TrieAgrees(t, rules, path);
    if l :| Shadows(rules, path, l) {
      forall stem | stem <= path ensures !HasStem(rules, stem) {
        assert !Below(stem, path);
      }
    }
  }

  /** Hidden all the same: both rules are given, and the wildcard matches. */
  lemma LiteralHidesPath(t: Trie)
    requires TrieOk(t, {"a!", "a*"})
    ensures Matches({"a!", "a*"}, "a!b") && !IsIgnored(t, "a!b")
  {
    var rules := {"a!", "a*"};
    assert "a" + "*" == "a*";
    assert HasStem(rules, "a") && "a" <= "a!b";
    forall stem | stem <= "a!b" && HasStem(rules, stem) ensures |stem| < 2 && Below(stem, "a!b") {
      SameStem(stem, "a");
      assert stem + "*" == "a*" by { assert (stem + "*")[|stem|] == '*'; }
    }
    assert Shadows(rules, "a!b", "a!");
    TrieAgrees(t, rules, "a!b");
  }

  /* ----- Building and unbuilding ----- */

  ghost predicate RulesOf(t: Trie, rules: set<string>) {
    && (forall k :: k in t ==> (if t[k] then k + "*" else k) in rules)
    && (forall r :: r in rules ==> exists k :: k in t && r == if t[k] then k + "*" else k)
  }

  /** A trie is built from its own rules again. */
  lemma RebuiltIsSame(t: Trie, rules: set<string>, t': Trie, rules': set<string>)
    requires TrieOk(t, rules) && RulesOf(t, rules') && TrieOk(t', rules')
    ensures t' == t
  {
    hide TrieOk, RulesOf;
    forall k ensures k in t ==> k in t' && t'[k] == t[k] { RebuiltHasKey(t, rules, t', rules', k); }
    forall k ensures k in t' ==> k in t { RebuiltHasNoMore(t, rules, t', rules', k); }
    assert t'.Keys == t.Keys;
  }

  lemma RebuiltHasKey(t: Trie, rules: set<string>, t': Trie, rules': set<string>, k: string)
    requires TrieOk(t, rules) && RulesOf(t, rules') && TrieOk(t', rules')
    ensures k in t ==> k in t' && t'[k] == t[k]
  {
    hide RulesOf, HasStem, HasLiteral;
    forall s ensures HasStem(rules', s) <==> s in t && t[s] { OwnStems(t, rules, rules', s); }
    OwnLiterals(t, rules, rules', k);
    if k in t && t[k] {
      var j :| j in t' && t'[j] && j <= k && !Below(j, k);
    } else if k in t {
      forall j ensures !CoversLiteral(t', k, j) {}
    }
  }

  lemma RebuiltHasNoMore(t: Trie, rules: set<string>, t': Trie, rules': set<string>, k: string)
    requires TrieOk(t, rules) && RulesOf(t, rules') && TrieOk(t', rules')
    ensures k in t' ==> k in t
  {
    OwnStems(t, rules, rules', k);
    OwnLiterals(t, rules, rules', k);
    hide RulesOf, HasStem, HasLiteral;
  }

  lemma OwnStems(t: Trie, rules: set<string>, rules': set<string>, stem: string)
    requires TrieOk(t, rules) && RulesOf(t, rules')
    ensures HasStem(rules', stem) <==> stem in t && t[stem]
  {
    if HasStem(rules', stem) {
      var k :| k in t && stem + "*" == if t[k] then k + "*" else k;
      if t[k] {
        SameStem(stem, k);
      } else {
        assert HasLiteral(rules, k) && IsWildcard(stem + "*");
      }
    }
    if stem in t && t[stem] { assert HasStem(rules, stem); }
  }

  lemma OwnLiterals(t: Trie, rules: set<string>, rules': set<string>, l: string)
    requires TrieOk(t, rules) && RulesOf(t, rules')
    ensures HasLiteral(rules', l) <==> l in t && !t[l]
  {
    if HasLiteral(rules', l) {
      var k :| k in t && l == if t[k] then k + "*" else k;
      if t[k] { assert IsWildcard(k + "*"); }
    }
    if l in t && !t[l] { assert HasLiteral(rules, l); }
  }

  lemma EmptyTrieIsOk()
    ensures TrieOk(map[], {})
  {
  }

  method NewIgnoredRuleset(ig: seq<string>) returns (t: Trie)
    ensures TrieOk(t, SetOf(ig))
  {
    hide TrieOk;
    t := map[];
    LeIsOrdering();
    SortSorts(Le, ig);
    var sorted := Sort(ig);
    assert SetOf(sorted[..0]) == {};
    EmptyTrieIsOk();
    for n := 0 to |sorted|
      invariant TrieOk(t, SetOf(sorted[..n]))
    {
      var i := sorted[n];
      assert sorted[..n + 1] == sorted[..n] + [i];
      assert SetOf(sorted[..n + 1]) == SetOf(sorted[..n]) + {i};
      PutKeepsTrie(t, SetOf(sorted[..n]), i);
      if i == "*" || i == "" {
        continue;
      }
      var prefix := LongestPrefix(t, i);
      var has := prefix.Some?;
      var wild := has && t[prefix.value];
      if i[|i| - 1] == '*' {
        if has && wild {
          continue;
        }
        t := t[i[..|i| - 1] := true];
      } else if !has || !wild {
        t := t[i := false];
      }
    }
    assert sorted[..|sorted|] == sorted;
    SameElements(sorted, ig);
  }

  method ToSlice(t: Trie) returns (items: seq<string>)
    requires "" !in t
    ensures RulesOf(t, SetOf(items)) && |items| == |t|
  {
    items := [];
    var todo := t.Keys;
    while todo != {}
      invariant todo <= t.Keys && |items| + |todo| == |t|
      invariant forall k :: k in t && k !in todo ==> (if t[k] then k + "*" else k) in items
      invariant forall r :: r in items ==> exists k :: k in t && r == if t[k] then k + "*" else k
    {
      var s :| s in todo;
      todo := todo - {s};
      if s != "" {
        items := items + [if t[s] then s + "*" else s];
      }
    }
  }

  lemma NoEmptyKey(t: Trie, rules: set<string>)
    requires TrieOk(t, rules)
    ensures "" !in t
  {
    assert "" + "*" == "*";
    assert !HasStem(rules, "") && !HasLiteral(rules, "");
  }

  /** A ruleset becomes a list of rules and the same ruleset again. */
  method Rebuild(ig: seq<string>) returns (t: Trie, again: Trie)
    ensures TrieOk(t, SetOf(ig)) && again == t
  {
    t := NewIgnoredRuleset(ig);
    NoEmptyKey(t, SetOf(ig));
    var items := ToSlice(t);
    again := NewIgnoredRuleset(items);
    RebuiltIsSame(t, SetOf(ig), again, SetOf(items));
  }
}
