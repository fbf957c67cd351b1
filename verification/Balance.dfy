/** Chains in which every rule of one kind has a rule of another kind before it, one for one, and what
    appending and deleting such pairs keeps. */
module Balance {
  import opened Iptables

  /** Every beginning of the chain holds at least as many `m` as `c`. */
  predicate Ahead(rules: seq<Rule>, m: Rule, c: Rule) {
    forall n :: 0 <= n <= |rules| ==> multiset(rules[..n])[c] <= multiset(rules[..n])[m]
  }

  lemma {:induction false} AheadAppend(rules: seq<Rule>, a: Rule, b: Rule, m: Rule, c: Rule)
    requires Ahead(rules, m, c) && m != c
    requires (a == m && b == c) || (a != m && a != c && b != m && b != c)
    ensures Ahead(rules + [a, b], m, c)
  {
    var all := rules + [a, b];
    var k := |rules|;
    assert rules[..k] == rules;
    forall n | 0 <= n <= |all| ensures multiset(all[..n])[c] <= multiset(all[..n])[m] {
      if n <= k {
        assert all[..n] == rules[..n];
      } else if n == k + 1 {
        assert all[..n] == rules + [a];
      } else {
        assert all[..n] == rules + [a, b];
      }
    }
  }

  /** A beginning of the chain after a removal. */
  lemma {:induction false} RemovedPrefix(rules: seq<Rule>, k: nat, n: nat)
    requires k < |rules| && n < |rules|
    ensures var r := RemoveAt(rules, k);
            if n <= k then r[..n] == rules[..n]
            else multiset(r[..n]) == multiset(rules[..n + 1]) - multiset{rules[k]} && rules[k] in multiset(rules[..n + 1])
  {
    var r := RemoveAt(rules, k);
    if n <= k {
      assert r[..n] == rules[..n];
    } else {
      var p := rules[..n + 1];
      assert p[k] == rules[k];
      assert r[..n] == RemoveAt(p, k);
      RemoveAtBag(p, k);
    }
  }

  /** Removing a rule of neither kind. */
  lemma {:induction false} AheadRemoveOther(rules: seq<Rule>, k: nat, m: Rule, c: Rule)
    requires Ahead(rules, m, c) && k < |rules| && rules[k] != m && rules[k] != c
    ensures Ahead(RemoveAt(rules, k), m, c)
  {
    var r := RemoveAt(rules, k);
    forall n | 0 <= n <= |r| ensures multiset(r[..n])[c] <= multiset(r[..n])[m] {
      RemovedPrefix(rules, k, n);
      if n > k { assert multiset(rules[..n + 1])[c] <= multiset(rules[..n + 1])[m]; }
    }
  }

  lemma {:induction false} IndexUpTo(s: seq<Rule>, x: Rule, i: nat)
    requires i < |s| && s[i] == x
    ensures IndexOf(s, x) <= i
  {
    if s[0] != x {
      IndexUpTo(s[1..], x, i - 1);
    }
  }

  lemma {:induction false} IndexIs(s: seq<Rule>, x: Rule, i: nat)
    requires i < |s| && s[i] == x && forall j :: 0 <= j < i ==> s[j] != x
    ensures x in s && IndexOf(s, x) == i
  {
    if i > 0 {
      IndexIs(s[1..], x, i - 1);
    }
  }

  lemma {:induction false} NotBefore(s: seq<Rule>, x: Rule, i: nat)
    requires i < IndexOf(s, x)
    ensures s[i] != x
  {
    if i > 0 {
      NotBefore(s[1..], x, i - 1);
    }
  }

  /** The first `c` comes after the first `m`. */
  lemma {:induction false} FirstAhead(rules: seq<Rule>, m: Rule, c: Rule)
    requires Ahead(rules, m, c) && m != c && c in rules
    ensures m in rules && IndexOf(rules, m) < IndexOf(rules, c)
  {
    var b := IndexOf(rules, c);
    hide IndexOf;
    var p := rules[..b + 1];
    assert p[b] == c && c in p;
    assert multiset(p)[c] >= 1;
    assert m in multiset(p);
    assert m in p;
    var i :| 0 <= i < |p| && p[i] == m;
    assert rules[i] == m && i < b;
    IndexUpTo(rules, m, i);
  }

  lemma {:induction false} IndexAfter(rules: seq<Rule>, m: Rule, c: Rule)
    requires m in rules && c in rules && m != c && IndexOf(rules, m) < IndexOf(rules, c)
    ensures var r := RemoveAt(rules, IndexOf(rules, m));
            c in r && IndexOf(r, c) == IndexOf(rules, c) - 1
  {
    hide IndexOf;
    var a, b := IndexOf(rules, m), IndexOf(rules, c);
    var r := RemoveAt(rules, a);
    forall j | 0 <= j < b - 1 ensures r[j] != c {
      NotBefore(rules, c, if j < a then j else j + 1);
    }
    assert r[b - 1] == rules[b] == c;
    IndexIs(r, c, b - 1);
  }

  /** Removing an `m` at `a` and the first `c`, which comes later. */
  lemma {:induction false} AheadRemoveBoth(rules: seq<Rule>, a: nat, b: nat, m: Rule, c: Rule)
    requires Ahead(rules, m, c) && m != c && a < b < |rules| && rules[a] == m && rules[b] == c
    requires forall j :: 0 <= j < b ==> rules[j] != c
    ensures Ahead(RemoveAt(RemoveAt(rules, a), b - 1), m, c)
  {
    var r := RemoveAt(rules, a);
    var q := RemoveAt(r, b - 1);
    assert r[b - 1] == c;
    forall n | 0 <= n <= |q| ensures multiset(q[..n])[c] <= multiset(q[..n])[m] {
      BothPrefix(rules, a, b, m, c, n);
    }
  }

  lemma {:induction false} BothPrefix(rules: seq<Rule>, a: nat, b: nat, m: Rule, c: Rule, n: nat)
    requires Ahead(rules, m, c) && m != c && a < b < |rules| && rules[a] == m && rules[b] == c
    requires forall j :: 0 <= j < b ==> rules[j] != c
    requires n <= |rules| - 2
    ensures var q := RemoveAt(RemoveAt(rules, a), b - 1); multiset(q[..n])[c] <= multiset(q[..n])[m]
  {
    hide RemoveAt, Ahead;
    FirstMoved(rules, a, b, c);
    if n <= b - 1 {
      EarlyPrefix(RemoveAt(rules, a), b - 1, c, n);
    } else {
      LatePrefix(rules, a, b - 1, m, c, n);
    }
  }

  lemma {:induction false} FirstMoved(rules: seq<Rule>, a: nat, b: nat, c: Rule)
    requires a < b < |rules| && rules[b] == c && forall j :: 0 <= j < b ==> rules[j] != c
    ensures var r := RemoveAt(rules, a); r[b - 1] == c && forall j :: 0 <= j < b - 1 ==> r[j] != c
  {
  }

  lemma {:induction false} EarlyPrefix(r: seq<Rule>, k: nat, c: Rule, n: nat)
    requires n <= k < |r| && forall j :: 0 <= j < k ==> r[j] != c
    ensures multiset(RemoveAt(r, k)[..n])[c] == 0
  {
    hide RemoveAt;
    RemovedPrefix(r, k, n);
    NoneYet(r, n, c);
  }

  lemma {:induction false} LatePrefix(rules: seq<Rule>, a: nat, k: nat, m: Rule, c: Rule, n: nat)
    requires Ahead(rules, m, c) && m != c && a < |rules| && rules[a] == m
    requires a <= k < n <= |rules| - 2 && RemoveAt(rules, a)[k] == c
    ensures var q := RemoveAt(RemoveAt(rules, a), k); multiset(q[..n])[c] <= multiset(q[..n])[m]
  {
    hide RemoveAt, Ahead;
    var r := RemoveAt(rules, a);
    RemovedPrefix(rules, a, n + 1);
    RemovedPrefix(r, k, n);
    AheadAt(rules, m, c, n + 2);
    assert n + 1 + 1 == n + 2;
    TwoGone(multiset(rules[..n + 2]), multiset(r[..n + 1]), multiset(RemoveAt(r, k)[..n]), m, c);
  }

  lemma {:induction false} TwoGone(b: multiset<Rule>, b1: multiset<Rule>, b2: multiset<Rule>, m: Rule, c: Rule)
    requires m != c && b[c] <= b[m] && m in b && b1 == b - multiset{m} && c in b1 && b2 == b1 - multiset{c}
    ensures b2[c] <= b2[m]
  {
  }

  lemma {:induction false} AheadAt(rules: seq<Rule>, m: Rule, c: Rule, n: nat)
    requires Ahead(rules, m, c) && n <= |rules|
    ensures multiset(rules[..n])[c] <= multiset(rules[..n])[m]
  {
  }

  lemma {:induction false} NoneYet(rules: seq<Rule>, n: nat, c: Rule)
    requires n <= |rules| && forall j :: 0 <= j < n ==> rules[j] != c
    ensures multiset(rules[..n])[c] == 0
  {
    assert c !in rules[..n];
  }

  /** Removing the first of each kind. */
  lemma {:induction false} AheadRemovePair(rules: seq<Rule>, m: Rule, c: Rule)
    requires Ahead(rules, m, c) && m != c && c in rules
    ensures m in rules
    ensures var r := RemoveAt(rules, IndexOf(rules, m)); c in r && Ahead(RemoveAt(r, IndexOf(r, c)), m, c)
  {
    hide IndexOf, RemoveAt, Ahead;
    FirstAhead(rules, m, c);
    IndexAfter(rules, m, c);
    var a, b := IndexOf(rules, m), IndexOf(rules, c);
    forall j | 0 <= j < b ensures rules[j] != c { NotBefore(rules, c, j); }
    AheadRemoveBoth(rules, a, b, m, c);
  }
}
