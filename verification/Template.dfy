/** The template expander of src/template.c: one pass over the source text into a buffer of
    fixed length, against a recursive expansion that knows no buffer. */
module Template {
  import opened Configuration

  /** One line of the variable table; a value may be missing. The sequence holds the lines before
      the one without a name. */
  datatype Variable = Variable(name: string, value: Option<string>)

  const MAX_NAME := 31

  predicate NameChar(c: char) {
    '0' <= c <= '9' || 'a' <= c <= 'z' || 'A' <= c <= 'Z' || c == '_'
  }

  // ---------------------------------------------------------------- the expansion

  /** The value of the first variable called `name`. */
  function Lookup(vars: seq<Variable>, name: string): (v: Option<string>)
    ensures v.Some? ==> exists i :: 0 <= i < |vars| && vars[i] == Variable(name, v)
    ensures (forall i :: 0 <= i < |vars| ==> vars[i].name != name) ==> v == None
  {
    if vars == [] then None
    else if vars[0].name == name then vars[0].value
    else Lookup(vars[1..], name)
  }

  /** How many characters of a name start `s`. */
  function NameLength(s: string): (n: nat)
    ensures n <= |s|
    ensures forall k :: 0 <= k < n ==> NameChar(s[k])
    ensures n < |s| ==> !NameChar(s[n])
  {
    if s == [] || !NameChar(s[0]) then 0 else 1 + NameLength(s[1..])
  }

  /** What "$" and `name` become: the value, or the bare name if it is too long or unknown. */
  function Replacement(vars: seq<Variable>, name: string): (r: string) {
    if |name| > MAX_NAME || Lookup(vars, name) == None then name else Lookup(vars, name).value
  }

  function Expand(vars: seq<Variable>, src: string): (r: string) {
    if src == [] then []
    else if src[0] != '$' then [src[0]] + Expand(vars, src[1..])
    else
      var n := NameLength(src[1..]);
      Replacement(vars, src[1..n + 1]) + Expand(vars, src[n + 1..])
  }

  // ---------------------------------------------------------------- laws of the expansion

  predicate Plain(s: string) { forall k :: 0 <= k < |s| ==> s[k] != '$' }

  lemma {:induction false} PlainUnchanged(vars: seq<Variable>, src: string)
    requires Plain(src)
    ensures Expand(vars, src) == src
  {
    if src != [] {
      PlainUnchanged(vars, src[1..]);
    }
  }

  /** Whether `s` ends inside a name: in "$" and characters of a name. */
  predicate EndsInName(s: string) {
    s != [] && (s[|s| - 1] == '$' || (NameChar(s[|s| - 1]) && EndsInName(s[..|s| - 1])))
  }

  lemma {:induction false} NotEndsInRest(s: string, k: nat)
    requires k <= |s| && !EndsInName(s)
    ensures !EndsInName(s[k..])
    decreases |s|
  {
    if k < |s| {
      var n := |s| - 1;
      assert s[k..][|s[k..]| - 1] == s[n];
      assert s[k..][..|s[k..]| - 1] == s[..n][k..];
      if s[n] != '$' && NameChar(s[n]) {
        NotEndsInRest(s[..n], k);
      }
    }
  }

  lemma {:induction false} WholeName(s: string)
    requires s != [] && s[0] == '$' && forall k :: 1 <= k < |s| ==> NameChar(s[k])
    ensures EndsInName(s)
    decreases |s|
  {
    if |s| > 1 {
      WholeName(s[..|s| - 1]);
    }
  }

  lemma {:induction false} NameLengthIs(s: string, n: nat)
    requires n <= |s| && (forall k :: 0 <= k < n ==> NameChar(s[k])) && (n < |s| ==> !NameChar(s[n]))
    ensures NameLength(s) == n
  {
    if n > 0 {
      NameLengthIs(s[1..], n - 1);
    }
  }

  /** Texts are expanded independently wherever the cut does not go through a name. */
  lemma {:induction false} ExpandConcat(vars: seq<Variable>, a: string, b: string)
    requires EndsInName(a) ==> b == [] || !NameChar(b[0])
    ensures Expand(vars, a + b) == Expand(vars, a) + Expand(vars, b)
    decreases |a|
  {
    hide Replacement, Expand, EndsInName, NameLength, NameChar;
    if a == [] {
      assert a + b == b;
      ExpandNothing(vars, a);
    } else {
      var n := if a[0] == '$' then 1 + NameLength(a[1..]) else 1;
      CutAfter(a, b, n);
      ExpandFirst(vars, a);
      ExpandFirst(vars, a + b);
      assert (a + b)[n..] == a[n..] + b;
      if !EndsInName(a) { NotEndsInRest(a, n); }
      ExpandConcat(vars, a[n..], b);
    }
  }

  /** The first name ends at the same place whatever follows. */
  lemma {:induction false} CutAfter(a: string, b: string, n: nat)
    requires a != [] && n == if a[0] == '$' then 1 + NameLength(a[1..]) else 1
    requires EndsInName(a) ==> b == [] || !NameChar(b[0])
    ensures n <= |a| && (a[0] == '$' ==> n == 1 + NameLength((a + b)[1..]))
    ensures (a + b)[1..n] == a[1..n]
  {
    hide NameChar;
    if a[0] == '$' {
      if n == |a| {
        WholeName(a);
      }
      assert (a + b)[1..] == a[1..] + b;
      NameLengthIs(a[1..] + b, n - 1);
    }
  }

  lemma {:induction false} ExpandFirst(vars: seq<Variable>, s: string)
    requires s != []
    ensures s[0] != '$' ==> Expand(vars, s) == [s[0]] + Expand(vars, s[1..])
    ensures s[0] == '$' ==>
              var n := 1 + NameLength(s[1..]);
              Expand(vars, s) == Replacement(vars, s[1..n]) + Expand(vars, s[n..])
  {
  }

  /** A variable anywhere in a text becomes its replacement, and the replacement is not expanded
      again, whatever it holds. */
  lemma {:induction false} Substituted(vars: seq<Variable>, before: string, name: string, after: string)
    requires forall k :: 0 <= k < |name| ==> NameChar(name[k])
    requires after == [] || !NameChar(after[0])
    ensures Expand(vars, before + (['$'] + name + after)) ==
            Expand(vars, before) + Replacement(vars, name) + Expand(vars, after)
  {
    hide Replacement, Expand, EndsInName;
    var rest := ['$'] + name + after;
    ExpandConcat(vars, before, rest);
    ExpandFirst(vars, rest);
    assert rest[1..] == name + after;
    NameLengthIs(name + after, |name|);
    assert rest[1..|name| + 1] == name;
    assert rest[|name| + 1..] == after;
  }

  lemma {:induction false} PlainReplacement(vars: seq<Variable>, name: string)
    requires forall i :: 0 <= i < |vars| && vars[i].value.Some? ==> Plain(vars[i].value.value)
    requires forall k :: 0 <= k < |name| ==> NameChar(name[k])
    ensures Plain(Replacement(vars, name))
  {
  }

  /** Names have letters, digits and "_", and at most 31 of them. */
  lemma {:induction false} NamesExactly(vars: seq<Variable>, name: string, v: string)
    requires Lookup(vars, name) == Some(v) && forall k :: 0 <= k < |name| ==>
               '0' <= name[k] <= '9' || 'a' <= name[k] <= 'z' || 'A' <= name[k] <= 'Z' || name[k] == '_'
    ensures Expand(vars, ['$'] + name + "-") == (if |name| <= 31 then v else name) + "-"
  {
    hide Expand, EndsInName, Lookup;
    assert forall k :: 0 <= k < |name| ==> NameChar(name[k]);
    Substituted(vars, [], name, "-");
    ExpandNothing(vars, []);
    PlainUnchanged(vars, "-");
    assert [] + (['$'] + name + "-") == ['$'] + name + "-";
    assert [] + Replacement(vars, name) == Replacement(vars, name);
  }

  /** A "$" in the result comes from a value: it has one only if some value has one. */
  lemma {:induction false} DollarsFromValues(vars: seq<Variable>, src: string)
    requires forall i :: 0 <= i < |vars| && vars[i].value.Some? ==> Plain(vars[i].value.value)
    ensures Plain(Expand(vars, src))
    decreases |src|
  {
    if src == [] {
      ExpandNothing(vars, src);
    } else {
      hide Expand, NameLength, Replacement;
      ExpandFirst(vars, src);
      if src[0] != '$' {
        DollarsFromValues(vars, src[1..]);
      } else {
        var n := 1 + NameLength(src[1..]);
        DollarsFromValues(vars, src[n..]);
        PlainReplacement(vars, src[1..n]);
      }
    }
  }

  /** Expanding twice is expanding once, for tables whose values hold no "$". */
  lemma {:induction false} ExpandIdempotent(vars: seq<Variable>, src: string)
    requires forall i :: 0 <= i < |vars| && vars[i].value.Some? ==> Plain(vars[i].value.value)
    ensures Expand(vars, Expand(vars, src)) == Expand(vars, src)
  {
    DollarsFromValues(vars, src);
    PlainUnchanged(vars, Expand(vars, src));
  }

  // ---------------------------------------------------------------- the buffer

  /** The first `n` characters of `s`, filled up with NUL characters. */
  function Fitted(s: string, n: nat): (r: string)
    ensures |r| == n
  {
    if |s| >= n then s[..n] else s + seq(n - |s|, _ => '\0')
  }

  /** What a copy of `v` behind `done`, cut at `n`, does to the fitted text. */
  lemma {:induction false} FittedAppend(done: string, v: string, n: nat, r: string)
    requires |done| < n == |r|
    requires var m := if |v| > n - |done| then n - |done| else |v|;
             r[..|done|] == Fitted(done, n)[..|done|] &&
             r[|done|..|done| + m] == v[..m] &&
             r[|done| + m..] == Fitted(done, n)[|done| + m..]
    ensures r == Fitted(done + v, n)
  {
    var m := if |v| > n - |done| then n - |done| else |v|;
    assert r == r[..|done|] + r[|done|..|done| + m] + r[|done| + m..];
  }

  lemma {:induction false} FittedBeyond(done: string, more: string, n: nat)
    requires |done| >= n
    ensures Fitted(done + more, n) == Fitted(done, n)
  {
  }

  /** The library's `memset` with NUL. */
  method Clear(dst: array<char>, n: nat)
    requires n <= dst.Length
    modifies dst
    ensures dst[..n] == Fitted([], n)
    ensures dst[n..] == old(dst[n..])
  {
    for i := 0 to n
      invariant forall k :: 0 <= k < i ==> dst[k] == '\0'
      invariant forall k :: i <= k < dst.Length ==> dst[k] == old(dst[k])
    {
      dst[i] := '\0';
    }
  }

  /** The library's `memcpy`. */
  method Copy(dst: array<char>, at: nat, v: string, n: nat)
    requires at + n <= dst.Length && n <= |v|
    modifies dst
    ensures dst[..at] == old(dst[..at])
    ensures dst[at..at + n] == v[..n]
    ensures dst[at + n..] == old(dst[at + n..])
  {
    for i := 0 to n
      invariant forall k :: 0 <= k < i ==> dst[at + k] == v[k]
      invariant forall k :: 0 <= k < at || at + i <= k < dst.Length ==> dst[k] == old(dst[k])
    {
      dst[at + i] := v[i];
    }
  }

  /** Copies as much of `v` as there is room for at `at`. */
  method Put(dst: array<char>, n: nat, at: nat, v: string, ghost done: string)
    requires n <= dst.Length && at < n && at == |done|
    requires dst[..n] == Fitted(done, n)
    modifies dst
    ensures dst[..n] == Fitted(done + v, n)
    ensures dst[n..] == old(dst[n..])
  {
    var m := if |v| > n - at then n - at else |v|;
    Copy(dst, at, v, m);
    assert dst[..n][..at] == dst[..at] == old(dst[..n])[..at];
    assert dst[..n][at..at + m] == v[..m];
    assert dst[..n][at + m..] == dst[at + m..][..n - at - m] == old(dst[at + m..])[..n - at - m];
    assert old(dst[at + m..])[..n - at - m] == old(dst[..n])[at + m..];
    FittedAppend(done, v, n, dst[..n]);
    assert dst[n..] == dst[at + m..][n - at - m..] == old(dst[at + m..])[n - at - m..];
  }

  // ---------------------------------------------------------------- the loops

  method GetVariableValue(vars: seq<Variable>, name: string) returns (v: Option<string>)
    ensures v == Lookup(vars, name)
  {
    var i := 0;
    assert vars[0..] == vars;
    while i < |vars|
      invariant 0 <= i <= |vars|
      invariant Lookup(vars, name) == Lookup(vars[i..], name)
    {
      if vars[i].name == name {
        return vars[i].value;
      }
      assert vars[i..][1..] == vars[i + 1..];
      i := i + 1;
    }
    return None;
  }

  lemma {:induction false} ExpandPlainStep(vars: seq<Variable>, src: string, i: nat, done: string)
    requires i < |src| && src[i] != '$'
    requires Expand(vars, src) == done + Expand(vars, src[i..])
    ensures Expand(vars, src) == (done + [src[i]]) + Expand(vars, src[i + 1..])
  {
    hide Replacement;
    assert src[i..][1..] == src[i + 1..];
  }

  lemma {:induction false} ExpandNameStep(vars: seq<Variable>, src: string, i: nat, n: nat, done: string)
    requires i < |src| && src[i] == '$' && n == NameLength(src[i + 1..])
    requires Expand(vars, src) == done + Expand(vars, src[i..])
    ensures Expand(vars, src) ==
            (done + Replacement(vars, src[i + 1..i + 1 + n])) + Expand(vars, src[i + 1 + n..])
  {
    hide Replacement;
    assert src[i..][1..] == src[i + 1..];
    assert src[i..][n + 1..] == src[i + 1 + n..];
    assert src[i..][1..n + 1] == src[i + 1..i + 1 + n];
  }

  /** Writes the first `dstLen` characters of the expansion, filled up with NUL characters, and
      nothing outside them, for every table, text and length. */
  method Parse(vars: seq<Variable>, dst: array<char>, dstLen: nat, src: string) returns (rc: int)
    requires dstLen <= dst.Length
    modifies dst
    ensures rc == 0
    ensures dst[..dstLen] == Fitted(Expand(vars, src), dstLen)
    ensures dst[dstLen..] == old(dst[dstLen..])
  {
    hide Expand, Replacement, Fitted, Lookup, NameChar, NameLength;
    var i, j := 0, 0;
    ghost var done: string := [];
    Clear(dst, dstLen);
    assert src[0..] == src;
    while i < |src| && j < dstLen
      invariant 0 <= i <= |src| && j == |done|
      invariant Expand(vars, src) == done + Expand(vars, src[i..])
      invariant dst[..dstLen] == Fitted(done, dstLen)
      invariant dst[dstLen..] == old(dst[dstLen..])
      decreases |src| - i
    {
      if src[i] != '$' {
        ExpandPlainStep(vars, src, i, done);
        Put(dst, dstLen, j, [src[i]], done);
        done := done + [src[i]];
        i, j := i + 1, j + 1;
        continue;
      }
      ghost var at := i;
      i := i + 1;
      var n := 0;
      while n < |src| - i && NameChar(src[i + n])
        invariant 0 <= n <= |src| - i
        invariant forall k :: 0 <= k < n ==> NameChar(src[i..][k])
      {
        n := n + 1;
      }
      NameLengthIs(src[i..], n);
      ExpandNameStep(vars, src, at, n, done);
      var name := src[i..i + n];
      if n > MAX_NAME {
        ReplacementIs(vars, name);
        Put(dst, dstLen, j, name, done);
        done := done + name;
        i, j := i + n, j + n;
        continue;
      }
      var value := GetVariableValue(vars, name);
      ReplacementIs(vars, name);
      if value == None {
        Put(dst, dstLen, j, name, done);
        done := done + name;
        i, j := i + n, j + n;
        continue;
      }
      Put(dst, dstLen, j, value.value, done);
      done := done + value.value;
      j := j + |value.value|;
      i := i + n;
    }
    if i == |src| {
      ExpandNothing(vars, src[i..]);
      assert Expand(vars, src) == done;
    } else {
      FittedBeyond(done, Expand(vars, src[i..]), dstLen);
    }
    return 0;
  }

  lemma {:induction false} ExpandNothing(vars: seq<Variable>, s: string)
    requires s == []
    ensures Expand(vars, s) == []
  {
  }

  lemma {:induction false} ReplacementIs(vars: seq<Variable>, name: string)
    ensures |name| > MAX_NAME || Lookup(vars, name) == None ==> Replacement(vars, name) == name
    ensures |name| <= MAX_NAME && Lookup(vars, name).Some? ==>
              Replacement(vars, name) == Lookup(vars, name).value
  {
  }
}
