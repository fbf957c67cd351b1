/** The path simplifier of src/path.c: one pass over a NUL-terminated string with the three
    positions `walk`, `out` and `slash`, allowed to run in place.

    The reference is `remove_dot_segments` (section 5.2.4 of RFC 3986), written rule by rule
    over an input and an output buffer, applied to the path with runs of "/" collapsed. */
module PathSimplify {

  // ---------------------------------------------------------------- C strings

  /** The length of the NUL-terminated string that starts at index `from`. */
  function StrLen(s: seq<char>, from: nat): (n: nat)
    requires from < |s| && '\0' in s[from..]
    ensures from + n < |s| && s[from + n] == '\0'
    ensures forall j :: from <= j < from + n ==> s[j] != '\0'
    decreases |s| - from
  {
    if s[from] == '\0' then 0 else 1 + StrLen(s, from + 1)
  }

  /** The text of the NUL-terminated string at the start of `s`. */
  function Text(s: seq<char>): (t: seq<char>)
    requires '\0' in s
    ensures '\0' !in t && |t| < |s| && t == s[..|t|] && s[|t|] == '\0'
  {
    assert s[0..] == s;
    s[..StrLen(s, 0)]
  }

  lemma {:induction false} TextIs(s: seq<char>, n: nat)
    requires n < |s| && s[n] == '\0' && '\0' !in s[..n]
    ensures '\0' in s && Text(s) == s[..n]
  {
    var t := Text(s);
    assert forall j :: 0 <= j < n ==> s[..n][j] == s[j];
    assert forall j :: 0 <= j < |t| ==> t[j] == s[j] && t[j] in t;
  }

  // ---------------------------------------------------------------- reference

  /** Runs of "/" become one "/". */
  function Collapse(s: seq<char>): (r: seq<char>) {
    if |s| < 2 then s
    else if s[0] == '/' && s[1] == '/' then Collapse(s[1..])
    else [s[0]] + Collapse(s[1..])
  }

  /** The output buffer without its last segment and the "/" before it, if any. */
  function DropLast(o: seq<char>): (r: seq<char>)
    ensures r <= o && (o != [] ==> |r| < |o|)
  {
    if o == [] then []
    else if o[|o| - 1] == '/' then o[..|o| - 1]
    else
      assert o[..|o| - 1] <= o;
      DropLast(o[..|o| - 1])
  }

  /** The length of the first segment: an optional initial "/" and everything up to the next "/". */
  function SegmentEnd(s: seq<char>, i: nat): (e: nat)
    requires i <= |s|
    ensures i <= e <= |s|
    ensures forall j :: i <= j < e ==> s[j] != '/'
    ensures e < |s| ==> s[e] == '/'
    decreases |s| - i
  {
    if i == |s| || s[i] == '/' then i else SegmentEnd(s, i + 1)
  }

  /** Section 5.2.4 of RFC 3986, rules 2A to 2E, with `o` as the output buffer. */
  function RemoveDots(s: seq<char>, o: seq<char>): (r: seq<char>)
    decreases |s|
  {
    if s == [] then o
    else if "../" <= s then RemoveDots(s[3..], o)
    else if "./" <= s then RemoveDots(s[2..], o)
    else if "/./" <= s then RemoveDots(s[2..], o)
    else if s == "/." then RemoveDots("/", o)
    else if "/../" <= s then RemoveDots(s[3..], DropLast(o))
    else if s == "/.." then RemoveDots("/", DropLast(o))
    else if s == "." || s == ".." then o
    else
      var e := SegmentEnd(s, 1);
      RemoveDots(s[e..], o + s[..e])
  }

  /** What the simplifier is documented to compute for an absolute path. */
  function Normalized(s: seq<char>): (r: seq<char>) {
    RemoveDots(Collapse(s), [])
  }

  // ------------------------------------------- what the code skips up front

  /** The first index from `i` on that does not hold a space. */
  function SkipSpaces(s: seq<char>, i: nat): (k: nat)
    requires i <= |s|
    ensures i <= k <= |s| && (k < |s| ==> s[k] != ' ')
    decreases |s| - i
  {
    if i < |s| && s[i] == ' ' then SkipSpaces(s, i + 1) else i
  }

  /** Leading spaces go, and then a first segment "." or "..". */
  function TrimPoint(s: seq<char>): (k: nat)
    ensures k <= |s|
  {
    var i := SkipSpaces(s, 0);
    if i < |s| && s[i] == '.' && (i + 1 == |s| || s[i + 1] == '/') then i + 1
    else if i + 1 < |s| && s[i] == '.' && s[i + 1] == '.' && (i + 2 == |s| || s[i + 2] == '/') then i + 2
    else i
  }

  function Trimmed(s: seq<char>): (r: seq<char>)
    ensures |r| <= |s|
  {
    s[TrimPoint(s)..]
  }

  /** Nothing is left, or what is left starts with "/". */
  predicate Absolute(s: seq<char>) {
    s == [] || s[0] == '/'
  }

  // ---------------------------------------------------------------- lemmas

  lemma {:induction false} CollapseStart(s: seq<char>)
    requires Absolute(s)
    ensures Absolute(Collapse(s)) && (s != [] ==> Collapse(s) != [])
  {
    if |s| >= 2 && s[0] == '/' && s[1] == '/' {
      CollapseStart(s[1..]);
    }
  }

  /** Text without "/" in front of a separator is copied unchanged. */
  lemma {:induction false} CollapsePrefix(t: seq<char>, s: seq<char>)
    requires '/' !in t && Absolute(s)
    ensures Collapse(t + s) == t + Collapse(s)
  {
    if t == [] {
      assert t + s == s;
    } else {
      assert t[0] in t && (t + s)[0] == t[0];
      assert (t + s)[1..] == t[1..] + s;
      CollapsePrefix(t[1..], s);
      assert t == [t[0]] + t[1..];
    }
  }

  /** A non-empty segment with its "/" is copied unchanged. */
  lemma {:induction false} CollapseSegment(t: seq<char>, s: seq<char>)
    requires t != [] && '/' !in t && Absolute(s)
    ensures Collapse(['/'] + t + s) == ['/'] + t + Collapse(s)
  {
    CollapsePrefix(t, s);
    var full := ['/'] + t + s;
    assert full[1..] == t + s && full[0] == '/';
    assert full[1] == t[0] && t[0] in t;
    assert ['/'] + (t + Collapse(s)) == ['/'] + t + Collapse(s);
  }

  /** What one token "/t" does: an empty token goes unless it ends the path ... */
  lemma {:induction false} SlashStep(s: seq<char>, o: seq<char>)
    requires Absolute(s)
    ensures RemoveDots(Collapse("/" + s), o) == if s == [] then o + "/" else RemoveDots(Collapse(s), o)
  {
    assert ("/" + s)[1..] == s;
    if s == [] {
      FinalSlash(o);
      assert "/" + s == "/";
    }
  }

  lemma {:induction false} FinalSlash(o: seq<char>)
    ensures RemoveDots("/", o) == o + "/"
  {
    assert SegmentEnd("/", 1) == 1;
    assert "/"[..1] == "/" && "/"[1..] == [];
  }

  /** ... "/." goes as well ... */
  lemma {:induction false} DotStep(s: seq<char>, o: seq<char>)
    requires Absolute(s)
    ensures RemoveDots(Collapse("/." + s), o) == if s == [] then o + "/" else RemoveDots(Collapse(s), o)
  {
    assert "/." + s == ['/'] + "." + s;
    CollapseSegment(".", s);
    CollapseStart(s);
    FinalSlash(o);
    var c := Collapse(s);
    var full := "/." + c;
    assert ['/'] + "." + c == full && full[2..] == c;
    if s == [] {
      assert full == "/.";
    } else {
      assert full[2] == '/';
      assert full[..3] == "/./";
    }
  }

  /** ... "/.." takes the last segment of the output with it ... */
  lemma {:induction false} DotDotStep(s: seq<char>, o: seq<char>)
    requires Absolute(s)
    ensures RemoveDots(Collapse("/.." + s), o)
            == if s == [] then DropLast(o) + "/" else RemoveDots(Collapse(s), DropLast(o))
  {
    assert "/.." + s == ['/'] + ".." + s;
    CollapseSegment("..", s);
    CollapseStart(s);
    FinalSlash(DropLast(o));
    var c := Collapse(s);
    var full := "/.." + c;
    assert ['/'] + ".." + c == full && full[3..] == c;
    if s == [] {
      assert full == "/..";
    } else {
      assert full[3] == '/';
      assert full[..4] == "/../";
    }
  }

  /** ... and any other token is moved to the output. */
  lemma {:induction false} NameStep(t: seq<char>, s: seq<char>, o: seq<char>)
    requires t != [] && '/' !in t && t != "." && t != ".." && Absolute(s)
    ensures RemoveDots(Collapse(['/'] + t + s), o) == RemoveDots(Collapse(s), o + ['/'] + t)
  {
    CollapseSegment(t, s);
    CollapseStart(s);
    MoveSegment(t, Collapse(s), o);
  }

  /** Rule 2E on a collapsed path. */
  lemma {:induction false} MoveSegment(t: seq<char>, c: seq<char>, o: seq<char>)
    requires t != [] && '/' !in t && t != "." && t != ".." && Absolute(c)
    ensures RemoveDots(['/'] + t + c, o) == RemoveDots(c, o + ['/'] + t)
  {
    var full := ['/'] + t + c;
    NotDotted(t, c);
    var e := |t| + 1;
    assert SegmentEnd(full, 1) == e by {
      assert forall j :: 0 <= j < |t| ==> full[j + 1] == t[j] && t[j] in t;
      SegmentEndIs(full, 1, e);
    }
    assert full[e..] == c && o + full[..e] == o + ['/'] + t;
  }

  lemma {:induction false} SegmentEndIs(s: seq<char>, i: nat, e: nat)
    requires i <= e <= |s|
    requires forall j :: i <= j < e ==> s[j] != '/'
    requires e < |s| ==> s[e] == '/'
    ensures SegmentEnd(s, i) == e
    decreases e - i
  {
    if i < e {
      SegmentEndIs(s, i + 1, e);
    }
  }

  /** A segment other than "." and ".." is only touched by rule 2E. */
  lemma {:induction false} NotDotted(t: seq<char>, c: seq<char>)
    requires t != [] && '/' !in t && t != "." && t != ".." && Absolute(c)
    ensures var f := ['/'] + t + c;
            !("/./" <= f) && f != "/." && !("/../" <= f) && f != "/.."
            && !("../" <= f) && !("./" <= f) && f != "." && f != ".."
  {
    var f := ['/'] + t + c;
    assert forall i :: 0 <= i < |t| ==> f[i + 1] == t[i] && t[i] in t;
    assert c != [] ==> f[|t| + 1] == '/';
    assert |t| == 1 ==> t == [t[0]];
    assert |t| == 2 ==> t == [t[0], t[1]];
    assert |f| < 4 || f[1] != '.' || f[2] != '.' || f[3] != '/';
  }

  // ------------------------------------------------- what the loop computes

  /** A token: a segment with the "/" in front of it. Only the first token of a relative path
      lacks the "/". */
  predicate IsToken(t: seq<char>) {
    t != [] && '/' !in t[1..]
  }

  /** The output buffer after one token; `last` says that the token ends the path. A token that goes
      leaves its first position in place when it is the last one. */
  function AfterToken(o: seq<char>, tok: seq<char>, last: bool): (r: seq<char>)
    requires tok != []
  {
    var full, more := o + tok, if last then 1 else 0;
    if IsDotDot(tok) then full[..|DropLast(o)| + more]
    else if |tok| == 1 || IsDot(tok) then full[..|o| + more]
    else full
  }

  predicate IsDot(t: seq<char>) {
    |t| == 2 && t[0] == '/' && t[1] == '.'
  }

  predicate IsDotDot(t: seq<char>) {
    |t| == 3 && t[0] == '/' && t[1] == '.' && t[2] == '.'
  }

  lemma {:induction false} Dots(t: seq<char>)
    ensures IsDot(t) <==> t == "/."
    ensures IsDotDot(t) <==> t == "/.."
  {
  }

  /** The whole loop, token by token, for every path. */
  function Tokens(s: seq<char>, o: seq<char>): (r: seq<char>)
    decreases |s|
  {
    if s == [] then o
    else
      var e := SegmentEnd(s, 1);
      Tokens(s[e..], AfterToken(o, s[..e], e == |s|))
  }

  lemma {:induction false} TokensStep(tok: seq<char>, s: seq<char>, o: seq<char>)
    requires IsToken(tok) && Absolute(s)
    ensures Tokens(tok + s, o) == Tokens(s, AfterToken(o, tok, s == []))
  {
    hide AfterToken, DropLast;
    var full := tok + s;
    assert forall j :: 1 <= j < |tok| ==> full[j] == tok[1..][j - 1] && tok[1..][j - 1] in tok[1..];
    SegmentEndIs(full, 1, |tok|);
    assert full[..|tok|] == tok && full[|tok|..] == s;
  }

  /** For an output buffer that starts with "/", one token of an absolute path is one round of the
      reference on the collapsed path. */
  lemma {:induction false} ReferenceStep(tok: seq<char>, s: seq<char>, o: seq<char>)
    requires IsToken(tok) && tok[0] == '/' && Absolute(s) && (o != [] ==> o[0] == '/')
    ensures var o' := AfterToken(o, tok, s == []);
            (o' != [] ==> o'[0] == '/')
            && RemoveDots(Collapse(tok + s), o) == RemoveDots(Collapse(s), o')
  {
    var o' := AfterToken(o, tok, s == []);
    NothingLeft(o');
    Dots(tok);
    var t := tok[1..];
    assert tok == ['/'] + t;
    if tok == "/.." {
      DropLastAt(o);
      AfterDotDot(o, tok, DropLast(o), s == []);
      DotDotStep(s, o);
    } else if tok == "/." {
      AfterDot(o, tok, s == []);
      DotStep(s, o);
    } else if t == [] {
      AfterDot(o, tok, s == []);
      assert tok == "/";
      SlashStep(s, o);
    } else {
      NameStep(t, s, o);
      assert o + ['/'] + t == o + tok;
    }
  }

  /** The buffer after "/..", when `base` is what is left of it. */
  lemma {:induction false} AfterDotDot(o: seq<char>, tok: seq<char>, base: seq<char>, last: bool)
    requires IsDotDot(tok) && DropLast(o) == base && (|base| < |o| ==> o[|base|] == '/')
    ensures AfterToken(o, tok, last) == if last then base + "/" else base
  {
    hide DropLast;
    var full := o + tok;
    assert full[..|base|] == base;
    assert full[..|base| + 1] == base + "/";
  }

  /** The buffer after "/", "/." or a first token of one character. */
  lemma {:induction false} AfterDot(o: seq<char>, tok: seq<char>, last: bool)
    requires |tok| == 1 || IsDot(tok)
    ensures AfterToken(o, tok, last) == if last then o + [tok[0]] else o
  {
    assert (o + tok)[..|o|] == o;
    assert (o + tok)[..|o| + 1] == o + [tok[0]];
  }

  /** The buffer after any other token. */
  lemma {:induction false} AfterName(o: seq<char>, tok: seq<char>, last: bool)
    requires |tok| > 1 && tok != "/." && tok != "/.."
    ensures AfterToken(o, tok, last) == o + tok
  {
    Dots(tok);
  }

  /** What follows the shortened buffer is the "/" that was dropped. */
  lemma {:induction false} DropLastAt(o: seq<char>)
    ensures var d := |DropLast(o)|; d < |o| && o[0] == '/' ==> o[d] == '/'
  {
    if o != [] && o[|o| - 1] != '/' {
      DropLastAt(o[..|o| - 1]);
    }
  }

  lemma {:induction false} NothingLeft(o: seq<char>)
    ensures RemoveDots(Collapse([]), o) == o
  {
  }

  /** On absolute paths the loop computes section 5.2.4 of RFC 3986 on the collapsed path. */
  lemma {:induction false} Refines(s: seq<char>, o: seq<char>)
    requires Absolute(s) && (o != [] ==> o[0] == '/')
    ensures Tokens(s, o) == RemoveDots(Collapse(s), o)
    decreases |s|
  {
    hide RemoveDots, Collapse, AfterToken;
    if s == [] {
      NothingLeft(o);
    } else {
      var e := SegmentEnd(s, 1);
      var tok, rest := s[..e], s[e..];
      assert tok + rest == s && IsToken(tok);
      ReferenceStep(tok, rest, o);
      Refines(rest, AfterToken(o, tok, rest == []));
    }
  }

  // ---------------------------------------------------------------- the code

  /** The inner loop: step back over the last component of dest[..end]. */
  method Back(dest: array<char>, end: nat) returns (out: nat)
    requires end <= dest.Length
    ensures out <= end
    ensures dest[..out] == DropLast(dest[..end])
    ensures (0 < end ==> out < end && (out == 0 || dest[out] == '/'))
  {
    out := end;
    if out > 0 {
      out := out - 1;
      assert out + 1 == end;
      while out > 0 && dest[out] != '/'
        invariant 0 <= out < end
        invariant DropLast(dest[..out + 1]) == DropLast(dest[..end])
      {
        out := out - 1;
        assert dest[..out + 2][..out + 1] == dest[..out + 1];
      }
      assert dest[..out + 1][..out] == dest[..out];
    }
  }

  /** The loop that skips leading spaces, and the test for a first segment "." or "..". */
  method Start(src: array<char>, ghost txt: seq<char>) returns (walk: nat)
    requires |txt| < src.Length && src[|txt|] == '\0'
    requires forall j :: 0 <= j < |txt| ==> src[j] == txt[j] != '\0'
    ensures walk == TrimPoint(txt)
  {
    walk := 0;
    while src[walk] == ' '
      invariant walk <= |txt| && SkipSpaces(txt, walk) == SkipSpaces(txt, 0)
      decreases |txt| - walk
    {
      walk := walk + 1;
    }
    if src[walk] == '.' {
      if src[walk + 1] == '/' || src[walk + 1] == '\0' {
        walk := walk + 1;
      } else if src[walk + 1] == '.' && (src[walk + 2] == '/' || src[walk + 2] == '\0') {
        walk := walk + 2;
      }
    }
  }

  lemma {:induction false} TokenTail(tok: seq<char>)
    requires IsToken(tok)
    ensures |tok| > 2 ==> tok[|tok| - 2] != '/'
  {
    if |tok| > 2 {
      assert tok[1..][|tok| - 3] in tok[1..];
    }
  }

  /** The branch taken when a token is complete: the new value of `out`. */
  method EndToken(dest: array<char>, slash: nat, out: nat, pre2: char, pre1: char, c: char) returns (end: nat)
    requires slash < out <= dest.Length
    requires pre1 == dest[out - 1] && (slash + 2 <= out ==> pre2 == dest[out - 2])
    requires IsToken(dest[slash..out])
    ensures end <= out
    ensures dest[..end] == AfterToken(dest[..slash], dest[slash..out], c == '\0')
  {
    hide DropLast, AfterToken, IsDotDot, IsDot, IsToken;
    end := out;
    ghost var tok := dest[slash..out];
    ghost var o := dest[..slash];
    TokenKind(tok, pre2, pre1);
    var toklen := out - slash;
    if toklen == 3 && pre2 == '.' && pre1 == '.' && dest[slash] == '/' {
      end := Back(dest, slash);
      if c == '\0' {
        end := end + 1;
      }
    } else if toklen == 1 || (pre2 == '/' && pre1 == '.') {
      end := slash;
      if c == '\0' {
        end := end + 1;
      }
    }
    TokenEnd(o, tok, c == '\0', end);
    assert dest[..end] == (o + tok)[..end];
  }

  /** How the branch of the source tells the tokens apart. */
  lemma {:induction false} TokenKind(tok: seq<char>, pre2: char, pre1: char)
    requires IsToken(tok) && pre1 == tok[|tok| - 1] && (|tok| >= 2 ==> pre2 == tok[|tok| - 2])
    ensures IsDotDot(tok) <==> |tok| == 3 && pre2 == '.' && pre1 == '.' && tok[0] == '/'
    ensures !IsDotDot(tok) ==>
              (|tok| == 1 || IsDot(tok) <==> |tok| == 1 || (pre2 == '/' && pre1 == '.'))
  {
    TokenTail(tok);
  }

  /** How much of the buffer and the token is left. */
  lemma {:induction false} TokenEnd(o: seq<char>, tok: seq<char>, last: bool, end: nat)
    requires tok != []
    requires end == if IsDotDot(tok) then |DropLast(o)| + (if last then 1 else 0)
                    else if |tok| == 1 || IsDot(tok) then |o| + (if last then 1 else 0)
                    else |o| + |tok|
    ensures end <= |o + tok| && AfterToken(o, tok, last) == (o + tok)[..end]
  {
    hide DropLast;
  }

  /** `buffer_path_simplify`. `dest` and `src` may be the same array. The result is stated about
      the text `src` held on entry, so the in-place run and the copying run agree. */
  method Simplify(dest: array<char>, src: array<char>)
    requires '\0' in src[..]
    requires |Text(src[..])| < dest.Length
    modifies dest
    ensures '\0' in dest[..]
    ensures |Text(dest[..])| <= |old(Text(src[..]))|
    ensures Text(dest[..]) == Tokens(Trimmed(old(Text(src[..]))), [])
    ensures Absolute(Trimmed(old(Text(src[..])))) ==>
              Text(dest[..]) == Normalized(Trimmed(old(Text(src[..]))))
    ensures forall j :: |old(Text(src[..]))| < j < dest.Length ==> dest[j] == old(dest[j])
  {
    ghost var txt := Text(src[..]);
    assert forall j :: 0 <= j < |txt| ==> src[..][j] == txt[j] && txt[j] in txt;
    var walk := Start(src, txt);
    var end := Loop(dest, src, walk, txt);
    assert dest[..][..end] == dest[..end];
    TextIs(dest[..], end);
    if Absolute(Trimmed(txt)) {
      Refines(Trimmed(txt), []);
    }
  }

  /** The main loop and the final terminator. */
  method Loop(dest: array<char>, src: array<char>, walk0: nat, ghost txt: seq<char>) returns (out: nat)
    requires walk0 <= |txt| < src.Length && |txt| < dest.Length
    requires src[|txt|] == '\0' && forall j :: 0 <= j < |txt| ==> src[j] == txt[j] != '\0'
    modifies dest
    ensures out <= |txt| && dest[out] == '\0' && forall j :: 0 <= j < out ==> dest[j] != '\0'
    ensures dest[..out] == Tokens(txt[walk0..], [])
    ensures forall j :: |txt| < j < dest.Length ==> dest[j] == old(dest[j])
  {
    hide AfterToken, IsToken, Tokens, OnTrack, Absolute;
    ghost var n := |txt|;
    ghost var goal := Tokens(txt[walk0..], []);
    var walk: nat, slash: nat := walk0, 0;
    out := 0;
    var pre1, pre2 := '\0', '\0';
    var c := src[walk];
    walk := walk + 1;
    Begin(dest[..out], txt[walk0..]);
    while c != '\0'
      invariant 1 <= walk <= n + 1 && slash <= out < walk
      invariant c == if walk <= n then txt[walk - 1] else '\0'
      invariant forall j :: walk <= j <= n ==> src[j] == old(src[j])
      invariant forall j :: n < j < dest.Length ==> dest[j] == old(dest[j])
      invariant forall j :: 0 <= j < out ==> dest[j] != '\0'
      invariant slash < out ==> pre1 == dest[out - 1] && c != '/'
      invariant walk == n + 1 ==> slash == out
      invariant OnTrack(goal, dest[..out], slash, txt[walk - 1..])
      decreases n + 1 - walk
    {
      ghost var rest := txt[walk - 1..];
      ReadOne(goal, dest[..out], slash, rest);
      ghost var buf := dest[..out] + [c];
      pre2 := pre1;
      pre1 := c;
      c := src[walk];
      dest[out] := pre1;
      out := out + 1;
      walk := walk + 1;
      assert dest[..out] == buf && rest[1..] == txt[walk - 1..];
      Boundary(txt[walk - 1..], c);
      if c == '/' || c == '\0' {
        assert dest[slash..out] == buf[slash..] && dest[..slash] == buf[..slash];
        out := EndToken(dest, slash, out, pre2, pre1, c);
        slash := out;
      }
    }
    Finish(goal, dest[..out]);
    ghost var buf := dest[..out];
    dest[out] := '\0';
    assert dest[..out] == buf;
  }

  /** The next character tells whether a token is complete. */
  lemma {:induction false} Boundary(rest: seq<char>, c: char)
    requires '\0' !in rest && c == if rest == [] then '\0' else rest[0]
    ensures Absolute(rest) <==> c == '/' || c == '\0'
    ensures rest == [] <==> c == '\0'
  {
    assert rest != [] ==> rest[0] in rest;
  }

  /** The loop invariant against the token-wise definition: `buf` is the output, whose part from
      `slash` on is the token being read, and `rest` is the unread text. */
  ghost predicate OnTrack(goal: seq<char>, buf: seq<char>, slash: nat, rest: seq<char>) {
    slash <= |buf| && (slash < |buf| ==> IsToken(buf[slash..]))
    && Tokens(buf[slash..] + rest, buf[..slash]) == goal
  }

  lemma {:induction false} Begin(buf: seq<char>, s: seq<char>)
    requires buf == []
    ensures OnTrack(Tokens(s, []), buf, 0, s)
  {
    assert buf[0..] + s == s;
  }

  /** Reading one more character, through the end of the token if there is one. */
  lemma {:induction false} ReadOne(goal: seq<char>, buf: seq<char>, slash: nat, rest: seq<char>)
    requires OnTrack(goal, buf, slash, rest) && rest != [] && (slash < |buf| ==> rest[0] != '/')
    ensures var buf' := buf + [rest[0]];
            IsToken(buf'[slash..])
            && if Absolute(rest[1..])
               then var end := AfterToken(buf'[..slash], buf'[slash..], rest[1..] == []);
                    OnTrack(goal, end, |end|, rest[1..])
               else OnTrack(goal, buf', slash, rest[1..])
  {
    hide AfterToken, Tokens;
    var buf' := buf + [rest[0]];
    var tok, tok' := buf[slash..], buf'[slash..];
    assert tok' == tok + [rest[0]] && buf'[..slash] == buf[..slash];
    assert tok' + rest[1..] == tok + rest;
    assert tok != [] ==> tok'[1..] == tok[1..] + [rest[0]];
    if Absolute(rest[1..]) {
      TokensStep(tok', rest[1..], buf[..slash]);
      var end := AfterToken(buf'[..slash], tok', rest[1..] == []);
      assert end[|end|..] + rest[1..] == rest[1..] && end[..|end|] == end;
    }
  }

  lemma {:induction false} Finish(goal: seq<char>, buf: seq<char>)
    requires OnTrack(goal, buf, |buf|, [])
    ensures buf == goal
  {
    assert buf[|buf|..] + [] == [] && buf[..|buf|] == buf;
  }

  // ---------------------------------------------------------------- normal forms

  /** A proper component: not empty, not "." and not "..", with no "/" in it. */
  predicate Name(t: seq<char>) {
    t != [] && '/' !in t && t != "." && t != ".."
  }

  predicate Names(ns: seq<seq<char>>) {
    forall i :: 0 <= i < |ns| ==> Name(ns[i])
  }

  /** "/n1/n2/.../nk", with a "/" at the end when `trailing`. */
  function Join(ns: seq<seq<char>>, trailing: bool): (r: seq<char>)
    ensures Absolute(r)
  {
    if ns == [] then (if trailing then "/" else [])
    else ['/'] + ns[0] + Join(ns[1..], trailing)
  }

  lemma {:induction false} JoinSnoc(ns: seq<seq<char>>, t: seq<char>)
    ensures Join(ns + [t], false) == Join(ns, false) + ['/'] + t
  {
    if ns == [] {
      assert ns + [t] == [t];
    } else {
      assert (ns + [t])[1..] == ns[1..] + [t];
      JoinSnoc(ns[1..], t);
    }
  }

  lemma {:induction false} JoinTrailing(ns: seq<seq<char>>)
    ensures Join(ns, true) == Join(ns, false) + "/"
  {
    if ns != [] {
      JoinTrailing(ns[1..]);
    }
  }

  /** Dropping the last segment takes off one component. */
  lemma {:induction false} DropLastName(o: seq<char>, t: seq<char>)
    requires '/' !in t
    ensures DropLast(o + ['/'] + t) == o
  {
    var full := o + ['/'] + t;
    if t == [] {
      assert full[..|full| - 1] == o;
    } else {
      assert full[|full| - 1] in t;
      assert full[..|full| - 1] == o + ['/'] + t[..|t| - 1];
      DropLastName(o, t[..|t| - 1]);
    }
  }

  /** The component stack after one segment. */
  function Push(ns: seq<seq<char>>, t: seq<char>): (r: seq<seq<char>>)
    requires Names(ns) && '/' !in t
    ensures Names(r)
  {
    if t == ".." then (if ns == [] then [] else ns[..|ns| - 1])
    else if t == [] || t == "." then ns
    else ns + [t]
  }

  /** One token acts on the buffer "/n1/.../nk", behind any prefix `pre`, as on a component stack. */
  lemma {:induction false} PushStep(pre: seq<char>, ns: seq<seq<char>>, t: seq<char>, last: bool)
    requires Names(ns) && '/' !in t && (t == ".." ==> ns != [] || pre == [])
    ensures AfterToken(pre + Join(ns, false), ['/'] + t, last)
            == pre + Join(Push(ns, t), last && !Name(t))
  {
    hide AfterToken, DropLast, Join;
    if t == ".." {
      assert ['/'] + t == "/..";
      PopStep(pre, ns, last);
    } else if Name(t) {
      NamePush(pre, ns, t, last);
    } else {
      SkipPush(pre, ns, t, last);
    }
  }

  lemma {:induction false} NamePush(pre: seq<char>, ns: seq<seq<char>>, t: seq<char>, last: bool)
    requires Name(t)
    ensures AfterToken(pre + Join(ns, false), ['/'] + t, last) == pre + Join(ns + [t], false)
  {
    hide AfterToken, DropLast, Join;
    var o := pre + Join(ns, false);
    assert (['/'] + t)[1..] == t && "/."[1..] == "." && "/.."[1..] == "..";
    AfterName(o, ['/'] + t, last);
    JoinSnoc(ns, t);
    assert o + (['/'] + t) == pre + (Join(ns, false) + ['/'] + t);
  }

  lemma {:induction false} SkipPush(pre: seq<char>, ns: seq<seq<char>>, t: seq<char>, last: bool)
    requires t == [] || t == "."
    ensures AfterToken(pre + Join(ns, false), ['/'] + t, last) == pre + Join(ns, last)
  {
    hide AfterToken, DropLast, Join;
    AfterDot(pre + Join(ns, false), ['/'] + t, last);
    JoinTrailing(ns);
    assert pre + (Join(ns, false) + "/") == pre + Join(ns, false) + "/";
  }

  lemma {:induction false} PopStep(pre: seq<char>, ns: seq<seq<char>>, last: bool)
    requires Names(ns) && (ns != [] || pre == [])
    ensures AfterToken(pre + Join(ns, false), "/..", last) == pre + Join(Push(ns, ".."), last)
  {
    hide AfterToken, DropLast, Join;
    var o, next := pre + Join(ns, false), Push(ns, "..");
    var base := pre + Join(next, false);
    assert DropLast(o) == base && (|base| < |o| ==> o[|base|] == '/') by {
      if ns == [] { NothingToPop(ns); } else { PopLast(pre, ns); }
    }
    AfterDotDot(o, "/..", base, last);
    JoinTrailing(next);
    assert pre + (Join(next, false) + "/") == base + "/";
  }

  lemma {:induction false} NothingToPop(ns: seq<seq<char>>)
    requires ns == []
    ensures DropLast([] + Join(ns, false)) == [] && Join(Push(ns, ".."), false) == []
  {
  }

  lemma {:induction false} PopLast(pre: seq<char>, ns: seq<seq<char>>)
    requires Names(ns) && ns != []
    ensures var o, base := pre + Join(ns, false), pre + Join(ns[..|ns| - 1], false);
            DropLast(o) == base && |base| < |o| && o[|base|] == '/'
  {
    hide DropLast, Join;
    var next, t := ns[..|ns| - 1], ns[|ns| - 1];
    var base := pre + Join(next, false);
    assert ns == next + [t] && Name(t);
    JoinSnoc(next, t);
    Regroup(pre, Join(next, false), t);
    DropLastName(base, t);
  }

  lemma {:induction false} Regroup(a: seq<char>, b: seq<char>, t: seq<char>)
    ensures a + (b + ['/'] + t) == (a + b) + ['/'] + t
  {
  }

  /** The first token of an absolute path, split off. */
  lemma {:induction false} FirstToken(s: seq<char>, o: seq<char>) returns (t: seq<char>, rest: seq<char>)
    requires s != [] && s[0] == '/'
    ensures s == ['/'] + t + rest && '/' !in t && Absolute(rest)
    ensures t == s[1..SegmentEnd(s, 1)] && rest == s[SegmentEnd(s, 1)..]
    ensures Tokens(s, o) == Tokens(rest, AfterToken(o, ['/'] + t, rest == []))
  {
    hide AfterToken;
    var e := SegmentEnd(s, 1);
    t, rest := s[1..e], s[e..];
    assert s[..e] == ['/'] + t;
  }

  /** Whatever the path, the result is a list of proper components, perhaps with a "/" at the end:
      `ns` is the component stack and `end` what is left of it when the path is used up. */
  lemma {:induction false} NormalForm(s: seq<char>, ns: seq<seq<char>>) returns (end: seq<seq<char>>, trailing: bool)
    requires Absolute(s) && Names(ns)
    ensures Names(end) && Tokens(s, Join(ns, false)) == Join(end, trailing)
    decreases |s|
  {
    hide AfterToken, Join;
    if s == [] {
      return ns, false;
    }
    var o := Join(ns, false);
    var t, rest := FirstToken(s, o);
    PushStep([], ns, t, rest == []);
    assert [] + o == o;
    end, trailing := Push(ns, t), rest == [] && !Name(t);
    assert [] + Join(end, trailing) == Join(end, trailing);
    if rest != [] {
      end, trailing := NormalForm(rest, end);
    }
  }

  /** A path in normal form is copied unchanged. */
  lemma {:induction false} NormalFixed(ns: seq<seq<char>>, trailing: bool, o: seq<char>)
    requires Names(ns)
    ensures RemoveDots(Collapse(Join(ns, trailing)), o) == o + Join(ns, trailing)
    decreases |ns|
  {
    hide RemoveDots, Collapse;
    if ns == [] {
      NothingLeft(o);
      SlashStep([], o);
      assert "/" + [] == "/" && o + [] == o;
    } else {
      var rest := Join(ns[1..], trailing);
      NameStep(ns[0], rest, o);
      NormalFixed(ns[1..], trailing, o + ['/'] + ns[0]);
      assert o + ['/'] + ns[0] + rest == o + (['/'] + ns[0] + rest);
    }
  }

  /** Simplifying twice is simplifying once; the result has no ".", ".." or empty component. */
  lemma {:induction false} Idempotent(s: seq<char>)
    requires Absolute(s)
    ensures exists ns, trailing :: Names(ns) && Normalized(s) == Join(ns, trailing)
    ensures Trimmed(Normalized(s)) == Normalized(s)
    ensures Normalized(Normalized(s)) == Normalized(s)
  {
    hide RemoveDots, Collapse, Tokens, Join, Trimmed;
    Refines(s, []);
    assert Join([], false) == [] by { NoComponents(); }
    var ns, trailing := NormalForm(s, []);
    NormalFixed(ns, trailing, []);
    assert [] + Normalized(s) == Normalized(s);
    NothingToTrim(Normalized(s));
  }

  lemma {:induction false} NoComponents()
    ensures Join([], false) == []
  {
  }

  lemma {:induction false} NothingToTrim(s: seq<char>)
    requires Absolute(s)
    ensures Trimmed(s) == s
  {
  }

  lemma {:induction false} SpacesSkipped(spaces: seq<char>, r: seq<char>, i: nat)
    requires (forall k :: 0 <= k < |spaces| ==> spaces[k] == ' ') && (r != [] ==> r[0] != ' ') && i <= |spaces|
    ensures SkipSpaces(spaces + r, i) == |spaces|
    decreases |spaces| - i
  {
    if i < |spaces| { SpacesSkipped(spaces, r, i + 1); }
  }

  /** What is skipped up front: all leading spaces, and then the dots of a first segment "." or "..". */
  lemma {:induction false} TrimmedExactly(spaces: seq<char>, r: seq<char>)
    requires (forall k :: 0 <= k < |spaces| ==> spaces[k] == ' ') && (r != [] ==> r[0] != ' ')
    ensures Trimmed(spaces + r) ==
            if r == "." || (|r| > 1 && r[0] == '.' && r[1] == '/') then r[1..]
            else if r == ".." || (|r| > 2 && r[0] == '.' && r[1] == '.' && r[2] == '/') then r[2..]
            else r
  {
    SpacesSkipped(spaces, r, 0);
    hide SkipSpaces;
    var s, n := spaces + r, |spaces|;
    assert forall k :: 0 <= k < |r| ==> s[n + k] == r[k];
    assert s[n..] == r;
    assert |r| >= 1 ==> s[n + 1..] == r[1..];
    assert |r| >= 2 ==> s[n + 2..] == r[2..];
    assert |r| == 1 ==> r == [r[0]];
    assert |r| == 2 ==> r == [r[0], r[1]];
  }

  // ---------------------------------------------------------------- relative paths

  /** With `depth` components on the stack, whether a later ".." takes the lowest of them off. Unless
      that component has one character (`short`), the ".." must not be the last token. */
  predicate Cancelled(s: seq<char>, depth: nat, short: bool)
    requires depth > 0
    decreases |s|
  {
    s != [] &&
    var e := SegmentEnd(s, 1);
    var t, rest := s[1..e], s[e..];
    if t == ".." && depth == 1 then short || rest != []
    else Cancelled(rest, if t == ".." then depth - 1 else if t == [] || t == "." then depth else depth + 1, short)
  }

  /** The code's buffer `pre` + "/n1/.../nk" against the documented one, which has "/t" for `pre`. */
  lemma {:induction false} Lockstep(s: seq<char>, t: seq<char>, pre: seq<char>, ns: seq<seq<char>>)
    requires Absolute(s) && Name(t) && Names(ns) && (pre == [] || pre == t)
    ensures Tokens(s, pre + Join(ns, false)) == Tokens(s, ['/'] + t + Join(ns, false))
            <==> Cancelled(s, |ns| + 1, pre == [])
    decreases |s|
  {
    hide AfterToken, Join, DropLast;
    var doc := ['/'] + t;
    if s == [] {
      assert |pre + Join(ns, false)| != |doc + Join(ns, false)|;
      return;
    }
    var seg, rest := FirstToken(s, pre + Join(ns, false));
    var _, _ := FirstToken(s, doc + Join(ns, false));
    var last := rest == [];
    if seg == ".." && ns == [] {
      assert ['/'] + seg == "/..";
      CancelStep(t, pre, last);
    } else {
      PushStep(pre, ns, seg, last);
      PushStep(doc, ns, seg, last);
      var next := Push(ns, seg);
      assert |pre + Join(next, last && !Name(seg))| != |doc + Join(next, last && !Name(seg))|;
      if !last {
        Lockstep(rest, t, pre, next);
      }
    }
  }

  lemma {:induction false} NoSlash(t: seq<char>)
    requires '/' !in t
    ensures DropLast(t) == []
  {
    if t != [] {
      assert t[|t| - 1] in t;
      NoSlash(t[..|t| - 1]);
    }
  }

  /** The ".." that takes off the first component. */
  lemma {:induction false} CancelStep(t: seq<char>, pre: seq<char>, last: bool)
    requires Name(t) && (pre == [] || pre == t)
    ensures var end := if last then "/" else [];
            AfterToken(['/'] + t + Join([], false), "/..", last) == end
            && (AfterToken(pre + Join([], false), "/..", last) == end <==> pre == [] || !last)
  {
    assert pre + Join([], false) == pre && ['/'] + t + Join([], false) == [] + ['/'] + t;
    DropLastName([], t);
    AfterDotDot([] + ['/'] + t, "/..", [], last);
    NoSlash(t);
    if pre == [] {
      AfterDotDot([], "/..", [], last);
    } else {
      assert (t + "/..")[..1] == [t[0]];
    }
  }

  /** The documentation says that "/" is put in front of a path that lacks it. The loop does not do
      that: for a relative path the result is the documented one exactly when a later ".." takes the
      first segment off again. */
  lemma {:induction false} RelativeExact(t: seq<char>, s: seq<char>)
    requires Name(t) && Absolute(s)
    ensures Tokens(t + s, []) == Normalized(['/'] + t + s) <==> Cancelled(s, 1, |t| == 1)
  {
    var doc := ['/'] + t;
    FirstSegment(t, s == []);
    Documented(t, s);
    hide *;
    TokensStep(t, s, []);
    LockstepStart(s, t, if |t| == 1 && s != [] then [] else t);
  }

  /** A relative path for which the two differ. */
  lemma {:induction false} RelativeExample()
    ensures Tokens("ab/c", []) != Normalized("/ab/c")
  {
    hide Tokens, Normalized;
    var t, s := "ab", "/c";
    assert t + s == "ab/c" && ['/'] + t + s == "/ab/c";
    SegmentEndIs(s, 1, 2);
    assert s[2..] == [];
    assert !Cancelled(s, 1, false);
    RelativeExact(t, s);
  }

  lemma {:induction false} Documented(t: seq<char>, s: seq<char>)
    requires Name(t) && Absolute(s)
    ensures Normalized(['/'] + t + s) == Tokens(s, ['/'] + t)
  {
    Refines(['/'] + t + s, []);
    FirstSegment(t, s == []);
    hide AfterToken, Tokens;
    assert (['/'] + t)[1..] == t;
    TokensStep(['/'] + t, s, []);
  }

  lemma {:induction false} LockstepStart(s: seq<char>, t: seq<char>, pre: seq<char>)
    requires Absolute(s) && Name(t) && pre == if |t| == 1 && s != [] then [] else t
    ensures Tokens(s, pre) == Tokens(s, ['/'] + t) <==> Cancelled(s, 1, |t| == 1)
  {
    hide Tokens;
    assert pre + Join([], false) == pre && ['/'] + t + Join([], false) == ['/'] + t;
    Lockstep(s, t, pre, []);
  }

  lemma {:induction false} FirstSegment(t: seq<char>, last: bool)
    requires Name(t)
    ensures IsToken(t)
    ensures AfterToken([], t, last) == if |t| == 1 && !last then [] else t
    ensures AfterToken([], ['/'] + t, last) == ['/'] + t
  {
    hide AfterToken;
    assert t[0] in t;
    NamePush([], [], t, last);
    assert [] + Join([], false) == [];
    assert [] + Join([t], false) == ['/'] + t;
    if |t| == 1 {
      AfterDot([], t, last);
    } else {
      AfterName([], t, last);
      assert [] + t == t;
    }
  }
}
