/** Percent-encoding as src/http_microhttpd_utils.c does it, with bounded buffers, against the
    encoding of sections 2.1 and 2.3 of RFC 3986. Bytes are numbers below 256. */
module UrlCodec {
  import opened Configuration

  newtype Byte = n: int | 0 <= n < 256

  const PERCENT: Byte := 0x25

  predicate Digit(b: Byte) { 0x30 <= b <= 0x39 }
  predicate Upper(b: Byte) { 0x41 <= b <= 0x5a }
  predicate Lower(b: Byte) { 0x61 <= b <= 0x7a }

  /** Letters, digits, "-", "_", "." and "~". */
  predicate Unreserved(b: Byte) {
    Digit(b) || Upper(b) || Lower(b) || b == 0x2d || b == 0x5f || b == 0x2e || b == 0x7e
  }

  predicate HexDigit(b: Byte) { Digit(b) || 0x41 <= b <= 0x46 || 0x61 <= b <= 0x66 }

  /** The value of a hexadecimal digit, by the order in which the source compares. */
  function HexValue(b: Byte): (v: Byte)
    requires HexDigit(b)
    ensures v < 16
  {
    if b <= 0x39 then b - 0x30 else if b <= 0x46 then b - 0x41 + 10 else b - 0x61 + 10
  }

  function HexChar(v: Byte): (b: Byte)
    requires v < 16
    ensures HexDigit(b) && !Upper(b) && HexValue(b) == v
  {
    if v < 10 then 0x30 + v else 0x61 + (v - 10)
  }

  // ---------------------------------------------------------------- reference

  /** One byte, encoded. */
  function Quote(b: Byte): (t: seq<Byte>)
    ensures |t| == 1 || |t| == 3
  {
    if Unreserved(b) then [b] else [PERCENT, HexChar(b / 16), HexChar(b % 16)]
  }

  function Enc(s: seq<Byte>): (t: seq<Byte>) {
    if s == [] then [] else Enc(s[..|s| - 1]) + Quote(s[|s| - 1])
  }

  /** Whether an encoded byte starts `s`, in which "%" must be followed by two digits. */
  predicate Opens(s: seq<Byte>) {
    s != [] && (s[0] == PERCENT ==> |s| >= 3 && HexDigit(s[1]) && HexDigit(s[2]))
  }

  /** How long the first encoded byte is. */
  function Width(s: seq<Byte>): (n: nat)
    requires Opens(s)
    ensures 1 <= n <= |s|
  {
    if s[0] == PERCENT then 3 else 1
  }

  function Value(s: seq<Byte>): (b: Byte)
    requires Opens(s)
  {
    if s[0] == PERCENT then 16 * HexValue(s[1]) + HexValue(s[2]) else s[0]
  }

  /** The bytes that `s` stands for, if every "%" in it starts a triple. */
  function Dec(s: seq<Byte>): (r: Option<seq<Byte>>) {
    if s == [] then Some([])
    else if !Opens(s) then None
    else
      var rest := Dec(s[Width(s)..]);
      if rest.None? then None else Some([Value(s)] + rest.value)
  }

  /** The bytes that come before the first malformed triple. */
  function Readable(s: seq<Byte>): (r: seq<Byte>) {
    if !Opens(s) then [] else [Value(s)] + Readable(s[Width(s)..])
  }

  // ---------------------------------------------------------------- laws

  lemma {:induction false} QuoteOpens(b: Byte, rest: seq<Byte>)
    ensures Opens(Quote(b) + rest) && Width(Quote(b) + rest) == |Quote(b)|
    ensures Value(Quote(b) + rest) == b
    ensures (Quote(b) + rest)[|Quote(b)|..] == rest
  {
    assert (Quote(b) + rest)[|Quote(b)|..] == rest;
  }

  lemma {:induction false} EncConcat(a: seq<Byte>, b: seq<Byte>)
    ensures Enc(a + b) == Enc(a) + Enc(b)
  {
    hide Quote;
    if b == [] {
      assert a + b == a;
    } else {
      var n := |b| - 1;
      assert (a + b)[..|a + b| - 1] == a + b[..n];
      EncConcat(a, b[..n]);
      assert Enc(a + b) == (Enc(a) + Enc(b[..n])) + Quote(b[n]);
    }
  }

  lemma {:induction false} EncFirst(s: seq<Byte>)
    requires s != []
    ensures Enc(s) == Quote(s[0]) + Enc(s[1..])
  {
    hide Quote;
    EncConcat([s[0]], s[1..]);
    assert s == [s[0]] + s[1..];
    assert Enc([s[0]]) == Enc([s[0]][..0]) + Quote(s[0]);
  }

  /** Decoding undoes encoding, for every byte string, and whatever well-formed text follows. */
  lemma {:induction false} RoundTrip(s: seq<Byte>, rest: seq<Byte>)
    ensures Dec(rest).None? ==> Dec(Enc(s) + rest).None?
    ensures Dec(rest).Some? ==> Dec(Enc(s) + rest) == Some(s + Dec(rest).value)
    decreases |s|
  {
    hide Quote, Opens, Width, Value;
    if s == [] {
      assert Enc(s) + rest == rest;
      if Dec(rest).Some? { assert s + Dec(rest).value == Dec(rest).value; }
    } else {
      var tail := Enc(s[1..]) + rest;
      EncFirst(s);
      assert Enc(s) + rest == Quote(s[0]) + tail;
      QuoteOpens(s[0], tail);
      RoundTrip(s[1..], rest);
      if Dec(rest).Some? {
        assert s + Dec(rest).value == [s[0]] + (s[1..] + Dec(rest).value);
      }
    }
  }

  lemma {:induction false} Decodes(s: seq<Byte>)
    ensures Dec(Enc(s)) == Some(s)
  {
    RoundTrip(s, []);
    assert Enc(s) + [] == Enc(s);
    assert s + [] == s;
  }

  /** A byte stands for itself exactly if it is a letter, a digit, "-", ".", "_" or "~" (section 2.3 of
      RFC 3986). */
  lemma {:induction false} ItselfExactly(b: Byte)
    ensures Enc([b]) == [b] <==>
            0x61 <= b <= 0x7a || 0x41 <= b <= 0x5a || 0x30 <= b <= 0x39 || b == 0x2d || b == 0x2e || b == 0x5f || b == 0x7e
  {
    assert [b][..0] == [] && Enc([b]) == Enc([b][..0]) + Quote(b);
  }

  /** A triple is read exactly with two hexadecimal digits, in either case (section 2.1 of RFC 3986). */
  lemma {:induction false} TripleExactly(a: Byte, b: Byte, x: Byte, y: Byte)
    requires x < 16 && y < 16
    ensures Dec([0x25, a, b]).Some? <==>
            (0x30 <= a <= 0x39 || 0x41 <= a <= 0x46 || 0x61 <= a <= 0x66) && (0x30 <= b <= 0x39 || 0x41 <= b <= 0x46 || 0x61 <= b <= 0x66)
    ensures a == (if x < 10 then 0x30 + x else 0x41 + (x - 10)) && b == (if y < 10 then 0x30 + y else 0x61 + (y - 10)) ==>
              Dec([0x25, a, b]) == Some([16 * x + y])
  {
    var s := [0x25, a, b];
    if Opens(s) {
      assert Width(s) == 3 && s[3..] == [];
      assert Dec(s[3..]) == Some([]);
      assert [Value(s)] + [] == [Value(s)];
      assert Dec(s) == Some([Value(s)]);
    }
  }

  /** Encoded text: unreserved characters and "%" with two lower-case digits, nothing else. */
  predicate Canonical(t: seq<Byte>) {
    t == [] ||
    if t[0] == PERCENT
    then |t| >= 3 && HexDigit(t[1]) && HexDigit(t[2]) && !Upper(t[1]) && !Upper(t[2])
         && !Unreserved(16 * HexValue(t[1]) + HexValue(t[2])) && Canonical(t[3..])
    else Unreserved(t[0]) && Canonical(t[1..])
  }

  lemma {:induction false} HexInverse(b: Byte)
    requires HexDigit(b) && !Upper(b)
    ensures HexChar(HexValue(b)) == b
  {
  }

  lemma {:induction false} EncCanonical(s: seq<Byte>)
    ensures Canonical(Enc(s))
    decreases |s|
  {
    if s != [] {
      EncFirst(s);
      EncCanonical(s[1..]);
      QuoteOpens(s[0], Enc(s[1..]));
    }
  }

  /** The encoder's range is exactly the canonical texts: each is the encoding of what it
      decodes to. */
  lemma {:induction false} CanonicalExactly(t: seq<Byte>)
    ensures Canonical(t) <==> Dec(t).Some? && Enc(Dec(t).value) == t
  {
    if Canonical(t) {
      CanonicalIsEncoded(t);
    } else if Dec(t).Some? && Enc(Dec(t).value) == t {
      EncCanonical(Dec(t).value);
    }
  }

  lemma {:induction false} CanonicalFirst(t: seq<Byte>)
    requires t != [] && Canonical(t)
    ensures Opens(t) && Canonical(t[Width(t)..])
    ensures t == Quote(Value(t)) + t[Width(t)..]
  {
    if t[0] == PERCENT {
      HexInverse(t[1]);
      HexInverse(t[2]);
      assert t == [t[0], t[1], t[2]] + t[3..];
    } else {
      assert t == [t[0]] + t[1..];
    }
  }

  lemma {:induction false} CanonicalIsEncoded(t: seq<Byte>)
    requires Canonical(t)
    ensures Dec(t).Some? && Enc(Dec(t).value) == t
    decreases |t|
  {
    if t != [] {
      hide Quote, Canonical, Opens, Width, Value;
      CanonicalFirst(t);
      var w := Width(t);
      CanonicalIsEncoded(t[w..]);
      var d := Dec(t).value;
      EncFirst(d);
      assert d[1..] == Dec(t[w..]).value;
    }
  }

  /** `Readable` is what the longest well-formed beginning decodes to. */
  lemma {:induction false} ReadableIsLongest(s: seq<Byte>, k: nat)
    requires k <= |s| && Dec(s[..k]).Some?
    ensures Dec(s[..k]).value <= Readable(s)
    decreases k
  {
    if k > 0 {
      var p := s[..k];
      var w := Width(p);
      assert p[0] == s[0] && (w == 3 ==> p[1] == s[1] && p[2] == s[2]);
      assert p[w..] == s[w..][..k - w];
      ReadableIsLongest(s[w..], k - w);
    }
  }

  lemma {:induction false} ReadableIsDecoded(s: seq<Byte>) returns (k: nat)
    ensures k <= |s| && Dec(s[..k]) == Some(Readable(s))
    ensures Dec(s).Some? <==> k == |s|
    ensures Dec(s).Some? ==> Dec(s).value == Readable(s)
    ensures Dec(s).None? ==> !Opens(s[k..])
    decreases |s|
  {
    k := 0;
    if Opens(s) {
      var w := Width(s);
      var j := ReadableIsDecoded(s[w..]);
      k := w + j;
      var p := s[..k];
      assert p[0] == s[0] && (w == 3 ==> p[1] == s[1] && p[2] == s[2]);
      assert p[w..] == s[w..][..j];
      assert s[w..][j..] == s[k..];
    }
    assert s[..0] == [] && s[0..] == s;
    assert s[..|s|] == s;
  }

  // ---------------------------------------------------------------- the encoder

  lemma {:induction false} EncGrows(s: seq<Byte>, i: nat)
    requires i <= |s|
    ensures |Enc(s[..i])| + (|s| - i) <= |Enc(s)|
    ensures i < |s| ==> Enc(s[..i + 1]) == Enc(s[..i]) + Quote(s[i])
    ensures i < |s| ==> |Enc(s[..i])| + |Quote(s[i])| <= |Enc(s)|
    decreases |s| - i
  {
    if i < |s| {
      assert s[..i + 1][..i] == s[..i];
      EncGrows(s, i + 1);
    } else {
      assert s[..i] == s;
    }
  }

  lemma {:induction false} EncEmpty(s: seq<Byte>)
    ensures Enc(s[..0]) == []
  {
  }

  lemma {:induction false} Written(buf: array<Byte>, len: nat, t: seq<Byte>, q: seq<Byte>)
    requires len + |q| <= buf.Length && buf[..len] == t
    requires forall k :: 0 <= k < |q| ==> buf[len + k] == q[k]
    ensures buf[..len + |q|] == t + q
  {
    assert buf[..len + |q|] == buf[..len] + buf[len..len + |q|];
  }

  /** Writes the encoding of `src`, if it fits into `blen` cells; otherwise gives -1. It changes
      nothing behind the encoding, and nothing behind `blen` cells in any case. */
  method UrlEncode(buf: array<Byte>, blen: nat, src: seq<Byte>) returns (r: int)
    requires blen <= buf.Length
    modifies buf
    ensures r == if |Enc(src)| <= blen then |Enc(src)| else -1
    ensures r >= 0 ==> buf[..r] == Enc(src) && buf[r..] == old(buf[r..])
    ensures buf[blen..] == old(buf[blen..])
  {
    hide Enc, HexChar, Unreserved;
    var i, len := 0, 0;
    EncEmpty(src);
    while i < |src| && len < blen
      invariant 0 <= i <= |src|
      invariant 0 <= len <= blen && len == |Enc(src[..i])|
      invariant buf[..len] == Enc(src[..i])
      invariant forall k :: len <= k < buf.Length ==> buf[k] == old(buf[k])
    {
      EncGrows(src, i);
      var b := src[i];
      if Unreserved(b) {
        buf[len] := b;
        Written(buf, len, Enc(src[..i]), Quote(b));
        len := len + 1;
      } else if len + 3 <= blen {
        buf[len] := PERCENT;
        buf[len + 1] := HexChar(b / 16);
        buf[len + 2] := HexChar(b % 16);
        Written(buf, len, Enc(src[..i]), Quote(b));
        len := len + 3;
      } else {
        return -1;
      }
      i := i + 1;
    }
    EncGrows(src, i);
    if i == |src| {
      assert src[..i] == src;
      return len;
    }
    return -1;
  }

  // ---------------------------------------------------------------- the decoder

  lemma {:induction false} ReadableStep(s: seq<Byte>, i: nat, done: seq<Byte>)
    requires i < |s| && Opens(s[i..])
    requires Readable(s) == done + Readable(s[i..])
    ensures i + Width(s[i..]) <= |s|
    ensures Readable(s) == (done + [Value(s[i..])]) + Readable(s[i + Width(s[i..])..])
  {
    hide Opens, Width, Value;
    var w := Width(s[i..]);
    assert s[i..][w..] == s[i + w..];
    assert Readable(s[i..]) == [Value(s[i..])] + Readable(s[i + w..]);
  }

  lemma {:induction false} WellFormedSplits(s: seq<Byte>, i: nat)
    requires i < |s| && Opens(s[i..])
    ensures i + Width(s[i..]) <= |s|
    ensures Dec(s[i..]).Some? <==> Dec(s[i + Width(s[i..])..]).Some?
  {
    hide Opens, Width, Value;
    var w := Width(s[i..]);
    assert s[i..][w..] == s[i + w..];
  }

  lemma {:induction false} NothingLeft(s: seq<Byte>)
    requires s == []
    ensures Readable(s) == [] && Dec(s) == Some([])
  {
  }

  lemma {:induction false} SomethingLeft(s: seq<Byte>)
    requires s != []
    ensures Dec(s).Some? ==> Readable(s) != []
  {
  }

  lemma {:induction false} Malformed(s: seq<Byte>)
    requires s != [] && !Opens(s)
    ensures Readable(s) == [] && Dec(s) == None
  {
  }

  /** Gives the decoded length exactly for a well-formed text whose bytes fit; -2 when a
      malformed triple is met before `blen` bytes are out; -1 otherwise. The buffer needs one
      cell more than `blen`: the terminator goes there exactly when `blen` bytes came out. */
  method UrlDecode(buf: array<Byte>, blen: nat, src: seq<Byte>) returns (r: int)
    requires blen < buf.Length
    modifies buf
    ensures r >= 0 <==> Dec(src).Some? && |Dec(src).value| <= blen
    ensures r >= 0 ==> r == |Dec(src).value| && buf[..r] == Dec(src).value && buf[r] == 0
    ensures r == -2 <==> Dec(src).None? && |Readable(src)| < blen
    ensures r >= -2
    ensures r >= 0 ==> buf[r + 1..] == old(buf[r + 1..])
    ensures buf[blen + 1..] == old(buf[blen + 1..])
    ensures buf[blen] == if |Readable(src)| >= blen then 0 else old(buf[blen])
    ensures r == -1 ==> buf[..blen] <= Readable(src)
  {
    hide HexValue, Dec, Readable;
    var i, len := 0, 0;
    ghost var done: seq<Byte> := [];
    assert src[0..] == src;
    var k := ReadableIsDecoded(src);
    while i < |src| && len < blen
      invariant 0 <= i <= |src|
      invariant 0 <= len == |done| <= blen
      invariant Readable(src) == done + Readable(src[i..])
      invariant Dec(src).Some? <==> Dec(src[i..]).Some?
      invariant buf[..len] == done
      invariant forall k :: len <= k < buf.Length ==> buf[k] == old(buf[k])
      decreases |src| - i
    {
      if src[i] != PERCENT {
        ReadableStep(src, i, done);
        WellFormedSplits(src, i);
        buf[len] := src[i];
        len, i := len + 1, i + 1;
        done := done + [src[i - 1]];
        continue;
      }
      if i + 2 >= |src| || !HexDigit(src[i + 1]) || !HexDigit(src[i + 2]) {
        Malformed(src[i..]);
        return -2;
      }
      ReadableStep(src, i, done);
      WellFormedSplits(src, i);
      buf[len] := 16 * HexValue(src[i + 1]) + HexValue(src[i + 2]);
      len, i := len + 1, i + 3;
      done := done + [buf[len - 1]];
    }
    buf[len] := 0;
    if i == |src| {
      NothingLeft(src[i..]);
      return len;
    }
    SomethingLeft(src[i..]);
    return -1;
  }
}
