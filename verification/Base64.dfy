/** The base64 decoder of src/http_microhttpd_utils.c: four characters at a time into a bounded
    buffer, through one 32-bit word that is never cleared, against the encoding of section 4 of
    RFC 4648. */
module Base64 {
  import opened Configuration

  type Byte = bv8
  type Six = v: bv8 | v < 64

  const PAD: Byte := 0x3d

  // ---------------------------------------------------------------- characters

  /** Six bits as a character of the base64 alphabet. */
  function Char(v: Six): (c: Byte)
    ensures c != 0 && c != PAD
  {
    if v < 26 then 0x41 + v
    else if v < 52 then 0x61 + (v - 26)
    else if v < 62 then 0x30 + (v - 52)
    else if v == 62 then 0x2b
    else 0x2f
  }

  /** The six bits of a character, by the source's comparisons; padding stands for zero, and
      every other character for nothing. */
  function Sextet(c: Byte): (v: Option<Six>)
  {
    if 0x30 <= c && c <= 0x39 then Some(c - 0x30 + 52)
    else if 0x41 <= c && c <= 0x5a then Some(c - 0x41)
    else if 0x61 <= c && c <= 0x7a then Some(c - 0x61 + 26)
    else if c == 0x2b then Some(62)
    else if c == 0x2f then Some(63)
    else if c == PAD then Some(0)
    else None
  }

  lemma {:induction false} CharInverse(v: Six)
    ensures Sextet(Char(v)) == Some(v)
  {
  }

  /** The alphabet of table 1 of RFC 4648: "A" to "Z", "a" to "z", "0" to "9", "+" and "/"; the padding is
      "=". */
  lemma {:induction false} Alphabet(v: Six)
    ensures v < 26 ==> Char(v) == 0x41 + v
    ensures 26 <= v < 52 ==> Char(v) == 0x61 + (v - 26)
    ensures 52 <= v < 62 ==> Char(v) == 0x30 + (v - 52)
    ensures v == 62 ==> Char(v) == 0x2b
    ensures v == 63 ==> Char(v) == 0x2f
    ensures Sextet(0x3d) == Some(0)
  {
  }

  // ---------------------------------------------------------------- reference

  /** The values of the characters that have one. */
  function Values(t: seq<Byte>): (q: seq<Six>)
  {
    if t == [] then []
    else
      var last := Sextet(t[|t| - 1]);
      if last.Some? then Values(t[..|t| - 1]) + [last.value] else Values(t[..|t| - 1])
  }

  /** The value `k` places before the last one, zero where there is none. */
  function Recent(q: seq<Six>, k: nat): (v: Six)
  {
    if k < |q| then q[|q| - 1 - k] else 0
  }

  /** Four values of six bits as three bytes. */
  function Unpack(a: Six, b: Six, c: Six, d: Six): (r: seq<Byte>)
    ensures |r| == 3
  {
    [(a << 2) | (b >> 4), (b << 4) | (c >> 2), (c << 6) | d]
  }

  /** The three bytes that the four latest values of `q` make. */
  function Group(q: seq<Six>): (r: seq<Byte>)
    ensures |r| == 3
  {
    Unpack(Recent(q, 3), Recent(q, 2), Recent(q, 1), Recent(q, 0))
  }

  /** Whether the last character of `t` closes a group: it stands at a fourth place of the text,
      counting every character, and has a value. */
  predicate Closes(t: seq<Byte>) {
    t != [] && |t| % 4 == 0 && Sextet(t[|t| - 1]).Some?
  }

  /** All bytes that a text without bound on the buffer gives. */
  function Emitted(t: seq<Byte>): (r: seq<Byte>)
    ensures |r| % 3 == 0
  {
    if t == [] then []
    else Emitted(t[..|t| - 1]) + if Closes(t) then Group(Values(t)) else []
  }

  /** The characters the decoder reads: up to a NUL, and one beyond `slen`. */
  function Read(str: seq<Byte>, slen: nat): (t: seq<Byte>)
    ensures t <= str && |t| <= slen + 1 && 0 !in t
    ensures |t| <= slen && |t| < |str| ==> str[|t|] == 0
    decreases slen
  {
    if str == [] || str[0] == 0 then []
    else [str[0]] + if slen == 0 then [] else Read(str[1..], slen - 1)
  }

  /** How many groups fit into `blen` cells with the terminator. */
  function Room(blen: nat): (g: nat)
    ensures blen > 0 ==> 3 * g < blen <= 3 * g + 3
  {
    if blen == 0 then 0 else (blen - 1) / 3
  }

  /** As much of `e` as fits in whole groups, terminated. */
  function Bounded(e: seq<Byte>, blen: nat): (r: seq<Byte>)
    requires |e| % 3 == 0
  {
    (if |e| <= 3 * Room(blen) then e else e[..3 * Room(blen)]) + [0]
  }

  lemma {:induction false} BoundedAll(e: seq<Byte>, blen: nat)
    requires |e| % 3 == 0 && (e == [] || |e| < blen)
    ensures Bounded(e, blen) == e + [0]
  {
  }

  lemma {:induction false} BoundedCut(e: seq<Byte>, blen: nat, len: nat)
    requires |e| % 3 == 0 && len % 3 == 0 && len < |e|
    requires len + 3 >= blen && (len == 0 || len < blen)
    ensures Bounded(e, blen) == e[..len] + [0]
  {
    assert Room(blen) == len / 3;
  }

  // ---------------------------------------------------------------- the canonical encoding

  /** Section 4 of RFC 4648: 24-bit groups, the last one padded. */
  function Encode(b: seq<Byte>): (t: seq<Byte>)
    ensures |t| % 4 == 0 && 0 !in t
  {
    if b == [] then []
    else if |b| == 1 then [Char(b[0] >> 2), Char((b[0] & 3) << 4), PAD, PAD]
    else if |b| == 2 then
      [Char(b[0] >> 2), Char(((b[0] & 3) << 4) | (b[1] >> 4)), Char((b[1] & 15) << 2), PAD]
    else Quad(b[0], b[1], b[2]) + Encode(b[3..])
  }

  function Quad(x: Byte, y: Byte, z: Byte): (t: seq<Byte>)
    ensures |t| == 4 && 0 !in t
  {
    [Char(x >> 2), Char(((x & 3) << 4) | (y >> 4)), Char(((y & 15) << 2) | (z >> 6)), Char(z & 63)]
  }

  /** The bytes, zero-padded to a multiple of three. */
  function Padded(b: seq<Byte>): (r: seq<Byte>)
    ensures |r| % 3 == 0 && b <= r && |r| < |b| + 3
    ensures forall k :: |b| <= k < |r| ==> r[k] == 0
  {
    if |b| % 3 == 0 then b else if |b| % 3 == 1 then b + [0, 0] else b + [0]
  }

  // ---------------------------------------------------------------- groups do not leak

  predicate AllValued(t: seq<Byte>) {
    forall k :: 0 <= k < |t| ==> Sextet(t[k]).Some?
  }

  /** The values of a text that ends in valued characters end in theirs. */
  lemma {:induction false} ValuesConcat(a: seq<Byte>, b: seq<Byte>)
    ensures Values(a + b) == Values(a) + Values(b)
    ensures AllValued(b) ==> |Values(b)| == |b|
  {
    hide Sextet;
    if b == [] {
      assert a + b == a;
    } else {
      var n := |b| - 1;
      assert (a + b)[..|a + b| - 1] == a + b[..n];
      ValuesConcat(a, b[..n]);
    }
  }

  lemma {:induction false} RecentConcat(p: seq<Six>, q: seq<Six>)
    requires |q| >= 4
    ensures Group(p + q) == Group(q)
  {
    hide Unpack;
    forall k | 0 <= k < 4
      ensures Recent(p + q, k) == Recent(q, k)
    {
      assert (p + q)[|p + q| - 1 - k] == q[|q| - 1 - k];
    }
  }

  lemma {:induction false} GroupAlone(a: seq<Byte>, b: seq<Byte>)
    requires Closes(b) && AllValued(b)
    ensures Group(Values(a + b)) == Group(Values(b))
  {
    hide Sextet, Group;
    ValuesConcat(a, b);
    RecentConcat(Values(a), Values(b));
  }

  lemma {:induction false} ClosesAlone(a: seq<Byte>, b: seq<Byte>)
    requires |a| % 4 == 0 && b != []
    ensures Closes(a + b) <==> Closes(b)
  {
    hide Sextet;
    assert |a + b| % 4 == |b| % 4;
  }

  lemma {:induction false} Nothing()
    ensures Emitted([]) == [] && Values([]) == []
  {
  }

  lemma {:induction false} EmittedLast(t: seq<Byte>, c: Byte)
    ensures Emitted(t + [c]) ==
            Emitted(t) + if Closes(t + [c]) then Group(Values(t + [c])) else []
  {
    hide Closes, Group, Values;
    assert (t + [c])[..|t|] == t;
  }

  /** Whatever whole number of fours came before, and whatever it left in the word, a text of
      valued characters decodes as it does alone. */
  lemma {:induction false} GroupsIndependent(a: seq<Byte>, b: seq<Byte>)
    requires |a| % 4 == 0 && AllValued(b)
    ensures Emitted(a + b) == Emitted(a) + Emitted(b)
    decreases |b|
  {
    hide Sextet, Group, Values, Closes, Emitted;
    if b == [] {
      assert a + b == a;
      Nothing();
    } else {
      var n := |b| - 1;
      var p, c := b[..n], b[n];
      assert p + [c] == b && (a + p) + [c] == a + b;
      GroupsIndependent(a, p);
      EmittedLast(p, c);
      EmittedLast(a + p, c);
      ClosesAlone(a, b);
      if Closes(b) {
        GroupAlone(a, b);
      }
    }
  }

  // ---------------------------------------------------------------- decoding the encoding

  lemma {:induction false} EncodeBits(x: Byte, y: Byte, z: Byte)
    ensures Unpack(x >> 2, ((x & 3) << 4) | (y >> 4), ((y & 15) << 2) | (z >> 6), z & 63) == [x, y, z]
  {
  }

  lemma {:induction false} FourValues(t: seq<Byte>, v: seq<Six>)
    requires |t| == |v| == 4
    requires forall k :: 0 <= k < 4 ==> Sextet(t[k]) == Some(v[k])
    ensures Emitted(t) == Unpack(v[0], v[1], v[2], v[3]) && AllValued(t)
  {
    hide Sextet, Unpack, Group, Values, Emitted;
    FourRead(t, v);
    assert t == t[..3] + [t[3]];
    Appended(t[..3], t[3], v[3]);
    assert Values(t) == [v[0], v[1], v[2], v[3]];
    GroupOfFour(v);
  }

  lemma {:induction false} FourRead(t: seq<Byte>, v: seq<Six>)
    requires |t| == |v| == 4
    requires forall k :: 0 <= k < 4 ==> Sextet(t[k]) == Some(v[k])
    ensures Values(t[..3]) == [v[0], v[1], v[2]] && Emitted(t[..3]) == []
  {
    hide Sextet, Unpack, Group, Values, Emitted;
    Nothing();
    assert t[..1] == [] + [t[0]];
    Appended([], t[0], v[0]);
    assert t[..2] == t[..1] + [t[1]];
    Appended(t[..1], t[1], v[1]);
    assert t[..3] == t[..2] + [t[2]];
    Appended(t[..2], t[2], v[2]);
  }

  lemma {:induction false} Appended(t: seq<Byte>, c: Byte, v: Six)
    requires Sextet(c) == Some(v)
    ensures Values(t + [c]) == Values(t) + [v]
    ensures Emitted(t + [c]) ==
            Emitted(t) + if |t| % 4 == 3 then Group(Values(t + [c])) else []
  {
    hide Sextet, Group, Emitted;
    assert (t + [c])[..|t|] == t;
    EmittedLast(t, c);
  }

  lemma {:induction false} GroupOfFour(v: seq<Six>)
    requires |v| == 4
    ensures Group([v[0], v[1], v[2], v[3]]) == Unpack(v[0], v[1], v[2], v[3])
  {
  }

  /** The last, shorter groups. */
  lemma {:induction false} OneDecodes(x: Byte)
    ensures Emitted(Encode([x])) == [x, 0, 0] && AllValued(Encode([x]))
  {
    hide Emitted, AllValued, Sextet, Char, Unpack;
    var v: seq<Six> := [x >> 2, (x & 3) << 4, 0, 0];
    CharInverse(v[0]);
    CharInverse(v[1]);
    PadZero();
    FourValues(Encode([x]), v);
    EncodeBits(x, 0, 0);
  }

  lemma {:induction false} TwoDecode(x: Byte, y: Byte)
    ensures Emitted(Encode([x, y])) == [x, y, 0] && AllValued(Encode([x, y]))
  {
    hide Emitted, AllValued, Sextet, Char, Unpack;
    var v: seq<Six> := [x >> 2, ((x & 3) << 4) | (y >> 4), (y & 15) << 2, 0];
    CharInverse(v[0]);
    CharInverse(v[1]);
    CharInverse(v[2]);
    PadZero();
    FourValues(Encode([x, y]), v);
    EncodeBits(x, y, 0);
  }

  lemma {:induction false} PadZero()
    ensures Sextet(PAD) == Some(0)
  {
  }

  lemma {:induction false} QuadDecodes(x: Byte, y: Byte, z: Byte)
    ensures Emitted(Quad(x, y, z)) == [x, y, z] && AllValued(Quad(x, y, z))
  {
    var v: seq<Six> := [x >> 2, ((x & 3) << 4) | (y >> 4), ((y & 15) << 2) | (z >> 6), z & 63];
    CharInverse(v[0]);
    CharInverse(v[1]);
    CharInverse(v[2]);
    CharInverse(v[3]);
    FourValues(Quad(x, y, z), v);
    EncodeBits(x, y, z);
  }

  lemma {:induction false} ValuedConcat(a: seq<Byte>, b: seq<Byte>)
    requires AllValued(a) && AllValued(b)
    ensures AllValued(a + b)
  {
  }

  lemma {:induction false} PaddedFirst(b: seq<Byte>)
    requires |b| >= 3
    ensures Padded(b) == [b[0], b[1], b[2]] + Padded(b[3..])
  {
    assert b == [b[0], b[1], b[2]] + b[3..];
    assert |b[3..]| % 3 == |b| % 3;
  }

  /** Decoding the encoding of any bytes gives them back, zero-padded. */
  lemma {:induction false} EncodeDecodes(b: seq<Byte>)
    ensures Emitted(Encode(b)) == Padded(b) && AllValued(Encode(b))
    decreases |b|
  {
    if |b| <= 2 {
      ShortDecodes(b);
    } else {
      hide Quad, Emitted, AllValued, Padded, Char;
      var q, rest := Quad(b[0], b[1], b[2]), b[3..];
      QuadDecodes(b[0], b[1], b[2]);
      EncodeDecodes(rest);
      GroupsIndependent(q, Encode(rest));
      ValuedConcat(q, Encode(rest));
      PaddedFirst(b);
    }
  }

  lemma {:induction false} ShortDecodes(b: seq<Byte>)
    requires |b| <= 2
    ensures Emitted(Encode(b)) == Padded(b) && AllValued(Encode(b))
  {
    if |b| == 1 {
      assert b == [b[0]];
      OneDecodes(b[0]);
    } else if |b| == 2 {
      assert b == [b[0], b[1]];
      TwoDecode(b[0], b[1]);
    }
    hide Char, Sextet, Unpack;
  }

  lemma {:induction false} ExtraIgnored(t: seq<Byte>, c: Byte)
    requires |t| % 4 == 0
    ensures Emitted(t + [c]) == Emitted(t)
  {
    hide Emitted, Sextet, Group, Values;
    EmittedLast(t, c);
    assert |t + [c]| % 4 == 1;
  }

  lemma {:induction false} ReadUpTo(t: seq<Byte>, str: seq<Byte>)
    requires 0 !in t && t <= str
    ensures Read(str, |t|) == t || exists c :: Read(str, |t|) == t + [c]
  {
    if t != [] {
      ReadUpTo(t[1..], str[1..]);
    }
  }

  /** For the canonical encoding of any bytes the decoder gives those bytes, zero-padded to a
      multiple of three and terminated, whenever `blen` exceeds the padded length, and the whole
      groups that fit otherwise; the character it reads beyond the text changes nothing. */
  lemma {:induction false} Canonical(b: seq<Byte>, str: seq<Byte>, blen: nat)
    requires Encode(b) <= str
    ensures blen > |Padded(b)| ==>
              Bounded(Emitted(Read(str, |Encode(b)|)), blen) == Padded(b) + [0]
    ensures blen <= |Padded(b)| ==>
              Bounded(Emitted(Read(str, |Encode(b)|)), blen) == Padded(b)[..3 * Room(blen)] + [0]
  {
    hide Emitted, Read, Encode, Padded, Bounded;
    ReadDecodes(b, str);
    if blen > |Padded(b)| {
      BoundedAll(Padded(b), blen);
    } else if b == [] {
      assert Padded(b)[..3 * Room(blen)] == [];
      BoundedAll(Padded(b), blen);
    } else {
      BoundedCut(Padded(b), blen, 3 * Room(blen));
    }
  }

  lemma {:induction false} ReadDecodes(b: seq<Byte>, str: seq<Byte>)
    requires Encode(b) <= str
    ensures Emitted(Read(str, |Encode(b)|)) == Padded(b)
  {
    var t := Encode(b);
    var r := Read(str, |t|);
    hide Emitted, Read, Encode, Padded;
    ReadUpTo(t, str);
    EncodeDecodes(b);
    if |r| == |t| {
      assert r == t;
    } else {
      assert r == t + [r[|t|]];
      ExtraIgnored(t, r[|t|]);
    }
  }

  // ---------------------------------------------------------------- the decoder

  /** The low 24 bits of a word that hold four values. */
  predicate Holds(w: bv32, a: Six, b: Six, c: Six, d: Six) {
    w & 0xffffff == ((a as bv32) << 18) | ((b as bv32) << 12) | ((c as bv32) << 6) | (d as bv32)
  }

  function Push(w: bv32, v: Six): (r: bv32) {
    (w << 6) | (v as bv32)
  }

  /** One more value pushes the oldest of the four out of the 24 bits. */
  lemma {:induction false} Pushed(w: bv32, a: Six, b: Six, c: Six, d: Six, v: Six)
    requires Holds(w, a, b, c, d)
    ensures Holds(Push(w, v), b, c, d, v)
  {
  }

  // The parts of a word that a conversion to `char` keeps.
  function Byte16(w: bv32): (b: Byte) { ((w >> 16) & 0xff) as bv8 }
  function Byte8(w: bv32): (b: Byte) { ((w >> 8) & 0xff) as bv8 }
  function Byte0(w: bv32): (b: Byte) { (w & 0xff) as bv8 }

  /** The three bytes the decoder takes from its word. */
  function Bytes(w: bv32): (r: seq<Byte>)
    ensures |r| == 3
  {
    [Byte16(w), Byte8(w), Byte0(w)]
  }

  lemma {:induction false} Extracted(w: bv32, a: Six, b: Six, c: Six, d: Six)
    requires Holds(w, a, b, c, d)
    ensures Bytes(w) == Unpack(a, b, c, d)
  {
  }

  /** The word holds the four latest values of `q`. */
  predicate Word(w: bv32, q: seq<Six>)
  {
    Holds(w, Recent(q, 3), Recent(q, 2), Recent(q, 1), Recent(q, 0))
  }

  lemma {:induction false} WordShifted(w: bv32, q: seq<Six>, v: Six)
    requires Word(w, q)
    ensures Word(Push(w, v), q + [v])
  {
    hide Holds, Push;
    Pushed(w, Recent(q, 3), Recent(q, 2), Recent(q, 1), Recent(q, 0), v);
    assert Recent(q + [v], 0) == v;
    assert forall k: nat :: k < 3 ==> Recent(q + [v], k + 1) == Recent(q, k);
  }

  /** After `i` characters of `t`: what is out, and what the word holds. */
  ghost predicate Progress(t: seq<Byte>, i: nat, out: seq<Byte>, w: bv32)
    requires i <= |t|
  {
    out == Emitted(t[..i]) && Word(w, Values(t[..i]))
  }

  lemma {:induction false} Skipped(t: seq<Byte>, i: nat, out: seq<Byte>, w: bv32)
    requires i < |t| && Progress(t, i, out, w) && Sextet(t[i]).None?
    ensures Progress(t, i + 1, out, w)
  {
    hide Sextet, Word, Group, Emitted;
    assert t[..i + 1] == t[..i] + [t[i]];
    EmittedLast(t[..i], t[i]);
  }

  lemma {:induction false} Shifted(t: seq<Byte>, i: nat, out: seq<Byte>, w: bv32, v: Six)
    requires i < |t| && Progress(t, i, out, w) && Sextet(t[i]) == Some(v)
    ensures var w' := Push(w, v);
            Progress(t, i + 1, if i % 4 == 3 then out + Bytes(w') else out, w')
  {
    hide Sextet, Word, Group, Emitted, Values, Bytes, Push;
    assert t[..i + 1] == t[..i] + [t[i]];
    Appended(t[..i], t[i], v);
    WordShifted(w, Values(t[..i]), v);
    GroupOf(Push(w, v), Values(t[..i + 1]));
  }

  lemma {:induction false} EmittedGrows(t: seq<Byte>, i: nat)
    requires i <= |t|
    ensures Emitted(t[..i]) <= Emitted(t)
    decreases |t| - i
  {
    if i < |t| {
      assert t[..i + 1] == t[..i] + [t[i]];
      EmittedLast(t[..i], t[i]);
      EmittedGrows(t, i + 1);
    } else {
      assert t[..i] == t;
    }
  }

  /** A group that would be the first without room. */
  lemma {:induction false} Full(t: seq<Byte>, i: nat, out: seq<Byte>, w: bv32, v: Six, blen: nat)
    requires i < |t| && Progress(t, i, out, w) && Sextet(t[i]) == Some(v) && i % 4 == 3
    requires |out| + 3 >= blen && (out == [] || |out| < blen)
    ensures Bounded(Emitted(t), blen) == out + [0]
  {
    hide Sextet, Word, Emitted, Values, Bytes, Bounded, Push;
    Shifted(t, i, out, w, v);
    EmittedGrows(t, i + 1);
    BoundedCut(Emitted(t), blen, |out|);
  }

  lemma {:induction false} Complete(str: seq<Byte>, slen: nat, i: nat, out: seq<Byte>, w: bv32, blen: nat)
    requires i <= |Read(str, slen)| && Progress(Read(str, slen), i, out, w)
    requires i > slen || (i < |str| && str[i] == 0)
    requires out == [] || |out| < blen
    ensures Bounded(Emitted(Read(str, slen)), blen) == out + [0]
  {
    hide Read, Word, Emitted, Values, Bounded;
    var t := Read(str, slen);
    AtEnd(str, slen, i);
    assert t[..i] == t;
    BoundedAll(Emitted(t), blen);
  }

  lemma {:induction false} AtEnd(str: seq<Byte>, slen: nat, i: nat)
    requires i <= |Read(str, slen)|
    requires i > slen || (i < |str| && str[i] == 0)
    ensures i == |Read(str, slen)|
  {
  }

  lemma {:induction false} Start(t: seq<Byte>)
    ensures Progress(t, 0, [], 0)
  {
    assert t[..0] == [];
  }

  /** Decodes what it reads of `str` into `buf`: all emitted bytes that fit in whole groups, and
      a terminator, which the result counts. Only those cells change, and with a nonzero `blen`
      they are among the first `blen`. */
  method Decode(buf: array<Byte>, blen: nat, str: seq<Byte>, slen: nat) returns (r: nat)
    requires blen <= buf.Length && buf.Length > 0
    requires slen < |str| || 0 in str
    modifies buf
    ensures r <= buf.Length && (blen > 0 ==> r <= blen)
    ensures buf[..r] == Bounded(Emitted(Read(str, slen)), blen)
    ensures buf[r..] == old(buf[r..])
  {
    hide Sextet, Progress, Read, Emitted, Bounded, Byte16, Byte8, Byte0, Push;
    ghost var t := Read(str, slen);
    var cout: bv32 := 0;
    var len, i := 0, 0;
    ghost var cut := false;
    Start(t);
    while i <= slen && str[i] != 0
      invariant 0 <= i <= |t| && !cut
      invariant 0 <= len < buf.Length && (len == 0 || len < blen)
      invariant Progress(t, i, buf[..len], cout)
      invariant forall k :: len <= k < buf.Length ==> buf[k] == old(buf[k])
      decreases |t| - i
    {
      var v := Sextet(str[i]);
      if v.None? {
        Skipped(t, i, buf[..len], cout);
        i := i + 1;
        continue;
      }
      Shifted(t, i, buf[..len], cout, v.value);
      if i % 4 == 3 && len + 3 >= blen {
        Full(t, i, buf[..len], cout, v.value, blen);
      }
      cout := Push(cout, v.value);
      if i % 4 != 3 {
        i := i + 1;
        continue;
      }
      if len + 3 >= blen {
        cut := true;
        break;
      }
      ghost var out := buf[..len];
      buf[len] := Byte16(cout);
      buf[len + 1] := Byte8(cout);
      buf[len + 2] := Byte0(cout);
      assert buf[..len + 3] == out + Bytes(cout);
      len := len + 3;
      i := i + 1;
    }
    if !cut { Complete(str, slen, i, buf[..len], cout, blen); }
    ghost var out := buf[..len];
    buf[len] := 0;
    assert buf[..len + 1] == out + [0];
    r := len + 1;
  }

  lemma {:induction false} GroupOf(w: bv32, q: seq<Six>)
    requires Word(w, q)
    ensures Bytes(w) == Group(q)
  {
    hide Holds;
    Extracted(w, Recent(q, 3), Recent(q, 2), Recent(q, 1), Recent(q, 0));
  }
}
