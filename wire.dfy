/**
 * Primitive readers of the Mapsforge binary map format, stated over the whole
 * file as a byte sequence and an absolute ("logical") position.
 *
 * Multi-byte integers are big-endian; a variable-byte unsigned integer (VBE-U)
 * is a run of bytes whose high bit says "another byte follows", the first byte
 * carrying the least significant seven bits.
 */
module Wire {
  import opened Wrappers

  type Byte = x: int | 0 <= x < 256

  /** A value read from the file together with the position just after it. */
  datatype Parsed<+T> = Parsed(value: T, next: nat)

  const U16: nat := 0x1_0000
  const U32: nat := 0x1_0000_0000
  const U64: nat := 0x1_0000_0000_0000_0000

  function Pow256(n: nat): (r: nat)
    ensures r >= 1
  {
    if n == 0 then 1 else 256 * Pow256(n - 1)
  }

  /** Unsigned value of a big-endian byte string. */
  function BigEndian(bs: seq<Byte>): (r: nat)
    ensures r < Pow256(|bs|)
  {
    if bs == [] then 0
    else
      var hi := BigEndian(bs[..|bs| - 1]);
      assert hi * 256 + bs[|bs| - 1] < Pow256(|bs|) by {
        assert hi <= Pow256(|bs| - 1) - 1;
        assert hi * 256 <= (Pow256(|bs| - 1) - 1) * 256;
      }
      hi * 256 + bs[|bs| - 1]
  }

  /** The n-byte big-endian encoding of v (the inverse of BigEndian). */
  function EncodeBigEndian(v: nat, n: nat): (bs: seq<Byte>)
    ensures |bs| == n
  {
    if n == 0 then [] else EncodeBigEndian(v / 256, n - 1) + [v % 256]
  }

  lemma {:induction false} BigEndianRoundTrip(v: nat, n: nat)
    requires v < Pow256(n)
    ensures BigEndian(EncodeBigEndian(v, n)) == v
  {
    if n > 0 {
      var hi, lo := v / 256, v % 256;
      assert hi < Pow256(n - 1) by {
        assert v == hi * 256 + lo && lo >= 0;
      }
      var bs := EncodeBigEndian(v, n);
      assert bs[..n - 1] == EncodeBigEndian(hi, n - 1) && bs[n - 1] == lo;
      BigEndianRoundTrip(hi, n - 1);
      assert BigEndian(bs) == hi * 256 + lo;
    }
  }

  /** Encoding a big-endian field of its own width gives its bytes back. */
  lemma {:induction false} BigEndianEncodes(bs: seq<Byte>)
    ensures EncodeBigEndian(BigEndian(bs), |bs|) == bs
  {
    if bs != [] {
      var n := |bs|;
      var hi := BigEndian(bs[..n - 1]);
      var v := hi * 256 + bs[n - 1];
      assert v / 256 == hi && v % 256 == bs[n - 1];
      BigEndianEncodes(bs[..n - 1]);
      assert bs == bs[..n - 1] + [bs[n - 1]];
    }
  }

  /** Two's-complement reading of an n-byte unsigned value. */
  function Signed(v: nat, n: nat): (r: int)
    ensures v < Pow256(n) ==> -(Pow256(n) as int) <= 2 * r < Pow256(n)
    ensures r == v || r == v - Pow256(n)
  {
    if 2 * v >= Pow256(n) then v - Pow256(n) else v
  }

  /** The n-byte two's-complement encoding of a v that fits in n bytes. */
  function EncodeSigned(v: int, n: nat): (bs: seq<Byte>)
    requires -(Pow256(n) as int) <= 2 * v < Pow256(n)
    ensures |bs| == n
  {
    EncodeBigEndian(Unsigned(v, n), n)
  }

  /** The n-byte unsigned value whose two's-complement reading is v. */
  function Unsigned(v: int, n: nat): (u: nat)
    requires -(Pow256(n) as int) <= 2 * v < Pow256(n)
    ensures u < Pow256(n)
  {
    if v < 0 then v + Pow256(n) else v
  }

  lemma SignedRoundTrip(v: int, n: nat)
    requires -(Pow256(n) as int) <= 2 * v < Pow256(n)
    ensures Signed(BigEndian(EncodeSigned(v, n)), n) == v
  {
    BigEndianRoundTrip(Unsigned(v, n), n);
  }

  /** Encoding the two's-complement reading of an n-byte value gives the value's own encoding. */
  lemma SignedEncodesValue(u: nat, n: nat)
    requires u < Pow256(n)
    ensures EncodeSigned(Signed(u, n), n) == EncodeBigEndian(u, n)
  {
    assert Unsigned(Signed(u, n), n) == u;
  }

  /** Reading an n-byte field and encoding it again gives its bytes back. */
  lemma SignedEncodes(bs: seq<Byte>)
    ensures EncodeSigned(Signed(BigEndian(bs), |bs|), |bs|) == bs
  {
    SignedEncodesValue(BigEndian(bs), |bs|);
    BigEndianEncodes(bs);
  }

  /**
   * The n bytes at p. A read of zero bytes never fails, even past the end of
   * the file (fread of zero bytes returns at once).
   */
  function Bytes(f: seq<Byte>, p: nat, n: nat): (r: Option<Parsed<seq<Byte>>>)
    ensures r.Some? <==> n == 0 || p + n <= |f|
    ensures r.Some? ==> r.value.next == p + n && |r.value.value| == n
    ensures r.Some? && n > 0 ==> r.value.value == f[p..p + n]
  {
    if n == 0 then Some(Parsed([], p))
    else if p + n <= |f| then Some(Parsed(f[p..p + n], p + n))
    else None
  }

  /** An n-byte big-endian unsigned integer at p (get_uint8 .. get_uint64, get_varint). */
  function Uint(f: seq<Byte>, p: nat, n: nat): (r: Option<Parsed<nat>>)
    ensures r.Some? <==> n == 0 || p + n <= |f|
    ensures r.Some? ==> r.value.next == p + n && r.value.value < Pow256(n)
  {
    var b :- Bytes(f, p, n);
    Some(Parsed(BigEndian(b.value), b.next))
  }

  /** An n-byte big-endian two's-complement integer at p (get_int32, get_int64). */
  function Int(f: seq<Byte>, p: nat, n: nat): (r: Option<Parsed<int>>)
    ensures r.Some? <==> n == 0 || p + n <= |f|
    ensures r.Some? ==> r.value.next == p + n && -(Pow256(n) as int) <= 2 * r.value.value < Pow256(n)
  {
    var u :- Uint(f, p, n);
    Some(Parsed(Signed(u.value, n), u.next))
  }

  /** A string prefixed by its one-byte length. */
  function Str(f: seq<Byte>, p: nat): (r: Option<Parsed<seq<Byte>>>)
    ensures r.Some? <==> p < |f| && p + 1 + f[p] <= |f|
    ensures r.Some? ==> r.value == Parsed(f[p + 1..p + 1 + f[p]], p + 1 + f[p])
    ensures r.Some? ==> |r.value.value| < 256 && r.value.next == p + 1 + |r.value.value|
  {
    var len :- Uint(f, p, 1);
    assert len.value == f[p] by {
      assert f[p..p + 1] == [f[p]];
      assert BigEndian([f[p]]) == f[p] by { assert [f[p]][..0] == []; }
    }
    Bytes(f, len.next, len.value)
  }

  /** The bytes of f from p on begin with e. */
  predicate At(f: seq<Byte>, p: nat, e: seq<Byte>)
  {
    p + |e| <= |f| && f[p..p + |e|] == e
  }

  /** Bytes that begin with a + b begin with a, and b follows it. */
  lemma AtSplit(f: seq<Byte>, p: nat, a: seq<Byte>, b: seq<Byte>)
    requires At(f, p, a + b)
    ensures At(f, p, a) && At(f, p + |a|, b)
  {
    assert f[p..p + |a|] == f[p..p + |a + b|][..|a|];
    assert f[p + |a|..p + |a| + |b|] == f[p..p + |a + b|][|a|..];
  }

  /** Bytes that begin with three blocks in a row; q1 .. q3 are the ends of the blocks. */
  lemma AtSplitThree(f: seq<Byte>, p: nat, a: seq<Byte>, b: seq<Byte>, c: seq<Byte>) returns (q1: nat, q2: nat, q3: nat)
    requires At(f, p, a + b + c)
    ensures q1 == p + |a| && q2 == q1 + |b| && q3 == q2 + |c|
    ensures At(f, p, a) && At(f, q1, b) && At(f, q2, c)
  {
    AtSplit(f, p, a + b, c);
    AtSplit(f, p, a, b);
    q1, q2, q3 := p + |a|, p + |a| + |b|, p + |a| + |b| + |c|;
  }

  /**
   * Bytes that begin with five blocks in a row hold each block where the
   * previous one ends; p1 .. p5 are the ends of the blocks.
   */
  lemma AtSplitFive(f: seq<Byte>, p: nat, a: seq<Byte>, b: seq<Byte>, c: seq<Byte>, d: seq<Byte>, e: seq<Byte>)
    returns (p1: nat, p2: nat, p3: nat, p4: nat, p5: nat)
    requires At(f, p, a + b + c + d + e)
    ensures p1 == p + |a| && p2 == p1 + |b| && p3 == p2 + |c| && p4 == p3 + |d| && p5 == p4 + |e|
    ensures At(f, p, a) && At(f, p1, b) && At(f, p2, c) && At(f, p3, d) && At(f, p4, e)
    ensures p5 == p + |a + b + c + d + e|
  {
    AtSplit(f, p, a + b + c + d, e);
    AtSplit(f, p, a + b + c, d);
    AtSplit(f, p, a + b, c);
    AtSplit(f, p, a, b);
    p1, p2, p3, p4, p5 := p + |a|, p + |a| + |b|, p + |a| + |b| + |c|, p + |a| + |b| + |c| + |d|, p + |a + b + c + d + e|;
  }

  /** An unsigned field reads back the value it encodes. */
  lemma UintRoundTrip(f: seq<Byte>, p: nat, v: nat, n: nat)
    requires v < Pow256(n) && At(f, p, EncodeBigEndian(v, n))
    ensures Uint(f, p, n) == Some(Parsed(v, p + n))
  {
    BigEndianRoundTrip(v, n);
  }

  /** A signed field reads back the value it encodes. */
  lemma IntRoundTrip(f: seq<Byte>, p: nat, v: int, n: nat)
    requires -(Pow256(n) as int) <= 2 * v < Pow256(n) && At(f, p, EncodeSigned(v, n))
    ensures Int(f, p, n) == Some(Parsed(v, p + n))
  {
    SignedRoundTrip(v, n);
    UintRoundTrip(f, p, if v < 0 then v + Pow256(n) else v, n);
  }

  /** A string shorter than 256 bytes, prefixed by its length. */
  function EncodeStr(s: seq<Byte>): (bs: seq<Byte>)
    requires |s| < 256
    ensures |bs| == 1 + |s|
  {
    [|s|] + s
  }

  /** A length-prefixed string reads back as the string it encodes. */
  lemma StrRoundTrip(f: seq<Byte>, p: nat, s: seq<Byte>, q: nat)
    requires |s| < 256 && At(f, p, EncodeStr(s)) && q == p + |EncodeStr(s)|
    ensures Str(f, p) == Some(Parsed(s, q))
  {
    AtSplit(f, p, [|s|], s);
  }

  /**
   * A VBE-U integer at p: it ends at the first byte below 0x80 and fails when
   * the file ends before such a byte.
   */
  function Vbe(f: seq<Byte>, p: nat): (r: Option<Parsed<nat>>)
    ensures r.Some? ==> p < r.value.next <= |f|
    decreases |f| - p
  {
    if p >= |f| then None
    else if f[p] < 0x80 then Some(Parsed(f[p], p + 1))
    else
      var rest :- Vbe(f, p + 1);
      Some(Parsed(f[p] - 0x80 + 0x80 * rest.value, rest.next))
  }

  /**
   * A VBE-U read consumes exactly the bytes up to and including the first one
   * below 0x80, and fails exactly when no such byte follows p.
   */
  lemma {:induction false} VbeStopsAtFirstTerminator(f: seq<Byte>, p: nat)
    ensures Vbe(f, p).Some? ==>
              var n := Vbe(f, p).value.next;
              f[n - 1] < 0x80 && forall k :: p <= k < n - 1 ==> f[k] >= 0x80
    ensures Vbe(f, p).None? <==> forall k :: p <= k < |f| ==> f[k] >= 0x80
    decreases |f| - p
  {
    if p < |f| && f[p] >= 0x80 {
      VbeStopsAtFirstTerminator(f, p + 1);
    }
  }

  /** The VBE-U encoding of v, least significant group first. */
  function EncodeVbe(v: nat): (bs: seq<Byte>)
    ensures |bs| > 0 && bs[|bs| - 1] < 0x80
    decreases v
  {
    if v < 0x80 then [v] else [v % 0x80 + 0x80] + EncodeVbe(v / 0x80)
  }

  lemma {:induction false} VbeRoundTrip(v: nat, f: seq<Byte>, p: nat)
    requires p + |EncodeVbe(v)| <= |f| && f[p..p + |EncodeVbe(v)|] == EncodeVbe(v)
    ensures Vbe(f, p) == Some(Parsed(v, p + |EncodeVbe(v)|))
    decreases v
  {
    var e := EncodeVbe(v);
    assert f[p] == e[0];
    if v >= 0x80 {
      var tail := EncodeVbe(v / 0x80);
      assert e == [v % 0x80 + 0x80] + tail;
      assert f[p + 1..p + 1 + |tail|] == tail by {
        assert f[p + 1..p + 1 + |tail|] == f[p..p + |e|][1..];
      }
      VbeRoundTrip(v / 0x80, f, p + 1);
    }
  }

  /** A one-byte read yields the byte itself. */
  /** A one-byte field holding b reads back as b. */
  lemma UintByteRoundTrip(f: seq<Byte>, p: nat, b: Byte, q: nat)
    requires At(f, p, [b]) && q == p + |[b]|
    ensures Uint(f, p, 1) == Some(Parsed(b as nat, q))
  {
    assert f[p] == b;
    UintOneByte(f, p);
  }

  lemma UintOneByte(f: seq<Byte>, p: nat)
    ensures Uint(f, p, 1) == if p < |f| then Some(Parsed(f[p], p + 1)) else None
  {
    if p < |f| {
      assert f[p..p + 1] == [f[p]];
      assert BigEndian([f[p]]) == f[p] by { assert [f[p]][..0] == []; }
    }
  }

  /** A field of m bytes at offset i of an n-byte block read at p is the same field read on its own. */
  lemma UintInBlock(f: seq<Byte>, p: nat, n: nat, i: nat, m: nat)
    requires p + n <= |f| && i + m <= n && m > 0
    ensures Uint(f, p + i, m) == Some(Parsed(BigEndian(f[p..p + n][i..i + m]), p + i + m))
  {
    var inBlock, alone := f[p..p + n][i..i + m], f[p + i..p + i + m];
    forall j | 0 <= j < m
      ensures inBlock[j] == alone[j]
    {
      assert inBlock[j] == f[p + i + j];
    }
    assert inBlock == alone;
    assert Bytes(f, p + i, m) == Some(Parsed(alone, p + i + m));
  }

  /** The signed counterpart of UintInBlock. */
  lemma IntInBlock(f: seq<Byte>, p: nat, n: nat, i: nat, m: nat)
    requires p + n <= |f| && i + m <= n && m > 0
    ensures Int(f, p + i, m) == Some(Parsed(Signed(BigEndian(f[p..p + n][i..i + m]), m), p + i + m))
  {
    UintInBlock(f, p, n, i, m);
  }

  /** The value read so far after one more base-128 digit of weight `scale`. */
  function Accumulate(acc: nat, scale: nat, digit: nat): nat
  {
    acc + scale * digit
  }

  /** The VBE-U value of a tail read after `acc` with weight `scale`. */
  function Scaled(acc: nat, scale: nat, r: Option<Parsed<nat>>): Option<Parsed<nat>>
  {
    match r
    case None => None
    case Some(t) => Some(Parsed(acc + scale * t.value, t.next))
  }

  lemma ScaledStep(acc: nat, scale: nat, b: nat, r: Option<Parsed<nat>>)
    requires b >= 0x80
    ensures Scaled(acc, scale, Scaled(b - 0x80, 0x80, r)) == Scaled(acc + scale * (b - 0x80), scale * 0x80, r)
  {
    if r.Some? {
      var t := r.value.value;
      calc {
        acc + scale * (b - 0x80 + 0x80 * t);
        acc + scale * (b - 0x80) + scale * (0x80 * t);
        { assert scale * (0x80 * t) == (scale * 0x80) * t; }
        acc + scale * (b - 0x80) + (scale * 0x80) * t;
      }
    }
  }

  /** One continuation byte of a VBE-U integer moves the reading point on by one byte. */
  lemma VbeAdvance(f: seq<Byte>, start: nat, p: nat, acc: nat, scale: nat, b: nat,
                    acc': nat, scale': nat, q: nat)
    requires p < |f| && f[p] == b >= 0x80 && q == p + 1
    requires acc' == acc + scale * (b - 0x80) && scale' == scale * 0x80
    requires Vbe(f, start) == Scaled(acc, scale, Vbe(f, p))
    ensures Vbe(f, start) == Scaled(acc', scale', Vbe(f, q))
  {
    assert Vbe(f, p) == Scaled(f[p] - 0x80, 0x80, Vbe(f, p + 1));
    ScaledStep(acc, scale, f[p], Vbe(f, p + 1));
  }

  /** The last byte of a VBE-U integer completes it, one byte on. */
  lemma VbeLast(f: seq<Byte>, start: nat, p: nat, acc: nat, scale: nat, b: nat, v: nat, q: nat)
    requires p < |f| && f[p] == b < 0x80 && q == p + 1 && v == acc + scale * b
    requires Vbe(f, start) == Scaled(acc, scale, Vbe(f, p))
    ensures Vbe(f, start) == Some(Parsed(v, q))
  {
  }
}
