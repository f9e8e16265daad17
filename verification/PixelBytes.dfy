/**
 The byte layout of pixels (`crates/pixels/src/pixel.rs`). A chroma is the 32 bytes of an x-only key;
 which of these are coordinates of a point is a parameter.
 */
module PixelBytes {
  import opened Numbers
  import opened Options
  import opened Codec

  const AMOUNT_SIZE: nat := 16
  const LUMA_SIZE: nat := 32
  const CHROMA_SIZE: nat := 32
  const PIXEL_SIZE: nat := LUMA_SIZE + CHROMA_SIZE

  type Blinding = b: Bytes | |b| == LUMA_SIZE - AMOUNT_SIZE witness seq(16, _ => 0)

  datatype Luma = Luma(amount: Amount, blinding: Blinding)

  type Chroma = b: Bytes | |b| == CHROMA_SIZE witness seq(32, _ => 0)

  datatype Pixel = Pixel(luma: Luma, chroma: Chroma)

  // ---- Big-endian integers ----

  function Power(n: nat): nat {
    if n == 0 then 1 else 256 * Power(n - 1)
  }

  function ToBigEndian(x: nat, n: nat): (b: Bytes)
    ensures |b| == n
  {
    if n == 0 then [] else ToBigEndian(x / 256, n - 1) + [x % 256]
  }

  function FromBigEndian(b: Bytes): nat {
    if b == [] then 0 else Shifted(FromBigEndian(b[..|b| - 1]), b[|b| - 1])
  }

  function Shifted(x: nat, d: nat): nat {
    x * 256 + d
  }

  lemma {:induction false} BigEndianRoundTrip(x: nat, n: nat)
    requires x < Power(n)
    ensures FromBigEndian(ToBigEndian(x, n)) == x
  {
    if n > 0 {
      BigEndianRoundTrip(x / 256, n - 1);
      assert ToBigEndian(x, n)[..n - 1] == ToBigEndian(x / 256, n - 1);
    }
  }

  lemma {:induction false} BigEndianUnique(b: Bytes)
    ensures FromBigEndian(b) < Power(|b|) && ToBigEndian(FromBigEndian(b), |b|) == b
  {
    if b != [] {
      var k := |b| - 1;
      BigEndianUnique(b[..k]);
      ShiftedParts(FromBigEndian(b[..k]), b[k], Power(k));
      hide Shifted;
      assert b == b[..k] + [b[k]];
    }
  }

  lemma ShiftedParts(x: nat, d: nat, p: nat)
    requires d < 256 && x < p
    ensures Shifted(x, d) / 256 == x && Shifted(x, d) % 256 == d && Shifted(x, d) < 256 * p
  {
  }

  lemma PowerSixteen()
    ensures Power(16) == U128
  {
    assert Power(4) == 0x1_0000_0000;
    assert Power(8) == 0x1_0000_0000 * Power(4);
    assert Power(12) == 0x1_0000_0000 * Power(8);
    assert Power(16) == 0x1_0000_0000 * Power(12);
  }

  // ---- Layout ----

  function LumaBytes(l: Luma): (b: Bytes)
    ensures |b| == LUMA_SIZE
  {
    ToBigEndian(l.amount, AMOUNT_SIZE) + l.blinding
  }

  function LumaFromArray(b: Bytes): Luma
    requires |b| == LUMA_SIZE
  {
    BigEndianUnique(b[..AMOUNT_SIZE]);
    PowerSixteen();
    Luma(FromBigEndian(b[..AMOUNT_SIZE]), b[AMOUNT_SIZE..])
  }

  /** The amount and the blinding factor come back from their bytes, and the bytes from them. */
  lemma LumaRoundTrip(l: Luma, b: Bytes)
    requires |b| == LUMA_SIZE
    ensures LumaFromArray(LumaBytes(l)) == l
    ensures LumaBytes(LumaFromArray(b)) == b
  {
    PowerSixteen();
    BigEndianRoundTrip(l.amount, AMOUNT_SIZE);
    BigEndianUnique(b[..AMOUNT_SIZE]);
    hide ToBigEndian, FromBigEndian, Power;
    assert LumaBytes(l)[..AMOUNT_SIZE] == ToBigEndian(l.amount, AMOUNT_SIZE);
    assert LumaBytes(l)[AMOUNT_SIZE..] == l.blinding;
    assert b == b[..AMOUNT_SIZE] + b[AMOUNT_SIZE..];
  }

  function ToBytes(p: Pixel): (b: Bytes)
    ensures |b| == PIXEL_SIZE
  {
    LumaBytes(p.luma) + p.chroma
  }

  /** Parsing fails on short input and on a chroma that is no key. */
  function FromBytes(isKey: Bytes -> bool, b: Bytes): Option<Pixel> {
    if |b| < PIXEL_SIZE || !isKey(b[LUMA_SIZE..PIXEL_SIZE]) then None
    else Some(Pixel(LumaFromArray(b[..LUMA_SIZE]), b[LUMA_SIZE..PIXEL_SIZE]))
  }

  /** A pixel is read back from its 64 bytes, whatever follows them, exactly when its chroma is a key. */
  lemma PixelRoundTrip(isKey: Bytes -> bool, p: Pixel, rest: Bytes)
    ensures FromBytes(isKey, ToBytes(p) + rest) == Some(p) <==> isKey(p.chroma)
  {
    hide LumaBytes;
    var b := ToBytes(p) + rest;
    assert b[..LUMA_SIZE] == LumaBytes(p.luma);
    assert b[LUMA_SIZE..PIXEL_SIZE] == p.chroma;
    LumaRoundTrip(p.luma, LumaBytes(p.luma));
  }

  /** And whatever parses is the layout of what it parses to. */
  lemma PixelUnique(isKey: Bytes -> bool, b: Bytes)
    requires FromBytes(isKey, b).Some?
    ensures ToBytes(FromBytes(isKey, b).value) == b[..PIXEL_SIZE]
  {
    LumaRoundTrip(LumaFromArray(b[..LUMA_SIZE]), b[..LUMA_SIZE]);
    hide LumaBytes, LumaFromArray;
    assert b[..PIXEL_SIZE] == b[..LUMA_SIZE] + b[LUMA_SIZE..PIXEL_SIZE];
  }

  // ---- Filling a buffer ----

  method CopyInto(buf: array<Byte>, at: nat, s: Bytes)
    requires at + |s| <= buf.Length
    modifies buf
    ensures buf[..] == old(buf[..at]) + s + old(buf[at + |s|..])
  {
    for i := 0 to |s|
      invariant forall j :: 0 <= j < buf.Length ==> buf[j] == if at <= j < at + i then s[j - at] else old(buf[j])
    {
      buf[at + i] := s[i];
    }
  }

  method LumaToBytes(l: Luma) returns (buf: array<Byte>)
    ensures fresh(buf) && buf[..] == LumaBytes(l)
  {
    buf := new Byte[LUMA_SIZE](_ => 0);
    CopyInto(buf, 0, ToBigEndian(l.amount, AMOUNT_SIZE));
    CopyInto(buf, AMOUNT_SIZE, l.blinding);
    assert buf[..] == LumaBytes(l);
  }

  method PixelToBytes(p: Pixel) returns (buf: array<Byte>)
    ensures fresh(buf) && buf[..] == ToBytes(p)
  {
    hide LumaBytes;
    buf := new Byte[PIXEL_SIZE](_ => 0);
    var luma := LumaToBytes(p.luma);
    CopyInto(buf, 0, luma[..]);
    CopyInto(buf, LUMA_SIZE, p.chroma);
    assert buf[..] == ToBytes(p);
  }
}
