/** Where each part of an encoded value is found. */
module Layouts {
  import opened Numbers
  import opened Options
  import opened KeyOrder
  import opened Scalars
  import opened WeightedInnerProduct
  import opened RangeProofs
  import C = Codec
  import P = PixelBytes
  import B = ProofBytes

  type Bytes = C.Bytes

  // ---- Integers ----

  /** Lengths and indices are little-endian. */
  lemma LengthLayout(x: nat)
    ensures var b := C.EncodeU32(x);
            |b| == 4 && x % C.U32 == (b[0] as int) + (b[1] as int) * 0x100 + (b[2] as int) * 0x1_0000 + (b[3] as int) * 0x100_0000
  {
    C.Digits(x);
  }

  /** Amounts are big-endian: the first byte weighs most. */
  lemma {:induction false} BigEndianLayout(d: C.Byte, b: Bytes)
    ensures P.FromBigEndian([d] + b) == (d as int) * P.Power(|b|) + P.FromBigEndian(b)
  {
    if b == [] {
      assert [d] + b == [d] && [d][..0] == [];
      assert P.FromBigEndian([]) == 0;
    } else {
      var k := |b| - 1;
      var x: int := d;
      BigEndianLayout(d, b[..k]);
      assert ([d] + b)[..|b|] == [d] + b[..k];
      assert (x * P.Power(k) + P.FromBigEndian(b[..k])) * 256 == x * (256 * P.Power(k)) + P.FromBigEndian(b[..k]) * 256;
    }
  }

  // ---- Pixels ----

  /** Amount, blinding factor, chroma. */
  lemma PixelLayout(p: P.Pixel)
    ensures var b := P.ToBytes(p);
            && |b| == 64
            && b[..16] == P.ToBigEndian(p.luma.amount, 16) && b[16..32] == p.luma.blinding && b[32..] == p.chroma
  {
    hide P.ToBigEndian;
    assert P.LumaBytes(p.luma)[..16] == P.ToBigEndian(p.luma.amount, 16);
    assert P.LumaBytes(p.luma)[16..] == p.luma.blinding;
    assert P.ToBytes(p)[..32] == P.LumaBytes(p.luma);
  }

  // ---- Proofs and transactions ----

  /** A flag tells the kind of a proof; its body follows. */
  lemma ProofLayout(ls: C.Leaves, x: C.Leaf)
    ensures C.EncodeProof(ls, C.Sig(x)) == [0] + ls.sig.encode(x)
    ensures C.EncodeProof(ls, C.EmptyPixel(x)) == [5] + ls.emptyPixel.encode(x)
    ensures [C.EncodeProof(ls, C.Multisig(x))[0], C.EncodeProof(ls, C.Lightning(x))[0], C.EncodeProof(ls, C.LightningHtlc(x))[0],
             C.EncodeProof(ls, C.Bulletproof(x))[0], C.EncodeProof(ls, C.P2WSH(x))[0]] == [1, 2, 3, 4, 6]
  {
  }

  /** The Bitcoin transaction comes first, then the kind; an issuance has its announcement before its proofs. */
  lemma TransactionLayout(ls: C.Leaves, tx: C.Transaction)
    ensures var b, n := C.EncodeTx(ls, tx), |ls.bitcoinTx.encode(tx.bitcoinTx)|;
            && n < |b| && b[..n] == ls.bitcoinTx.encode(tx.bitcoinTx)
            && match tx.txType
               case Issue(proofs, a) => b[n] == 0 && ls.issue.encode(a) <= b[n + 1..]
               case Transfer(ins, outs) => b[n] == 1 && C.EncodeU32(|ins|) <= b[n + 1..]
               case Announcement(a) => b[n] == 2 && b[n + 1..] == ls.announcement.encode(a)
  {
    hide C.EncodeU32, C.EncodeEntries, C.EncodeOption, Entries;
    var head, t := ls.bitcoinTx.encode(tx.bitcoinTx), C.EncodeTxType(ls, tx.txType);
    var b, n := C.EncodeTx(ls, tx), |head|;
    assert b == head + t && b[n..] == t && b[n + 1..] == t[1..];
    match tx.txType
    case Issue(proofs, a) =>
      assert t[1..] == ls.issue.encode(a) + C.EncodeOption(C.MapCodec(ls), proofs);
    case Transfer(ins, outs) =>
      var c := C.ProofCodec(ls);
      assert t[1..] == C.EncodeU32(|ins|) + (C.EncodeEntries(c, Entries(ins)) + C.EncodeMap(c, outs));
    case Announcement(a) =>
      assert t[1..] == ls.announcement.encode(a);
  }

  /** Options and inventories begin with a flag as well. */
  lemma FlagLayout<T>(ls: C.Leaves, c: C.Codec<T>, x: T, id: C.Leaf)
    ensures C.EncodeOption(c, None) == [0] && C.EncodeOption(c, Some(x)) == [1] + c.encode(x)
    ensures C.EncodeInventory(ls, C.Ytx(id)) == [0] + ls.txid.encode(id)
  {
  }

  /** Flags of no kind are refused, whatever follows. */
  lemma UnknownFlags(ls: C.Leaves, b: Bytes)
    requires b != []
    ensures b[0] > 6 ==> C.DecodeProof(ls, b) == None
    ensures b[0] > 2 ==> C.DecodeTxType(ls, b) == None
    ensures b[0] != 0 ==> C.DecodeInventory(ls, b) == None
  {
    hide C.DecodeMap, C.DecodeOption;
  }

  /** Maps are written in the order of their keys. */
  lemma MapLayout<V>(c: C.Codec<V>, m: map<C.Index, V>, i: nat, j: nat)
    requires i < j < |Entries(m)|
    ensures C.EncodeMap(c, m) == C.EncodeU32(|m|) + C.EncodeEntries(c, Entries(m)) && Entries(m)[i].0 < Entries(m)[j].0
  {
    EntriesSorted(m, i, j);
    hide C.EncodeU32, C.EncodeEntries, Entries;
  }

  // ---- Range proofs ----

  /** Points of 33 bytes and scalars of 32, in this order, then pairs of points. */
  lemma RangeLayout(e: B.Encoding, p: RangeProof)
    requires B.Faithful(e)
    ensures var b := B.RangeBytes(e, p);
            && |b| >= 195
            && b[..33] == e.pointBytes(p.a) && b[33..66] == e.pointBytes(p.wip.a) && b[66..99] == e.pointBytes(p.wip.b)
            && b[99..131] == e.scalarBytes(p.wip.rRev) && b[131..163] == e.scalarBytes(p.wip.sRev)
            && b[163..195] == e.scalarBytes(p.wip.deltaRev) && b[195..] == B.PairBytes(e, p.wip.l, p.wip.r)
  {
    hide B.PairBytes;
    var b, h := B.RangeBytes(e, p), B.HeadBytes(e, p.wip);
    assert |h| == 162;
    assert b[33..] == h + B.PairBytes(e, p.wip.l, p.wip.r);
    assert h[..33] == e.pointBytes(p.wip.a) && h[33..66] == e.pointBytes(p.wip.b) && h[66..98] == e.scalarBytes(p.wip.rRev);
    assert h[98..130] == e.scalarBytes(p.wip.sRev) && h[130..] == e.scalarBytes(p.wip.deltaRev);
    assert b[33..66] == h[..33] && b[66..99] == h[33..66] && b[99..131] == h[66..98] && b[131..163] == h[98..130];
    assert b[163..195] == h[130..];
  }

  /** Left and right points alternate. */
  lemma {:induction false} PairLayout(e: B.Encoding, l: seq<Point>, r: seq<Point>, k: nat)
    requires B.Faithful(e) && k < |l| && k < |r|
    ensures var b := B.PairBytes(e, l, r);
            && 66 * (k + 1) <= |b|
            && b[66 * k..66 * k + 33] == e.pointBytes(l[k]) && b[66 * k + 33..66 * (k + 1)] == e.pointBytes(r[k])
    decreases k
  {
    var b := B.PairBytes(e, l, r);
    var head, rest := e.pointBytes(l[0]) + e.pointBytes(r[0]), B.PairBytes(e, l[1..], r[1..]);
    assert |head| == 66 && b == head + rest;
    if k > 0 {
      PairLayout(e, l[1..], r[1..], k - 1);
      hide B.PairBytes;
      assert b[66 * k..66 * k + 33] == rest[66 * (k - 1)..66 * (k - 1) + 33];
      assert b[66 * k + 33..66 * (k + 1)] == rest[66 * (k - 1) + 33..66 * k];
    }
  }
}
