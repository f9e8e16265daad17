/**
 The consensus codecs of transactions, proofs and inventories (`crates/types/src/consensus.rs` and
 `crates/pixels/src/consensus.rs`). The codecs of proof bodies, announcements, Bitcoin transactions
 and ids are parameters.
 */
module Codec {
  import opened Options
  import opened KeyOrder

  type Byte = x: nat | x < 256
  type Bytes = seq<Byte>

  const U32: nat := 0x1_0000_0000

  type Index = x: nat | x < U32

  datatype Codec<!T> = Codec(encode: T -> Bytes, decode: Bytes -> Option<(T, Bytes)>)

  /** Decoding the encoded value followed by any bytes gives the value and those bytes. */
  ghost predicate Returns<T>(c: Codec<T>, x: T) {
    forall rest: Bytes :: c.decode(c.encode(x) + rest) == Some((x, rest))
  }

  ghost predicate RoundTrips<T(!new)>(c: Codec<T>) {
    forall x: T :: Returns(c, x)
  }

  // ---- Integers ----

  function EncodeU32(x: nat): Bytes {
    var y := x / 256;
    var z := y / 256;
    [x % 256, y % 256, z % 256, z / 256 % 256]
  }

  function Joined(a: nat, b: nat, c: nat, d: nat): nat {
    a + b * 0x100 + c * 0x1_0000 + d * 0x100_0000
  }

  function DecodeU32(b: Bytes): Option<(Index, Bytes)> {
    if |b| < 4 then None else Some((Joined(b[0], b[1], b[2], b[3]), b[4..]))
  }

  lemma Digits(x: nat)
    ensures var y := x / 256; var z := y / 256;
            x % U32 == Joined(x % 256, y % 256, z % 256, z / 256 % 256)
  {
    var y := x / 256;
    var z := y / 256;
    var w := z / 256;
    var r := Joined(x % 256, y % 256, z % 256, w % 256);
    assert x == r + U32 * (w / 256);
    RemainderIs(x, w / 256, r);
  }

  lemma RemainderIs(x: nat, q: nat, r: nat)
    requires x == r + U32 * q && r < U32
    ensures x % U32 == r
  {
  }

  /** A length is written as 32 bits: what is read back is the length modulo 2^32. */
  lemma U32RoundTrip(x: nat, rest: Bytes)
    ensures DecodeU32(EncodeU32(x) + rest) == Some((x % U32, rest))
  {
    Digits(x);
    var e := EncodeU32(x);
    var b := e + rest;
    assert b[4..] == rest && b[0] == e[0] && b[1] == e[1] && b[2] == e[2] && b[3] == e[3];
    hide Joined;
  }

  function DecodeU8(b: Bytes): Option<(Byte, Bytes)> {
    if b == [] then None else Some((b[0], b[1..]))
  }

  // ---- Lists ----

  function EncodeAll<T>(c: Codec<T>, xs: seq<T>): Bytes {
    if xs == [] then [] else c.encode(xs[0]) + EncodeAll(c, xs[1..])
  }

  function EncodeList<T>(c: Codec<T>, xs: seq<T>): Bytes {
    EncodeU32(|xs|) + EncodeAll(c, xs)
  }

  function DecodeAll<T>(c: Codec<T>, n: nat, b: Bytes): Option<(seq<T>, Bytes)> {
    if n == 0 then Some(([], b)) else
    match c.decode(b)
    case None => None
    case Some((x, b')) =>
      match DecodeAll(c, n - 1, b')
      case None => None
      case Some((xs, b'')) => Some(([x] + xs, b''))
  }

  function DecodeList<T>(c: Codec<T>, b: Bytes): Option<(seq<T>, Bytes)> {
    match DecodeU32(b)
    case None => None
    case Some((n, b')) => DecodeAll(c, n, b')
  }

  lemma {:induction false} DecodeAllLength<T>(c: Codec<T>, n: nat, b: Bytes)
    ensures DecodeAll(c, n, b).Some? ==> |DecodeAll(c, n, b).value.0| == n
  {
    if n > 0 && c.decode(b).Some? {
      DecodeAllLength(c, n - 1, c.decode(b).value.1);
    }
  }

  lemma {:induction false} AllRoundTrip<T>(c: Codec<T>, xs: seq<T>, rest: Bytes)
    requires forall i :: 0 <= i < |xs| ==> Returns(c, xs[i])
    ensures DecodeAll(c, |xs|, EncodeAll(c, xs) + rest) == Some((xs, rest))
  {
    if xs != [] {
      var tail := EncodeAll(c, xs[1..]) + rest;
      assert EncodeAll(c, xs) + rest == c.encode(xs[0]) + tail;
      assert Returns(c, xs[0]);
      assert c.decode(c.encode(xs[0]) + tail) == Some((xs[0], tail));
      AllRoundTrip(c, xs[1..], rest);
      assert [xs[0]] + xs[1..] == xs;
    } else {
      assert EncodeAll(c, xs) + rest == rest;
    }
  }

  /** A list comes back exactly when it has fewer than 2^32 elements. */
  lemma ListRoundTrip<T>(c: Codec<T>, xs: seq<T>, rest: Bytes)
    requires forall i :: 0 <= i < |xs| ==> Returns(c, xs[i])
    ensures DecodeList(c, EncodeList(c, xs) + rest) == Some((xs, rest)) <==> |xs| < U32
  {
    var b := EncodeAll(c, xs) + rest;
    assert EncodeList(c, xs) + rest == EncodeU32(|xs|) + b;
    U32RoundTrip(|xs|, b);
    AllRoundTrip(c, xs, rest);
    DecodeAllLength(c, |xs| % U32, b);
    hide EncodeU32, DecodeU32, EncodeAll, DecodeAll;
  }

  // ---- Maps ----

  function EncodeEntries<V>(c: Codec<V>, es: seq<(nat, V)>): Bytes {
    if es == [] then [] else EncodeU32(es[0].0) + c.encode(es[0].1) + EncodeEntries(c, es[1..])
  }

  function EncodeMap<V>(c: Codec<V>, m: map<Index, V>): Bytes {
    EncodeU32(|m|) + EncodeEntries(c, Entries(m))
  }

  function DecodeEntries<V>(c: Codec<V>, n: nat, b: Bytes, acc: map<Index, V>): Option<(map<Index, V>, Bytes)>
    decreases n
  {
    if n == 0 then Some((acc, b)) else
    match DecodeU32(b)
    case None => None
    case Some((k, b')) =>
      match c.decode(b')
      case None => None
      case Some((v, b'')) => DecodeEntries(c, n - 1, b'', acc[k := v])
  }

  function DecodeMap<V>(c: Codec<V>, b: Bytes): Option<(map<Index, V>, Bytes)> {
    match DecodeU32(b)
    case None => None
    case Some((n, b')) => DecodeEntries(c, n, b', map[])
  }

  lemma {:induction false} DecodeEntriesSize<V>(c: Codec<V>, n: nat, b: Bytes, acc: map<Index, V>)
    ensures var r := DecodeEntries(c, n, b, acc); r.Some? ==> |r.value.0| <= |acc| + n
    decreases n
  {
    if n > 0 && DecodeU32(b).Some? {
      var (k, b') := DecodeU32(b).value;
      hide DecodeU32;
      if c.decode(b').Some? {
        var (v, b'') := c.decode(b').value;
        DecodeEntriesSize(c, n - 1, b'', acc[k := v]);
        assert acc[k := v].Keys == acc.Keys + {k};
      }
    }
  }

  lemma {:induction false} EntriesRoundTrip<V(!new)>(c: Codec<V>, es: seq<(nat, V)>, rest: Bytes, acc: map<Index, V>)
    requires RoundTrips(c) && forall i :: 0 <= i < |es| ==> es[i].0 < U32
    ensures DecodeEntries(c, |es|, EncodeEntries(c, es) + rest, acc) == Some((Inserted(acc, es), rest))
    decreases es
  {
    if es != [] {
      var (k, v) := es[0];
      var tail := EncodeEntries(c, es[1..]) + rest;
      assert EncodeEntries(c, es) + rest == EncodeU32(k) + (c.encode(v) + tail);
      U32RoundTrip(k, c.encode(v) + tail);
      assert Returns(c, v);
      assert c.decode(c.encode(v) + tail) == Some((v, tail));
      hide EncodeU32, DecodeU32;
      EntriesRoundTrip(c, es[1..], rest, acc[k := v]);
    } else {
      assert EncodeEntries(c, es) + rest == rest;
    }
  }

  /** A proof map comes back exactly when it has fewer than 2^32 entries. */
  lemma MapRoundTrip<V(!new)>(c: Codec<V>, m: map<Index, V>, rest: Bytes)
    requires RoundTrips(c)
    ensures DecodeMap(c, EncodeMap(c, m) + rest) == Some((m, rest)) <==> |m| < U32
    ensures |m| >= U32 ==>
              var r := DecodeMap(c, EncodeMap(c, m) + rest);
              r.None? || r.value.0 != m
  {
    hide EncodeU32, DecodeU32, EncodeEntries, DecodeEntries, Entries, Inserted, RoundTrips;
    var b := EncodeEntries(c, Entries(m)) + rest;
    assert EncodeMap(c, m) + rest == EncodeU32(|m|) + b;
    U32RoundTrip(|m|, b);
    MapEntriesReturn(c, m, rest);
    DecodeEntriesSize(c, |m| % U32, b, map[]);
  }

  lemma MapEntriesReturn<V(!new)>(c: Codec<V>, m: map<Index, V>, rest: Bytes)
    requires RoundTrips(c)
    ensures DecodeEntries(c, |m|, EncodeEntries(c, Entries(m)) + rest, map[]) == Some((m, rest))
  {
    hide EncodeU32, DecodeU32, EncodeEntries, DecodeEntries, Entries, Inserted, RoundTrips;
    EntriesOf(m);
    EntriesRoundTrip(c, Entries(m), rest, map[]);
    EntriesRebuild(m, map[]);
    assert map[] + m == m;
  }

  // ---- Options ----

  function EncodeOption<T>(c: Codec<T>, x: Option<T>): Bytes {
    match x
    case None => [0]
    case Some(v) => [1] + c.encode(v)
  }

  function DecodeOption<T>(c: Codec<T>, b: Bytes): Option<(Option<T>, Bytes)> {
    match DecodeU8(b)
    case None => None
    case Some((flag, b')) =>
      if flag == 0 then Some((None, b')) else
      match c.decode(b')
      case None => None
      case Some((v, b'')) => Some((Some(v), b''))
  }

  /** Whatever the inner codec does to a value it does inside an option. */
  lemma OptionInner<T>(c: Codec<T>, x: Option<T>, rest: Bytes)
    ensures x.None? ==> DecodeOption(c, EncodeOption(c, x) + rest) == Some((x, rest))
    ensures x.Some? ==>
              var inner := c.decode(c.encode(x.value) + rest);
              DecodeOption(c, EncodeOption(c, x) + rest) == if inner.None? then None else Some((Some(inner.value.0), inner.value.1))
  {
    assert x.Some? ==> ([1] + c.encode(x.value) + rest)[1..] == c.encode(x.value) + rest;
  }

  // ---- Proofs ----

  type Leaf = nat

  datatype PixelProof =
    | Sig(body: Leaf)
    | Multisig(body: Leaf)
    | Lightning(body: Leaf)
    | LightningHtlc(body: Leaf)
    | Bulletproof(body: Leaf)
    | EmptyPixel(body: Leaf)
    | P2WSH(body: Leaf)

  /** The codecs of the parts that are not modelled. */
  datatype Leaves = Leaves(
    sig: Codec<Leaf>, multisig: Codec<Leaf>, lightning: Codec<Leaf>, htlc: Codec<Leaf>,
    bulletproof: Codec<Leaf>, emptyPixel: Codec<Leaf>, p2wsh: Codec<Leaf>,
    issue: Codec<Leaf>, announcement: Codec<Leaf>, bitcoinTx: Codec<Leaf>, txid: Codec<Leaf>)

  ghost predicate LeavesRoundTrip(ls: Leaves) {
    && RoundTrips(ls.sig) && RoundTrips(ls.multisig) && RoundTrips(ls.lightning) && RoundTrips(ls.htlc)
    && RoundTrips(ls.bulletproof) && RoundTrips(ls.emptyPixel) && RoundTrips(ls.p2wsh)
    && RoundTrips(ls.issue) && RoundTrips(ls.announcement) && RoundTrips(ls.bitcoinTx) && RoundTrips(ls.txid)
  }

  function EncodeProof(ls: Leaves, p: PixelProof): Bytes {
    match p
    case Sig(x) => [0] + ls.sig.encode(x)
    case Multisig(x) => [1] + ls.multisig.encode(x)
    case Lightning(x) => [2] + ls.lightning.encode(x)
    case LightningHtlc(x) => [3] + ls.htlc.encode(x)
    case Bulletproof(x) => [4] + ls.bulletproof.encode(x)
    case EmptyPixel(x) => [5] + ls.emptyPixel.encode(x)
    case P2WSH(x) => [6] + ls.p2wsh.encode(x)
  }

  function DecodeBody(c: Codec<Leaf>, b: Bytes, wrap: Leaf -> PixelProof): Option<(PixelProof, Bytes)> {
    match c.decode(b)
    case None => None
    case Some((x, b')) => Some((wrap(x), b'))
  }

  function DecodeProof(ls: Leaves, b: Bytes): Option<(PixelProof, Bytes)> {
    match DecodeU8(b)
    case None => None
    case Some((flag, b')) =>
      match flag
      case 0 => DecodeBody(ls.sig, b', (x: Leaf) => Sig(x))
      case 1 => DecodeBody(ls.multisig, b', (x: Leaf) => Multisig(x))
      case 2 => DecodeBody(ls.lightning, b', (x: Leaf) => Lightning(x))
      case 3 => DecodeBody(ls.htlc, b', (x: Leaf) => LightningHtlc(x))
      case 4 => DecodeBody(ls.bulletproof, b', (x: Leaf) => Bulletproof(x))
      case 5 => DecodeBody(ls.emptyPixel, b', (x: Leaf) => EmptyPixel(x))
      case 6 => DecodeBody(ls.p2wsh, b', (x: Leaf) => P2WSH(x))
      case _ => None
  }

  function ProofCodec(ls: Leaves): Codec<PixelProof> {
    Codec((p: PixelProof) => EncodeProof(ls, p), (b: Bytes) => DecodeProof(ls, b))
  }

  lemma ProofRoundTrip(ls: Leaves)
    requires LeavesRoundTrip(ls)
    ensures RoundTrips(ProofCodec(ls))
  {
    forall p: PixelProof, rest: Bytes
      ensures DecodeProof(ls, EncodeProof(ls, p) + rest) == Some((p, rest))
    {
      ProofReturns(ls, p, rest);
    }
    hide EncodeProof, DecodeProof;
    forall p: PixelProof
      ensures Returns(ProofCodec(ls), p)
    {
    }
  }

  lemma ProofReturns(ls: Leaves, p: PixelProof, rest: Bytes)
    requires LeavesRoundTrip(ls)
    ensures DecodeProof(ls, EncodeProof(ls, p) + rest) == Some((p, rest))
  {
    var b := EncodeProof(ls, p) + rest;
    match p
    case Sig(x) => BodyReturns(ls.sig, 0, x, rest);
    case Multisig(x) => BodyReturns(ls.multisig, 1, x, rest);
    case Lightning(x) => BodyReturns(ls.lightning, 2, x, rest);
    case LightningHtlc(x) => BodyReturns(ls.htlc, 3, x, rest);
    case Bulletproof(x) => BodyReturns(ls.bulletproof, 4, x, rest);
    case EmptyPixel(x) => BodyReturns(ls.emptyPixel, 5, x, rest);
    case P2WSH(x) => BodyReturns(ls.p2wsh, 6, x, rest);
  }

  lemma BodyReturns(c: Codec<Leaf>, flag: Byte, x: Leaf, rest: Bytes)
    requires RoundTrips(c)
    ensures var b := [flag] + c.encode(x) + rest;
            b[0] == flag && c.decode(b[1..]) == Some((x, rest))
  {
    assert ([flag] + c.encode(x) + rest)[1..] == c.encode(x) + rest;
    assert Returns(c, x);
  }

  // ---- Transactions ----

  type ProofMap = map<Index, PixelProof>

  datatype TxType =
    | Issue(proofs: Option<ProofMap>, announcement: Leaf)
    | Transfer(inputs: ProofMap, outputs: ProofMap)
    | Announcement(announcement: Leaf)

  datatype Transaction = Transaction(bitcoinTx: Leaf, txType: TxType)

  function MapCodec(ls: Leaves): Codec<ProofMap> {
    Codec((m: ProofMap) => EncodeMap(ProofCodec(ls), m), (b: Bytes) => DecodeMap(ProofCodec(ls), b))
  }

  function EncodeTxType(ls: Leaves, t: TxType): Bytes {
    match t
    case Issue(proofs, a) => [0] + (ls.issue.encode(a) + EncodeOption(MapCodec(ls), proofs))
    case Transfer(ins, outs) => [1] + (EncodeMap(ProofCodec(ls), ins) + EncodeMap(ProofCodec(ls), outs))
    case Announcement(a) => [2] + ls.announcement.encode(a)
  }

  function DecodeTxType(ls: Leaves, b: Bytes): Option<(TxType, Bytes)> {
    match DecodeU8(b)
    case None => None
    case Some((kind, b')) =>
      if kind == 0 then
        match ls.issue.decode(b')
        case None => None
        case Some((a, b'')) =>
          match DecodeOption(MapCodec(ls), b'')
          case None => None
          case Some((proofs, rest)) => Some((Issue(proofs, a), rest))
      else if kind == 1 then
        match DecodeMap(ProofCodec(ls), b')
        case None => None
        case Some((ins, b'')) =>
          match DecodeMap(ProofCodec(ls), b'')
          case None => None
          case Some((outs, rest)) => Some((Transfer(ins, outs), rest))
      else if kind == 2 then
        match ls.announcement.decode(b')
        case None => None
        case Some((a, rest)) => Some((Announcement(a), rest))
      else None
  }

  /** Every proof map of the transaction has fewer than 2^32 entries. */
  predicate MapsFit(t: TxType) {
    match t
    case Issue(proofs, _) => proofs.Some? ==> |proofs.value| < U32
    case Transfer(ins, outs) => |ins| < U32 && |outs| < U32
    case Announcement(_) => true
  }

  lemma IssueRoundTrip(ls: Leaves, t: TxType, rest: Bytes)
    requires LeavesRoundTrip(ls) && t.Issue?
    ensures DecodeTxType(ls, EncodeTxType(ls, t) + rest) == Some((t, rest)) <==> MapsFit(t)
  {
    ProofRoundTrip(ls);
    hide EncodeMap, DecodeMap, EncodeOption, DecodeOption, RoundTrips;
    var tail := EncodeOption(MapCodec(ls), t.proofs) + rest;
    assert EncodeTxType(ls, t) + rest == [0] + (ls.issue.encode(t.announcement) + tail);
    LeafReturns(ls.issue, t.announcement, tail);
    OptionInner(MapCodec(ls), t.proofs, rest);
    if t.proofs.Some? {
      MapRoundTrip(ProofCodec(ls), t.proofs.value, rest);
    }
  }

  lemma LeafReturns(c: Codec<Leaf>, x: Leaf, rest: Bytes)
    requires RoundTrips(c)
    ensures c.decode(c.encode(x) + rest) == Some((x, rest))
  {
    assert Returns(c, x);
  }

  lemma TransferRoundTrip(ls: Leaves, t: TxType, rest: Bytes)
    requires LeavesRoundTrip(ls) && t.Transfer?
    ensures DecodeTxType(ls, EncodeTxType(ls, t) + rest) == Some((t, rest)) <==> MapsFit(t)
  {
    ProofRoundTrip(ls);
    hide EncodeMap, DecodeMap, RoundTrips;
    var c := ProofCodec(ls);
    var tail := EncodeMap(c, t.outputs) + rest;
    assert EncodeTxType(ls, t) + rest == [1] + (EncodeMap(c, t.inputs) + tail);
    MapRoundTrip(c, t.inputs, tail);
    MapRoundTrip(c, t.outputs, rest);
  }

  lemma TxTypeRoundTrip(ls: Leaves, t: TxType, rest: Bytes)
    requires LeavesRoundTrip(ls)
    ensures DecodeTxType(ls, EncodeTxType(ls, t) + rest) == Some((t, rest)) <==> MapsFit(t)
  {
    match t
    case Issue(_, _) => IssueRoundTrip(ls, t, rest);
    case Transfer(_, _) => TransferRoundTrip(ls, t, rest);
    case Announcement(a) =>
      assert EncodeTxType(ls, t) + rest == [2] + (ls.announcement.encode(a) + rest);
      LeafReturns(ls.announcement, a, rest);
  }

  function EncodeTx(ls: Leaves, tx: Transaction): Bytes {
    ls.bitcoinTx.encode(tx.bitcoinTx) + EncodeTxType(ls, tx.txType)
  }

  function DecodeTx(ls: Leaves, b: Bytes): Option<(Transaction, Bytes)> {
    match ls.bitcoinTx.decode(b)
    case None => None
    case Some((bitcoinTx, b')) =>
      match DecodeTxType(ls, b')
      case None => None
      case Some((txType, rest)) => Some((Transaction(bitcoinTx, txType), rest))
  }

  /** A transaction comes back, with the bytes after it, exactly when its proof maps fit. */
  lemma TxRoundTrip(ls: Leaves, tx: Transaction, rest: Bytes)
    requires LeavesRoundTrip(ls)
    ensures DecodeTx(ls, EncodeTx(ls, tx) + rest) == Some((tx, rest)) <==> MapsFit(tx.txType)
  {
    var tail := EncodeTxType(ls, tx.txType) + rest;
    assert EncodeTx(ls, tx) + rest == ls.bitcoinTx.encode(tx.bitcoinTx) + tail;
    LeafReturns(ls.bitcoinTx, tx.bitcoinTx, tail);
    TxTypeRoundTrip(ls, tx.txType, rest);
    hide EncodeTxType, DecodeTxType;
  }

  function TxCodec(ls: Leaves): Codec<Transaction> {
    Codec((tx: Transaction) => EncodeTx(ls, tx), (b: Bytes) => DecodeTx(ls, b))
  }

  /** A list of transactions comes back exactly when it has fewer than 2^32 of them. */
  lemma TxsRoundTrip(ls: Leaves, txs: seq<Transaction>, rest: Bytes)
    requires LeavesRoundTrip(ls) && forall i :: 0 <= i < |txs| ==> MapsFit(txs[i].txType)
    ensures DecodeList(TxCodec(ls), EncodeList(TxCodec(ls), txs) + rest) == Some((txs, rest)) <==> |txs| < U32
  {
    hide EncodeTx, DecodeTx, MapsFit;
    forall i | 0 <= i < |txs|
      ensures Returns(TxCodec(ls), txs[i])
    {
      forall rest': Bytes
        ensures DecodeTx(ls, EncodeTx(ls, txs[i]) + rest') == Some((txs[i], rest'))
      {
        TxRoundTrip(ls, txs[i], rest');
      }
    }
    ListRoundTrip(TxCodec(ls), txs, rest);
  }

  /** Encodings tell transactions apart: no transaction's bytes start with another's. */
  lemma TxPrefixFree(ls: Leaves, a: Transaction, b: Transaction, x: Bytes, y: Bytes)
    requires LeavesRoundTrip(ls) && MapsFit(a.txType) && MapsFit(b.txType)
    requires EncodeTx(ls, a) + x == EncodeTx(ls, b) + y
    ensures a == b && x == y
  {
    TxRoundTrip(ls, a, x);
    TxRoundTrip(ls, b, y);
  }

  // ---- Inventories ----

  datatype Inventory = Ytx(txid: Leaf)

  function EncodeInventory(ls: Leaves, inv: Inventory): Bytes {
    [0] + ls.txid.encode(inv.txid)
  }

  function DecodeInventory(ls: Leaves, b: Bytes): Option<(Inventory, Bytes)> {
    match DecodeU8(b)
    case None => None
    case Some((flag, b')) =>
      if flag != 0 then None else
      match ls.txid.decode(b')
      case None => None
      case Some((txid, rest)) => Some((Ytx(txid), rest))
  }

  function InventoryCodec(ls: Leaves): Codec<Inventory> {
    Codec((inv: Inventory) => EncodeInventory(ls, inv), (b: Bytes) => DecodeInventory(ls, b))
  }

  lemma InventoryRoundTrip(ls: Leaves, invs: seq<Inventory>, rest: Bytes)
    requires LeavesRoundTrip(ls)
    ensures DecodeList(InventoryCodec(ls), EncodeList(InventoryCodec(ls), invs) + rest) == Some((invs, rest)) <==> |invs| < U32
  {
    forall i | 0 <= i < |invs|
      ensures Returns(InventoryCodec(ls), invs[i])
    {
      forall rest': Bytes
        ensures DecodeInventory(ls, EncodeInventory(ls, invs[i]) + rest') == Some((invs[i], rest'))
      {
        BodyReturns(ls.txid, 0, invs[i].txid, rest');
      }
    }
    ListRoundTrip(InventoryCodec(ls), invs, rest);
  }

  // ---- Writers and readers ----

  class Writer {
    var bytes: Bytes

    method Put(b: Bytes) returns (len: nat)
      modifies this
      ensures bytes == old(bytes) + b && len == |b|
    {
      bytes := bytes + b;
      len := |b|;
    }

    /** Writes a proof map in the order of its keys and returns the number of bytes written. */
    method PutMap(ls: Leaves, m: ProofMap) returns (len: nat)
      modifies this
      ensures bytes == old(bytes) + EncodeMap(ProofCodec(ls), m) && len == |EncodeMap(ProofCodec(ls), m)|
    {
      hide EncodeProof, EncodeU32, Entries;
      len := Put(EncodeU32(|m|));
      var entries := Entries(m);
      ghost var all := EncodeEntries(ProofCodec(ls), entries);
      assert entries[0..] == entries;
      for i := 0 to |entries|
        invariant bytes + EncodeEntries(ProofCodec(ls), entries[i..]) == old(bytes) + EncodeU32(|m|) + all
        invariant len + |EncodeEntries(ProofCodec(ls), entries[i..])| == |EncodeU32(|m|)| + |all|
      {
        assert entries[i..][1..] == entries[i + 1..];
        ghost var before := bytes;
        var k := Put(EncodeU32(entries[i].0));
        var v := Put(EncodeProof(ls, entries[i].1));
        len := len + k + v;
        assert bytes + EncodeEntries(ProofCodec(ls), entries[i + 1..]) == before + EncodeEntries(ProofCodec(ls), entries[i..]);
      }
      assert entries[|entries|..] == [];
      assert bytes + [] == bytes;
      assert old(bytes) + EncodeU32(|m|) + all == old(bytes) + (EncodeU32(|m|) + all);
    }

    method PutTxType(ls: Leaves, t: TxType) returns (len: nat)
      modifies this
      ensures bytes == old(bytes) + EncodeTxType(ls, t) && len == |EncodeTxType(ls, t)|
    {
      hide EncodeMap;
      match t
      case Issue(proofs, a) =>
        len := Put([0]);
        var n := Put(ls.issue.encode(a));
        len := len + n;
        match proofs {
          case None =>
            n := Put([0]);
          case Some(m) =>
            n := Put([1]);
            var inner := PutMap(ls, m);
            n := n + inner;
        }
        len := len + n;
      case Transfer(ins, outs) =>
        len := Put([1]);
        var n := PutMap(ls, ins);
        var n' := PutMap(ls, outs);
        len := len + n + n';
      case Announcement(a) =>
        len := Put([2]);
        var n := Put(ls.announcement.encode(a));
        len := len + n;
    }

    method PutTx(ls: Leaves, tx: Transaction) returns (len: nat)
      modifies this
      ensures bytes == old(bytes) + EncodeTx(ls, tx) && len == |EncodeTx(ls, tx)|
    {
      hide EncodeTxType;
      len := Put(ls.bitcoinTx.encode(tx.bitcoinTx));
      var n := PutTxType(ls, tx.txType);
      len := len + n;
    }

    method PutTxs(ls: Leaves, txs: seq<Transaction>) returns (len: nat)
      modifies this
      ensures bytes == old(bytes) + EncodeList(TxCodec(ls), txs) && len == |EncodeList(TxCodec(ls), txs)|
    {
      hide EncodeTx, EncodeU32;
      len := Put(EncodeU32(|txs|));
      ghost var all := EncodeAll(TxCodec(ls), txs);
      assert txs[0..] == txs;
      for i := 0 to |txs|
        invariant bytes + EncodeAll(TxCodec(ls), txs[i..]) == old(bytes) + EncodeU32(|txs|) + all
        invariant len + |EncodeAll(TxCodec(ls), txs[i..])| == |EncodeU32(|txs|)| + |all|
      {
        assert txs[i..][1..] == txs[i + 1..];
        ghost var before := bytes;
        var n := PutTx(ls, txs[i]);
        len := len + n;
        assert bytes + EncodeAll(TxCodec(ls), txs[i + 1..]) == before + EncodeAll(TxCodec(ls), txs[i..]);
      }
      assert txs[|txs|..] == [];
      assert bytes + [] == bytes;
      assert old(bytes) + EncodeU32(|txs|) + all == old(bytes) + (EncodeU32(|txs|) + all);
    }
  }

  /** What a read returns and leaves; after an error the position is not specified. */
  ghost predicate Reads<T(!new)>(r: Option<T>, rest: Bytes, expected: Option<(T, Bytes)>) {
    match expected
    case None => r.None?
    case Some((x, b)) => r == Some(x) && rest == b
  }

  class Reader {
    var rest: Bytes

    method TakeU8() returns (r: Option<Byte>)
      modifies this
      ensures Reads(r, rest, DecodeU8(old(rest)))
    {
      if rest == [] {
        return None;
      }
      r := Some(rest[0]);
      rest := rest[1..];
    }

    method TakeU32() returns (r: Option<Index>)
      modifies this
      ensures Reads(r, rest, DecodeU32(old(rest)))
    {
      if |rest| < 4 {
        return None;
      }
      r := Some(Joined(rest[0], rest[1], rest[2], rest[3]));
      rest := rest[4..];
    }

    method Take<T(!new)>(c: Codec<T>) returns (r: Option<T>)
      modifies this
      ensures Reads(r, rest, c.decode(old(rest)))
    {
      match c.decode(rest)
      case None =>
        r := None;
      case Some((x, b)) =>
        r := Some(x);
        rest := b;
    }

    /** Reads a proof map, inserting one entry after the other. */
    method TakeMap(ls: Leaves) returns (r: Option<ProofMap>)
      modifies this
      ensures Reads(r, rest, DecodeMap(ProofCodec(ls), old(rest)))
    {
      hide DecodeU32, DecodeProof;
      var n := TakeU32();
      if n.None? {
        return None;
      }
      var proofs: ProofMap := map[];
      ghost var start := rest;
      for i := 0 to n.value
        invariant DecodeEntries(ProofCodec(ls), n.value - i, rest, proofs) == DecodeEntries(ProofCodec(ls), n.value, start, map[])
      {
        var key := TakeU32();
        if key.None? {
          return None;
        }
        var value := Take(ProofCodec(ls));
        if value.None? {
          return None;
        }
        proofs := proofs[key.value := value.value];
      }
      r := Some(proofs);
    }

    method TakeTxType(ls: Leaves) returns (r: Option<TxType>)
      modifies this
      ensures Reads(r, rest, DecodeTxType(ls, old(rest)))
    {
      hide DecodeMap;
      var kind := TakeU8();
      if kind.None? {
        return None;
      }
      if kind.value == 0 {
        var a := Take(ls.issue);
        if a.None? {
          return None;
        }
        var flag := TakeU8();
        if flag.None? {
          return None;
        }
        if flag.value == 0 {
          return Some(Issue(None, a.value));
        }
        var m := TakeMap(ls);
        if m.None? {
          return None;
        }
        r := Some(Issue(m, a.value));
      } else if kind.value == 1 {
        var ins := TakeMap(ls);
        if ins.None? {
          return None;
        }
        var outs := TakeMap(ls);
        if outs.None? {
          return None;
        }
        r := Some(Transfer(ins.value, outs.value));
      } else if kind.value == 2 {
        var a := Take(ls.announcement);
        if a.None? {
          return None;
        }
        r := Some(Announcement(a.value));
      } else {
        r := None;
      }
    }

    method TakeTx(ls: Leaves) returns (r: Option<Transaction>)
      modifies this
      ensures Reads(r, rest, DecodeTx(ls, old(rest)))
    {
      hide DecodeTxType;
      var bitcoinTx := Take(ls.bitcoinTx);
      if bitcoinTx.None? {
        return None;
      }
      var txType := TakeTxType(ls);
      if txType.None? {
        return None;
      }
      r := Some(Transaction(bitcoinTx.value, txType.value));
    }

    method TakeTxs(ls: Leaves) returns (r: Option<seq<Transaction>>)
      modifies this
      ensures Reads(r, rest, DecodeList(TxCodec(ls), old(rest)))
    {
      hide DecodeU32, DecodeTx, DecodeAll;
      var n := TakeU32();
      if n.None? {
        return None;
      }
      var txs := [];
      ghost var start := rest;
      NothingRead(DecodeAll(TxCodec(ls), n.value, start));
      for i := 0 to n.value
        invariant DecodeAll(TxCodec(ls), n.value, start) == Prepended(txs, DecodeAll(TxCodec(ls), n.value - i, rest))
      {
        ReadOne(TxCodec(ls), n.value - i, rest, txs);
        var tx := TakeTx(ls);
        if tx.None? {
          return None;
        }
        txs := txs + [tx.value];
      }
      AllRead(TxCodec(ls), rest, txs);
      r := Some(txs);
    }
  }

  ghost function Prepended<T>(xs: seq<T>, left: Option<(seq<T>, Bytes)>): Option<(seq<T>, Bytes)> {
    if left.None? then None else Some((xs + left.value.0, left.value.1))
  }

  lemma NothingRead<T>(left: Option<(seq<T>, Bytes)>)
    ensures Prepended([], left) == left
  {
    assert left.Some? ==> [] + left.value.0 == left.value.0;
  }

  lemma ReadOne<T>(c: Codec<T>, n: nat, b: Bytes, xs: seq<T>)
    requires n > 0
    ensures var r := c.decode(b);
            Prepended(xs, DecodeAll(c, n, b)) ==
            if r.None? then None else Prepended(xs + [r.value.0], DecodeAll(c, n - 1, r.value.1))
  {
    if c.decode(b).Some? {
      var (x, b') := c.decode(b).value;
      var left := DecodeAll(c, n - 1, b');
      assert left.Some? ==> xs + ([x] + left.value.0) == xs + [x] + left.value.0;
    }
  }

  lemma AllRead<T>(c: Codec<T>, b: Bytes, xs: seq<T>)
    ensures Prepended(xs, DecodeAll(c, 0, b)) == Some((xs, b))
  {
    assert xs + [] == xs;
  }
}
