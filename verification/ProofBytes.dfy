/**
 The byte forms of weighted inner product and range proofs (`to_bytes` and `from_bytes` of
 `crates/bulletproof/src/wip.rs` and `range_proof.rs`), over fixed-width codecs of points and scalars.
 */
module ProofBytes {
  import opened Options
  import opened Scalars
  import opened Vectors
  import opened WeightedInnerProduct
  import opened RangeProofs
  import opened Codec

  /** 33 bytes for a point, 32 for a scalar. */
  datatype Encoding = Encoding(
    pointBytes: Point -> Bytes, toPoint: Bytes -> Option<Point>,
    scalarBytes: Scalar -> Bytes, toScalar: Bytes -> Option<Scalar>)

  ghost predicate Faithful(e: Encoding) {
    && (forall p: Point :: |e.pointBytes(p)| == 33 && e.toPoint(e.pointBytes(p)) == Some(p))
    && (forall x: Scalar :: |e.scalarBytes(x)| == 32 && e.toScalar(e.scalarBytes(x)) == Some(x))
  }

  /** A slice past the end panics; bytes that are no point or scalar give nothing. */
  datatype Outcome<+T> = Panic | Invalid | Parsed(value: T)

  // ---- Encoding ----

  /** The pairs of points of the rounds; the longer list is cut. */
  function PairBytes(e: Encoding, l: Vec, r: Vec): Bytes {
    if l == [] || r == [] then [] else
    e.pointBytes(l[0]) + e.pointBytes(r[0]) + PairBytes(e, l[1..], r[1..])
  }

  function HeadBytes(e: Encoding, p: WipProof): Bytes {
    e.pointBytes(p.a) + e.pointBytes(p.b) + e.scalarBytes(p.rRev) + e.scalarBytes(p.sRev) + e.scalarBytes(p.deltaRev)
  }

  function WipBytes(e: Encoding, p: WipProof): Bytes {
    HeadBytes(e, p) + PairBytes(e, p.l, p.r)
  }

  method WipToBytes(e: Encoding, p: WipProof) returns (bytes: Bytes)
    ensures bytes == WipBytes(e, p)
  {
    bytes := e.pointBytes(p.a);
    bytes := bytes + e.pointBytes(p.b);
    bytes := bytes + e.scalarBytes(p.rRev);
    bytes := bytes + e.scalarBytes(p.sRev);
    bytes := bytes + e.scalarBytes(p.deltaRev);
    var n := if |p.l| <= |p.r| then |p.l| else |p.r|;
    assert p.l[0..] == p.l && p.r[0..] == p.r;
    for i := 0 to n
      invariant bytes + PairBytes(e, p.l[i..], p.r[i..]) == WipBytes(e, p)
    {
      assert p.l[i..][1..] == p.l[i + 1..] && p.r[i..][1..] == p.r[i + 1..];
      ghost var next := PairBytes(e, p.l[i + 1..], p.r[i + 1..]);
      assert bytes + (e.pointBytes(p.l[i]) + e.pointBytes(p.r[i]) + next) == bytes + e.pointBytes(p.l[i]) + e.pointBytes(p.r[i]) + next;
      bytes := bytes + e.pointBytes(p.l[i]);
      bytes := bytes + e.pointBytes(p.r[i]);
    }
    assert bytes + [] == bytes;
  }

  // ---- Decoding ----

  /** The pairs in the bytes from an offset on. */
  function ParsePairs(e: Encoding, data: Bytes): Outcome<(Vec, Vec)> {
    if data == [] then Parsed(([], []))
    else if |data| < 33 then Panic
    else
      var l := e.toPoint(data[..33]);
      if l.None? then Invalid
      else if |data| < 66 then Panic
      else
        var r := e.toPoint(data[33..66]);
        if r.None? then Invalid else
        match ParsePairs(e, data[66..])
        case Panic => Panic
        case Invalid => Invalid
        case Parsed((ls, rs)) => Parsed(([l.value] + ls, [r.value] + rs))
  }

  function ParseWip(e: Encoding, data: Bytes): Outcome<WipProof> {
    if |data| < 33 then Panic else
    var a := e.toPoint(data[..33]);
    if a.None? then Invalid else if |data| < 66 then Panic else
    var b := e.toPoint(data[33..66]);
    if b.None? then Invalid else if |data| < 98 then Panic else
    var r := e.toScalar(data[66..98]);
    if r.None? then Invalid else if |data| < 130 then Panic else
    var s := e.toScalar(data[98..130]);
    if s.None? then Invalid else if |data| < 162 then Panic else
    var d := e.toScalar(data[130..162]);
    if d.None? then Invalid else
    match ParsePairs(e, data[162..])
    case Panic => Panic
    case Invalid => Invalid
    case Parsed((ls, rs)) => Parsed(WipProof(ls, rs, a.value, b.value, r.value, s.value, d.value))
  }

  ghost function Prepend(l: Vec, r: Vec, rest: Outcome<(Vec, Vec)>): Outcome<(Vec, Vec)> {
    match rest
    case Panic => Panic
    case Invalid => Invalid
    case Parsed((ls, rs)) => Parsed((l + ls, r + rs))
  }

  method PairsFromBytes(e: Encoding, data: Bytes, start: nat) returns (pairs: Outcome<(Vec, Vec)>)
    requires start <= |data|
    ensures pairs == ParsePairs(e, data[start..])
  {
    var l: Vec, r: Vec := [], [];
    var offset := start;
    ghost var whole := ParsePairs(e, data[start..]);
    assert whole.Parsed? ==> [] + whole.value.0 == whole.value.0 && [] + whole.value.1 == whole.value.1;
    while offset < |data|
      invariant start <= offset <= |data|
      invariant Prepend(l, r, ParsePairs(e, data[offset..])) == whole
    {
      ghost var here := data[offset..];
      if offset + 33 > |data| {
        return Panic;
      }
      assert data[offset..offset + 33] == here[..33];
      var left := e.toPoint(data[offset..offset + 33]);
      if left.None? {
        return Invalid;
      }
      if offset + 66 > |data| {
        return Panic;
      }
      assert data[offset + 33..offset + 66] == here[33..66];
      var right := e.toPoint(data[offset + 33..offset + 66]);
      if right.None? {
        return Invalid;
      }
      assert here[66..] == data[offset + 66..];
      ghost var rest := ParsePairs(e, data[offset + 66..]);
      assert rest.Parsed? ==> l + ([left.value] + rest.value.0) == l + [left.value] + rest.value.0;
      assert rest.Parsed? ==> r + ([right.value] + rest.value.1) == r + [right.value] + rest.value.1;
      l := l + [left.value];
      r := r + [right.value];
      offset := offset + 66;
    }
    assert l + [] == l && r + [] == r;
    pairs := Parsed((l, r));
  }

  method WipFromBytes(e: Encoding, data: Bytes) returns (p: Outcome<WipProof>)
    ensures p == ParseWip(e, data)
  {
    hide ParsePairs;
    if |data| < 33 {
      return Panic;
    }
    var a := e.toPoint(data[..33]);
    if a.None? {
      return Invalid;
    }
    if |data| < 66 {
      return Panic;
    }
    var b := e.toPoint(data[33..66]);
    if b.None? {
      return Invalid;
    }
    if |data| < 98 {
      return Panic;
    }
    var r := e.toScalar(data[66..98]);
    if r.None? {
      return Invalid;
    }
    if |data| < 130 {
      return Panic;
    }
    var s := e.toScalar(data[98..130]);
    if s.None? {
      return Invalid;
    }
    if |data| < 162 {
      return Panic;
    }
    var d := e.toScalar(data[130..162]);
    if d.None? {
      return Invalid;
    }
    var pairs := PairsFromBytes(e, data, 162);
    match pairs
    case Panic => p := Panic;
    case Invalid => p := Invalid;
    case Parsed((ls, rs)) => p := Parsed(WipProof(ls, rs, a.value, b.value, r.value, s.value, d.value));
  }

  // ---- Round trips ----

  function Shorter(l: Vec, r: Vec): nat {
    if |l| <= |r| then |l| else |r|
  }

  lemma {:induction false} PairsRoundTrip(e: Encoding, l: Vec, r: Vec)
    requires Faithful(e)
    ensures ParsePairs(e, PairBytes(e, l, r)) == Parsed((l[..Shorter(l, r)], r[..Shorter(l, r)]))
  {
    if l != [] && r != [] {
      var x, y := e.pointBytes(l[0]), e.pointBytes(r[0]);
      var rest := PairBytes(e, l[1..], r[1..]);
      var data := x + y + rest;
      assert data[..33] == x && data[33..66] == y && data[66..] == rest;
      PairsRoundTrip(e, l[1..], r[1..]);
      var n := Shorter(l, r);
      assert [l[0]] + l[1..][..n - 1] == l[..n];
      assert [r[0]] + r[1..][..n - 1] == r[..n];
    }
  }

  lemma HeadParts(e: Encoding, p: WipProof, rest: Bytes)
    requires Faithful(e)
    ensures var data := HeadBytes(e, p) + rest;
            && |HeadBytes(e, p)| == 162
            && data[..33] == e.pointBytes(p.a) && data[33..66] == e.pointBytes(p.b)
            && data[66..98] == e.scalarBytes(p.rRev) && data[98..130] == e.scalarBytes(p.sRev)
            && data[130..162] == e.scalarBytes(p.deltaRev) && data[162..] == rest
  {
  }

  /** Parsing gives the proof back with the lists of rounds cut to the shorter one. */
  lemma WipParsed(e: Encoding, p: WipProof)
    requires Faithful(e)
    ensures var n := Shorter(p.l, p.r);
            ParseWip(e, WipBytes(e, p)) == Parsed(p.(l := p.l[..n], r := p.r[..n]))
  {
    var rest := PairBytes(e, p.l, p.r);
    HeadParts(e, p, rest);
    PairsRoundTrip(e, p.l, p.r);
    hide HeadBytes, PairBytes, ParsePairs;
  }

  /** So a proof comes back exactly when it has as many left as right points. */
  lemma WipRoundTrip(e: Encoding, p: WipProof)
    requires Faithful(e)
    ensures ParseWip(e, WipBytes(e, p)) == Parsed(p) <==> |p.l| == |p.r|
  {
    WipParsed(e, p);
    hide WipBytes, ParseWip;
    if |p.l| == |p.r| {
      assert p.l[..|p.l|] == p.l && p.r[..|p.r|] == p.r;
    } else if |p.l| < |p.r| {
      assert |p.r[..|p.l|]| != |p.r|;
    } else {
      assert |p.l[..|p.r|]| != |p.l|;
    }
  }

  function RangeBytes(e: Encoding, p: RangeProof): Bytes {
    e.pointBytes(p.a) + WipBytes(e, p.wip)
  }

  function ParseRange(e: Encoding, data: Bytes): Outcome<RangeProof> {
    if |data| < 33 then Panic else
    var a := e.toPoint(data[..33]);
    if a.None? then Invalid else
    match ParseWip(e, data[33..])
    case Panic => Panic
    case Invalid => Invalid
    case Parsed(wip) => Parsed(RangeProof(a.value, wip))
  }

  lemma RangeRoundTrip(e: Encoding, p: RangeProof)
    requires Faithful(e)
    ensures ParseRange(e, RangeBytes(e, p)) == Parsed(p) <==> |p.wip.l| == |p.wip.r|
  {
    hide WipBytes, ParseWip;
    var data := RangeBytes(e, p);
    assert data[..33] == e.pointBytes(p.a) && data[33..] == WipBytes(e, p.wip);
    WipRoundTrip(e, p.wip);
  }
}
