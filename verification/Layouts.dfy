/** The stored byte layouts, offset by offset, and the envelopes read from arbitrary bytes. */
module Layouts {
  import opened ByteCodec
  import opened Errors
  import opened Primitives
  import opened Snacl
  import opened AccountRow
  import opened AddressRow
  import opened Keyring
  import opened ScopeIndex

  /** A stored uint32 is little-endian. */
  lemma LittleEndian(x: uint32)
    ensures Le32(x) == [x % 256, x / 256 % 256, x / 65536 % 256, x / 16777216]
  {
    assert Le(x / 16777216, 1) == [x / 16777216] + Le(0, 0);
    assert Le(x / 65536, 2) == [x / 65536 % 256] + Le(x / 16777216, 1);
    assert Le(x / 256, 3) == [x / 256 % 256] + Le(x / 65536, 2);
    assert Le(x, 4) == [x % 256] + Le(x / 256, 3);
  }

  /** Scrypt parameters: salt, digest and the three costs. */
  lemma ParamLayout(p: Params)
    requires p.Sized()
    ensures var b := ParamBytes(p);
            && b[..32] == p.salt && b[32..64] == p.digest
            && b[64..72] == Le64(ToUnsigned(p.n)) && b[72..80] == Le64(ToUnsigned(p.r))
            && b[80..88] == Le64(ToUnsigned(p.p))
  {
    hide Le64, ToUnsigned;
    var n, r, q := Le64(ToUnsigned(p.n)), Le64(ToUnsigned(p.r)), Le64(ToUnsigned(p.p));
    var b := ParamBytes(p);
    PrefixCut(b, 0, p.salt, p.digest + CostBytes(p));
    PrefixCut(b, 32, p.digest, CostBytes(p));
    PrefixCut(b, 64, n, r + q);
    PrefixCut(b, 72, r, q);
  }

  /** The account row's envelope: kind, length, row. */
  lemma EnvelopeLayout(e: Envelope)
    ensures var b := EncodeEnvelope(e);
            b[0] == e.kind && b[1..5] == Le32(Trunc32(|e.raw|)) && b[5..] == e.raw
  {
    hide Le32;
    var b := EncodeEnvelope(e);
    PrefixCut(b, 0, [e.kind], Le32(Trunc32(|e.raw|)) + e.raw);
    PrefixCut(b, 1, Le32(Trunc32(|e.raw|)), e.raw);
    assert b[0] == [e.kind][0];
  }

  /** From arbitrary bytes an envelope is read exactly when its header and its length are
      there; what follows is ignored, and a short buffer is an error. */
  lemma DecodeEnvelopeExact(b: Bytes, e: Envelope)
    ensures DecodeEnvelope(b) == Ok(e) <==>
            && 5 + |e.raw| < W32 && 5 + |e.raw| <= |b|
            && b[0] == e.kind && UnLe32(b[1..5]) == |e.raw| && b[5..5 + |e.raw|] == e.raw
    ensures |b| < 5 ==> DecodeEnvelope(b) == Err(ErrDatabase)
  {
    hide UnLe32;
  }

  /** An account row: sealed public key, sealed private key, external and internal counter,
      name. */
  lemma AccountLayout(r: AcctRow)
    requires Fits(r)
    ensures var b, p, q := DefaultBytes(r), |r.pubEnc|, |r.privEnc|;
            && b[..4] == Le32(p) && b[4..4 + p] == r.pubEnc
            && b[4 + p..8 + p] == Le32(q) && b[8 + p..8 + p + q] == r.privEnc
            && b[8 + p + q..12 + p + q] == Le32(r.nextExternal) && b[12 + p + q..16 + p + q] == Le32(r.nextInternal)
            && b[16 + p + q..20 + p + q] == Le32(|r.name|) && b[20 + p + q..] == r.name
  {
    hide Le32, DefaultBytes;
    var b, p, q := DefaultBytes(r), |r.pubEnc|, |r.privEnc|;
    LayoutPieces(r, b);
    PrefixCut(b, 0, Le32(p), r.pubEnc);
    PrefixCut(b, 4 + p, Le32(q), r.privEnc);
    PrefixCut(b, 16 + p + q, Le32(|r.name|), r.name);
  }

  /** From arbitrary bytes an address row is read exactly when its 18 header bytes and its raw
      data are there. */
  lemma DecodeRowExact(b: Bytes, row: AddrRow)
    ensures DecodeRow(b) == Ok(row) <==>
            && 18 + |row.raw| < W32 && 18 + |row.raw| <= |b|
            && b[0] == row.kind && UnLe32(b[1..5]) == row.account && UnLe64(b[5..13]) == row.addTime
            && b[13] == row.sync
            && UnLe32(b[14..18]) == |row.raw| && b[18..18 + |row.raw|] == row.raw
    ensures |b| < 18 ==> DecodeRow(b) == Err(ErrDatabase)
  {
    hide UnLe32, UnLe64;
  }

  /** A chained address: branch, index.  A scope's key: purpose, coin.  Its schema: the
      internal type, then the external one. */
  lemma SmallLayouts(branch: uint32, index: uint32, sc: KeyScope, s: Schema)
    ensures PayloadBytes(Chain(branch, index))[..4] == Le32(branch)
    ensures PayloadBytes(Chain(branch, index))[4..] == Le32(index)
    ensures ScopeKey(sc)[..4] == Le32(sc.purpose) && ScopeKey(sc)[4..] == Le32(sc.coin)
    ensures SchemaBytes(s) == [s.internal, s.external]
  {
    hide Le32;
    Seam(Le32(branch), Le32(index));
    Seam(Le32(sc.purpose), Le32(sc.coin));
  }
}
