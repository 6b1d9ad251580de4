/** The byte form of account rows: the default (BIP 44 like) row inside its
    type-and-length envelope.  Offsets are uint32 in the source, so every addition
    below may wrap and every slice may fault.
 */
module AccountRow {
  import opened ByteCodec
  import opened Errors
  import Snacl

  datatype AcctRow = AcctRow(pubEnc: Bytes, privEnc: Bytes, nextExternal: uint32, nextInternal: uint32, name: Bytes)

  datatype Envelope = Envelope(kind: byte, raw: Bytes)

  const ACCOUNT_DEFAULT: byte := 0

  // -------------------------------------------------------------- the layout

  /** A length-prefixed field. */
  function Field(b: Bytes): (r: Bytes)
    requires |b| < W32
    ensures |r| == 4 + |b|
  {
    Le32(|b|) + b
  }

  predicate Fits(r: AcctRow) {
    20 + |r.pubEnc| + |r.privEnc| + |r.name| < W32
  }

  function DefaultBytes(r: AcctRow): (b: Bytes)
    requires Fits(r)
    ensures |b| == 20 + |r.pubEnc| + |r.privEnc| + |r.name|
  {
    Field(r.pubEnc) + (Field(r.privEnc) + (Le32(r.nextExternal) + (Le32(r.nextInternal) + Field(r.name))))
  }

  // ------------------------------------------------------------ slices in Go

  /** b[lo : lo+n] with a uint32 upper bound. */
  function Slice(b: Bytes, lo: uint32, n: uint32): (r: Outcome<Bytes>)
    ensures r.Ok? <==> lo + n < W32 && lo + n <= |b|
    ensures r.Ok? ==> r.value == b[lo..lo + n]
    ensures !r.Err?
  {
    var hi := Add32(lo, n);
    if lo <= hi && hi <= |b| then Ok(b[lo..hi]) else Fault
  }

  /** binary.LittleEndian.Uint32(b[at:at+4]) and the advanced offset. */
  function ReadWord(b: Bytes, at: uint32): (r: Outcome<(uint32, uint32)>)
    ensures r.Ok? <==> at + 4 < W32 && at + 4 <= |b|
    ensures r.Ok? ==> r.value.1 == at + 4 && b[at..at + 4] == Le32(r.value.0)
    ensures !r.Err?
  {
    var w :- Slice(b, at, 4);
    Ok((UnLe32(w), Add32(at, 4)))
  }

  /** A length word and then that many bytes. */
  function ReadField(b: Bytes, at: uint32): (r: Outcome<(Bytes, uint32)>)
    ensures !r.Err?
  {
    var (n, start) :- ReadWord(b, at);
    var f :- Slice(b, start, n);
    Ok((f, Add32(start, n)))
  }

  /** Reading a field succeeds exactly where the buffer holds one at the true offset;
      a wrapped offset never yields a success. */
  lemma ReadFieldExact(b: Bytes, at: uint32, f: Bytes, next: uint32)
    ensures ReadField(b, at) == Ok((f, next)) <==>
            next == at + 4 + |f| && next <= |b| && b[at..next] == Field(f)
  {
    hide Le32, UnLe, Add32;
    var w := ReadWord(b, at);
    if w.Ok? && ReadField(b, at).Ok? {
      var n := w.value.0;
      var g := ReadField(b, at).value.0;
      assert b[at..at + 4 + n] == b[at..at + 4] + b[at + 4..at + 4 + n];
      assert b[at..at + 4 + |g|] == Field(g);
      if next == at + 4 + |f| && next <= |b| && b[at..next] == Field(f) {
        FieldHead(b, at, f);
        Le32Injective(n, |f|);
      }
    } else if next == at + 4 + |f| && next <= |b| && b[at..next] == Field(f) {
      FieldIsRead(b, at, f);
      assert false;
    }
  }

  lemma FieldIsRead(b: Bytes, at: uint32, f: Bytes)
    requires at + 4 + |f| < W32 && at + 4 + |f| <= |b| && b[at..at + 4 + |f|] == Field(f)
    ensures ReadField(b, at).Ok?
  {
    FieldHead(b, at, f);
    Le32Injective(ReadWord(b, at).value.0, |f|);
  }

  lemma FieldHead(b: Bytes, at: nat, f: Bytes)
    requires at + 4 + |f| <= |b| && |f| < W32 && b[at..at + 4 + |f|] == Field(f)
    ensures b[at..at + 4] == Le32(|f|)
    ensures b[at + 4..at + 4 + |f|] == f
  {
    Seam(Le32(|f|), f);
    assert b[at..at + 4] == Field(f)[..4];
    assert b[at + 4..at + 4 + |f|] == Field(f)[4..];
  }

  // ------------------------------------------------------- the default parser

  function DecodeDefault(raw: Bytes): (r: Outcome<AcctRow>)
    ensures r.Err? <==> |raw| < 20
    ensures r.Err? ==> r.code == ErrDatabase
  {
    if |raw| < 20 then Err(ErrDatabase) else
    var (pub, o1) :- ReadField(raw, 0);
    var (priv, o2) :- ReadField(raw, o1);
    var (ext, o3) :- ReadWord(raw, o2);
    var (inn, o4) :- ReadWord(raw, o3);
    var (name, o5) :- ReadField(raw, o4);
    Ok(AcctRow(pub, priv, ext, inn, name))
  }

  /** Every successful parse returned the fields at the true offsets: re-encoding the
      row gives back the consumed prefix of the buffer. */
  lemma DecodedFieldsAreThePrefix(raw: Bytes)
    requires DecodeDefault(raw).Ok?
    ensures var r := DecodeDefault(raw).value; Fits(r) && DefaultBytes(r) <= raw
  {
    var r := DecodeDefault(raw).value;
    var (_, o1) := ReadField(raw, 0).value;
    var (_, o2) := ReadField(raw, o1).value;
    var (_, o3) := ReadWord(raw, o2).value;
    var (_, o4) := ReadWord(raw, o3).value;
    var (_, o5) := ReadField(raw, o4).value;
    ReadFieldExact(raw, 0, r.pubEnc, o1);
    ReadFieldExact(raw, o1, r.privEnc, o2);
    ReadFieldExact(raw, o4, r.name, o5);
    JoinFive(raw, o1, o2, o3, o4, o5);
  }

  lemma JoinFive(b: Bytes, o1: nat, o2: nat, o3: nat, o4: nat, o5: nat)
    requires o1 <= o2 <= o3 <= o4 <= o5 <= |b|
    ensures b[..o5] == b[0..o1] + (b[o1..o2] + (b[o2..o3] + (b[o3..o4] + b[o4..o5])))
  {
    assert b[o3..o5] == b[o3..o4] + b[o4..o5];
    assert b[o2..o5] == b[o2..o3] + b[o3..o5];
    assert b[o1..o5] == b[o1..o2] + b[o2..o5];
    assert b[..o5] == b[0..o1] + b[o1..o5];
  }

  /** The five pieces of the layout sit at their offsets in any buffer that starts with it. */
  lemma LayoutPieces(r: AcctRow, raw: Bytes)
    requires Fits(r) && DefaultBytes(r) <= raw
    ensures var o1 := 4 + |r.pubEnc|; var o2 := o1 + 4 + |r.privEnc|; var o5 := o2 + 12 + |r.name|;
            && o5 <= |raw|
            && raw[0..o1] == Field(r.pubEnc) && raw[o1..o2] == Field(r.privEnc)
            && raw[o2..o2 + 4] == Le32(r.nextExternal) && raw[o2 + 4..o2 + 8] == Le32(r.nextInternal)
            && raw[o2 + 8..o5] == Field(r.name)
  {
    hide Le32, UnLe, Field;
    var o1 := 4 + |r.pubEnc|;
    var o2 := o1 + 4 + |r.privEnc|;
    var e, i, n := Le32(r.nextExternal), Le32(r.nextInternal), Field(r.name);
    var t3, t2, t1 := e + (i + n), Field(r.privEnc) + (e + (i + n)), DefaultBytes(r);
    PrefixCut(raw, 0, Field(r.pubEnc), t2);
    PrefixCut(raw, o1, Field(r.privEnc), t3);
    PrefixCut(raw, o2, e, i + n);
    PrefixCut(raw, o2 + 4, i, n);
  }

  lemma PrefixCut(b: Bytes, at: nat, x: Bytes, y: Bytes)
    requires at + |x| + |y| <= |b| && b[at..at + |x| + |y|] == x + y
    ensures b[at..at + |x|] == x
    ensures b[at + |x|..at + |x| + |y|] == y
  {
    Seam(x, y);
    assert b[at..at + |x|] == (x + y)[..|x|];
    assert b[at + |x|..at + |x| + |y|] == (x + y)[|x|..];
  }

  lemma PrefixDecodes(raw: Bytes, r: AcctRow)
    requires Fits(r) && DefaultBytes(r) <= raw
    ensures DecodeDefault(raw) == Ok(r)
  {
    hide Le32, UnLe, Field, ReadField;
    LayoutPieces(r, raw);
    var o1 := 4 + |r.pubEnc|;
    var o2 := o1 + 4 + |r.privEnc|;
    ReadFieldExact(raw, 0, r.pubEnc, o1);
    ReadFieldExact(raw, o1, r.privEnc, o2);
    ReadFieldExact(raw, o2 + 8, r.name, o2 + 12 + |r.name|);
    Le32Injective(ReadWord(raw, o2).value.0, r.nextExternal);
    Le32Injective(ReadWord(raw, o2 + 4).value.0, r.nextInternal);
  }

  /** The parser, characterised: it returns r exactly on the buffers that begin with r's
      layout (and r fits in uint32 arithmetic); below 20 bytes it reports an error; on
      every other buffer it faults. */
  lemma DecodeDefaultExact(raw: Bytes, r: AcctRow)
    ensures DecodeDefault(raw) == Ok(r) <==> Fits(r) && DefaultBytes(r) <= raw
  {
    if DecodeDefault(raw) == Ok(r) {
      DecodedFieldsAreThePrefix(raw);
    } else if Fits(r) && DefaultBytes(r) <= raw {
      PrefixDecodes(raw, r);
    }
  }

  // ------------------------------------------------------- the default writer

  /** What serializeDefaultAccountRow returns for fields of any length: the lengths are
      truncated to uint32 and their sum wraps. */
  function EncodeDefault(r: AcctRow): (b: Outcome<Bytes>) {
    if Fits(Cut(r)) then Ok(DefaultBytes(Cut(r))) else Fault
  }

  /** The row whose fields are cut to their lengths modulo 2^32. */
  function Cut(r: AcctRow): AcctRow {
    r.(pubEnc := r.pubEnc[..Trunc32(|r.pubEnc|)],
       privEnc := r.privEnc[..Trunc32(|r.privEnc|)],
       name := r.name[..Trunc32(|r.name|)])
  }

  lemma EncodeDefaultFits(r: AcctRow)
    requires Fits(r)
    ensures EncodeDefault(r) == Ok(DefaultBytes(r))
  {
    hide Le32, UnLe;
    assert r.pubEnc[..|r.pubEnc|] == r.pubEnc;
    assert r.privEnc[..|r.privEnc|] == r.privEnc;
    assert r.name[..|r.name|] == r.name;
  }

  /** copy(raw[lo:lo+n], src) with a uint32 upper bound, and the advanced offset. */
  method WriteSlice(raw: array<byte>, lo: uint32, n: uint32, src: Bytes) returns (ok: bool, next: uint32)
    requires n <= |src|
    modifies raw
    ensures ok <==> lo + n < W32 && lo + n <= raw.Length
    ensures ok ==> next == lo + n && raw[..next] == old(raw[..lo]) + src[..n]
  {
    next := Add32(lo, n);
    ok := lo <= next && next <= raw.Length;
    if ok {
      var _ := Snacl.CopyAt(raw, lo, src[..n]);
    }
  }

  /** PutUint32(raw[at:at+4], x). */
  method WriteWord(raw: array<byte>, at: uint32, x: uint32) returns (ok: bool, next: uint32)
    modifies raw
    ensures ok <==> at + 4 < W32 && at + 4 <= raw.Length
    ensures ok ==> next == at + 4 && raw[..next] == old(raw[..at]) + Le32(x)
  {
    hide Le32, UnLe, Add32;
    ok, next := WriteSlice(raw, at, 4, Le32(x));
    assert Le32(x)[..4] == Le32(x);
  }

  /** A length word and a field, at a moving uint32 offset. */
  method WriteField(raw: array<byte>, at: uint32, n: uint32, src: Bytes) returns (ok: bool, next: uint32)
    requires n <= |src|
    modifies raw
    ensures ok <==> at + 4 + n < W32 && at + 4 + n <= raw.Length
    ensures ok ==> next == at + 4 + n && raw[..next] == old(raw[..at]) + Field(src[..n])
  {
    hide Le32, UnLe, Add32;
    ok, next := WriteWord(raw, at, n);
    if ok {
      ok, next := WriteSlice(raw, next, n, src);
      if ok {
        Nest(old(raw[..at]), Le32(n), src[..n]);
      }
    }
  }

  method SerializeDefaultAccountRow(r: AcctRow) returns (b: Outcome<Bytes>)
    ensures b == EncodeDefault(r)
  {
    hide Le32, UnLe, Add32, Trunc32, Field, DefaultBytes;
    var pubLen, privLen, nameLen := Trunc32(|r.pubEnc|), Trunc32(|r.privEnc|), Trunc32(|r.name|);
    ghost var cut := Cut(r);
    LengthSum(r, pubLen, privLen, nameLen);
    var raw := new byte[Add32(Add32(Add32(20, pubLen), privLen), nameLen)](i => 0);
    var ok, offset := WriteField(raw, 0, pubLen, r.pubEnc);
    if !ok { return Fault; }
    ok, offset := WriteField(raw, offset, privLen, r.privEnc);
    if !ok { return Fault; }
    ok, offset := WriteWord(raw, offset, r.nextExternal);
    if !ok { return Fault; }
    ok, offset := WriteWord(raw, offset, r.nextInternal);
    if !ok { return Fault; }
    ok, offset := WriteField(raw, offset, nameLen, r.name);
    if !ok { return Fault; }
    FiveInOrder(cut);
    assert raw[..] == raw[..offset];
    b := Ok(raw[..]);
  }

  lemma LengthSum(r: AcctRow, p: uint32, q: uint32, n: uint32)
    requires p == Trunc32(|r.pubEnc|) && q == Trunc32(|r.privEnc|) && n == Trunc32(|r.name|)
    ensures p <= |r.pubEnc| && q <= |r.privEnc| && n <= |r.name|
    ensures Add32(Add32(Add32(20, p), q), n) <= 20 + p + q + n
    ensures 20 + p + q + n < W32 ==> Add32(Add32(Add32(20, p), q), n) == 20 + p + q + n
  {
  }

  lemma FiveInOrder(r: AcctRow)
    requires Fits(r)
    ensures [] + Field(r.pubEnc) + Field(r.privEnc) + Le32(r.nextExternal) + Le32(r.nextInternal) + Field(r.name)
            == DefaultBytes(r)
  {
    hide Le32, UnLe, Field;
    var a, b, c, d, e := Field(r.pubEnc), Field(r.privEnc), Le32(r.nextExternal), Le32(r.nextInternal), Field(r.name);
    Nest(a, b, c + (d + e));
    Nest(a + b, c, d + e);
    Nest(a + b + c, d, e);
    assert [] + a == a;
  }

  // ------------------------------------------------------------ the envelope

  function EncodeEnvelope(e: Envelope): (b: Bytes)
    ensures |b| == 5 + |e.raw|
  {
    [e.kind] + (Le32(Trunc32(|e.raw|)) + e.raw)
  }

  function DecodeEnvelope(b: Bytes): (r: Outcome<Envelope>)
    ensures r.Err? <==> |b| < 5
  {
    if |b| < 5 then Err(ErrDatabase) else
    var raw :- Slice(b, 5, UnLe32(b[1..5]));
    Ok(Envelope(b[0], raw))
  }

  /** The envelope survives exactly when its length plus the header fits in uint32. */
  lemma EnvelopeRoundTrip(e: Envelope)
    ensures DecodeEnvelope(EncodeEnvelope(e)) == Ok(e) <==> 5 + |e.raw| < W32
    ensures W32 - 5 <= |e.raw| < W32 ==> DecodeEnvelope(EncodeEnvelope(e)) == Fault
  {
    hide Le32, UnLe;
    var b, n := EncodeEnvelope(e), Trunc32(|e.raw|);
    Seam([e.kind], Le32(n) + e.raw);
    assert b[1..] == Le32(n) + e.raw;
    Seam(Le32(n), e.raw);
    assert b[1..5] == b[1..][..4];
    assert b[5..] == b[1..][4..] == e.raw;
    Le32Injective(UnLe32(b[1..5]), n);
    if 5 + |e.raw| < W32 {
      assert b[5..5 + n] == e.raw;
    }
  }

  // ------------------------------------------------- storing and loading a row

  /** putDefaultAccountInfo's value bytes. */
  function StoredRow(r: AcctRow): Outcome<Bytes> {
    var raw :- EncodeDefault(r);
    Ok(EncodeEnvelope(Envelope(ACCOUNT_DEFAULT, raw)))
  }

  /** fetchAccountInfo's parse, restricted to default rows. */
  function LoadRow(b: Bytes): Outcome<AcctRow> {
    var e :- DecodeEnvelope(b);
    if e.kind == ACCOUNT_DEFAULT then DecodeDefault(e.raw) else Err(ErrAccountNotFound)
  }

  lemma TruncatedRowDiffers(r: AcctRow)
    requires EncodeDefault(r).Ok? && !Fits(r)
    ensures DecodeDefault(EncodeDefault(r).value) != Ok(r)
  {
    DecodeDefaultExact(EncodeDefault(r).value, r);
  }

  /** A row survives inner encode, envelope encode, envelope decode and inner decode
      exactly when 25 plus its three field lengths is below 2^32. */
  lemma StoredRowRoundTrip(r: AcctRow)
    ensures StoredRow(r).Ok? && LoadRow(StoredRow(r).value) == Ok(r)
            <==> 25 + |r.pubEnc| + |r.privEnc| + |r.name| < W32
  {
    hide Le32, UnLe, DecodeDefault, DefaultBytes, EncodeEnvelope, DecodeEnvelope;
    if EncodeDefault(r).Ok? {
      var raw := EncodeDefault(r).value;
      EnvelopeRoundTrip(Envelope(ACCOUNT_DEFAULT, raw));
      if Fits(r) {
        EncodeDefaultFits(r);
        DecodeDefaultExact(raw, r);
      } else {
        TruncatedRowDiffers(r);
      }
    }
  }

  lemma StoredRowInjective(r: AcctRow, s: AcctRow)
    requires Fits(r) && Fits(s)
    requires StoredRow(r) == StoredRow(s)
    ensures r == s
  {
    hide Le32, UnLe, DecodeDefault, DefaultBytes;
    EncodeDefaultFits(r);
    EncodeDefaultFits(s);
    var a, b := DefaultBytes(r), DefaultBytes(s);
    Seam([ACCOUNT_DEFAULT], Le32(|a|) + a);
    Seam([ACCOUNT_DEFAULT], Le32(|b|) + b);
    Seam(Le32(|a|), a);
    Seam(Le32(|b|), b);
    assert a == b;
    DecodeDefaultExact(a, r);
    DecodeDefaultExact(b, s);
  }
}
