/** The byte form of address rows: the 18-byte envelope and the four payload layouts.
    Two places are modelled twice, as written and as evidently meant: the envelope's
    length guard and the chained payload's buffer.
 */
module AddressRow {
  import opened ByteCodec
  import opened Errors
  import opened AccountRow

  const ADT_CHAIN: byte := 0
  const ADT_IMPORT: byte := 1
  const ADT_SCRIPT: byte := 2
  const ADT_WITNESS: byte := 3
  const ADT_TAPROOT: byte := 4

  datatype AddrRow = AddrRow(kind: byte, account: uint32, addTime: uint64, sync: byte, raw: Bytes)

  datatype Payload =
    | Chain(branch: uint32, index: uint32)
    | Imported(pubEnc: Bytes, privEnc: Bytes)
    | Script(hashEnc: Bytes, scriptEnc: Bytes)
    | Witness(version: byte, secret: bool, hashEnc: Bytes, scriptEnc: Bytes)

  // ------------------------------------------------------------- two fields

  predicate PairFits(at: nat, a: Bytes, b: Bytes) { at + 8 + |a| + |b| < W32 }

  function Pair(a: Bytes, b: Bytes): (r: Bytes)
    requires |a| < W32 && |b| < W32
    ensures |r| == 8 + |a| + |b|
  {
    Field(a) + Field(b)
  }

  /** Two length-prefixed fields from offset `at`. */
  function DecodePair(raw: Bytes, at: uint32): (r: Outcome<(Bytes, Bytes)>)
    ensures !r.Err?
  {
    var (a, o1) :- ReadField(raw, at);
    var (b, o2) :- ReadField(raw, o1);
    Ok((a, b))
  }

  /** The two-field parsers, characterised: a wrapped offset never yields a success. */
  lemma DecodePairExact(raw: Bytes, at: uint32, a: Bytes, b: Bytes)
    ensures DecodePair(raw, at) == Ok((a, b)) <==>
            PairFits(at, a, b) && at + 8 + |a| + |b| <= |raw| && raw[at..at + 8 + |a| + |b|] == Pair(a, b)
  {
    hide Field, ReadField;
    if DecodePair(raw, at) == Ok((a, b)) {
      var (_, o1) := ReadField(raw, at).value;
      var (_, o2) := ReadField(raw, o1).value;
      ReadFieldExact(raw, at, a, o1);
      ReadFieldExact(raw, o1, b, o2);
      assert raw[at..o2] == raw[at..o1] + raw[o1..o2];
    } else if PairFits(at, a, b) && at + 8 + |a| + |b| <= |raw| && raw[at..at + 8 + |a| + |b|] == Pair(a, b) {
      PairIsRead(raw, at, a, b);
      assert false;
    }
  }

  lemma PairIsRead(raw: Bytes, at: uint32, a: Bytes, b: Bytes)
    requires PairFits(at, a, b) && at + 8 + |a| + |b| <= |raw| && raw[at..at + 8 + |a| + |b|] == Pair(a, b)
    ensures DecodePair(raw, at) == Ok((a, b))
  {
    hide Field, ReadField;
    PrefixCut(raw, at, Field(a), Field(b));
    ReadFieldExact(raw, at, a, at + 4 + |a|);
    ReadFieldExact(raw, at + 4 + |a|, b, at + 8 + |a| + |b|);
  }

  /** The writers of imported, script (empty head) and witness (two-byte head) payloads
      for fields of any length. */
  function EncodePair(head: Bytes, a: Bytes, b: Bytes): Outcome<Bytes> {
    var p, q := Trunc32(|a|), Trunc32(|b|);
    if |head| + 8 + p + q < W32 then Ok(head + Pair(a[..p], b[..q])) else Fault
  }

  /** serializeImportedAddress, serializeScriptAddress, serializeWitnessScriptAddress:
      the buffer is filled at a moving uint32 offset. */
  method SerializePair(head: Bytes, a: Bytes, b: Bytes) returns (r: Outcome<Bytes>)
    requires |head| <= 2
    ensures r == EncodePair(head, a, b)
  {
    hide Le32, UnLe, Trunc32, Field;
    var p, q := Trunc32(|a|), Trunc32(|b|);
    PairSum(|head|, a, b, p, q);
    var raw := new byte[(|head| + 8 + p + q) % W32](i => 0);
    if raw.Length < |head| { return Fault; }
    var offset := Snacl.CopyAt(raw, 0, head);
    assert raw[..offset] == head;
    var ok, o1 := WriteField(raw, offset, p, a);
    if !ok { return Fault; }
    ok, o1 := WriteField(raw, o1, q, b);
    if !ok { return Fault; }
    Nest(head, Field(a[..p]), Field(b[..q]));
    assert raw[..] == raw[..o1];
    r := Ok(raw[..]);
  }

  lemma PairSum(h: nat, a: Bytes, b: Bytes, p: uint32, q: uint32)
    requires h <= 2 && p == Trunc32(|a|) && q == Trunc32(|b|)
    ensures p <= |a| && q <= |b| && (h + 8 + p + q) % W32 <= h + 8 + p + q
    ensures h + 8 + p + q < W32 ==> (h + 8 + p + q) % W32 == h + 8 + p + q
  {
  }

  // --------------------------------------------------------------- payloads

  function SecretFlag(secret: bool): byte { if secret then 1 else 0 }

  predicate PayloadFits(p: Payload) {
    match p
    case Chain(_, _) => true
    case Imported(a, b) => PairFits(0, a, b)
    case Script(a, b) => PairFits(0, a, b)
    case Witness(_, _, a, b) => PairFits(2, a, b)
  }

  function PayloadBytes(p: Payload): Bytes
    requires PayloadFits(p)
  {
    match p
    case Chain(branch, index) => Le32(branch) + Le32(index)
    case Imported(a, b) => Pair(a, b)
    case Script(a, b) => Pair(a, b)
    case Witness(v, s, a, b) => [v, SecretFlag(s)] + Pair(a, b)
  }

  /** serializeChainedAddress as written: it slices a zero-length buffer. */
  function ChainedAsWritten(branch: uint32, index: uint32): Outcome<Bytes> {
    var raw: Bytes := [];
    var _ :- Slice(raw, 0, 4);
    Ok(raw)
  }

  lemma ChainedAsWrittenFaults(branch: uint32, index: uint32)
    ensures ChainedAsWritten(branch, index) == Fault
  {
  }

  /** fetchAddressByHash's dispatch on the row's type. */
  function DecodePayload(kind: byte, raw: Bytes): Outcome<Payload> {
    if kind == ADT_CHAIN then
      if |raw| != 8 then Err(ErrDatabase) else Ok(Chain(UnLe32(raw[..4]), UnLe32(raw[4..])))
    else if kind == ADT_IMPORT then
      if |raw| < 8 then Err(ErrDatabase) else
      var (a, b) :- DecodePair(raw, 0);
      Ok(Imported(a, b))
    else if kind == ADT_SCRIPT then
      if |raw| < 8 then Err(ErrDatabase) else
      var (a, b) :- DecodePair(raw, 0);
      Ok(Script(a, b))
    else if kind == ADT_WITNESS || kind == ADT_TAPROOT then
      if |raw| < 10 then Err(ErrDatabase) else
      var (a, b) :- DecodePair(raw, 2);
      Ok(Witness(raw[0], raw[1] == 1, a, b))
    else Err(ErrDatabase)
  }

  predicate KindOf(kind: byte, p: Payload) {
    match p
    case Chain(_, _) => kind == ADT_CHAIN
    case Imported(_, _) => kind == ADT_IMPORT
    case Script(_, _) => kind == ADT_SCRIPT
    case Witness(_, _, _, _) => kind == ADT_WITNESS || kind == ADT_TAPROOT
  }

  /** The buffer begins with the payload's layout; of the witness secret flag only whether
      it is 1 is read, and a chained payload has no bytes to spare. */
  ghost predicate Carries(raw: Bytes, p: Payload) {
    && PayloadFits(p)
    && match p
       case Chain(_, _) => raw == PayloadBytes(p)
       case Witness(v, s, a, b) =>
         && |raw| >= 10 && raw[0] == v && (raw[1] == 1 <==> s)
         && |raw| >= 10 + |a| + |b| && raw[2..10 + |a| + |b|] == Pair(a, b)
       case _ => PayloadBytes(p) <= raw
  }

  lemma ChainExact(raw: Bytes, branch: uint32, index: uint32)
    requires |raw| == 8
    ensures raw == Le32(branch) + Le32(index) <==> UnLe32(raw[..4]) == branch && UnLe32(raw[4..]) == index
  {
    hide Le32, UnLe;
    if raw == Le32(branch) + Le32(index) {
      Seam(Le32(branch), Le32(index));
      Le32Injective(UnLe32(raw[..4]), branch);
      Le32Injective(UnLe32(raw[4..]), index);
    } else {
      assert raw == raw[..4] + raw[4..];
    }
  }

  lemma PairAtStart(raw: Bytes, a: Bytes, b: Bytes)
    ensures DecodePair(raw, 0) == Ok((a, b)) <==> PairFits(0, a, b) && Pair(a, b) <= raw
    ensures DecodePair(raw, 0) == Ok((a, b)) ==> |raw| >= 8
  {
    hide Pair, DecodePair;
    DecodePairExact(raw, 0, a, b);
    if PairFits(0, a, b) && |Pair(a, b)| <= |raw| {
      assert raw[0..|Pair(a, b)|] == raw[..|Pair(a, b)|];
    }
  }

  /** The dispatching parser, characterised: for every type byte and every buffer it
      returns a payload exactly when the type is the payload's and the buffer carries it. */
  lemma DecodePayloadExact(kind: byte, raw: Bytes, p: Payload)
    ensures DecodePayload(kind, raw) == Ok(p) <==> KindOf(kind, p) && Carries(raw, p)
  {
    hide Pair, DecodePair, Le32, UnLe;
    if DecodePair(raw, 0).Ok? {
      assert DecodePair(raw, 0).value == (DecodePair(raw, 0).value.0, DecodePair(raw, 0).value.1);
    }
    if DecodePair(raw, 2).Ok? {
      assert DecodePair(raw, 2).value == (DecodePair(raw, 2).value.0, DecodePair(raw, 2).value.1);
    }
    match p
    case Chain(branch, index) => if |raw| == 8 { ChainExact(raw, branch, index); }
    case Imported(a, b) => PairAtStart(raw, a, b);
    case Script(a, b) => PairAtStart(raw, a, b);
    case Witness(v, s, a, b) => DecodePairExact(raw, 2, a, b);
  }

  // --------------------------------------------------------------- envelope

  function RowBytes(row: AddrRow): (b: Bytes)
    ensures |b| == 18 + |row.raw|
  {
    [row.kind] + (Le32(row.account) + (Le64(row.addTime) + ([row.sync] + (Le32(Trunc32(|row.raw|)) + row.raw))))
  }

  /** deserializeAddressRow with the guard that is meant: at least the header. */
  function DecodeRow(b: Bytes): Outcome<AddrRow> {
    if |b| < 18 then Err(ErrDatabase) else
    var raw :- Slice(b, 18, UnLe32(b[14..18]));
    Ok(AddrRow(b[0], UnLe32(b[1..5]), UnLe64(b[5..13]), b[13], raw))
  }

  /** ... and with the guard as written: exactly the header. */
  function DecodeRowAsWritten(b: Bytes): Outcome<AddrRow> {
    if |b| != 18 then Err(ErrDatabase) else DecodeRow(b)
  }

  lemma RowPieces(row: AddrRow)
    ensures var b := RowBytes(row);
            && b[0] == row.kind && b[1..5] == Le32(row.account) && b[5..13] == Le64(row.addTime)
            && b[13] == row.sync && b[14..18] == Le32(Trunc32(|row.raw|)) && b[18..] == row.raw
  {
    hide Le32, Le64, UnLe;
    var n := Le32(Trunc32(|row.raw|));
    var t4 := n + row.raw;
    var t3 := [row.sync] + t4;
    var t2 := Le64(row.addTime) + t3;
    var t1 := Le32(row.account) + t2;
    var b := RowBytes(row);
    PrefixCut(b, 0, [row.kind], t1);
    PrefixCut(b, 1, Le32(row.account), t2);
    PrefixCut(b, 5, Le64(row.addTime), t3);
    PrefixCut(b, 13, [row.sync], t4);
    PrefixCut(b, 14, n, row.raw);
    assert b[13..14] == [row.sync] && b[0..1] == [row.kind];
  }

  /** The envelope survives exactly when its raw data plus the header fits in uint32. */
  lemma RowRoundTrip(row: AddrRow)
    ensures DecodeRow(RowBytes(row)) == Ok(row) <==> 18 + |row.raw| < W32
  {
    hide Le32, Le64, UnLe, RowBytes;
    var b := RowBytes(row);
    RowPieces(row);
    Le32Injective(UnLe32(b[1..5]), row.account);
    Le64Injective(UnLe64(b[5..13]), row.addTime);
    Le32Injective(UnLe32(b[14..18]), Trunc32(|row.raw|));
    if 18 + |row.raw| < W32 {
      assert b[18..18 + |row.raw|] == row.raw;
    }
  }

  /** With the guard as written a stored row comes back exactly when it has no raw data,
      which no kind of address has. */
  lemma RowAsWrittenRoundTrip(row: AddrRow)
    ensures DecodeRowAsWritten(RowBytes(row)) == Ok(row) <==> row.raw == []
  {
    hide RowBytes, DecodeRow;
    RowRoundTrip(row);
  }

  // ------------------------------------------------------- storing and fetching

  function FetchRow(b: Bytes): Outcome<Payload> {
    var row :- DecodeRow(b);
    DecodePayload(row.kind, row.raw)
  }

  lemma CarriesItself(kind: byte, p: Payload)
    requires PayloadFits(p) && KindOf(kind, p)
    ensures DecodePayload(kind, PayloadBytes(p)) == Ok(p)
  {
    hide DecodePayload, Pair, Le32, UnLe;
    DecodePayloadExact(kind, PayloadBytes(p), p);
    if p.Witness? {
      Seam([p.version, SecretFlag(p.secret)], Pair(p.hashEnc, p.scriptEnc));
      assert PayloadBytes(p)[2..] == Pair(p.hashEnc, p.scriptEnc);
    }
  }

  /** An address row of any kind comes back as the same variant with the same fields. */
  lemma StoredPayloadComesBack(row: AddrRow, p: Payload)
    requires KindOf(row.kind, p) && PayloadFits(p) && row.raw == PayloadBytes(p) && 18 + |row.raw| < W32
    ensures FetchRow(RowBytes(row)) == Ok(p)
  {
    hide DecodePayload, RowBytes, DecodeRow, PayloadBytes;
    RowRoundTrip(row);
    CarriesItself(row.kind, p);
  }
}
