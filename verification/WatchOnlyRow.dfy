/** The watch-only account row.  The writer stores the master key fingerprint; the reader
    as written does not read it back.  The repaired reader is the writer's inverse exactly on
    rows whose lengths fit their prefixes; the one as written is so only on blank rows.
 */
module WatchOnlyRow {
  import opened ByteCodec
  import opened Errors
  import opened AccountRow
  import opened Keyring
  import opened ScopeIndex

  datatype WatchRow = WatchRow(
    pubEnc: Bytes, fingerprint: uint32, nextExternal: uint32, nextInternal: uint32, name: Bytes, schema: Option<Schema>)

  predicate WatchFits(r: WatchRow) { |r.pubEnc| < W32 && |r.name| < W32 }

  /** A field behind its length truncated to uint32; the bytes are written in full. */
  function LongField(b: Bytes): (r: Bytes)
    ensures |r| == 4 + |b|
    ensures |b| < W32 ==> r == Field(b)
  {
    if |b| < W32 then Field(b) else Le32(Trunc32(|b|)) + b
  }

  function SchemaTail(s: Option<Schema>): (b: Bytes)
    ensures |b| >= 1
  {
    match s
    case None => [0]
    case Some(x) => [1] + SchemaBytes(x)
  }

  /** What follows the fingerprint. */
  function Counters(r: WatchRow): (b: Bytes)
    ensures |b| >= 13
  {
    Le32(r.nextExternal) + (Le32(r.nextInternal) + (LongField(r.name) + SchemaTail(r.schema)))
  }

  /** serializeWatchOnlyAccountRow. */
  function WatchBytes(r: WatchRow): (b: Bytes)
    ensures |b| >= 21
  {
    LongField(r.pubEnc) + (Le32(r.fingerprint) + Counters(r))
  }

  // ----------------------------------------------------------- a byte reader

  function ReadN(b: Bytes, n: nat): Outcome<(Bytes, Bytes)> {
    if n <= |b| then Ok((b[..n], b[n..])) else Err(ErrDatabase)
  }

  function NextWord(b: Bytes): Outcome<(uint32, Bytes)> {
    var (w, rest) :- ReadN(b, 4);
    Ok((UnLe32(w), rest))
  }

  function NextField(b: Bytes): Outcome<(Bytes, Bytes)> {
    var (n, rest) :- NextWord(b);
    ReadN(rest, n)
  }

  function NextSchema(b: Bytes): Outcome<Option<Schema>> {
    var (flag, rest) :- ReadN(b, 1);
    if flag == [0] then Ok(None) else
    var (s, _) :- ReadN(rest, 2);
    Ok(Some(SchemaOfBytes(s)))
  }

  /** Name, flag and schema after the two counters. */
  function ReadTail(pub: Bytes, fp: uint32, ext: uint32, inn: uint32, b: Bytes): Outcome<WatchRow> {
    var (name, rest) :- NextField(b);
    var schema :- NextSchema(rest);
    Ok(WatchRow(pub, fp, ext, inn, name, schema))
  }

  function ReadCounters(pub: Bytes, fp: uint32, b: Bytes): Outcome<WatchRow> {
    var (ext, r1) :- NextWord(b);
    var (inn, r2) :- NextWord(r1);
    ReadTail(pub, fp, ext, inn, r2)
  }

  /** The reader with the fingerprint. */
  function Decode(raw: Bytes): Outcome<WatchRow> {
    if |raw| < 21 then Err(ErrDatabase) else
    var (pub, r1) :- NextField(raw);
    var (fp, r2) :- NextWord(r1);
    ReadCounters(pub, fp, r2)
  }

  /** deserializeWatchOnlyAccountRow as written: the fingerprint stays zero and its bytes
      are taken for the external counter. */
  function DecodeAsWritten(raw: Bytes): Outcome<WatchRow> {
    if |raw| < 21 then Err(ErrDatabase) else
    var (pub, r1) :- NextField(raw);
    ReadCounters(pub, 0, r1)
  }

  lemma WordThen(x: uint32, rest: Bytes)
    ensures NextWord(Le32(x) + rest) == Ok((x, rest))
  {
    hide Le32, UnLe;
    Seam(Le32(x), rest);
    Le32Injective(UnLe32(Le32(x)), x);
  }

  lemma FieldThen(f: Bytes, rest: Bytes)
    requires |f| < W32
    ensures NextField(Field(f) + rest) == Ok((f, rest))
  {
    hide Le32, UnLe, NextWord;
    Nest(Le32(|f|), f, rest);
    WordThen(|f|, f + rest);
    Seam(f, rest);
  }

  lemma SchemaThen(s: Option<Schema>)
    ensures NextSchema(SchemaTail(s)) == Ok(s)
  {
    if s.Some? {
      Seam([1], SchemaBytes(s.value));
      assert SchemaBytes(s.value)[..2] == SchemaBytes(s.value);
    }
  }

  lemma CountersThen(pub: Bytes, fp: uint32, r: WatchRow)
    requires WatchFits(r)
    ensures ReadCounters(pub, fp, Counters(r)) == Ok(r.(pubEnc := pub, fingerprint := fp))
  {
    hide Le32, UnLe, NextWord, NextField, NextSchema, SchemaTail, Field, LongField;
    var t2 := Field(r.name) + SchemaTail(r.schema);
    WordThen(r.nextExternal, Le32(r.nextInternal) + t2);
    WordThen(r.nextInternal, t2);
    FieldThen(r.name, SchemaTail(r.schema));
    SchemaThen(r.schema);
  }

  lemma FittingRowRoundTrip(r: WatchRow)
    requires WatchFits(r)
    ensures Decode(WatchBytes(r)) == Ok(r)
  {
    hide Le32, UnLe, NextWord, NextField, ReadCounters, Counters, Field, LongField;
    FieldThen(r.pubEnc, Le32(r.fingerprint) + Counters(r));
    WordThen(r.fingerprint, Counters(r));
    CountersThen(r.pubEnc, r.fingerprint, r);
  }

  lemma FieldsReadAreShort(b: Bytes)
    requires NextField(b).Ok?
    ensures |NextField(b).value.0| < W32
  {
    hide Le32, UnLe;
  }

  lemma RowsReadFit(pub: Bytes, fp: uint32, b: Bytes)
    requires ReadCounters(pub, fp, b).Ok?
    ensures ReadCounters(pub, fp, b).value.pubEnc == pub && |ReadCounters(pub, fp, b).value.name| < W32
  {
    hide Le32, UnLe, NextField, NextSchema, NextWord;
    var r1 := NextWord(b).value.1;
    FieldsReadAreShort(NextWord(r1).value.1);
  }

  /** The repaired reader gives a stored row back exactly when its fields are shorter than
      2^32 bytes. */
  lemma WatchRowRoundTrip(r: WatchRow)
    ensures Decode(WatchBytes(r)) == Ok(r) <==> WatchFits(r)
  {
    hide Le32, UnLe, NextWord, NextField, ReadCounters, WatchBytes;
    if WatchFits(r) {
      FittingRowRoundTrip(r);
    } else if Decode(WatchBytes(r)).Ok? {
      var (pub, r1) := NextField(WatchBytes(r)).value;
      FieldsReadAreShort(WatchBytes(r));
      var (fp, r2) := NextWord(r1).value;
      RowsReadFit(pub, fp, r2);
    }
  }

  predicate Blank(r: WatchRow) {
    r.fingerprint == 0 && r.nextExternal == 0 && r.nextInternal == 0 && r.name == [] && r.schema == None
  }

  lemma ZeroWordStartsWithZero()
    ensures Le32(0)[..1] == [0]
  {
    assert Le32(0)[0] == 0;
  }

  /** What the reader as written makes of a row's remaining bytes. */
  lemma AsWrittenShifts(r: WatchRow)
    requires WatchFits(r)
    ensures var tail := Le32(r.nextInternal) + (Field(r.name) + SchemaTail(r.schema));
            DecodeAsWritten(WatchBytes(r)) == ReadTail(r.pubEnc, 0, r.fingerprint, r.nextExternal, tail)
  {
    hide Le32, UnLe, NextWord, NextField, ReadTail, Field, LongField, SchemaTail;
    var tail := Le32(r.nextInternal) + (Field(r.name) + SchemaTail(r.schema));
    FieldThen(r.pubEnc, Le32(r.fingerprint) + Counters(r));
    WordThen(r.fingerprint, Counters(r));
    WordThen(r.nextExternal, tail);
  }

  lemma ZeroLengthName(r: WatchRow)
    requires WatchFits(r) && r.nextInternal == 0 && r.name == []
    ensures var tail := Le32(r.nextInternal) + (Field(r.name) + SchemaTail(r.schema));
            ReadTail(r.pubEnc, 0, r.fingerprint, r.nextExternal, tail)
            == Ok(WatchRow(r.pubEnc, 0, r.fingerprint, r.nextExternal, [], None))
  {
    hide Le32, UnLe, NextWord, SchemaTail;
    var rest := Field(r.name) + SchemaTail(r.schema);
    WordThen(0, rest);
    assert rest[..0] == [] && rest[0..] == rest;
    ZeroWordStartsWithZero();
    assert rest[..1] == Le32(0)[..1];
  }

  /** The reader as written gives a stored row back exactly when the row is blank and its
      key is shorter than 2^32 bytes. */
  lemma AsWrittenExact(r: WatchRow)
    ensures DecodeAsWritten(WatchBytes(r)) == Ok(r) <==> Blank(r) && |r.pubEnc| < W32
  {
    hide DecodeAsWritten, WatchBytes;
    if WatchFits(r) {
      AsWrittenFitting(r);
    } else {
      AsWrittenLong(r);
    }
  }

  lemma AsWrittenLong(r: WatchRow)
    requires !WatchFits(r)
    ensures DecodeAsWritten(WatchBytes(r)) != Ok(r)
  {
    hide Le32, UnLe, NextWord, NextField, ReadCounters, WatchBytes;
    if DecodeAsWritten(WatchBytes(r)).Ok? {
      var (pub, r1) := NextField(WatchBytes(r)).value;
      FieldsReadAreShort(WatchBytes(r));
      RowsReadFit(pub, 0, r1);
    }
  }

  lemma AsWrittenFitting(r: WatchRow)
    requires WatchFits(r)
    ensures DecodeAsWritten(WatchBytes(r)) == Ok(r) <==> Blank(r)
  {
    hide DecodeAsWritten, WatchBytes, Field, SchemaTail, Le32, UnLe, NextWord, NextSchema;
    AsWrittenShifts(r);
    if r.nextInternal == 0 && r.name == [] {
      ZeroLengthName(r);
    } else if r.nextInternal == 0 {
      NameReadIsEmpty(r);
    }
  }

  lemma NameReadIsEmpty(r: WatchRow)
    requires WatchFits(r) && r.nextInternal == 0 && r.name != []
    ensures var tail := Le32(r.nextInternal) + (Field(r.name) + SchemaTail(r.schema));
            ReadTail(r.pubEnc, 0, r.fingerprint, r.nextExternal, tail) != Ok(r)
  {
    hide Le32, UnLe, NextWord, SchemaTail, NextSchema, Field;
    WordThen(0, Field(r.name) + SchemaTail(r.schema));
  }
}
