/** The address buckets of a scope: rows by address hash, the hash-to-account index and
    the nested per-account index that iteration walks.
 */
module AddressStore {
  import opened ByteCodec
  import opened Errors
  import opened Primitives
  import opened AccountRow
  import opened AccountTable
  import opened AccountStore
  import opened AddressRow
  import opened Keyring

  datatype AddrIndex = AddrIndex(rows: Bucket, forward: Bucket, nested: map<Bytes, Bucket>)

  function AccountOf(b: Bytes): uint32 {
    if DecodeRow(b).Ok? then DecodeRow(b).value.account else 0
  }

  /** Row, forward entry and nested entry of one address hash agree. */
  ghost predicate Indexed(ix: AddrIndex, h: Bytes)
    requires h in ix.rows
  {
    var a := Le32(AccountOf(ix.rows[h]));
    && |h| == 32 && FetchRow(ix.rows[h]).Ok?
    && h in ix.forward && ix.forward[h] == a
    && a in ix.nested && h in ix.nested[a]
  }

  /** What every sequence of stores keeps. */
  ghost predicate IndexOK(ix: AddrIndex) {
    && (forall h :: h in ix.rows ==> Indexed(ix, h))
    && (forall h :: h in ix.forward ==> h in ix.rows)
    && (forall a, h :: a in ix.nested && h in ix.nested[a] ==> h in ix.rows)
  }

  /** No nested entry is stale: the buckets partition the rows by account. */
  ghost predicate NoStale(ix: AddrIndex) {
    forall a, h :: a in ix.nested && h in ix.nested[a] && h in ix.rows ==> a == Le32(AccountOf(ix.rows[h]))
  }

  /** putAddress and putAddrAccountIndex. */
  function PutAddr(ix: AddrIndex, h: Bytes, row: AddrRow): AddrIndex {
    var a := Le32(row.account);
    var bucket := if a in ix.nested then ix.nested[a] else map[];
    AddrIndex(ix.rows[h := RowBytes(row)], ix.forward[h := a], ix.nested[a := bucket[h := [0]]])
  }

  ghost predicate Stores(row: AddrRow, p: Payload) {
    KindOf(row.kind, p) && PayloadFits(p) && row.raw == PayloadBytes(p) && 18 + |row.raw| <= MAX_VALUE
  }

  lemma StoredRowFacts(row: AddrRow, p: Payload)
    requires Stores(row, p)
    ensures FetchRow(RowBytes(row)) == Ok(p) && AccountOf(RowBytes(row)) == row.account
  {
    hide FetchRow, DecodeRow, RowBytes, PayloadBytes, PayloadFits;
    StoredPayloadComesBack(row, p);
    RowRoundTrip(row);
  }

  lemma PutKeepsIndex(ix: AddrIndex, h: Bytes, row: AddrRow, p: Payload)
    requires IndexOK(ix) && |h| == 32 && Stores(row, p)
    ensures IndexOK(PutAddr(ix, h, row))
  {
    hide FetchRow, AccountOf, RowBytes, Stores, Le32, UnLe;
    StoredRowFacts(row, p);
    var ix' := PutAddr(ix, h, row);
    forall g | g in ix'.rows ensures Indexed(ix', g) {
      if g != h { assert Indexed(ix, g); }
    }
  }

  /** Storing keeps the nested buckets exact if and only if the address is new or stays
      with its account. */
  lemma PutKeepsExactness(ix: AddrIndex, h: Bytes, row: AddrRow, p: Payload)
    requires IndexOK(ix) && NoStale(ix) && |h| == 32 && Stores(row, p)
    ensures NoStale(PutAddr(ix, h, row)) <==> h !in ix.rows || AccountOf(ix.rows[h]) == row.account
  {
    hide FetchRow, AccountOf, RowBytes, Stores, Le32, UnLe;
    StoredRowFacts(row, p);
    var ix' := PutAddr(ix, h, row);
    if h in ix.rows {
      assert Indexed(ix, h);
      var a := Le32(AccountOf(ix.rows[h]));
      Le32Injective(AccountOf(ix.rows[h]), row.account);
      assert a in ix'.nested && h in ix'.nested[a] && h in ix'.rows;
    }
  }

  // --------------------------------------------------------------------- runs

  /** One putAddress: the hash, the row and the payload in it. */
  datatype Placed = Placed(hash: Bytes, row: AddrRow, payload: Payload)

  function PutAll(puts: seq<Placed>): AddrIndex {
    if puts == [] then AddrIndex(map[], map[], map[])
    else var last := puts[|puts| - 1]; PutAddr(PutAll(puts[..|puts| - 1]), last.hash, last.row)
  }

  ghost predicate AllStore(puts: seq<Placed>) {
    forall i :: 0 <= i < |puts| ==> |puts[i].hash| == 32 && Stores(puts[i].row, puts[i].payload)
  }

  /** No address is ever put under two accounts. */
  ghost predicate NoMove(puts: seq<Placed>) {
    forall i, j ::
      0 <= i < |puts| && 0 <= j < |puts| && puts[i].hash == puts[j].hash ==> puts[i].row.account == puts[j].row.account
  }

  ghost predicate PutUnder(puts: seq<Placed>, h: Bytes, account: uint32) {
    exists i :: 0 <= i < |puts| && puts[i].hash == h && puts[i].row.account == account
  }

  ghost predicate InNested(ix: AddrIndex, account: uint32, h: Bytes) {
    Le32(account) in ix.nested && h in ix.nested[Le32(account)]
  }

  /** The index is sound, a row names an account its address was put under, and an address
      is in the nested bucket of exactly the accounts it was put under. */
  ghost predicate Traces(ix: AddrIndex, puts: seq<Placed>) {
    && IndexOK(ix)
    && (forall h :: h in ix.rows ==> PutUnder(puts, h, AccountOf(ix.rows[h])))
    && (forall a, h :: InNested(ix, a, h) <==> PutUnder(puts, h, a))
    && (forall a :: a in ix.nested ==> |a| == 4)
  }

  lemma PutUnderMore(puts: seq<Placed>, p: Placed, h: Bytes, a: uint32)
    ensures PutUnder(puts + [p], h, a) <==> PutUnder(puts, h, a) || (p.hash == h && p.row.account == a)
  {
    var more := puts + [p];
    if PutUnder(puts, h, a) {
      var i :| 0 <= i < |puts| && puts[i].hash == h && puts[i].row.account == a;
      assert more[i] == puts[i];
    }
    assert more[|puts|] == p;
  }

  lemma InNestedMore(ix: AddrIndex, p: Placed, h: Bytes, a: uint32)
    ensures InNested(PutAddr(ix, p.hash, p.row), a, h) <==> InNested(ix, a, h) || (p.hash == h && p.row.account == a)
  {
    hide Le32, UnLe, RowBytes;
    Le32Injective(a, p.row.account);
  }

  lemma TraceOne(ix: AddrIndex, puts: seq<Placed>, p: Placed)
    requires Traces(ix, puts) && |p.hash| == 32 && Stores(p.row, p.payload)
    ensures Traces(PutAddr(ix, p.hash, p.row), puts + [p])
  {
    hide Le32, UnLe, Stores, RowBytes, FetchRow, AccountOf, IndexOK, PutUnder, InNested;
    PutKeepsIndex(ix, p.hash, p.row, p.payload);
    StoredRowFacts(p.row, p.payload);
    forall h, a ensures PutUnder(puts + [p], h, a) <==> PutUnder(puts, h, a) || (p.hash == h && p.row.account == a) {
      PutUnderMore(puts, p, h, a);
    }
    forall h, a: uint32
      ensures InNested(PutAddr(ix, p.hash, p.row), a, h) <==> InNested(ix, a, h) || (p.hash == h && p.row.account == a)
    {
      InNestedMore(ix, p, h, a);
    }
  }

  lemma {:induction false} PutAllTraces(puts: seq<Placed>)
    requires AllStore(puts)
    ensures Traces(PutAll(puts), puts)
  {
    hide Traces, PutAddr, Stores;
    if puts == [] {
      NothingTraced();
    } else {
      var n := |puts| - 1;
      PutAllTraces(puts[..n]);
      TraceOne(PutAll(puts[..n]), puts[..n], puts[n]);
      assert puts[..n] + [puts[n]] == puts;
    }
  }

  lemma NothingTraced()
    ensures Traces(AddrIndex(map[], map[], map[]), [])
  {
  }

  /** Every store built by putAddress keeps its indexes in agreement, and its nested
      buckets are exact if and only if no address was ever put under two accounts: moving
      an address away and back does not repair them. */
  lemma RunIndexExact(puts: seq<Placed>)
    requires AllStore(puts)
    ensures IndexOK(PutAll(puts))
    ensures NoStale(PutAll(puts)) <==> NoMove(puts)
  {
    hide PutAll, AllStore, AccountOf, Le32, UnLe;
    PutAllTraces(puts);
    var ix := PutAll(puts);
    if NoStale(ix) {
      forall i, j | 0 <= i < |puts| && 0 <= j < |puts| && puts[i].hash == puts[j].hash
        ensures puts[i].row.account == puts[j].row.account
      {
        assert PutUnder(puts, puts[i].hash, puts[i].row.account) && PutUnder(puts, puts[i].hash, puts[j].row.account);
        assert InNested(ix, puts[i].row.account, puts[i].hash) && InNested(ix, puts[j].row.account, puts[i].hash);
        assert puts[i].hash in ix.rows;
        assert Le32(puts[i].row.account) == Le32(AccountOf(ix.rows[puts[i].hash])) == Le32(puts[j].row.account);
        Le32Injective(puts[i].row.account, puts[j].row.account);
      }
    }
    if NoMove(puts) {
      forall a, h | a in ix.nested && h in ix.nested[a] && h in ix.rows ensures a == Le32(AccountOf(ix.rows[h])) {
        assert a == Le32(UnLe32(a)) && InNested(ix, UnLe32(a), h);
        assert PutUnder(puts, h, UnLe32(a)) && PutUnder(puts, h, AccountOf(ix.rows[h]));
      }
    }
  }

  // ------------------------------------------------------ the path of a stored row

  /** What fetchAddress tells loadAndCacheAddress of a chained row: the path to derive; None
      for the other kinds of row. */
  function RowPath(ix: AddrIndex, h: Bytes): Outcome<Option<Path>> {
    if h !in ix.rows then Err(ErrAddressNotFound) else
    var row :- DecodeRow(ix.rows[h]);
    var payload :- DecodePayload(row.kind, row.raw);
    match payload
    case Chain(branch, index) => Ok(Some(Path(row.account, branch, index)))
    case _ => Ok(None)
  }

  /** A chained address stored under its account, branch and index is read back as that very
      path, and storing another address does not change it. */
  lemma StoredPathComesBack(ix: AddrIndex, h: Bytes, row: AddrRow, p: Payload, g: Bytes)
    requires Stores(row, p)
    ensures RowPath(PutAddr(ix, h, row), h) == Ok(if p.Chain? then Some(Path(row.account, p.branch, p.index)) else None)
    ensures g != h ==> RowPath(PutAddr(ix, h, row), g) == RowPath(ix, g)
  {
    hide Le32, UnLe, Le64, RowBytes, PayloadBytes, DecodePayload, DecodeRow;
    RowRoundTrip(row);
    CarriesItself(row.kind, p);
  }

  /** The rows of an account. */
  ghost function RowsOf(ix: AddrIndex, account: uint32): set<Bytes> {
    set h | h in ix.rows && AccountOf(ix.rows[h]) == account
  }

  lemma NestedIsRows(ix: AddrIndex, account: uint32)
    requires IndexOK(ix) && NoStale(ix)
    ensures NestedKeys(ix, account) == RowsOf(ix, account)
  {
    hide FetchRow, AccountOf, Le32, UnLe;
    var keys := NestedKeys(ix, account);
    forall h ensures h in keys <==> h in RowsOf(ix, account) {
      if h in ix.rows {
        assert Indexed(ix, h);
        Le32Injective(AccountOf(ix.rows[h]), account);
      }
    }
  }

  class AddressBuckets {
    var rows: Bucket
    var forward: Bucket
    var nested: map<Bytes, Bucket>

    function Index(): AddrIndex
      reads this
    {
      AddrIndex(rows, forward, nested)
    }

    /** putAddress: the row under its hash, then both index entries. */
    method PutAddress(c: Crypto, id: Bytes, row: AddrRow, ghost p: Payload) returns (r: Outcome<()>)
      requires HashLaws(c) && IndexOK(Index())
      requires KindOf(row.kind, p) && PayloadFits(p) && row.raw == PayloadBytes(p)
      modifies this
      ensures IndexOK(Index())
      ensures r.Ok? <==> 18 + |row.raw| <= MAX_VALUE
      ensures r.Ok? ==> Index() == PutAddr(old(Index()), c.sha256(id), row) && FetchRow(rows[c.sha256(id)]) == Ok(p)
      ensures !r.Ok? ==> r == Err(ErrDatabase) && unchanged(this)
    {
      hide IndexOK, FetchRow, RowBytes, PayloadBytes, PayloadFits, Le32, UnLe;
      var h := c.sha256(id);
      var put := Put(rows, h, RowBytes(row));
      if !put.Ok? {
        return Err(ErrDatabase);
      }
      StoredRowFacts(row, p);
      PutKeepsIndex(Index(), h, row, p);
      rows := put.value;
      forward := Put(forward, h, Le32(row.account)).value;
      var bucket := if Le32(row.account) in nested then nested[Le32(row.account)] else map[];
      nested := nested[Le32(row.account) := Put(bucket, h, [0]).value];
      r := Ok(());
    }

    method FetchAddressByHash(h: Bytes) returns (r: Outcome<Payload>)
      ensures r == if h in rows then FetchRow(rows[h]) else Err(ErrAddressNotFound)
      ensures IndexOK(Index()) ==> (r.Ok? <==> h in rows) && !r.Fault?
    {
      assert IndexOK(Index()) && h in rows ==> Indexed(Index(), h);
      var row := Get(rows, h);
      if row == None {
        return Err(ErrAddressNotFound);
      }
      r := FetchRow(row.value);
    }

    /** forEachAccountAddress with AccountProperties' counting callback: fails exactly when
        some nested entry has no readable row, else counts the entries. */
    method CountAddresses(account: uint32) returns (r: Outcome<uint32>)
      ensures r.Ok? <==> forall h :: h in NestedKeys(Index(), account) ==> h in rows && FetchRow(rows[h]).Ok?
      ensures r.Ok? ==> r.value == |NestedKeys(Index(), account)| % W32
    {
      hide FetchRow, Le32, UnLe;
      if Le32(account) !in nested {
        return Ok(0);
      }
      var keys := nested[Le32(account)].Keys;
      var todo, count := keys, 0;
      while todo != {}
        invariant todo <= keys && count == (|keys| - |todo|) % W32
        invariant forall h :: h in keys - todo ==> h in rows && FetchRow(rows[h]).Ok?
        decreases |todo|
      {
        var h :| h in todo;
        var row := FetchAddressByHash(h);
        if !row.Ok? {
          return row.PropagateFailure();
        }
        CountUp(|keys| - |todo|, count);
        count := Add32(count, 1);
        todo := todo - {h};
      }
      r := Ok(count);
    }
  }

  function NestedKeys(ix: AddrIndex, account: uint32): set<Bytes> {
    if Le32(account) in ix.nested then ix.nested[Le32(account)].Keys else {}
  }

  lemma CountUp(n: nat, count: uint32)
    requires count == n % W32
    ensures Add32(count, 1) == (n + 1) % W32
  {
  }

  /** On every store built by putAddress, iteration never reports a missing address; while
      no address changed account, the entries are exactly the account's rows, so the
      imported key count is the number of imported rows. */
  lemma IterationIsComplete(ix: AddrIndex, account: uint32)
    requires IndexOK(ix)
    ensures forall h :: h in NestedKeys(ix, account) ==> h in ix.rows && FetchRow(ix.rows[h]).Ok?
    ensures RowsOf(ix, account) <= NestedKeys(ix, account)
    ensures NoStale(ix) ==> NestedKeys(ix, account) == RowsOf(ix, account)
  {
    hide FetchRow, AccountOf, Le32, UnLe;
    forall h | h in ix.rows ensures Indexed(ix, h) {}
    if NoStale(ix) { NestedIsRows(ix, account); }
  }

  // ------------------------------------------- the account row of a chained address

  function Advanced(row: AcctRow, branch: uint32, index: uint32): AcctRow {
    if branch == INTERNAL then row.(nextInternal := Add32(index, 1)) else row.(nextExternal := Add32(index, 1))
  }

  /** putChainedAddress's rewrite of the stored account row. */
  function AdvanceStored(b: Bytes, branch: uint32, index: uint32): Outcome<Bytes> {
    var e :- DecodeEnvelope(b);
    if e.kind != ACCOUNT_DEFAULT then Ok(b) else
    var row :- DecodeDefault(e.raw);
    var raw :- EncodeDefault(Advanced(row, branch, index));
    Ok(EncodeEnvelope(Envelope(e.kind, raw)))
  }

  /** The rewrite changes exactly the branch's counter and no other field. */
  lemma AdvanceChangesOneCounter(row: AcctRow, branch: uint32, index: uint32)
    requires Storable(row) && index < W32 - 1
    ensures StoredRow(row).Ok?
    ensures AdvanceStored(StoredRow(row).value, branch, index) == StoredRow(Advanced(row, branch, index))
    ensures LoadRow(AdvanceStored(StoredRow(row).value, branch, index).value) ==
            Ok(if branch == INTERNAL then row.(nextInternal := index + 1) else row.(nextExternal := index + 1))
  {
    hide DefaultBytes, DecodeDefault, EncodeEnvelope, DecodeEnvelope, EncodeDefault;
    StorableRowEncodes(row);
    StorableRowEncodes(Advanced(row, branch, index));
    EncodeDefaultFits(row);
    EncodeDefaultFits(Advanced(row, branch, index));
    EnvelopeRoundTrip(Envelope(ACCOUNT_DEFAULT, DefaultBytes(row)));
    DecodeDefaultExact(DefaultBytes(row), row);
  }

  /** As written, the account row is looked up in the address bucket, whose keys are all
      32-byte hashes: the lookup misses and the empty row is malformed, always. */
  function AdvanceAsWritten(ix: AddrIndex, account: uint32, branch: uint32, index: uint32): Outcome<Bytes> {
    AdvanceStored(if Le32(account) in ix.rows then ix.rows[Le32(account)] else [], branch, index)
  }

  lemma AdvanceAsWrittenFails(ix: AddrIndex, account: uint32, branch: uint32, index: uint32)
    requires IndexOK(ix)
    ensures AdvanceAsWritten(ix, account, branch, index) == Err(ErrDatabase)
  {
    hide FetchRow, AccountOf;
    forall h | h in ix.rows ensures |h| == 32 { assert Indexed(ix, h); }
  }
}
