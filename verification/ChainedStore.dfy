/** putChainedAddress on the buckets of a scope: the address row, its index entries and the
    rewritten account row, in one transaction that rolls back on error.  The bytes refine
    what nextAddresses does to the account table, and each address is read back by its hash
    as the path it was stored for.
 */
module ChainedStore {
  import opened ByteCodec
  import opened Errors
  import opened Primitives
  import opened AccountRow
  import opened AccountTable
  import opened AccountStore
  import opened AddressRow
  import opened AddressStore
  import opened Keyring
  import opened KeyringInvariant
  import opened KeyringAddresses
  import Allocation

  /** One address of a batch: its script address, child index and time stamp. */
  datatype Item = Item(id: Bytes, index: uint32, addTime: uint64)

  /** Where a batch belongs. */
  datatype Target = Target(account: uint32, branch: uint32, sync: byte)

  function ChainRow(t: Target, x: Item): AddrRow {
    AddrRow(ADT_CHAIN, t.account, x.addTime, t.sync, PayloadBytes(Chain(t.branch, x.index)))
  }

  function IndicesOf(xs: seq<Item>): seq<uint32> { seq(|xs|, i requires 0 <= i < |xs| => xs[i].index) }

  /** The address rows of a batch, in order. */
  function AddRows(c: Crypto, ix: AddrIndex, t: Target, xs: seq<Item>): AddrIndex
    decreases |xs|
  {
    if xs == [] then ix else AddRows(c, PutAddr(ix, c.sha256(xs[0].id), ChainRow(t, xs[0])), t, xs[1..])
  }

  lemma ChainRowStores(t: Target, x: Item)
    ensures Stores(ChainRow(t, x), Chain(t.branch, x.index)) && |ChainRow(t, x).raw| == 8
  {
    hide Le32, UnLe;
  }

  // ----------------------------------------------------------------- one address

  /** The account row is read, parsed, rewritten with the branch's counter moved on, and
      stored again. */
  method AdvanceAccount(b: ScopeBucket, t: Target, index: uint32, ghost db: ScopeDb) returns (r: Outcome<()>)
    requires Refines(b.Contents(), db)
    modifies b`acct
    ensures r == if t.account in db.table.rows then Ok(()) else Err(ErrDatabase)
    ensures r.Ok? ==> Refines(b.Contents(), MoveCounter(db, t.account, t.branch, [index]))
    ensures !r.Ok? ==> b.acct == old(b.acct)
  {
    hide Le32, UnLe, StoredRow, RowsRefine, NamesRefine, IdsRefine, MetaRefines, Storable, EncodeEnvelope,
      DecodeEnvelope, DecodeDefault, EncodeDefault, LoadRow, Allocation.StoreAll;
    RowBytesOf(b.acct, db.table.rows, t.account);
    var stored := Get(b.acct, Le32(t.account));
    if stored == None {
      EmptyIsMalformed();
      return Err(ErrDatabase);
    }
    ParsesAsDefault(db.table.rows[t.account]);
    var e := DecodeEnvelope(stored.value);
    var row := DecodeDefault(e.value.raw);
    var raw := SerializeDefaultAccountRow(Advanced(row.value, t.branch, index));
    AdvancedRow(row.value, t.branch, index);
    PutRowRefines(b.acct, db.table.rows, t.account, Advanced(row.value, t.branch, index));
    b.acct := Put(b.acct, Le32(t.account), EncodeEnvelope(Envelope(ACCOUNT_DEFAULT, raw.value))).value;
    r := Ok(());
  }

  lemma RowBytesOf(m: Bucket, rows: map<uint32, AcctRow>, n: uint32)
    requires RowsRefine(m, rows)
    ensures Le32(n) in m <==> n in rows
    ensures n in rows ==> Storable(rows[n]) && Ok(m[Le32(n)]) == StoredRow(rows[n])
  {
    hide Le32, UnLe, StoredRow, Storable;
    Le32Injective(UnLe32(Le32(n)), n);
  }

  /** A missing account row reads as nil bytes, which are no envelope. */
  lemma EmptyIsMalformed()
    ensures DecodeEnvelope([]) == Err(ErrDatabase)
  {
  }

  lemma ParsesAsDefault(row: AcctRow)
    requires Storable(row) && StoredRow(row).Ok?
    ensures var e := DecodeEnvelope(StoredRow(row).value);
            e.Ok? && e.value.kind == ACCOUNT_DEFAULT && DecodeDefault(e.value.raw) == Ok(row)
  {
    hide DefaultBytes, DecodeDefault, EncodeEnvelope, DecodeEnvelope, EncodeDefault;
    StorableRowEncodes(row);
    EncodeDefaultFits(row);
    EnvelopeRoundTrip(Envelope(ACCOUNT_DEFAULT, DefaultBytes(row)));
  }

  /** Moving a counter changes no length, so the row can still be stored. */
  lemma AdvancedRow(row: AcctRow, branch: uint32, index: uint32)
    requires Storable(row)
    ensures var moved := Advanced(row, branch, index);
            && Storable(moved) && EncodeDefault(moved).Ok? && Allocation.StoreAll(row, branch, [index]) == moved
            && StoredRow(moved) == Ok(EncodeEnvelope(Envelope(ACCOUNT_DEFAULT, EncodeDefault(moved).value)))
            && |StoredRow(moved).value| <= MAX_VALUE
  {
    hide DefaultBytes, Le32, UnLe;
    var moved := Advanced(row, branch, index);
    StorableRowEncodes(moved);
    StorableIsWhole(moved);
    EncodeDefaultFits(moved);
    assert [index][1..] == [];
  }

  /** putChainedAddress inside an open transaction: the address first, so that a missing
      account row leaves it behind for the transaction to roll back. */
  method PutChainedAddress(c: Crypto, b: ScopeBucket, a: AddressBuckets, t: Target, x: Item,
                           ghost db: ScopeDb) returns (r: Outcome<()>)
    requires HashLaws(c) && IndexOK(a.Index()) && Refines(b.Contents(), db)
    modifies b`acct, a
    ensures IndexOK(a.Index()) && a.Index() == PutAddr(old(a.Index()), c.sha256(x.id), ChainRow(t, x))
    ensures r == if t.account in db.table.rows then Ok(()) else Err(ErrDatabase)
    ensures r.Ok? ==> Refines(b.Contents(), MoveCounter(db, t.account, t.branch, [x.index]))
    ensures !r.Ok? ==> b.acct == old(b.acct)
  {
    hide HashLaws, IndexOK, Refines, PayloadBytes, RowBytes, FetchRow, MoveCounter;
    ChainRowStores(t, x);
    var put := a.PutAddress(c, x.id, ChainRow(t, x), Chain(t.branch, x.index));
    r := AdvanceAccount(b, t, x.index, db);
  }

  // ----------------------------------------------------------------------- a batch

  lemma MoveCounterCons(d: ScopeDb, n: uint32, branch: uint32, x: uint32, s: seq<uint32>)
    requires n in d.table.rows
    ensures MoveCounter(MoveCounter(d, n, branch, [x]), n, branch, s) == MoveCounter(d, n, branch, [x] + s)
    ensures MoveCounter(d, n, branch, []) == d
  {
    var row := d.table.rows[n];
    assert ([x] + s)[1..] == s && [x][1..] == [];
    assert Allocation.StoreAll(row, branch, [x] + s) ==
           Allocation.StoreAll(Allocation.StoreAll(row, branch, [x]), branch, s);
  }

  lemma IndicesCons(xs: seq<Item>)
    requires xs != []
    ensures IndicesOf(xs) == [xs[0].index] + IndicesOf(xs[1..])
  {
  }

  /** The stores of nextAddresses in one transaction.  The rows refine the move of the
      account's counter that it commits, all addresses are there, and any failure restores
      every byte of both. */
  method StoreBatch(c: Crypto, b: ScopeBucket, a: AddressBuckets, t: Target, xs: seq<Item>,
                    ghost db: ScopeDb) returns (r: Outcome<()>)
    requires HashLaws(c) && IndexOK(a.Index()) && Refines(b.Contents(), db)
    modifies b`acct, a
    ensures IndexOK(a.Index())
    ensures r == if xs == [] || t.account in db.table.rows then Ok(()) else Err(ErrDatabase)
    ensures r.Ok? ==> a.Index() == AddRows(c, old(a.Index()), t, xs)
    ensures r.Ok? && t.account in db.table.rows ==>
              Refines(b.Contents(), MoveCounter(db, t.account, t.branch, IndicesOf(xs)))
    ensures !r.Ok? ==> a.Index() == old(a.Index()) && b.Contents() == old(b.Contents())
  {
    hide HashLaws, IndexOK, Refines, PutAddr, MoveCounter, IndicesOf;
    var rows, index := b.acct, a.Index();
    ghost var now := db;
    var i := 0;
    if t.account in db.table.rows { MoveCounterCons(db, t.account, t.branch, 0, []); }
    while i < |xs|
      invariant 0 <= i <= |xs| && (i > 0 ==> t.account in db.table.rows)
      invariant IndexOK(a.Index()) && Refines(b.Contents(), now)
      invariant t.account in now.table.rows <==> t.account in db.table.rows
      invariant b.Contents() == old(b.Contents()).(acct := b.acct)
      invariant AddRows(c, a.Index(), t, xs[i..]) == AddRows(c, index, t, xs)
      invariant t.account in db.table.rows ==>
                  MoveCounter(now, t.account, t.branch, IndicesOf(xs[i..])) ==
                    MoveCounter(db, t.account, t.branch, IndicesOf(xs))
    {
      r := PutChainedAddress(c, b, a, t, xs[i], now);
      if !r.Ok? {
        b.acct, a.rows, a.forward, a.nested := rows, index.rows, index.forward, index.nested;
        return;
      }
      assert xs[i..][0] == xs[i] && xs[i..][1..] == xs[i + 1..];
      IndicesCons(xs[i..]);
      MoveCounterCons(now, t.account, t.branch, xs[i].index, IndicesOf(xs[i + 1..]));
      assert t.account in MoveCounter(now, t.account, t.branch, [xs[i].index]).table.rows by {
        MovedStays(now, t, [xs[i].index]);
      }
      now := MoveCounter(now, t.account, t.branch, [xs[i].index]);
      i := i + 1;
    }
    if t.account in db.table.rows {
      assert IndicesOf(xs[i..]) == [] by { NoIndices(xs[i..]); }
      MoveCounterCons(now, t.account, t.branch, 0, []);
    }
    r := Ok(());
  }

  lemma MovedStays(d: ScopeDb, t: Target, s: seq<uint32>)
    requires t.account in d.table.rows
    ensures t.account in MoveCounter(d, t.account, t.branch, s).table.rows
  {
  }

  lemma NoIndices(xs: seq<Item>)
    requires xs == []
    ensures IndicesOf(xs) == []
  {
  }

  // ------------------------------------------------------------------ reading back

  /** Every address of the batch whose hash is not used again in it is read back by that
      hash as its path. */
  lemma {:induction false} BatchPathsComeBack(c: Crypto, ix: AddrIndex, t: Target, xs: seq<Item>, k: nat)
    requires k < |xs| && forall l :: k < l < |xs| ==> c.sha256(xs[l].id) != c.sha256(xs[k].id)
    ensures RowPath(AddRows(c, ix, t, xs), c.sha256(xs[k].id)) == Ok(Some(Path(t.account, t.branch, xs[k].index)))
    decreases |xs|
  {
    hide RowPath, PutAddr;
    var first := PutAddr(ix, c.sha256(xs[0].id), ChainRow(t, xs[0]));
    if k > 0 {
      assert xs[1..][k - 1] == xs[k];
      forall l | k - 1 < l < |xs[1..]| ensures c.sha256(xs[1..][l].id) != c.sha256(xs[1..][k - 1].id) {
        assert xs[1..][l] == xs[l + 1];
      }
      BatchPathsComeBack(c, first, t, xs[1..], k - 1);
    } else {
      ChainRowStores(t, xs[0]);
      StoredPathComesBack(ix, c.sha256(xs[0].id), ChainRow(t, xs[0]), Chain(t.branch, xs[0].index), []);
      OthersStay(c, first, t, xs[1..], c.sha256(xs[0].id));
    }
  }

  lemma {:induction false} OthersStay(c: Crypto, ix: AddrIndex, t: Target, xs: seq<Item>, h: Bytes)
    requires forall l :: 0 <= l < |xs| ==> c.sha256(xs[l].id) != h
    ensures RowPath(AddRows(c, ix, t, xs), h) == RowPath(ix, h)
    decreases |xs|
  {
    hide RowPath, PutAddr;
    if xs != [] {
      ChainRowStores(t, xs[0]);
      StoredPathComesBack(ix, c.sha256(xs[0].id), ChainRow(t, xs[0]), Chain(t.branch, xs[0].index), h);
      OthersStay(c, PutAddr(ix, c.sha256(xs[0].id), ChainRow(t, xs[0])), t, xs[1..], h);
    }
  }

  /** loadAndCacheAddress from the row of an address, None for rows of other kinds. */
  function LoadAndCache(c: Crypto, m: Mgr, db: Db, sc: KeyScope, ix: AddrIndex, id: Bytes, rand: Prng)
    : Option<(Mgr, Outcome<nat>)>
    requires sc in m.scopes
  {
    match RowPath(ix, c.sha256(id))
    case Err(e) => Some((m, Err(e)))
    case Fault => Some((m, Fault))
    case Ok(None) => None
    case Ok(Some(path)) => Some(CacheAddress(c, m, db, sc, path, rand))
  }

  /** Fetching an address by its hash, parsing its row and caching it keeps the invariant,
      whatever the row's bytes are. */
  lemma LoadAndCacheOK(c: Crypto, sec: Secrets, m: Mgr, db: Db, sc: KeyScope, ix: AddrIndex, id: Bytes, rand: Prng)
    requires Lawful(c) && MgrOK(c, sec, m) && DbOK(c, sec, db) && sc in m.scopes
    requires LoadAndCache(c, m, db, sc, ix, id, rand).Some?
    ensures MgrOK(c, sec, LoadAndCache(c, m, db, sc, ix, id, rand).value.0)
  {
    hide Lawful, MgrOK, DbOK, CacheAddress, RowPath;
    match RowPath(ix, c.sha256(id))
    case Ok(Some(path)) => CacheOK(c, sec, m, db, sc, path, rand);
    case _ =>
  }

  /** nextAddresses reads each address back right after storing it: what it finds is the path
      the address was built for, so the reads of the bytes are those of the manager's model. */
  lemma ReadBackOfBatch(c: Crypto, m: Mgr, db: Db, sc: KeyScope, ix: AddrIndex, t: Target, xs: seq<Item>, k: nat,
                        rand: Prng)
    requires sc in m.scopes && k < |xs|
    ensures LoadAndCache(c, m, db, sc, AddRows(c, ix, t, xs[..k + 1]), xs[k].id, rand) ==
            Some(CacheAddress(c, m, db, sc, Path(t.account, t.branch, xs[k].index), rand))
  {
    hide CacheAddress, RowPath, AddRows;
    BatchPathsComeBack(c, ix, t, xs[..k + 1], k);
  }
}
