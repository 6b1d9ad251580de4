/** The same accounts as bytes: one scope's bbolt buckets, the writes of newAccount in
    their order, transactions that roll back on error, and the proof that this store
    refines the account table on every run.
 */
module AccountStore {
  import opened ByteCodec
  import opened Errors
  import opened Primitives
  import opened AccountRow
  import opened AccountTable

  type Bucket = map<Bytes, Bytes>

  /** The values of a scope's own bucket and its nested account buckets. */
  datatype Buckets = Buckets(own: Bucket, acct: Bucket, idIdx: Bucket, nameIdx: Bucket, meta: Bucket)

  /** "ctpub", "ctpriv" and "lastaccount". */
  const CT_PUB: Bytes := [99, 116, 112, 117, 98]
  const CT_PRIV: Bytes := [99, 116, 112, 114, 105, 118]
  const LAST: Bytes := [108, 97, 115, 116, 97, 99, 99, 111, 117, 110, 116]

  function Get(m: Bucket, k: Bytes): Option<Bytes> {
    if k in m then Some(m[k]) else None
  }

  /** bbolt's Bucket.Put with its key and value checks. */
  function Put(m: Bucket, k: Bytes, v: Bytes): (r: Outcome<Bucket>)
    ensures r.Ok? <==> 0 < |k| <= MAX_KEY && |v| <= MAX_VALUE
    ensures r.Ok? ==> r.value == m[k := v]
    ensures !r.Ok? ==> r == Err(ErrDatabase)
  {
    if 0 < |k| <= MAX_KEY && |v| <= MAX_VALUE then Ok(m[k := v]) else Err(ErrDatabase)
  }

  /** stringToBytes: the length prefix is truncated to uint32. */
  function StrKey(s: Bytes): (k: Bytes)
    ensures |k| == 4 + |s|
    ensures k[4..] == s
  {
    Le32(Trunc32(|s|)) + s
  }

  lemma StrKeyInjective(a: Bytes, b: Bytes)
    ensures StrKey(a) == StrKey(b) <==> a == b
  {
    assert StrKey(a)[4..] == a && StrKey(b)[4..] == b;
  }

  // ---------------------------------------------------------------- refinement

  ghost predicate RowsRefine(m: Bucket, rows: map<uint32, AcctRow>) {
    && (forall n :: n in rows ==> Storable(rows[n]) && Le32(n) in m && Ok(m[Le32(n)]) == StoredRow(rows[n]))
    && (forall k :: k in m ==> |k| == 4 && UnLe32(k) in rows)
  }

  ghost predicate NamesRefine(m: Bucket, names: map<uint32, Bytes>) {
    && (forall n :: n in names ==> Le32(n) in m && m[Le32(n)] == StrKey(names[n]))
    && (forall k :: k in m ==> |k| == 4 && UnLe32(k) in names)
  }

  ghost predicate IdsRefine(m: Bucket, ids: map<Bytes, uint32>) {
    && (forall x :: x in ids ==> StrKey(x) in m && m[StrKey(x)] == Le32(ids[x]))
    && (forall k :: k in m ==> |k| >= 4 && k[4..] in ids && StrKey(k[4..]) == k)
  }

  ghost predicate MetaRefines(m: Bucket, last: Option<uint32>) {
    Get(m, LAST) == match last case None => None case Some(n) => Some(Le32(n))
  }

  ghost predicate Refines(b: Buckets, db: ScopeDb) {
    && RowsRefine(b.acct, db.table.rows)
    && NamesRefine(b.idIdx, db.table.names)
    && IdsRefine(b.nameIdx, db.table.ids)
    && MetaRefines(b.meta, db.table.last)
    && Get(b.own, CT_PUB) == db.coinPub
    && Get(b.own, CT_PRIV) == db.coinPriv
  }

  /** The bytes determine the table: at most one table is refined by a store. */
  lemma RefinesUnique(b: Buckets, d: ScopeDb, e: ScopeDb)
    requires Refines(b, d) && Refines(b, e)
    ensures d == e
  {
    RowsUnique(b.acct, d.table.rows, e.table.rows);
    NamesUnique(b.idIdx, d.table.names, e.table.names);
    IdsUnique(b.nameIdx, d.table.ids, e.table.ids);
    if d.table.last.Some? && e.table.last.Some? {
      Le32Injective(d.table.last.value, e.table.last.value);
    }
  }

  lemma RowsUnique(m: Bucket, r: map<uint32, AcctRow>, s: map<uint32, AcctRow>)
    requires RowsRefine(m, r) && RowsRefine(m, s)
    ensures r == s
  {
    hide StoredRow, Storable, Le32, UnLe;
    forall n | n in r || n in s ensures n in r && n in s && r[n] == s[n] {
      Le32Injective(UnLe32(Le32(n)), n);
      StorableRowEncodes(r[n]);
      StorableRowEncodes(s[n]);
    }
  }

  lemma NamesUnique(m: Bucket, r: map<uint32, Bytes>, s: map<uint32, Bytes>)
    requires NamesRefine(m, r) && NamesRefine(m, s)
    ensures r == s
  {
    hide StrKey, Le32, UnLe;
    forall n | n in r || n in s ensures n in r && n in s && r[n] == s[n] {
      Le32Injective(UnLe32(Le32(n)), n);
      StrKeyInjective(r[n], s[n]);
    }
  }

  lemma IdsUnique(m: Bucket, r: map<Bytes, uint32>, s: map<Bytes, uint32>)
    requires IdsRefine(m, r) && IdsRefine(m, s)
    ensures r == s
  {
    hide Le32, UnLe;
    forall x | x in r || x in s ensures x in r && x in s && r[x] == s[x] {
      assert StrKey(x)[4..] == x;
      Le32Injective(r[x], s[x]);
    }
  }

  lemma PutRowRefines(m: Bucket, rows: map<uint32, AcctRow>, n: uint32, row: AcctRow)
    requires RowsRefine(m, rows) && Storable(row) && StoredRow(row).Ok?
    ensures RowsRefine(m[Le32(n) := StoredRow(row).value], rows[n := row])
  {
    hide StoredRow, Storable, Le32, UnLe;
    forall k: uint32 ensures Le32(k) == Le32(n) <==> k == n { Le32Injective(k, n); }
    Le32Injective(UnLe32(Le32(n)), n);
  }

  lemma PutNameRefines(m: Bucket, names: map<uint32, Bytes>, n: uint32, x: Bytes)
    requires NamesRefine(m, names)
    ensures NamesRefine(m[Le32(n) := StrKey(x)], names[n := x])
  {
    hide StrKey, Le32, UnLe;
    forall k: uint32 ensures Le32(k) == Le32(n) <==> k == n { Le32Injective(k, n); }
    Le32Injective(UnLe32(Le32(n)), n);
  }

  lemma PutIdRefines(m: Bucket, ids: map<Bytes, uint32>, x: Bytes, n: uint32)
    requires IdsRefine(m, ids)
    ensures IdsRefine(m[StrKey(x) := Le32(n)], ids[x := n])
  {
    hide StrKey, Le32, UnLe;
    forall y ensures StrKey(y) == StrKey(x) <==> y == x { StrKeyInjective(y, x); }
  }

  // --------------------------------------------------------------- the buckets

  /** The writable bucket of one scope inside a transaction. */
  class ScopeBucket {
    var own: Bucket
    var acct: Bucket
    var idIdx: Bucket
    var nameIdx: Bucket
    var meta: Bucket

    function Contents(): Buckets
      reads this
    {
      Buckets(own, acct, idIdx, nameIdx, meta)
    }

    constructor (b: Buckets)
      ensures Contents() == b
    {
      own, acct, idIdx, nameIdx, meta := b.own, b.acct, b.idIdx, b.nameIdx, b.meta;
    }

    /** fetchAccountByName. */
    method LookupAccount(name: Bytes, ghost db: ScopeDb) returns (r: Outcome<uint32>)
      requires Refines(Contents(), db)
      ensures r == if name in db.table.ids then Ok(db.table.ids[name]) else Err(ErrAccountNotFound)
    {
      hide StrKey, Le32, UnLe, RowsRefine, NamesRefine;
      var val := Get(nameIdx, StrKey(name));
      if val == None {
        return Err(ErrAccountNotFound);
      }
      assert StrKey(name)[4..] == name;
      Le32Injective(UnLe32(val.value), db.table.ids[name]);
      r := Ok(UnLe32(val.value));
    }

    /** fetchAccountInfo on a store of default rows: never a fault, never a parse error. */
    method FetchAccountInfo(account: uint32, ghost db: ScopeDb) returns (r: Outcome<AcctRow>)
      requires Refines(Contents(), db)
      ensures r == if account in db.table.rows then Ok(db.table.rows[account]) else Err(ErrAccountNotFound)
    {
      hide StoredRow, Storable, Le32, UnLe, NamesRefine, IdsRefine, LoadRow;
      var row := Get(acct, Le32(account));
      Le32Injective(UnLe32(Le32(account)), account);
      if row == None {
        return Err(ErrAccountNotFound);
      }
      StorableRowEncodes(db.table.rows[account]);
      r := LoadRow(row.value);
    }

    /** fetchLastAccount. */
    method FetchLastAccount(ghost db: ScopeDb) returns (r: Outcome<uint32>)
      requires Refines(Contents(), db)
      ensures r == Ok(LastAccount(db.table))
    {
      hide Le32, UnLe, RowsRefine, NamesRefine, IdsRefine;
      var val := Get(meta, LAST);
      if val == None {
        return Ok(W32 - 1);
      }
      if |val.value| != 4 {
        return Err(ErrDatabase);
      }
      Le32Injective(UnLe32(val.value), db.table.last.value);
      r := Ok(UnLe32(val.value));
    }

    /** putAccountInfo: row, id index, name index; each may fail after the earlier ones
        were written. */
    method PutAccountInfo(account: uint32, row: AcctRow, ghost db: ScopeDb) returns (r: Outcome<()>)
      requires Refines(Contents(), db)
      modifies this`acct, this`idIdx, this`nameIdx
      ensures r.Fault? <==> StoredRow(row).Fault?
      ensures r.Ok? <==> Written(row)
      ensures r.Err? ==> r.code == ErrDatabase
      ensures r.Ok? ==> Refines(Contents(), db.(table := AccountTable.PutAccountInfo(db.table, account, Cut(row))))
      ensures Storable(row) ==> Cut(row) == row
    {
      hide Le32, UnLe, StrKey, RowsRefine, NamesRefine, IdsRefine, Storable, Cut;
      if Storable(row) { StorableIsWhole(row); }
      var raw := SerializeDefaultAccountRow(row);
      if raw.Fault? {
        return Fault;
      }
      var value := EncodeEnvelope(Envelope(ACCOUNT_DEFAULT, raw.value));
      var a := Put(acct, Le32(account), value);
      if !a.Ok? { return Err(ErrDatabase); }
      acct := a.value;
      var i := Put(idIdx, Le32(account), StrKey(row.name));
      if !i.Ok? { return Err(ErrDatabase); }
      idIdx := i.value;
      var n := Put(nameIdx, StrKey(row.name), Le32(account));
      if !n.Ok? { return Err(ErrDatabase); }
      nameIdx := n.value;
      CutIsStorable(row);
      PutRowRefines(old(acct), db.table.rows, account, Cut(row));
      PutNameRefines(old(idIdx), db.table.names, account, row.name);
      PutIdRefines(old(nameIdx), db.table.ids, row.name, account);
      r := Ok(());
    }

    method PutLastAccount(account: uint32) returns (r: Outcome<()>)
      modifies this`meta
      ensures r == Ok(()) && MetaRefines(meta, Some(account))
    {
      meta := Put(meta, LAST, Le32(account)).value;
      r := Ok(());
    }

    /** newAccount inside an open transaction. */
    method NewAccountInTx(c: Crypto, ring: Ring, account: uint32, name: Bytes, rand: Prng, ghost db: ScopeDb)
      returns (r: Outcome<()>)
      requires Refines(Contents(), db) && Lawful(c)
      modifies this`acct, this`idIdx, this`nameIdx, this`meta
      ensures match NewAccountAt(c, ring, db, account, name, rand)
              case Ok(t) => r.Ok? && Refines(Contents(), db.(table := t))
              case Err(e) => r == Err(e)
              case Fault => r == Fault
    {
      hide Le32, UnLe, StrKey, RowsRefine, NamesRefine, IdsRefine, AccountRowFor, StoredRow, Storable, Lawful;
      var ok := ValidateAccountName(name);
      if !ok.Ok? { return ok; }
      var dup := LookupAccount(name, db);
      if dup.Ok? { return Err(ErrDuplicateAccount); }
      var row := AccountRowFor(c, ring, Get(own, CT_PUB), Get(own, CT_PRIV), account, name, rand);
      if !row.Ok? { return row.PropagateFailure(); }
      AccountRowShort(c, ring, db.coinPub, db.coinPriv, account, name, rand);
      ShortWritten(row.value);
      r := PutAccountInfo(account, row.value, db);
      if r.Ok? {
        r := PutLastAccount(account);
      }
    }

    /** walletdb.Update around NewAccount or NewRawAccount: rolled back on every error. */
    method Update(c: Crypto, ring: Ring, q: Request, ghost db: ScopeDb) returns (r: Outcome<uint32>)
      requires Refines(Contents(), db) && Lawful(c)
      modifies this
      ensures Refines(Contents(), After(c, ring, db, q))
      ensures match Serve(c, ring, db, q)
              case Ok(_) => r == Ok(Number(db.table, q))
              case Err(e) => r == Err(e) && Contents() == old(Contents())
              case Fault => r == Fault && Contents() == old(Contents())
    {
      hide Refines, NewAccountAt, Lawful;
      var saved := Contents();
      var account: uint32;
      if q.New? {
        var last := FetchLastAccount(db);
        account := Add32(last.value, 1);
      } else {
        account := q.number;
      }
      var name := if q.New? then q.name else RawName(q.number);
      var done := NewAccountInTx(c, ring, account, name, q.rand, db);
      if done.Ok? {
        return Ok(account);
      }
      own, acct, idIdx, nameIdx, meta := saved.own, saved.acct, saved.idIdx, saved.nameIdx, saved.meta;
      r := done.PropagateFailure();
    }

    /** A whole run of requests: the bytes refine the table's run. */
    method UpdateAll(c: Crypto, ring: Ring, qs: seq<Request>, ghost db: ScopeDb) returns (handed: seq<uint32>)
      requires Refines(Contents(), db) && Lawful(c)
      modifies this
      ensures Refines(Contents(), Run(c, ring, db, qs))
      ensures handed == Handed(c, ring, db, qs)
    {
      hide Refines, Serve, After, Lawful;
      ghost var now := db;
      handed := [];
      var i := 0;
      while i < |qs|
        invariant 0 <= i <= |qs|
        invariant Refines(Contents(), now)
        invariant Run(c, ring, now, qs[i..]) == Run(c, ring, db, qs)
        invariant handed + Handed(c, ring, now, qs[i..]) == Handed(c, ring, db, qs)
      {
        var r := Update(c, ring, qs[i], now);
        assert qs[i..][1..] == qs[i + 1..];
        if r.Ok? {
          handed := handed + [r.value];
        }
        now := After(c, ring, now, qs[i]);
        i := i + 1;
      }
    }
  }

  /** The three puts go through: the encoded row and the name key respect bbolt's limits. */
  predicate Written(row: AcctRow) {
    StoredRow(row).Ok? && |StoredRow(row).value| <= MAX_VALUE && 4 + |row.name| <= MAX_KEY
  }

  lemma CutTwice(row: AcctRow)
    ensures Cut(Cut(row)) == Cut(row)
  {
    var p, q, n := row.pubEnc, row.privEnc, row.name;
    assert p[..Trunc32(|p|)][..|p[..Trunc32(|p|)]|] == p[..Trunc32(|p|)];
    assert q[..Trunc32(|q|)][..|q[..Trunc32(|q|)]|] == q[..Trunc32(|q|)];
    assert n[..Trunc32(|n|)][..|n[..Trunc32(|n|)]|] == n[..Trunc32(|n|)];
  }

  /** What is written is the row with its fields cut to their uint32 lengths, which keeps the
      name and is storable. */
  lemma CutIsStorable(row: AcctRow)
    requires Written(row)
    ensures Storable(Cut(row)) && StoredRow(Cut(row)) == StoredRow(row) && Cut(row).name == row.name
  {
    hide Le32, UnLe, DefaultBytes, EncodeEnvelope;
    CutTwice(row);
    assert row.name[..|row.name|] == row.name;
  }

  lemma StorableIsWhole(row: AcctRow)
    requires Storable(row)
    ensures Cut(row) == row && Written(row)
  {
    hide Le32, UnLe, DefaultBytes, EncodeEnvelope;
    assert row.pubEnc[..|row.pubEnc|] == row.pubEnc && row.privEnc[..|row.privEnc|] == row.privEnc
           && row.name[..|row.name|] == row.name;
  }

  /** Rows with short sealed keys are written exactly when they are storable, also when a
      name is so long that its length was truncated in the row. */
  lemma ShortWritten(row: AcctRow)
    requires SealedShort(row)
    ensures Written(row) <==> Storable(row)
    ensures Storable(row) ==> Cut(row) == row
  {
    hide Le32, UnLe, DefaultBytes, EncodeEnvelope;
    if Storable(row) {
      StorableIsWhole(row);
    } else if Written(row) {
      CutIsStorable(row);
    }
  }
}
