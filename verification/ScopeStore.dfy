/** createManagerKeyScope on the buckets: the bytes of a new scope refine its table, so the
    byte-level runs start from stores that the code builds.
 */
module ScopeStore {
  import opened ByteCodec
  import opened Errors
  import opened Primitives
  import opened AccountRow
  import opened AccountTable
  import opened AccountStore
  import opened Keyring
  import opened ScopeCreation

  /** createScopedManagerNS: the nested buckets, all empty. */
  const EMPTY: Buckets := Buckets(map[], map[], map[], map[], map[])

  const NO_ACCOUNTS: Table := Table(map[], map[], map[], None)

  /** putLastAccount by createManagerNS, for the default scopes only. */
  method PutCounter(b: ScopeBucket, last: Option<uint32>)
    requires b.Contents() == EMPTY
    modifies b`meta
    ensures Refines(b.Contents(), ScopeDb(None, None, NO_ACCOUNTS.(last := last)))
  {
    if last.Some? {
      var _ := b.PutLastAccount(last.value);
    }
  }

  /** putCoinTypeKeys: both halves under their names. */
  method PutCoinTypeKeys(b: ScopeBucket, pubEnc: Bytes, privEnc: Bytes, ghost db: ScopeDb) returns (r: Outcome<()>)
    requires Refines(b.Contents(), db) && |pubEnc| <= MAX_VALUE && |privEnc| <= MAX_VALUE
    modifies b`own
    ensures r == Ok(()) && Refines(b.Contents(), db.(coinPub := Some(pubEnc), coinPriv := Some(privEnc)))
  {
    hide RowsRefine, NamesRefine, IdsRefine, MetaRefines;
    var pub := Put(b.own, CT_PUB, pubEnc);
    var priv := Put(pub.value, CT_PRIV, privEnc);
    b.own := priv.value;
    assert CT_PUB != CT_PRIV;
    r := Ok(());
  }

  lemma SealedKeySize(c: Crypto, key: Bytes, k: ExtKey, rand: Prng, i: nat)
    requires Lawful(c) && SealWith(c, key, c.text(k), rand, i).Ok?
    ensures |SealWith(c, key, c.text(k), rand, i).value| <= 168
  {
    hide HashLaws, ChildLaws, SignLaws;
  }

  lemma DefaultRowWritten(c: Crypto, ring: Ring, key: ExtKey, rand: Prng, i: nat)
    requires Lawful(c) && SealRow(c, ring, key, DEFAULT_NAME, rand, i).Ok?
    ensures var row := SealRow(c, ring, key, DEFAULT_NAME, rand, i).value;
            Written(row) && Cut(row) == row && Storable(row)
  {
    hide Lawful, Storable, Written, SealRow, Cut;
    StorableExact(c, ring, key, DEFAULT_NAME, rand, i);
    StorableIsWhole(SealRow(c, ring, key, DEFAULT_NAME, rand, i).value);
  }

  lemma ImportedRowWritten()
    ensures Written(IMPORTED_ROW) && Cut(IMPORTED_ROW) == IMPORTED_ROW && Storable(IMPORTED_ROW)
  {
    hide Written, Cut;
    StorableIsWhole(IMPORTED_ROW);
  }

  /** createManagerKeyScope from the empty buckets, with the counter createManagerNS wrote
      (default scopes) or without one (NewScopedKeyManager). */
  method CreateManagerKeyScope(b: ScopeBucket, c: Crypto, ring: Ring, root: ExtKey, sc: KeyScope,
                               last: Option<uint32>, rand: Prng, i: nat)
    returns (r: Outcome<()>)
    requires Lawful(c) && b.Contents() == EMPTY
    modifies b
    ensures match CreateScope(c, ring, root, sc, last, rand, i)
            case Ok(d) => r.Ok? && Refines(b.Contents(), d)
            case Err(e) => r == Err(e)
            case Fault => r == Fault
  {
    hide Lawful, DeriveCoinTypeKey, DeriveAccountKey, BranchKeys, SealWith, SealRow, Refines, Written, Cut, Storable,
      StoredRow;
    PutCounter(b, last);
    var coin := DeriveCoinTypeKey(c, root, sc);
    if !coin.Ok? { return Err(ErrKeyChain); }
    var acct := DeriveAccountKey(c, coin.value, DEFAULT_ACCOUNT);
    if !acct.Ok? { return acct.PropagateFailure(); }
    if !BranchKeys(c, acct.value) { return Err(ErrKeyChain); }
    var coinPub := c.neuter(coin.value);
    if coinPub == None { return Err(ErrKeyChain); }
    var pubEnc := SealWith(c, ring.pub, c.text(coinPub.value), rand, i);
    if !pubEnc.Ok? { return pubEnc.PropagateFailure(); }
    var privEnc := SealWith(c, ring.priv, c.text(coin.value), rand, i + 1);
    if !privEnc.Ok? { return privEnc.PropagateFailure(); }
    var row := SealRow(c, ring, acct.value, DEFAULT_NAME, rand, i + 2);
    if !row.Ok? { return row.PropagateFailure(); }
    SealedKeySize(c, ring.pub, coinPub.value, rand, i);
    SealedKeySize(c, ring.priv, coin.value, rand, i + 1);
    ghost var db0 := ScopeDb(None, None, NO_ACCOUNTS.(last := last));
    var _ := PutCoinTypeKeys(b, pubEnc.value, privEnc.value, db0);
    ghost var db1 := db0.(coinPub := Some(pubEnc.value), coinPriv := Some(privEnc.value));
    DefaultRowWritten(c, ring, acct.value, rand, i + 2);
    r := b.PutAccountInfo(DEFAULT_ACCOUNT, row.value, db1);
    ghost var db2 := db1.(table := PutAccountInfo(db1.table, DEFAULT_ACCOUNT, row.value));
    ImportedRowWritten();
    r := b.PutAccountInfo(IMPORTED, IMPORTED_ROW, db2);
  }

  /** A scope's whole life on bytes: created from empty buckets, then any run of NewAccount
      and NewRawAccount.  The bytes refine the table's run all the way. */
  method CreateAndRun(c: Crypto, ring: Ring, root: ExtKey, sc: KeyScope, last: Option<uint32>, rand: Prng, i: nat,
                      qs: seq<Request>)
    returns (b: ScopeBucket, r: Outcome<()>, handed: seq<uint32>)
    requires Lawful(c)
    ensures r.Ok? <==> Derivable(c, root, sc) && FourNonces(rand, i)
    ensures r.Ok? ==> CreateScope(c, ring, root, sc, last, rand, i).Ok?
    ensures r.Ok? ==> Refines(b.Contents(), Run(c, ring, CreateScope(c, ring, root, sc, last, rand, i).value, qs))
    ensures r.Ok? ==> handed == Handed(c, ring, CreateScope(c, ring, root, sc, last, rand, i).value, qs)
  {
    hide Lawful, Refines, CreateScope, Run, Handed, Derivable, FourNonces;
    b := new ScopeBucket(EMPTY);
    handed := [];
    r := CreateManagerKeyScope(b, c, ring, root, sc, last, rand, i);
    CreateScopeExact(c, ring, root, sc, last, rand, i);
    if r.Ok? {
      handed := b.UpdateAll(c, ring, qs, CreateScope(c, ring, root, sc, last, rand, i).value);
    }
  }
}
