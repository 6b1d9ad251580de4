/** createManagerKeyScope: deriving, sealing and storing a new scope's keys. */
module ScopeCreation {
  import opened ByteCodec
  import opened Errors
  import opened Primitives
  import opened Snacl
  import opened AccountRow
  import opened AccountTable
  import opened Keyring
  import opened KeyringInvariant

  /** checkBranchKeys. */
  predicate BranchKeys(c: Crypto, acct: ExtKey) {
    c.child(acct, EXTERNAL).Child? && c.child(acct, INTERNAL).Child?
  }

  const IMPORTED_ROW: AcctRow := AcctRow([], [], 0, 0, IMPORTED_NAME)

  function FirstTable(row: AcctRow, last: Option<uint32>): Table {
    PutAccountInfo(PutAccountInfo(Table(map[], map[], map[], last), DEFAULT_ACCOUNT, row), IMPORTED, IMPORTED_ROW)
  }

  /** Four nonces are read: coin-type public and private, account public and private.
      The counter is only set for the default scopes, by createManagerNS. */
  function CreateScope(c: Crypto, ring: Ring, root: ExtKey, sc: KeyScope, last: Option<uint32>, rand: Prng,
                       i: nat): Outcome<ScopeDb> {
    match DeriveCoinTypeKey(c, root, sc)
    case Ok(coin) => SealScope(c, ring, coin, last, rand, i)
    case _ => Err(ErrKeyChain)
  }

  function SealScope(c: Crypto, ring: Ring, coin: ExtKey, last: Option<uint32>, rand: Prng, i: nat): Outcome<ScopeDb> {
    var acct :- DeriveAccountKey(c, coin, DEFAULT_ACCOUNT);
    if !BranchKeys(c, acct) then Err(ErrKeyChain) else
    match c.neuter(coin)
    case None => Err(ErrKeyChain)
    case Some(coinPub) =>
      var pubEnc :- SealWith(c, ring.pub, c.text(coinPub), rand, i);
      var privEnc :- SealWith(c, ring.priv, c.text(coin), rand, i + 1);
      var row :- SealRow(c, ring, acct, DEFAULT_NAME, rand, i + 2);
      Ok(ScopeDb(Some(pubEnc), Some(privEnc), FirstTable(row, last)))
  }

  lemma FirstTableOK(row: AcctRow, last: Option<uint32>)
    requires row.name == DEFAULT_NAME
    ensures Consistent(FirstTable(row, last)) && Inverse(FirstTable(row, last))
    ensures last == Some(0) ==> Bounded(FirstTable(row, last))
    ensures FirstTable(row, last).rows == map[DEFAULT_ACCOUNT := row, IMPORTED := IMPORTED_ROW]
  {
    assert DEFAULT_NAME[0] != IMPORTED_NAME[0];
  }

  lemma SealScopeShape(c: Crypto, ring: Ring, coin: ExtKey, last: Option<uint32>, rand: Prng, i: nat)
    requires Lawful(c) && SealScope(c, ring, coin, last, rand, i).Ok?
    ensures var d := SealScope(c, ring, coin, last, rand, i).value;
            && d.coinPriv.Some? && d.coinPub.Some? && OpenKey(c, ring.priv, d.coinPriv.value) == Some(coin)
            && c.neuter(coin).Some? && OpenKey(c, ring.pub, d.coinPub.value) == c.neuter(coin)
            && DeriveAccountKey(c, coin, DEFAULT_ACCOUNT).Ok?
            && var row := SealRow(c, ring, DeriveAccountKey(c, coin, DEFAULT_ACCOUNT).value, DEFAULT_NAME, rand, i + 2);
               row.Ok? && row.value.name == DEFAULT_NAME && row.value.nextExternal == 0 && row.value.nextInternal == 0
                 && d.table == FirstTable(row.value, last)
  {
    hide HashLaws, BoxLaws, ChildLaws, FirstTable, DeriveAccountKey, Decrypt, Nonce;
  }

  /** A created scope is sound, whether Create or NewScopedKeyManager made it: its coin-type
      keys and rows hold the keys of their BIP 44 paths, what opens with the public crypto
      key is public, its indexes are inverse, and it has exactly the default and the imported
      account, unused. */
  lemma CreateScopeOK(c: Crypto, sec: Secrets, sc: KeyScope, last: Option<uint32>, rand: Prng, i: nat)
    requires Lawful(c) && CreateScope(c, Ring(sec.pub, sec.priv), sec.root, sc, last, rand, i).Ok?
    ensures var d := CreateScope(c, Ring(sec.pub, sec.priv), sec.root, sc, last, rand, i).value;
            && ScopeOK(c, sec, sc, d) && Consistent(d.table) && Inverse(d.table)
            && d.table.last == last && (last == Some(0) ==> Bounded(d.table))
            && d.table.rows.Keys == {0, IMPORTED} && d.table.ids == map[DEFAULT_NAME := 0, IMPORTED_NAME := IMPORTED]
            && d.table.rows[0].name == DEFAULT_NAME
            && d.table.rows[0].nextExternal == 0 && d.table.rows[0].nextInternal == 0
    ensures var d := CreateScope(c, Ring(sec.pub, sec.priv), sec.root, sc, last, rand, i).value;
            && d.coinPub.Some? && OpenKey(c, sec.pub, d.coinPub.value).Some?
            && !OpenKey(c, sec.pub, d.coinPub.value).value.isPrivate
            && !OpenKey(c, sec.pub, d.table.rows[0].pubEnc).value.isPrivate
  {
    hide Lawful, SealScope, SealRow, DeriveAccountKey, DeriveCoinTypeKey, RowHolds, OpenKey, FirstTable, Consistent,
      Inverse, Bounded;
    var ring := Ring(sec.pub, sec.priv);
    var coin := DeriveCoinTypeKey(c, sec.root, sc).value;
    SealScopeShape(c, ring, coin, last, rand, i);
    var key := DeriveAccountKey(c, coin, DEFAULT_ACCOUNT).value;
    var row := SealRow(c, ring, key, DEFAULT_NAME, rand, i + 2).value;
    SealRowHolds(c, ring, key, DEFAULT_NAME, rand, i + 2);
    FirstTableOK(row, last);
    FirstTableLast(row, last);
    RowOpens(c, ring, row, key);
    NeuteredIsPublic(c, coin);
    NeuteredIsPublic(c, key);
  }

  lemma NeuteredIsPublic(c: Crypto, k: ExtKey)
    requires Lawful(c) && c.neuter(k).Some?
    ensures !c.neuter(k).value.isPrivate
  {
    hide HashLaws, BoxLaws, KeyLaws, SignLaws;
  }

  lemma RowOpens(c: Crypto, ring: Ring, row: AcctRow, key: ExtKey)
    requires RowHolds(c, ring, row, key)
    ensures c.neuter(key).Some? && OpenKey(c, ring.pub, row.pubEnc) == c.neuter(key)
  {
    hide OpenKey;
  }

  /** The derivations a new scope needs. */
  predicate Derivable(c: Crypto, root: ExtKey, sc: KeyScope) {
    && DeriveCoinTypeKey(c, root, sc).Ok?
    && var coin := DeriveCoinTypeKey(c, root, sc).value;
    && c.neuter(coin).Some? && DeriveAccountKey(c, coin, DEFAULT_ACCOUNT).Ok?
    && var acct := DeriveAccountKey(c, coin, DEFAULT_ACCOUNT).value;
    c.child(acct, 0).Child? && c.child(acct, 1).Child? && c.neuter(acct).Some?
  }

  predicate FourNonces(rand: Prng, i: nat) {
    Nonce(rand, i).Some? && Nonce(rand, i + 1).Some? && Nonce(rand, i + 2).Some? && Nonce(rand, i + 3).Some?
  }

  /** Creating a scope succeeds exactly when its keys derive and four nonces can be read. */
  lemma CreateScopeExact(c: Crypto, ring: Ring, root: ExtKey, sc: KeyScope, last: Option<uint32>, rand: Prng, i: nat)
    ensures CreateScope(c, ring, root, sc, last, rand, i).Ok? <==> Derivable(c, root, sc) && FourNonces(rand, i)
  {
    hide DeriveCoinTypeKey, DeriveAccountKey, Nonce, FirstTable, Encrypt, Decrypt;
  }

  // ------------------------------------------------------------ a further scope

  /** The root key NewScopedKeyManager derives from; a watching-only manager has none. */
  function ScopeRoot(c: Crypto, watchingOnly: bool, locked: bool, hdPriv: Option<Bytes>,
                     ring: Ring): Outcome<Option<ExtKey>> {
    if watchingOnly then Ok(None)
    else if locked then Err(ErrLocked)
    else if hdPriv == None then Err(ErrWatchingOnly)
    else match OpenKey(c, ring.priv, hdPriv.value)
      case None => Err(ErrCrypto)
      case Some(root) => Ok(Some(root))
  }

  /** The scope NewScopedKeyManager stores: no counter is written, and without a root no keys
      and no accounts either. */
  function FurtherScope(c: Crypto, ring: Ring, root: Option<ExtKey>, sc: KeyScope, rand: Prng): Outcome<ScopeDb> {
    match root
    case None => Ok(ScopeDb(None, None, Table(map[], map[], map[], None)))
    case Some(k) => CreateScope(c, ring, k, sc, None, rand, 0)
  }

  lemma FirstTableLast(row: AcctRow, last: Option<uint32>)
    ensures FirstTable(row, last).last == last
    ensures FirstTable(row, last).ids == map[row.name := 0, IMPORTED_NAME := IMPORTED]
  {
  }

  /** The coin-type key is the child purpose' / coin_type' of the root, and exists exactly for
      coins below 2^31.  The coin is checked, so its offset never wraps; the purpose is not,
      and its offset wraps from 2^31 on. */
  lemma CoinTypeOffsets(c: Crypto, root: ExtKey, sc: KeyScope)
    ensures sc.coin >= 0x8000_0000 ==> DeriveCoinTypeKey(c, root, sc) == Err(ErrCoinTypeTooHigh)
    ensures forall k :: DeriveCoinTypeKey(c, root, sc) == Ok(k) <==>
              && sc.coin < 0x8000_0000
              && var p := c.child(root, if sc.purpose < 0x8000_0000 then sc.purpose + 0x8000_0000
                                        else sc.purpose - 0x8000_0000);
              p.Child? && c.child(p.key, sc.coin + 0x8000_0000) == Child(k)
  {
    hide Add32;
    HardenedWrap(sc.purpose);
    HardenedWrap(sc.coin);
  }

  lemma HardenedWrap(x: uint32)
    ensures Add32(x, HARDENED) == if x < 0x8000_0000 then x + 0x8000_0000 else x - 0x8000_0000
  {
  }
}
